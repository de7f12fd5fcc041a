# imagepull-controller-workshop: reconciliation core in Dafny

This project models the reconciliation logic of a Kubernetes controller. The
controller copies a master image-pull secret from its own ("running")
namespace into every other namespace. It then makes each namespace's
`default` ServiceAccount reference the copy.

The model has these parts:

- **Namespace reconciler** (`NamespaceHandler`, `namespace_handler.dfy`). It
  covers the configuration defaults, `containsLocalObjectRef`, building the
  managed copy, and the ServiceAccount patch. `Handle` is a pure function. It
  takes the handler, the delivered object, the repository state and a fault
  oracle. It returns the error result, the new repository state and a trace
  of repository calls. Each traced call records the error it returned, if any.
- **Secret cache** (`SecretCache`, `secretcache.dfy`). It is a map keyed by
  the string `namespace + "/" + name`. A read miss returns "secret not
  found", and a later write replaces an earlier one (last write wins).
- **Secret-cache updater** (`SecretCacheHandler`, `secretcache_handler.dfy`).
  It filters objects by type and writes each delivered Secret into the cache.
- **Repository** (`Kubernetes`, `kubernetes.dfy`). The API server is an
  abstract sequential store: a table of Secrets, a table of ServiceAccounts,
  both keyed by (namespace, name), and a revision counter that issues
  resourceVersions.
  - A fault oracle decides which gets, creates and updates fail. It sees only
    the call, so two equal calls fail or succeed together.
  - The oracle only injects server or transport failures. NotFound,
    AlreadyExists and Conflict come from the store contents.
  - `EnsureSecret` and `EnsureServiceAccount` share one create-or-overwrite
    function, `Ensure`.
- **Repository implementations** (`Repositories`, `repositories.dfy`). The
  namespace reconciler's repository has two implementations, as in the
  source. `Direct` sends everything to the API server. `Cached` answers
  `GetSecret` from the cache and sends everything else to the API server.
- **Properties across calls and loops** are in `namespace_properties.dfy`
  (two runs, before and after one run) and in `controllers.dfy` (the updater
  feeding the reconciler).

A resourceVersion is a `nat`, and 0 stands for the unset (empty) version.

## Behaviour of the code worth knowing

- **Cache writes store the caller's secret.** The cache stores the caller's
  pointer (`secretcache.go:47`) and copies only on read. Under value
  semantics there is no aliasing, so the model claims nothing about copying.
- **Every run upserts the secret again.** `EnsureSecret` always creates or
  updates (`handle.go:123`). Only the ServiceAccount write is skipped when
  the reference is already there. `NamespaceProperties.Idempotent` states
  exactly this: the second run writes an identical secret and does not
  write the ServiceAccount.
- **The cached repository never falls back on a miss**
  (`Repositories.CachedMissNeverFallsBack`). A direct read of the master
  happens only when the handler is wired with the plain repository
  (`Direct`).

## Model

| member | source | states |
|---|---|---|
| `NamespaceHandler.Defaults` | internal/controller/namespace/handle.go:32-55 | An empty running namespace is rejected first, then a missing repository. An empty secret name becomes "image-pull-credentials". An empty ServiceAccount secret name becomes the (defaulted) secret name. Non-empty names are kept. |
| `NamespaceHandler.DefaultsIdempotent` | internal/controller/namespace/handle.go:32-55 | Defaulting a configuration that is already defaulted changes nothing. |
| `NamespaceHandler.NewHandler` | internal/controller/namespace/handle.go:66-79 | A handler is built exactly when defaulting succeeds, with the defaulted names. Otherwise the configuration error comes back wrapped as "invalid configuration". |
| `NamespaceHandler.ContainsLocalObjectRef` | internal/controller/namespace/handle.go:148-155 | True if and only if some reference in the list has the given name. |
| `NamespaceHandler.CountRefsPositiveIffContains` | internal/controller/namespace/handle.go:148-155 | At least one reference with the name exists exactly when `containsLocalObjectRef` is true. |
| `NamespaceHandler.CountRefsAppend` | internal/controller/namespace/handle.go:139 | Appending a reference adds one to the count of its own name and leaves the counts of other names alone. |
| `NamespaceHandler.TargetSecret` | internal/controller/namespace/handle.go:105-121 | The copy has the configured name, the reconciled namespace, the master's labels, data and type, and an unset resourceVersion. Its annotations are the master's with the managed-by marker set. The marker overrides any master value; every other master annotation is kept and none is added. |
| `NamespaceHandler.AddPullSecret` | internal/controller/namespace/handle.go:139 | Exactly one reference to the name is appended at the end. The existing references keep their order and the metadata is unchanged. |
| `NamespaceHandler.PatchDefaultAccount` | internal/controller/namespace/handle.go:128-143 | The `default` account of the namespace is read first. If it already references the secret, the run succeeds with no write. Otherwise the account read, plus one appended reference, is upserted. A failure stops the run and changes nothing. The run returns the failing call's own error, wrapped with that call's context. Each traced call records the error the repository returned for it. Secrets and the cache are never touched. |
| `NamespaceHandler.Reconcile` | internal/controller/namespace/handle.go:99-145 | The master is read first, from exactly (running namespace, secret name). The second call upserts the managed copy of the secret that was read; the third reads the `default` account. The run stops at the first failing call. A failure returns that call's own error wrapped with that call's context, and leaves every ServiceAccount unchanged. Each traced call records the error the repository returned for it. A failed master read changes nothing. The cache is never written. |
| `NamespaceHandler.Handle` | internal/controller/namespace/handle.go:81-146 | A non-Namespace object, or the running namespace, gives success with no repository call and no change. Any other namespace starts with the master read. No call follows a failed one, so no write does. A failure returns the failing call's own error wrapped with that call's context. The cache is not written, and a failed run leaves ServiceAccounts unchanged. |
| `NamespaceProperties.ManagedCopyUnique` | internal/controller/namespace/handle.go:105-121 | The managed copy of a master is unique up to its resourceVersion. |
| `NamespaceProperties.PropagationCorrect` | internal/controller/namespace/handle.go:99-126 | After a successful run on another namespace, that namespace holds the managed copy of the master that was read. No other secret changed. |
| `NamespaceProperties.PatchOnWellKeyedStore` | internal/controller/namespace/handle.go:128-143 | When the ServiceAccount half succeeds, the `default` account existed and now references the secret. If it already did, it was left alone after a single read. Otherwise exactly one reference was appended, the metadata is kept apart from the resourceVersion, and no other account changed. |
| `NamespaceProperties.DefaultAccountPatched` | internal/controller/namespace/handle.go:128-143 | After a successful run, the `default` account existed before and now references the copy. If it already did, no ServiceAccount was written and the run made three calls. Otherwise the new references are the old ones plus one at the end, the metadata is kept apart from the resourceVersion, and no other account changed. |
| `NamespaceProperties.ReferenceCountAfterRun` | internal/controller/namespace/handle.go:133-143 | After a successful run, the number of references to the copy is at least 1. It is exactly 1 if it was 0 before, and unchanged otherwise. |
| `NamespaceProperties.MasterUnchanged` | internal/controller/namespace/handle.go:99-126 | A run on another namespace, successful or not, never changes the master secret it reads. |
| `NamespaceProperties.FaultFreeRunSucceeds` | internal/controller/namespace/handle.go:99-145 | A run fails only when a repository call does. With no injected faults, a visible master secret and an existing `default` ServiceAccount, a run on another namespace succeeds. |
| `NamespaceProperties.PatchFailureCause` | internal/controller/namespace/handle.go:128-143 | When the ServiceAccount half fails, its failing call reports a server fault. A read may also report NotFound; an upsert never does. |
| `NamespaceProperties.ReconcileFailureCause` | internal/controller/namespace/handle.go:99-145 | The failing call of a run reports a server fault, a NotFound from a read, or (through the cache) "secret not found". An upsert never reports NotFound, AlreadyExists or Conflict. |
| `NamespaceProperties.FailureCause` | internal/controller/namespace/handle.go:81-146 | A failed run returns exactly the failing call's error, wrapped with that call's context, and the error is one of those causes. |
| `NamespaceProperties.Idempotent` | internal/controller/namespace/handle.go:99-145 | If a run after a successful one also succeeds, it upserts the very same secret, makes no ServiceAccount write (three calls, none failed) and leaves the ServiceAccounts identical. The stored copy is identical up to its resourceVersion. |
| `SecretCache.Empty` | internal/storage/kubernetes/secretcache.go:20-25 | A newly built secret-cached repository holds nothing: every read misses with "secret not found". |
| `SecretCache.CacheKey` | internal/storage/kubernetes/secretcache.go:32 | The key is one character longer than namespace and name together, with '/' right after the namespace. |
| `SecretCache.CacheKeyLayout` | internal/storage/kubernetes/secretcache.go:32 | A key is the namespace, then '/', then the name. |
| `SecretCache.CacheKeyInjective` | internal/storage/kubernetes/secretcache.go:32 | Two (namespace, name) pairs whose namespaces contain no '/' share a key only if they are equal. |
| `SecretCache.CacheKeyCollides` | internal/storage/kubernetes/secretcache.go:46 | Without that premise keys collide: ("a/b", "c") and ("a", "b/c") get the same key. |
| `SecretCache.GetSecret` | internal/storage/kubernetes/secretcache.go:28-40 | A read succeeds exactly when the key is stored and returns the stored secret. A miss returns "secret not found". |
| `SecretCache.SetSecretOnCache` | internal/storage/kubernetes/secretcache.go:43-50 | A write always succeeds. It stores the secret under its own (namespace, name) key, adds only that key, and leaves every other entry as it was. |
| `SecretCache.GetAfterSet` | internal/storage/kubernetes/secretcache.go:32-47 | Round trip: reading (s.namespace, s.name) after writing s returns s. |
| `SecretCache.LastWriteWins` | internal/storage/kubernetes/secretcache.go:46-47 | Of two writes to the same (namespace, name), the later one replaces the earlier one and is what a read returns. |
| `SecretCache.SetFrame` | internal/storage/kubernetes/secretcache.go:46-47 | A write leaves the read of every other slash-free (namespace, name) unchanged. |
| `SecretCache.NeverSetMisses` | internal/storage/kubernetes/secretcache.go:32-36 | A key that no write in a sequence touches still returns "secret not found". |
| `SecretCache.ReadSeesLastWrite` | internal/storage/kubernetes/secretcache.go:46-47 | In a sequence of writes, a read returns the last write to its key, whatever writes to other keys follow. |
| `Repositories.GetSecret` | internal/storage/kubernetes/secretcache.go:28-40 | A secret read succeeds only with the visible stored secret. Through the cache it succeeds exactly when the key is cached; a miss is "secret not found" and the API server is not consulted. Directly, an injected API error is returned as it is. Without one, the read succeeds exactly when the secret is stored and otherwise fails with NotFound. |
| `Repositories.CachedMissNeverFallsBack` | internal/storage/kubernetes/secretcache.go:28-40 | A cache miss is an error whatever secret the API server holds under that key. |
| `Repositories.GetServiceAccount` | internal/storage/kubernetes/kubernetes.go:82-85 | A plain store lookup. An injected API error is returned as it is. Without one, it succeeds exactly when the account is stored and returns it, and otherwise fails with NotFound. |
| `Repositories.EnsureSecret` | internal/storage/kubernetes/kubernetes.go:55-80 | The upsert never touches the cache or ServiceAccounts. It fails exactly when the server refuses its get or its write (the create, or the update carrying the stored version), and it returns that error unchanged. On failure nothing changes. On success exactly the one secret entry is replaced by the argument with a new resourceVersion. |
| `Repositories.EnsureServiceAccount` | internal/storage/kubernetes/kubernetes.go:87-111 | The same for ServiceAccounts, including the exact failure condition and the unchanged error. |
| `Kubernetes.Read` | internal/storage/kubernetes/kubernetes.go:57-62 | An injected fault is returned as the error. Otherwise a get succeeds exactly when the object is stored, and a failed get is NotFound. |
| `Kubernetes.CreateObject` | internal/storage/kubernetes/kubernetes.go:64-69 | Create succeeds exactly when no fault is injected and the key is free; it then stores the argument with a fresh version. Without a fault the only refusal is AlreadyExists. A refused create changes nothing. |
| `Kubernetes.UpdateObject` | internal/storage/kubernetes/kubernetes.go:72-79 | Update succeeds exactly when no fault is injected, the object exists, and its resourceVersion is unset or equals the stored one. It is then a full overwrite with a fresh version. A refused update changes nothing. |
| `Kubernetes.Ensure` | internal/storage/kubernetes/kubernetes.go:55-111 | It first gets the argument's key. A get error other than NotFound is returned unchanged with no create or update. An absent key leads to creating exactly the argument. A present key leads to updating the argument with the stored resourceVersion. It fails exactly when the fault oracle fails its last call, returning that error unchanged and leaving the store alone, so the update never conflicts. On success the stored object is the argument up to its resourceVersion and nothing else changed. |
| `Kubernetes.EnsureSecret` | internal/storage/kubernetes/kubernetes.go:55-80 | The upsert reads the secret's own key first. It leaves ServiceAccounts alone, keeps objects stored under their own key, and on success replaces exactly one secret entry with the argument at a new resourceVersion. |
| `Kubernetes.EnsureServiceAccount` | internal/storage/kubernetes/kubernetes.go:87-111 | The same create-or-overwrite discipline and error behaviour for ServiceAccounts. |
| `Kubernetes.GetSecret` | internal/storage/kubernetes/kubernetes.go:40-43 | A plain lookup. A success returns the stored secret. An injected API error is returned as it is. Without one, it succeeds exactly when the key is stored, and fails otherwise with NotFound. |
| `Kubernetes.GetServiceAccount` | internal/storage/kubernetes/kubernetes.go:82-85 | The same for ServiceAccounts. |
| `Kubernetes.EnsureFaultFreeSucceeds` | internal/storage/kubernetes/kubernetes.go:72-79 | Against a server that injects no faults, an upsert always succeeds: copying the stored resourceVersion means the update cannot conflict. |
| `SecretCacheHandler.Handle` | internal/controller/secretcache/handle.go:32-50 | A non-Secret object gives success with the cache unchanged. A failing cache write is returned wrapped as "could not update secret cache". Otherwise the run succeeds and the secret can be read back under its own (namespace, name). |
| `SecretCacheHandler.WiredCacheNeverFails` | internal/storage/kubernetes/secretcache.go:43-50 | With the secret-cached repository the updater always succeeds, and its effect is exactly one cache write. |
| `SecretCacheHandler.HandleFrame` | internal/controller/secretcache/handle.go:42 | An update leaves the read of every other (namespace, name) unchanged. |
| `Controllers.CacheFeedsReconciler` | internal/controller/namespace/handle.go:99-121 | Suppose the updater has cached a master secret and a reconciler wired with the cache then succeeds. The namespace then holds the managed copy of exactly that master. |
| `Controllers.EmptyCacheFailsWithoutWrites` | internal/controller/namespace/handle.go:99-103 | With an empty cache a run makes one failed call (the master read) and returns the wrapped cache miss. It writes nothing and changes nothing. |
| `Controllers.RunningNamespaceUntouched` | internal/controller/namespace/handle.go:89-92 | Reconciling the running namespace gives success with no call and no change. |
| `Controllers.TeamAExample` | internal/controller/namespace/handle.go:81-146 | Master kube-system/image-pull-credentials, namespace team-a, no faults: the run succeeds. team-a gets the secret with the master's data, and its `default` account gets exactly one reference named image-pull-credentials. |

## Left out

- Process wiring (cmd/imagepull-controller-workshop/main.go) is process composition, not reconciliation logic. This covers run groups, signal handling, context cancellation and client construction.
- Flag parsing (cmd/imagepull-controller-workshop/config.go) is an external library plus home-directory lookup.
- The reconciliation engine (list/watch, worker pool, retries, resync) is an external, concurrent library. Each lemma covers one sequential run or one interleaving of the two loops.
- The list/watch retrievers (internal/controller/retrieve.go, internal/controller/secretcache/retrieve.go) and `ListNamespaces`, `WatchNamespaces`, `ListSecrets`, `WatchSecrets` in kubernetes.go are event sourcing only. The one piece of logic in them is the `metadata.name=<secret name>` field selector.
- The readers-writer lock of the cache is not modelled: each cache operation is one atomic step. No concurrent-access property is stated.
- DeepCopy and pointer aliasing have no meaning under value semantics. This covers the defensive copy of the namespace, the copy on cache reads and the pointer stored on cache writes.
- Logging and the logger defaulting in `HandlerConfig.defaults` have no effect on the state.
- The client-go calls are replaced by the abstract store. A Go nil map and an empty map are the same here. Object fields the controller neither reads nor writes are dropped (uid, owner references, other ServiceAccount fields).
- Kubernetes.CreateObject: does not model the API server's refusal of a create that carries a resourceVersion, or of a create into a missing namespace. The reconciler never depends on either.
- Kubernetes.Ensure: the fault oracle cannot inject NotFound, AlreadyExists or Conflict. Those statuses come only from the store, so "fails only on an injected fault" holds for a sequential store and not for concurrent writers.
- SecretCacheHandler.Handle: the cache write is taken to have changed nothing when the repository reports an error. The source's interface does not say; the wired cache never reports one.
- Kubernetes.Ensure: the fault oracle is a function of the call alone, so equal calls in one run fail or succeed together. The reconciler's ServiceAccount read and the get inside the ServiceAccount upsert are the same call. So "the account read succeeds, then the upsert's own get fails" (kubernetes.go:88-92) cannot happen in the model; there only the update can fail. The reconciler's outcome is the same either way: the error is wrapped as "could not ensure default service account".
- Deletion is not modelled because the code has none: nothing is cleaned up when the master secret or a namespace goes away.
- NamespaceProperties.DefaultAccountPatched, NamespaceProperties.PatchOnWellKeyedStore, NamespaceProperties.ReferenceCountAfterRun and NamespaceProperties.Idempotent: these assume the store keeps every object under its own namespace and name (`Kubernetes.WellKeyed`). A real API server guarantees this, and every upsert preserves it.

/** The namespace reconciler of internal/controller/namespace/handle.go.

    For every namespace but the controller's own it copies the master
    image-pull secret (read from the running namespace) into the namespace,
    marks the copy as managed by the controller, and makes sure the
    namespace's `default` service account references the copy.

    `Handle` is a pure function from the handler, the object delivered by the
    engine, the repository state and a fault oracle to the error returned,
    the repository state afterwards and the trace of repository calls made. */
module NamespaceHandler {
  import opened Errors
  import opened Objects
  import Kubernetes
  import opened Repositories

  const DefaultImagePullSecretName := "image-pull-credentials"
  const ManagedByKey := "app.kubernetes.io/managed-by"
  const ManagedByValue := "imagepull-controller-workshop"
  const DefaultServiceAccountName := "default"

  const ErrRunningNamespaceRequired := Message("running namespaces is required")
  const ErrRepositoryRequired := Message("kubernetes repository is required")
  const InvalidConfigurationContext := "invalid configuration"
  const RetrieveSecretContext := "could not retrieve docker registry credentials secret"
  const EnsureSecretContext := "could not ensure docker registry credentials secret on namespace"
  const RetrieveAccountContext := "could not retrieve default service account from namespace"
  const EnsureAccountContext := "could not ensure default service account"

  /** The handler configuration; `k8sRepo` is None where the source passes a nil repository. */
  datatype HandlerConfig = HandlerConfig(
    runningNamespace: string,
    imagePullSecretName: string,
    saImagePullSecretName: string,
    k8sRepo: Option<Repository>)

  /** `HandlerConfig.defaults`: rejects a missing running namespace and a
      missing repository (in that order) and fills in the secret names. */
  function Defaults(c: HandlerConfig): (r: Result<HandlerConfig>)
    ensures c.runningNamespace == "" ==> r == Err(ErrRunningNamespaceRequired)
    ensures c.runningNamespace != "" && c.k8sRepo.None? ==> r == Err(ErrRepositoryRequired)
    ensures r.Ok? <==> c.runningNamespace != "" && c.k8sRepo.Some?
    ensures r.Ok? ==> r.value.runningNamespace == c.runningNamespace && r.value.k8sRepo == c.k8sRepo
    ensures r.Ok? ==> r.value.imagePullSecretName != "" && r.value.saImagePullSecretName != ""
    ensures r.Ok? && c.imagePullSecretName != "" ==> r.value.imagePullSecretName == c.imagePullSecretName
    ensures r.Ok? && c.imagePullSecretName == "" ==> r.value.imagePullSecretName == DefaultImagePullSecretName
    ensures r.Ok? && c.saImagePullSecretName != "" ==> r.value.saImagePullSecretName == c.saImagePullSecretName
    ensures r.Ok? && c.saImagePullSecretName == "" ==> r.value.saImagePullSecretName == r.value.imagePullSecretName
  {
    if c.runningNamespace == "" then Err(ErrRunningNamespaceRequired)
    else
      var secretName := if c.imagePullSecretName == "" then DefaultImagePullSecretName else c.imagePullSecretName;
      var saSecretName := if c.saImagePullSecretName == "" then secretName else c.saImagePullSecretName;
      if c.k8sRepo.None? then Err(ErrRepositoryRequired)
      else Ok(c.(imagePullSecretName := secretName, saImagePullSecretName := saSecretName))
  }

  /** Defaulting a defaulted configuration changes nothing. */
  lemma DefaultsIdempotent(c: HandlerConfig)
    requires Defaults(c).Ok?
    ensures Defaults(Defaults(c).value) == Defaults(c)
  {
  }

  /** The handler: the names it was configured with. */
  datatype Handler = Handler(runningNamespace: string, imagePullSecretName: string, saImagePullSecretName: string)

  /** `NewHandler`: a handler from a valid configuration, or the
      configuration error wrapped as an invalid configuration. */
  function NewHandler(c: HandlerConfig): (r: Result<Handler>)
    ensures r.Ok? <==> Defaults(c).Ok?
    ensures r.Err? ==> r.error == Wrapped(InvalidConfigurationContext, Defaults(c).error)
    ensures r.Ok? ==>
      && r.value.runningNamespace == c.runningNamespace != ""
      && r.value.imagePullSecretName == Defaults(c).value.imagePullSecretName
      && r.value.saImagePullSecretName == Defaults(c).value.saImagePullSecretName
  {
    match Defaults(c)
    case Err(e) => Err(Wrapped(InvalidConfigurationContext, e))
    case Ok(d) => Ok(Handler(d.runningNamespace, d.imagePullSecretName, d.saImagePullSecretName))
  }

  /** `containsLocalObjectRef`: whether some reference has the given name. */
  function ContainsLocalObjectRef(refs: seq<LocalObjectReference>, name: string): (b: bool)
    ensures b <==> exists i :: 0 <= i < |refs| && refs[i].name == name
  {
    if |refs| == 0 then false
    else refs[0].name == name || ContainsLocalObjectRef(refs[1..], name)
  }

  /** How many references carry the given name. */
  function CountRefs(refs: seq<LocalObjectReference>, name: string): nat {
    if |refs| == 0 then 0
    else (if refs[0].name == name then 1 else 0) + CountRefs(refs[1..], name)
  }

  lemma {:induction false} CountRefsPositiveIffContains(refs: seq<LocalObjectReference>, name: string)
    ensures CountRefs(refs, name) > 0 <==> ContainsLocalObjectRef(refs, name)
  {
    if |refs| > 0 {
      CountRefsPositiveIffContains(refs[1..], name);
    }
  }

  /** Appending a reference adds one to the count of its own name and leaves the others. */
  lemma {:induction false} CountRefsAppend(refs: seq<LocalObjectReference>, ref: LocalObjectReference, name: string)
    ensures CountRefs(refs + [ref], name) == CountRefs(refs, name) + (if ref.name == name then 1 else 0)
  {
    if |refs| > 0 {
      assert (refs + [ref])[1..] == refs[1..] + [ref];
      CountRefsAppend(refs[1..], ref, name);
    } else {
      assert [ref][1..] == [];
    }
  }

  /** The per-namespace copy of the master secret: named `secretName` in
      namespace `ns`, with the master's labels, data and type, and the
      master's annotations with the managed-by marker set (overriding any
      master value for that key). The resourceVersion is left unset. */
  function TargetSecret(secretName: string, ns: string, master: Secret): (s: Secret)
    ensures s.meta.name == secretName && s.meta.namespace == ns
    ensures s.meta.labels == master.meta.labels
    ensures s.data == master.data && s.secretType == master.secretType
    ensures s.meta.resourceVersion == 0
    ensures ManagedByKey in s.meta.annotations && s.meta.annotations[ManagedByKey] == ManagedByValue
    ensures forall k :: k != ManagedByKey ==> (k in s.meta.annotations <==> k in master.meta.annotations)
    ensures forall k :: k != ManagedByKey && k in master.meta.annotations ==>
      s.meta.annotations[k] == master.meta.annotations[k]
  {
    Secret(
      ObjectMeta(ns, secretName, master.meta.labels, master.meta.annotations[ManagedByKey := ManagedByValue], 0),
      master.data,
      master.secretType)
  }

  /** The service account with one more image-pull reference, to `name`, at the end. */
  function AddPullSecret(sa: ServiceAccount, name: string): (r: ServiceAccount)
    ensures r.meta == sa.meta
    ensures |r.imagePullSecrets| == |sa.imagePullSecrets| + 1
    ensures r.imagePullSecrets[..|sa.imagePullSecrets|] == sa.imagePullSecrets
    ensures r.imagePullSecrets[|sa.imagePullSecrets|] == LocalObjectReference(name)
  {
    sa.(imagePullSecrets := sa.imagePullSecrets + [LocalObjectReference(name)])
  }

  /** A call the handler makes on its repository. */
  datatype RepoCall =
    | GetSecretCall(namespace: string, name: string)
    | EnsureSecretCall(secret: Secret)
    | GetServiceAccountCall(namespace: string, name: string)
    | EnsureServiceAccountCall(account: ServiceAccount)

  /** The context a failure of each call is wrapped with. */
  function FailureContext(call: RepoCall): string {
    match call
    case GetSecretCall(_, _) => RetrieveSecretContext
    case EnsureSecretCall(_) => EnsureSecretContext
    case GetServiceAccountCall(_, _) => RetrieveAccountContext
    case EnsureServiceAccountCall(_) => EnsureAccountContext
  }

  /** A repository call and the error it returned, if any. */
  datatype Logged = Logged(call: RepoCall, err: Option<Error>)
  {
    predicate Failed() {
      err.Some?
    }
  }

  /** What a reconciliation returns and leaves behind. */
  datatype Reconciled = Reconciled(outcome: Outcome, repo: Repository, calls: seq<Logged>)

  /** The trace of a handler that stops at the first failing call: only the
      last call may have failed, and the run failed exactly when it did. */
  ghost predicate StopsAtFirstFailure(r: Reconciled) {
    && (forall i :: 0 <= i < |r.calls| - 1 ==> !r.calls[i].Failed())
    && (r.outcome.Fail? <==> |r.calls| > 0 && r.calls[|r.calls| - 1].Failed())
  }

  /** A failed run returns the failing call's error wrapped with that call's context. */
  ghost predicate WrapsFailure(r: Reconciled) {
    r.outcome.Fail? ==>
      && |r.calls| > 0 && r.calls[|r.calls| - 1].err.Some?
      && r.outcome.error == Wrapped(FailureContext(r.calls[|r.calls| - 1].call), r.calls[|r.calls| - 1].err.value)
  }

  /** The key of the namespace's default service account. */
  function DefaultAccountKey(ns: string): ObjectKey {
    ObjectKey(ns, DefaultServiceAccountName)
  }

  /** The service-account half of `handler.Handle` (handle.go:128-143): read
      the `default` service account of `ns` and, unless it already references
      `secretName`, append a reference and upsert it. */
  function PatchDefaultAccount(secretName: string, ns: string, repo: Repository, oracle: Kubernetes.FaultOracle): (r: Reconciled)
    ensures 1 <= |r.calls| <= 2 && r.calls[0].call == GetServiceAccountCall(ns, DefaultServiceAccountName)
    ensures StopsAtFirstFailure(r) && WrapsFailure(r)
    ensures r.repo == repo.(api := r.repo.api) && r.repo.api.secrets == repo.api.secrets
    ensures r.outcome.Fail? ==> r.repo == repo
    // each traced call carries the error the repository returned for it
    ensures r.calls[0].err == GetServiceAccount(repo, ns, DefaultServiceAccountName, oracle).Failure()
    ensures |r.calls| == 2 ==>
      && r.calls[1].call.EnsureServiceAccountCall?
      && r.calls[1].err == EnsureServiceAccount(repo, r.calls[1].call.account, oracle).outcome.Failure()
    ensures r.calls[0].Failed() ==> |r.calls| == 1
    ensures !r.calls[0].Failed() ==> DefaultAccountKey(ns) in repo.api.accounts
    // already referenced: nothing is written
    ensures !r.calls[0].Failed() && ContainsLocalObjectRef(repo.api.accounts[DefaultAccountKey(ns)].imagePullSecrets, secretName) ==>
      r == Reconciled(Pass, repo, [Logged(GetServiceAccountCall(ns, DefaultServiceAccountName), None)])
    // otherwise: exactly the read account, with one reference appended, is upserted
    ensures !r.calls[0].Failed() && !ContainsLocalObjectRef(repo.api.accounts[DefaultAccountKey(ns)].imagePullSecrets, secretName) ==>
      && |r.calls| == 2
      && r.calls[1].call == EnsureServiceAccountCall(AddPullSecret(repo.api.accounts[DefaultAccountKey(ns)], secretName))
    ensures r.outcome.Pass? && |r.calls| == 2 ==>
      var patched := AddPullSecret(repo.api.accounts[DefaultAccountKey(ns)], secretName);
      r.repo.api.accounts == repo.api.accounts[patched.Key() := patched.WithVersion(r.repo.api.revision)]
  {
    var getCall := GetServiceAccountCall(ns, DefaultServiceAccountName);
    match GetServiceAccount(repo, ns, DefaultServiceAccountName, oracle)
    case Err(e) =>
      Reconciled(Fail(Wrapped(RetrieveAccountContext, e)), repo, [Logged(getCall, Some(e))])
    case Ok(sa) =>
      if ContainsLocalObjectRef(sa.imagePullSecrets, secretName) then
        Reconciled(Pass, repo, [Logged(getCall, None)])
      else
        var patched := AddPullSecret(sa, secretName);
        var u := EnsureServiceAccount(repo, patched, oracle);
        var calls := [Logged(getCall, None), Logged(EnsureServiceAccountCall(patched), u.outcome.Failure())];
        match u.outcome
        case Fail(e) => Reconciled(Fail(Wrapped(EnsureAccountContext, e)), u.repo, calls)
        case Pass => Reconciled(Pass, u.repo, calls)
  }

  /** A run that continues with `rest` after the calls in `done`, all of which succeeded. */
  function Then(done: seq<Logged>, rest: Reconciled): (r: Reconciled)
    requires forall i :: 0 <= i < |done| ==> !done[i].Failed()
    requires StopsAtFirstFailure(rest) && WrapsFailure(rest) && |rest.calls| >= 1
    ensures StopsAtFirstFailure(r) && WrapsFailure(r)
    ensures r.outcome == rest.outcome && r.repo == rest.repo
    ensures |r.calls| == |done| + |rest.calls|
    ensures forall i :: 0 <= i < |done| ==> r.calls[i] == done[i]
    ensures forall i :: 0 <= i < |rest.calls| ==> r.calls[|done| + i] == rest.calls[i]
  {
    Reconciled(rest.outcome, rest.repo, done + rest.calls)
  }

  /** Everything after the running-namespace check of `handler.Handle`
      (handle.go:99-145), for a namespace other than the running one. */
  function Reconcile(h: Handler, ns: string, repo: Repository, oracle: Kubernetes.FaultOracle): (r: Reconciled)
    ensures 1 <= |r.calls| <= 4
    ensures r.calls[0].call == GetSecretCall(h.runningNamespace, h.imagePullSecretName)
    ensures StopsAtFirstFailure(r) && WrapsFailure(r)
    // the cache is never written, and a failed run leaves every service account as it was
    ensures r.repo == repo.(api := r.repo.api)
    ensures r.outcome.Fail? ==> r.repo.api.accounts == repo.api.accounts
    // a master secret that cannot be read stops the run before any write
    // each traced call carries the error the repository returned for it
    ensures r.calls[0].err == GetSecret(repo, h.runningNamespace, h.imagePullSecretName, oracle).Failure()
    ensures |r.calls| >= 2 ==>
      && r.calls[1].call.EnsureSecretCall?
      && r.calls[1].err == EnsureSecret(repo, r.calls[1].call.secret, oracle).outcome.Failure()
    ensures |r.calls| >= 3 ==>
      && r.calls[1].call.EnsureSecretCall?
      && r.calls[2..] == PatchDefaultAccount(h.saImagePullSecretName, ns,
                                          EnsureSecret(repo, r.calls[1].call.secret, oracle).repo, oracle).calls
    ensures r.calls[0].Failed() ==> |r.calls| == 1 && r.repo == repo
    ensures !r.calls[0].Failed() ==> VisibleSecret(repo, h.runningNamespace, h.imagePullSecretName).Some?
    // the second call upserts the copy of the master that was read
    ensures |r.calls| >= 2 ==>
      && VisibleSecret(repo, h.runningNamespace, h.imagePullSecretName).Some?
      && r.calls[1].call == EnsureSecretCall(TargetSecret(h.saImagePullSecretName, ns,
           VisibleSecret(repo, h.runningNamespace, h.imagePullSecretName).value))
    ensures |r.calls| >= 3 ==> r.calls[2].call == GetServiceAccountCall(ns, DefaultServiceAccountName)
    ensures |r.calls| == 4 ==> r.calls[3].call.EnsureServiceAccountCall?
    ensures r.outcome.Pass? ==> |r.calls| >= 3
  {
    var getCall := GetSecretCall(h.runningNamespace, h.imagePullSecretName);
    match GetSecret(repo, h.runningNamespace, h.imagePullSecretName, oracle)
    case Err(e) =>
      Reconciled(Fail(Wrapped(RetrieveSecretContext, e)), repo, [Logged(getCall, Some(e))])
    case Ok(master) =>
      var secret := TargetSecret(h.saImagePullSecretName, ns, master);
      var u := EnsureSecret(repo, secret, oracle);
      match u.outcome
      case Fail(e) =>
        Reconciled(Fail(Wrapped(EnsureSecretContext, e)), u.repo,
          [Logged(getCall, None), Logged(EnsureSecretCall(secret), Some(e))])
      case Pass =>
        var p := PatchDefaultAccount(h.saImagePullSecretName, ns, u.repo, oracle);
        Then([Logged(getCall, None), Logged(EnsureSecretCall(secret), None)], p)
  }

  /** `handler.Handle`: ignore anything that is not a namespace, skip the
      running namespace, reconcile every other one. */
  function Handle(h: Handler, obj: RuntimeObject, repo: Repository, oracle: Kubernetes.FaultOracle): (r: Reconciled)
    // not a namespace: success, no repository call
    ensures !obj.NamespaceObject? ==> r == Reconciled(Pass, repo, [])
    // the running namespace: success, no repository call
    ensures obj.NamespaceObject? && obj.ns.name == h.runningNamespace ==> r == Reconciled(Pass, repo, [])
    // any other namespace: the master secret is read first, from exactly (running namespace, secret name)
    ensures obj.NamespaceObject? && obj.ns.name != h.runningNamespace ==>
      |r.calls| >= 1 && r.calls[0].call == GetSecretCall(h.runningNamespace, h.imagePullSecretName)
    // abort on the first error: no call, so no write, after a failed one
    ensures StopsAtFirstFailure(r) && WrapsFailure(r)
    ensures r.repo == repo.(api := r.repo.api)
    ensures r.outcome.Fail? ==> r.repo.api.accounts == repo.api.accounts
  {
    match obj
    case NamespaceObject(ns) =>
      if ns.name == h.runningNamespace then Reconciled(Pass, repo, [])
      else Reconcile(h, ns.name, repo, oracle)
    case _ => Reconciled(Pass, repo, [])
  }
}

/** Properties of the namespace reconciler that relate its result to the
    repository state before and after a run, or relate two runs. */
module NamespaceProperties {
  import opened Errors
  import opened Objects
  import Kubernetes
  import opened Repositories
  import opened NamespaceHandler
  import SecretCache

  /** `s` is the managed copy of `master` for namespace `ns`: named
      `secretName` there, with the master's labels, data and type, and the
      master's annotations plus the managed-by marker. */
  ghost predicate IsManagedCopy(s: Secret, master: Secret, secretName: string, ns: string) {
    && s.meta.namespace == ns && s.meta.name == secretName
    && s.meta.labels == master.meta.labels
    && s.data == master.data && s.secretType == master.secretType
    && ManagedByKey in s.meta.annotations && s.meta.annotations[ManagedByKey] == ManagedByValue
    && (forall k :: k != ManagedByKey ==> (k in s.meta.annotations <==> k in master.meta.annotations))
    && (forall k :: k != ManagedByKey && k in master.meta.annotations ==>
          s.meta.annotations[k] == master.meta.annotations[k])
  }

  /** A managed copy is determined by its master up to its resourceVersion. */
  lemma ManagedCopyUnique(a: Secret, b: Secret, master: Secret, secretName: string, ns: string)
    requires IsManagedCopy(a, master, secretName, ns) && IsManagedCopy(b, master, secretName, ns)
    ensures a.WithVersion(0) == b.WithVersion(0)
  {
    assert a.meta.annotations == b.meta.annotations;
  }

  /** The unfolded steps of a successful reconciliation of `ns`. */
  lemma ReconcileUnfolds(h: Handler, ns: string, repo: Repository, oracle: Kubernetes.FaultOracle)
      returns (master: Secret, afterSecret: Repository)
    requires Reconcile(h, ns, repo, oracle).outcome.Pass?
    ensures VisibleSecret(repo, h.runningNamespace, h.imagePullSecretName) == Some(master)
    ensures GetSecret(repo, h.runningNamespace, h.imagePullSecretName, oracle) == Ok(master)
    ensures EnsureSecret(repo, TargetSecret(h.saImagePullSecretName, ns, master), oracle) == Upserted(Pass, afterSecret)
    ensures var p := PatchDefaultAccount(h.saImagePullSecretName, ns, afterSecret, oracle);
      p.outcome.Pass? && Reconcile(h, ns, repo, oracle).repo == p.repo
  {
    master := GetSecret(repo, h.runningNamespace, h.imagePullSecretName, oracle).value;
    afterSecret := EnsureSecret(repo, TargetSecret(h.saImagePullSecretName, ns, master), oracle).repo;
  }

  /** Propagation: after a successful run on a namespace other than the
      running one, the namespace holds the managed copy of the master secret
      that was read, and no other secret changed. */
  lemma PropagationCorrect(h: Handler, ns: Namespace, repo: Repository, oracle: Kubernetes.FaultOracle)
    requires ns.name != h.runningNamespace
    requires Handle(h, NamespaceObject(ns), repo, oracle).outcome.Pass?
    ensures VisibleSecret(repo, h.runningNamespace, h.imagePullSecretName).Some?
    ensures var r := Handle(h, NamespaceObject(ns), repo, oracle);
      var key := ObjectKey(ns.name, h.saImagePullSecretName);
      && key in r.repo.api.secrets
      && IsManagedCopy(r.repo.api.secrets[key],
                       VisibleSecret(repo, h.runningNamespace, h.imagePullSecretName).value,
                       h.saImagePullSecretName, ns.name)
      && r.repo.api.secrets == repo.api.secrets[key := r.repo.api.secrets[key]]
  {
    var master, afterSecret := ReconcileUnfolds(h, ns.name, repo, oracle);
    var target := TargetSecret(h.saImagePullSecretName, ns.name, master);
    var r := Handle(h, NamespaceObject(ns), repo, oracle);
    assert r.repo.api.secrets == afterSecret.api.secrets;
    assert target.Key() == ObjectKey(ns.name, h.saImagePullSecretName);
  }

  /** The service-account half on a store that keeps every object under its
      own key: when it succeeds the `default` account existed, references
      `secretName` afterwards, and was either left alone or had exactly one
      reference appended. */
  lemma PatchOnWellKeyedStore(secretName: string, ns: string, repo: Repository, oracle: Kubernetes.FaultOracle)
    requires Kubernetes.WellKeyed(repo.api)
    ensures var p := PatchDefaultAccount(secretName, ns, repo, oracle);
      var key := DefaultAccountKey(ns);
      p.outcome.Pass? ==>
      && key in repo.api.accounts && key in p.repo.api.accounts
      && Kubernetes.WellKeyed(p.repo.api)
      && ContainsLocalObjectRef(p.repo.api.accounts[key].imagePullSecrets, secretName)
      && (ContainsLocalObjectRef(repo.api.accounts[key].imagePullSecrets, secretName) ==>
            p.repo.api.accounts == repo.api.accounts && |p.calls| == 1)
      && (!ContainsLocalObjectRef(repo.api.accounts[key].imagePullSecrets, secretName) ==>
            && p.repo.api.accounts[key].imagePullSecrets ==
                 repo.api.accounts[key].imagePullSecrets + [LocalObjectReference(secretName)]
            && p.repo.api.accounts[key].meta == repo.api.accounts[key].meta.(resourceVersion := p.repo.api.accounts[key].meta.resourceVersion)
            && p.repo.api.accounts == repo.api.accounts[key := p.repo.api.accounts[key]])
  {
    var p := PatchDefaultAccount(secretName, ns, repo, oracle);
    var key := DefaultAccountKey(ns);
    if p.outcome.Pass? {
      var sa := repo.api.accounts[key];
      assert sa.Key() == key;
      if !ContainsLocalObjectRef(sa.imagePullSecrets, secretName) {
        var patched := AddPullSecret(sa, secretName);
        assert patched.Key() == key;
        assert patched.imagePullSecrets[|sa.imagePullSecrets|].name == secretName;
      }
    }
  }

  /** The default service account after a successful run on a namespace
      other than the running one: it existed before, it references the copy
      afterwards, it was not written if it already did, and otherwise exactly
      one reference was appended at the end with everything else kept. */
  lemma DefaultAccountPatched(h: Handler, ns: Namespace, repo: Repository, oracle: Kubernetes.FaultOracle)
    requires Kubernetes.WellKeyed(repo.api)
    requires ns.name != h.runningNamespace
    ensures var r := Handle(h, NamespaceObject(ns), repo, oracle);
      var key := DefaultAccountKey(ns.name);
      r.outcome.Pass? ==>
      && key in repo.api.accounts && key in r.repo.api.accounts
      && Kubernetes.WellKeyed(r.repo.api)
      && ContainsLocalObjectRef(r.repo.api.accounts[key].imagePullSecrets, h.saImagePullSecretName)
      && (ContainsLocalObjectRef(repo.api.accounts[key].imagePullSecrets, h.saImagePullSecretName) ==>
            r.repo.api.accounts == repo.api.accounts && |r.calls| == 3)
      && (!ContainsLocalObjectRef(repo.api.accounts[key].imagePullSecrets, h.saImagePullSecretName) ==>
            && r.repo.api.accounts[key].imagePullSecrets ==
                 repo.api.accounts[key].imagePullSecrets + [LocalObjectReference(h.saImagePullSecretName)]
            && r.repo.api.accounts[key].meta == repo.api.accounts[key].meta.(resourceVersion := r.repo.api.accounts[key].meta.resourceVersion)
            && r.repo.api.accounts == repo.api.accounts[key := r.repo.api.accounts[key]])
  {
    var r := Reconcile(h, ns.name, repo, oracle);
    if r.outcome.Pass? {
      var master, afterSecret := ReconcileUnfolds(h, ns.name, repo, oracle);
      assert afterSecret.api.accounts == repo.api.accounts;
      PatchOnWellKeyedStore(h.saImagePullSecretName, ns.name, afterSecret, oracle);
    }
  }

  /** Exactly one reference: the count of references to the copy is at least
      one after a successful run, and exactly one when there was none before. */
  lemma ReferenceCountAfterRun(h: Handler, ns: Namespace, repo: Repository, oracle: Kubernetes.FaultOracle)
    requires Kubernetes.WellKeyed(repo.api)
    requires ns.name != h.runningNamespace
    ensures var r := Handle(h, NamespaceObject(ns), repo, oracle);
      var key := DefaultAccountKey(ns.name);
      r.outcome.Pass? ==>
      && key in repo.api.accounts && key in r.repo.api.accounts
      && var before := CountRefs(repo.api.accounts[key].imagePullSecrets, h.saImagePullSecretName);
         var after := CountRefs(r.repo.api.accounts[key].imagePullSecrets, h.saImagePullSecretName);
         after >= 1 && (before == 0 ==> after == 1) && (before > 0 ==> after == before)
  {
    var r := Handle(h, NamespaceObject(ns), repo, oracle);
    if !r.outcome.Pass? { return; }
    DefaultAccountPatched(h, ns, repo, oracle);
    var key := DefaultAccountKey(ns.name);
    var before := repo.api.accounts[key].imagePullSecrets;
    CountRefsPositiveIffContains(before, h.saImagePullSecretName);
    CountRefsPositiveIffContains(r.repo.api.accounts[key].imagePullSecrets, h.saImagePullSecretName);
    if !ContainsLocalObjectRef(before, h.saImagePullSecretName) {
      CountRefsAppend(before, LocalObjectReference(h.saImagePullSecretName), h.saImagePullSecretName);
    }
  }

  /** The master secret is read from the running namespace, which a run on
      another namespace never writes, so a run does not change it. */
  lemma MasterUnchanged(h: Handler, ns: Namespace, repo: Repository, oracle: Kubernetes.FaultOracle)
    requires ns.name != h.runningNamespace
    ensures var r := Handle(h, NamespaceObject(ns), repo, oracle);
      VisibleSecret(r.repo, h.runningNamespace, h.imagePullSecretName)
        == VisibleSecret(repo, h.runningNamespace, h.imagePullSecretName)
  {
    var r := Handle(h, NamespaceObject(ns), repo, oracle);
    if r.outcome.Pass? {
      PropagationCorrect(h, ns, repo, oracle);
    } else if !r.calls[0].Failed() {
      var master := GetSecret(repo, h.runningNamespace, h.imagePullSecretName, oracle).value;
      var u := EnsureSecret(repo, TargetSecret(h.saImagePullSecretName, ns.name, master), oracle);
      assert r.repo.api.secrets == u.repo.api.secrets;
    }
  }

  /** A run fails only when a repository call does: against a server that
      injects no faults, with the master secret visible and the namespace's
      `default` service account present, a run on another namespace succeeds. */
  lemma FaultFreeRunSucceeds(h: Handler, ns: Namespace, repo: Repository)
    requires ns.name != h.runningNamespace
    requires VisibleSecret(repo, h.runningNamespace, h.imagePullSecretName).Some?
    requires DefaultAccountKey(ns.name) in repo.api.accounts
    ensures Handle(h, NamespaceObject(ns), repo, Kubernetes.NoFaults()).outcome.Pass?
  {
    var oracle := Kubernetes.NoFaults();
    var r := Handle(h, NamespaceObject(ns), repo, oracle);
    assert !r.calls[0].Failed();
    var master := VisibleSecret(repo, h.runningNamespace, h.imagePullSecretName).value;
    var u := EnsureSecret(repo, TargetSecret(h.saImagePullSecretName, ns.name, master), oracle);
    assert u.outcome.Pass?;
    var p := PatchDefaultAccount(h.saImagePullSecretName, ns.name, u.repo, oracle);
    assert !p.calls[0].Failed();
    assert p.outcome.Pass?;
  }

  /** The errors a failing repository call can report: a fault of the
      server, a read of an object that is not there, or a cache miss. An
      upsert never reports NotFound, AlreadyExists or Conflict. */
  ghost predicate PlausibleFailure(repo: Repository, l: Logged) {
    && l.err.Some?
    && match l.call
       case GetSecretCall(_, _) =>
         if repo.Cached? then l.err.value == SecretCache.ErrSecretNotFound
         else l.err.value.ServerFailure? || l.err.value == NotFound
       case GetServiceAccountCall(_, _) => l.err.value.ServerFailure? || l.err.value == NotFound
       case EnsureSecretCall(_) => l.err.value.ServerFailure?
       case EnsureServiceAccountCall(_) => l.err.value.ServerFailure?
  }

  /** The failing call of the service-account half reports a plausible error. */
  lemma PatchFailureCause(secretName: string, ns: string, repo: Repository, oracle: Kubernetes.FaultOracle)
    requires PatchDefaultAccount(secretName, ns, repo, oracle).outcome.Fail?
    ensures var p := PatchDefaultAccount(secretName, ns, repo, oracle);
      PlausibleFailure(repo, p.calls[|p.calls| - 1])
  {
    var p := PatchDefaultAccount(secretName, ns, repo, oracle);
    if |p.calls| == 2 {
      assert p.calls[1].err == EnsureServiceAccount(repo, p.calls[1].call.account, oracle).outcome.Failure();
    }
  }

  /** The failing call of a reconciliation reports a plausible error. */
  lemma ReconcileFailureCause(h: Handler, ns: string, repo: Repository, oracle: Kubernetes.FaultOracle)
    requires Reconcile(h, ns, repo, oracle).outcome.Fail?
    ensures var r := Reconcile(h, ns, repo, oracle);
      PlausibleFailure(repo, r.calls[|r.calls| - 1])
  {
    var r := Reconcile(h, ns, repo, oracle);
    var n := |r.calls|;
    if n == 1 {
      var g := GetSecret(repo, h.runningNamespace, h.imagePullSecretName, oracle);
      assert r.calls[0] == Logged(GetSecretCall(h.runningNamespace, h.imagePullSecretName), g.Failure());
    } else if n == 2 {
      var u := EnsureSecret(repo, r.calls[1].call.secret, oracle);
      assert r.calls[1] == Logged(EnsureSecretCall(r.calls[1].call.secret), u.outcome.Failure());
    } else {
      var u := EnsureSecret(repo, r.calls[1].call.secret, oracle);
      var p := PatchDefaultAccount(h.saImagePullSecretName, ns, u.repo, oracle);
      assert r.calls[2..] == p.calls;
      assert r.calls[n - 1] == p.calls[|p.calls| - 1];
      assert p.outcome.Fail?;
      PatchFailureCause(h.saImagePullSecretName, ns, u.repo, oracle);
      assert u.repo == repo.(api := u.repo.api);
    }
  }

  /** A failed run returns the error of its failing call, wrapped, and that
      error is a fault of the server, a read of an object that is not there,
      or a cache miss. */
  lemma FailureCause(h: Handler, ns: Namespace, repo: Repository, oracle: Kubernetes.FaultOracle)
    requires Handle(h, NamespaceObject(ns), repo, oracle).outcome.Fail?
    ensures var r := Handle(h, NamespaceObject(ns), repo, oracle);
      && PlausibleFailure(repo, r.calls[|r.calls| - 1])
      && r.outcome.error == Wrapped(FailureContext(r.calls[|r.calls| - 1].call), r.calls[|r.calls| - 1].err.value)
  {
    ReconcileFailureCause(h, ns.name, repo, oracle);
  }

  /** Idempotence: a second successful run with the master unchanged upserts
      the very secret the first run did, leaves the default service account
      alone, and ends with the same secrets up to resourceVersions. */
  lemma Idempotent(h: Handler, ns: Namespace, repo: Repository, first: Kubernetes.FaultOracle, second: Kubernetes.FaultOracle)
    requires Kubernetes.WellKeyed(repo.api)
    requires ns.name != h.runningNamespace
    ensures var r1 := Handle(h, NamespaceObject(ns), repo, first);
      var r2 := Handle(h, NamespaceObject(ns), r1.repo, second);
      var key := ObjectKey(ns.name, h.saImagePullSecretName);
      r1.outcome.Pass? && r2.outcome.Pass? ==>
      && r2.calls[1] == r1.calls[1]
      && |r2.calls| == 3 && !r2.calls[2].Failed()
      && r2.repo.api.accounts == r1.repo.api.accounts
      && key in r1.repo.api.secrets && key in r2.repo.api.secrets
      && r2.repo.api.secrets[key].WithVersion(0) == r1.repo.api.secrets[key].WithVersion(0)
  {
    var r1 := Handle(h, NamespaceObject(ns), repo, first);
    var key := ObjectKey(ns.name, h.saImagePullSecretName);
    var r2 := Handle(h, NamespaceObject(ns), r1.repo, second);
    if !r1.outcome.Pass? || !r2.outcome.Pass? { return; }
    MasterUnchanged(h, ns, repo, first);
    DefaultAccountPatched(h, ns, repo, first);
    DefaultAccountPatched(h, ns, r1.repo, second);
    PropagationCorrect(h, ns, repo, first);
    PropagationCorrect(h, ns, r1.repo, second);
    var master := VisibleSecret(repo, h.runningNamespace, h.imagePullSecretName).value;
    ManagedCopyUnique(r1.repo.api.secrets[key], r2.repo.api.secrets[key], master, h.saImagePullSecretName, ns.name);
  }
}

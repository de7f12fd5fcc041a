/** The two reconciliation loops together: the secret-cache updater feeds
    the cache that the namespace reconciler, wired with the secret-cached
    repository, reads the master secret from. Each lemma is one sequential
    interleaving of the two loops. */
module Controllers {
  import opened Errors
  import opened Objects
  import Kubernetes
  import SecretCache
  import SecretCacheHandler
  import opened Repositories
  import opened NamespaceHandler
  import opened NamespaceProperties

  /** Once the updater has cached the master secret, a successful namespace
      run leaves in the namespace the managed copy of exactly that secret. */
  lemma CacheFeedsReconciler(
    h: Handler, master: Secret, ns: Namespace,
    cache: SecretCache.Cache, api: Kubernetes.ApiServer, oracle: Kubernetes.FaultOracle)
    requires master.meta.namespace == h.runningNamespace && master.meta.name == h.imagePullSecretName
    requires ns.name != h.runningNamespace
    requires var cached := SecretCacheHandler.Handle(cache, SecretObject(master), None).cache;
      NamespaceHandler.Handle(h, NamespaceObject(ns), Cached(cached, api), oracle).outcome.Pass?
    ensures var cached := SecretCacheHandler.Handle(cache, SecretObject(master), None).cache;
      var r := NamespaceHandler.Handle(h, NamespaceObject(ns), Cached(cached, api), oracle);
      var key := ObjectKey(ns.name, h.saImagePullSecretName);
      key in r.repo.api.secrets && IsManagedCopy(r.repo.api.secrets[key], master, h.saImagePullSecretName, ns.name)
  {
    var cached := SecretCacheHandler.Handle(cache, SecretObject(master), None).cache;
    assert VisibleSecret(Cached(cached, api), h.runningNamespace, h.imagePullSecretName) == Some(master);
    PropagationCorrect(h, ns, Cached(cached, api), oracle);
  }

  /** Before the updater has seen the master secret the namespace run fails
      with the cache miss, after one call and no write, and changes nothing. */
  lemma EmptyCacheFailsWithoutWrites(h: Handler, ns: Namespace, api: Kubernetes.ApiServer, oracle: Kubernetes.FaultOracle)
    requires ns.name != h.runningNamespace
    ensures var r := NamespaceHandler.Handle(h, NamespaceObject(ns), Cached(SecretCache.Empty(), api), oracle);
      && r.outcome == Fail(Wrapped(RetrieveSecretContext, SecretCache.ErrSecretNotFound))
      && r.calls == [Logged(GetSecretCall(h.runningNamespace, h.imagePullSecretName), Some(SecretCache.ErrSecretNotFound))]
      && r.repo == Cached(SecretCache.Empty(), api)
  {
  }

  /** The namespace the controller runs in is never reconciled, whatever the
      repository holds: success, no call. */
  lemma RunningNamespaceUntouched(h: Handler, ns: Namespace, repo: Repository, oracle: Kubernetes.FaultOracle)
    requires ns.name == h.runningNamespace
    ensures NamespaceHandler.Handle(h, NamespaceObject(ns), repo, oracle) == Reconciled(Pass, repo, [])
  {
  }

  /** A worked example: master secret kube-system/image-pull-credentials with
      one docker config entry, namespace team-a whose default service account
      has no pull secrets, a server without faults. */
  lemma TeamAExample()
    ensures var data := map[".dockerconfigjson" := [97 as byte, 98, 99, 49, 50, 51]];
      var master := Secret(ObjectMeta("kube-system", "image-pull-credentials", map[], map[], 1), data,
                           "kubernetes.io/dockerconfigjson");
      var sa := ServiceAccount(ObjectMeta("team-a", "default", map[], map[], 2), []);
      var api := Kubernetes.ApiServer(map[], map[ObjectKey("team-a", "default") := sa], 2);
      var cached := SecretCacheHandler.Handle(SecretCache.Empty(), SecretObject(master), None).cache;
      var h := Handler("kube-system", "image-pull-credentials", "image-pull-credentials");
      var r := NamespaceHandler.Handle(h, NamespaceObject(Namespace("team-a", map[])), Cached(cached, api), Kubernetes.NoFaults());
      && r.outcome.Pass?
      && ObjectKey("team-a", "image-pull-credentials") in r.repo.api.secrets
      && r.repo.api.secrets[ObjectKey("team-a", "image-pull-credentials")].data == data
      && ObjectKey("team-a", "default") in r.repo.api.accounts
      && r.repo.api.accounts[ObjectKey("team-a", "default")].imagePullSecrets
           == [LocalObjectReference("image-pull-credentials")]
  {
    var data := map[".dockerconfigjson" := [97 as byte, 98, 99, 49, 50, 51]];
    var master := Secret(ObjectMeta("kube-system", "image-pull-credentials", map[], map[], 1), data,
                         "kubernetes.io/dockerconfigjson");
    var sa := ServiceAccount(ObjectMeta("team-a", "default", map[], map[], 2), []);
    var api := Kubernetes.ApiServer(map[], map[ObjectKey("team-a", "default") := sa], 2);
    var cached := SecretCacheHandler.Handle(SecretCache.Empty(), SecretObject(master), None).cache;
    var h := Handler("kube-system", "image-pull-credentials", "image-pull-credentials");
    var repo := Cached(cached, api);
    var ns := Namespace("team-a", map[]);
    assert GetSecret(repo, "kube-system", "image-pull-credentials", Kubernetes.NoFaults()) == Ok(master);
    var target := TargetSecret("image-pull-credentials", "team-a", master);
    var u := EnsureSecret(repo, target, Kubernetes.NoFaults());
    Kubernetes.EnsureFaultFreeSucceeds(api, Kubernetes.SecretResource(target));
    assert u.outcome.Pass?;
    assert u.repo.api.accounts == api.accounts;
    Kubernetes.EnsureFaultFreeSucceeds(u.repo.api, Kubernetes.AccountResource(AddPullSecret(sa, "image-pull-credentials")));
    var r := NamespaceHandler.Handle(h, NamespaceObject(ns), repo, Kubernetes.NoFaults());
    assert r.outcome.Pass?;
    DefaultAccountPatched(h, ns, repo, Kubernetes.NoFaults());
    PropagationCorrect(h, ns, repo, Kubernetes.NoFaults());
  }
}

/** The repository the namespace reconciler is given (its `HandlerRepository`
    capability: get and upsert secrets and service accounts), with both
    implementations the source has:
    - `Direct`: the plain Kubernetes repository, every call goes to the API server;
    - `Cached`: the secret-cached repository, which answers `GetSecret` from
      the in-process cache and forwards every other call to the API server. */
module Repositories {
  import opened Errors
  import opened Objects
  import Kubernetes
  import SecretCache

  datatype Repository =
    | Direct(api: Kubernetes.ApiServer)
    | Cached(cache: SecretCache.Cache, api: Kubernetes.ApiServer)

  /** What a fault-free `GetSecret` would return: the stored secret, if any. */
  function VisibleSecret(repo: Repository, ns: string, name: string): Option<Secret> {
    match repo
    case Direct(api) =>
      if ObjectKey(ns, name) in api.secrets then Some(api.secrets[ObjectKey(ns, name)]) else None
    case Cached(cache, _) =>
      if SecretCache.CacheKey(ns, name) in cache.secrets then Some(cache.secrets[SecretCache.CacheKey(ns, name)]) else None
  }

  /** The repository's `GetSecret`. Through the cache a miss is an error
      whatever the API server holds, and no API call is made. */
  function GetSecret(repo: Repository, ns: string, name: string, oracle: Kubernetes.FaultOracle): (r: Result<Secret>)
    ensures r.Ok? ==> VisibleSecret(repo, ns, name) == Some(r.value)
    ensures repo.Cached? ==> (r.Ok? <==> VisibleSecret(repo, ns, name).Some?)
    ensures repo.Cached? && r.Err? ==> r.error == SecretCache.ErrSecretNotFound
    ensures repo.Direct? && oracle(Kubernetes.Get(Kubernetes.SecretKind, ObjectKey(ns, name))).None? ==>
      (r.Ok? <==> VisibleSecret(repo, ns, name).Some?) && (r.Err? ==> r.error == NotFound)
    // directly, an API error is returned as it is
    ensures repo.Direct? && oracle(Kubernetes.Get(Kubernetes.SecretKind, ObjectKey(ns, name))).Some? ==>
      r == Err(Kubernetes.Injected(oracle(Kubernetes.Get(Kubernetes.SecretKind, ObjectKey(ns, name)))))
  {
    match repo
    case Direct(api) => Kubernetes.GetSecret(api, ns, name, oracle)
    case Cached(cache, _) => SecretCache.GetSecret(cache, ns, name)
  }

  /** The repository's `GetServiceAccount`: always an API server get. */
  function GetServiceAccount(repo: Repository, ns: string, name: string, oracle: Kubernetes.FaultOracle): (r: Result<ServiceAccount>)
    ensures r.Ok? ==> ObjectKey(ns, name) in repo.api.accounts && repo.api.accounts[ObjectKey(ns, name)] == r.value
    ensures oracle(Kubernetes.Get(Kubernetes.ServiceAccountKind, ObjectKey(ns, name))).None? ==>
      (r.Ok? <==> ObjectKey(ns, name) in repo.api.accounts) && (r.Err? ==> r.error == NotFound)
    ensures oracle(Kubernetes.Get(Kubernetes.ServiceAccountKind, ObjectKey(ns, name))).Some? ==>
      r == Err(Kubernetes.Injected(oracle(Kubernetes.Get(Kubernetes.ServiceAccountKind, ObjectKey(ns, name)))))
  {
    Kubernetes.GetServiceAccount(repo.api, ns, name, oracle)
  }

  /** The result of an upsert through the repository. */
  datatype Upserted = Upserted(outcome: Outcome, repo: Repository)

  /** The repository's `EnsureSecret`: an API server upsert; the cache is
      neither read nor written. */
  function EnsureSecret(repo: Repository, secret: Secret, oracle: Kubernetes.FaultOracle): (r: Upserted)
    ensures r.repo == repo.(api := r.repo.api)
    ensures r.repo.api.accounts == repo.api.accounts
    ensures r.outcome.Fail? ==> r.repo == repo
    ensures r.outcome.Pass? ==>
      r.repo.api.secrets == repo.api.secrets[secret.Key() := secret.WithVersion(r.repo.api.revision)]
    // it fails exactly when its get or its write is refused by the server,
    // and returns that call's error unchanged
    ensures var get := Kubernetes.Get(Kubernetes.SecretKind, secret.Key());
      && (oracle(get).Some? ==> r.outcome == Fail(Kubernetes.Injected(oracle(get))))
      && (oracle(get).None? ==> var write := Kubernetes.UpsertWrite(repo.api, Kubernetes.SecretResource(secret));
            && (r.outcome.Fail? <==> oracle(write).Some?)
            && (r.outcome.Fail? ==> r.outcome == Fail(Kubernetes.Injected(oracle(write)))))
    ensures Kubernetes.WellKeyed(repo.api) ==> Kubernetes.WellKeyed(r.repo.api)
  {
    var e := Kubernetes.EnsureSecret(repo.api, secret, oracle);
    Upserted(e.outcome, repo.(api := e.api))
  }

  /** The repository's `EnsureServiceAccount`: an API server upsert. */
  function EnsureServiceAccount(repo: Repository, account: ServiceAccount, oracle: Kubernetes.FaultOracle): (r: Upserted)
    ensures r.repo == repo.(api := r.repo.api)
    ensures r.repo.api.secrets == repo.api.secrets
    ensures r.outcome.Fail? ==> r.repo == repo
    ensures r.outcome.Pass? ==>
      r.repo.api.accounts == repo.api.accounts[account.Key() := account.WithVersion(r.repo.api.revision)]
    ensures var get := Kubernetes.Get(Kubernetes.ServiceAccountKind, account.Key());
      && (oracle(get).Some? ==> r.outcome == Fail(Kubernetes.Injected(oracle(get))))
      && (oracle(get).None? ==> var write := Kubernetes.UpsertWrite(repo.api, Kubernetes.AccountResource(account));
            && (r.outcome.Fail? <==> oracle(write).Some?)
            && (r.outcome.Fail? ==> r.outcome == Fail(Kubernetes.Injected(oracle(write)))))
    ensures Kubernetes.WellKeyed(repo.api) ==> Kubernetes.WellKeyed(r.repo.api)
  {
    var e := Kubernetes.EnsureServiceAccount(repo.api, account, oracle);
    Upserted(e.outcome, repo.(api := e.api))
  }

  /** A cache miss is never answered from the API server: whatever secret the
      server stores under the key, a read through the cache still fails. */
  lemma CachedMissNeverFallsBack(cache: SecretCache.Cache, api: Kubernetes.ApiServer, ns: string, name: string, oracle: Kubernetes.FaultOracle)
    requires SecretCache.CacheKey(ns, name) !in cache.secrets
    ensures GetSecret(Cached(cache, api), ns, name, oracle) == Err(SecretCache.ErrSecretNotFound)
  {
  }
}

/** The secret-cache updater of internal/controller/secretcache/handle.go:
    every secret the engine delivers is written into the secret cache; any
    other object is ignored. This is the only writer of the cache the
    namespace reconciler reads. */
module SecretCacheHandler {
  import opened Errors
  import opened Objects
  import SecretCache

  const UpdateCacheContext := "could not update secret cache"

  /** What a run returns and the cache it leaves behind. */
  datatype Handled = Handled(outcome: Outcome, cache: SecretCache.Cache)

  /** `handler.Handle`. The handler sees its repository only through
      `SetSecretOnCache`, whose error `fault` stands for; the secret-cached
      repository the controller is wired with never returns one (see
      `WiredCacheNeverFails`), so there `fault` is None. A failed write is
      taken to have left the cache alone. */
  function Handle(cache: SecretCache.Cache, obj: RuntimeObject, fault: Option<Error>): (r: Handled)
    // anything but a secret: success, cache unchanged
    ensures !obj.SecretObject? ==> r == Handled(Pass, cache)
    // a failing write is returned, wrapped with context
    ensures obj.SecretObject? && fault.Some? ==> r == Handled(Fail(Wrapped(UpdateCacheContext, fault.value)), cache)
    // otherwise the secret is stored under its own namespace and name
    ensures obj.SecretObject? && fault.None? ==>
      && r.outcome.Pass?
      && r.cache.secrets.Keys == cache.secrets.Keys + {SecretCache.CacheKey(obj.secret.meta.namespace, obj.secret.meta.name)}
      && SecretCache.GetSecret(r.cache, obj.secret.meta.namespace, obj.secret.meta.name) == Ok(obj.secret)
  {
    match obj
    case SecretObject(secret) =>
      if fault.Some? then Handled(Fail(Wrapped(UpdateCacheContext, fault.value)), cache)
      else
        var stored := SecretCache.SetSecretOnCache(cache, secret);
        Handled(stored.outcome, stored.cache)
    case _ => Handled(Pass, cache)
  }

  /** The write the wired repository performs always succeeds, so a secret
      delivered to the updater is always cached. */
  lemma WiredCacheNeverFails(cache: SecretCache.Cache, secret: Secret)
    ensures Handle(cache, SecretObject(secret), None).outcome.Pass?
    ensures Handle(cache, SecretObject(secret), None).cache == SecretCache.SetSecretOnCache(cache, secret).cache
  {
  }

  /** A run leaves every read of another (namespace, name) as it was. */
  lemma HandleFrame(cache: SecretCache.Cache, obj: RuntimeObject, fault: Option<Error>, ns: string, name: string)
    requires '/' !in ns
    requires obj.SecretObject? ==>
      '/' !in obj.secret.meta.namespace && (ns != obj.secret.meta.namespace || name != obj.secret.meta.name)
    ensures SecretCache.GetSecret(Handle(cache, obj, fault).cache, ns, name) == SecretCache.GetSecret(cache, ns, name)
  {
    if obj.SecretObject? && fault.None? {
      SecretCache.SetFrame(cache, obj.secret, ns, name);
    }
  }
}

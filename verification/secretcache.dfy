/** The in-process secret cache of internal/storage/kubernetes/secretcache.go:
    a map from the string "<namespace>/<name>" to the last secret stored under
    it. Each operation is one atomic step; the readers-writer lock that makes
    it so in the source is not modelled. */
module SecretCache {
  import opened Errors
  import opened Objects

  datatype Cache = Cache(secrets: map<string, Secret>)

  /** A freshly constructed cache holds nothing: every read misses. */
  function Empty(): (c: Cache)
    ensures forall ns, name :: GetSecret(c, ns, name) == Err(ErrSecretNotFound)
  {
    Cache(map[])
  }

  /** The cache key of a secret: namespace and name joined by a slash. */
  function CacheKey(ns: string, name: string): (k: string)
    ensures |k| == |ns| + 1 + |name| && k[|ns|] == '/'
  {
    ns + "/" + name
  }

  /** Where the two components and the separator sit in a key. */
  lemma CacheKeyLayout(ns: string, name: string)
    ensures |CacheKey(ns, name)| == |ns| + 1 + |name|
    ensures CacheKey(ns, name)[..|ns|] == ns
    ensures CacheKey(ns, name)[|ns|] == '/'
    ensures CacheKey(ns, name)[|ns| + 1..] == name
  {
  }

  /** The error a cache miss returns. */
  const ErrSecretNotFound := Message("secret not found")

  /** The cache's read: the stored secret, or "secret not found" on a miss.
      There is no fallback to the API server. */
  function GetSecret(c: Cache, ns: string, name: string): (r: Result<Secret>)
    ensures r.Ok? <==> CacheKey(ns, name) in c.secrets
    ensures r.Ok? ==> r.value == c.secrets[CacheKey(ns, name)]
    ensures r.Err? ==> r.error == ErrSecretNotFound
  {
    var id := CacheKey(ns, name);
    if id in c.secrets then Ok(c.secrets[id]) else Err(ErrSecretNotFound)
  }

  /** The result of a cache write: the cache afterwards and the error returned. */
  datatype Stored = Stored(cache: Cache, outcome: Outcome)

  /** The cache's write: stores the secret under its own namespace and name,
      replacing whatever was there. */
  function SetSecretOnCache(c: Cache, secret: Secret): (r: Stored)
    ensures r.outcome.Pass?
    ensures r.cache.secrets.Keys == c.secrets.Keys + {CacheKey(secret.meta.namespace, secret.meta.name)}
    ensures r.cache.secrets[CacheKey(secret.meta.namespace, secret.meta.name)] == secret
    ensures forall k :: k in c.secrets && k != CacheKey(secret.meta.namespace, secret.meta.name) ==>
      r.cache.secrets[k] == c.secrets[k]
  {
    var id := CacheKey(secret.meta.namespace, secret.meta.name);
    Stored(Cache(c.secrets[id := secret]), Pass)
  }

  /** The cache after a sequence of writes, in order. */
  function SetAll(c: Cache, writes: seq<Secret>): Cache
    decreases |writes|
  {
    if |writes| == 0 then c
    else SetAll(SetSecretOnCache(c, writes[0]).cache, writes[1..])
  }

  /** The key is injective on pairs whose namespaces contain no slash (true
      of every Kubernetes namespace name). */
  lemma {:induction false} CacheKeyInjective(ns1: string, name1: string, ns2: string, name2: string)
    requires '/' !in ns1 && '/' !in ns2
    requires CacheKey(ns1, name1) == CacheKey(ns2, name2)
    ensures ns1 == ns2 && name1 == name2
  {
    CacheKeyLayout(ns1, name1);
    CacheKeyLayout(ns2, name2);
    if |ns1| < |ns2| {
      assert false;
    } else if |ns2| < |ns1| {
      assert false;
    }
  }

  /** Without the slash-free premise the key is not injective: two different
      (namespace, name) pairs share one cache entry. */
  lemma CacheKeyCollides()
    ensures CacheKey("a/b", "c") == CacheKey("a", "b/c")
  {
  }

  /** Round trip: a read after a write of `s` returns `s`. */
  lemma GetAfterSet(c: Cache, s: Secret)
    ensures GetSecret(SetSecretOnCache(c, s).cache, s.meta.namespace, s.meta.name) == Ok(s)
  {
  }

  /** Last write wins: of two writes to the same (namespace, name), the later
      one is what a read returns. */
  lemma LastWriteWins(c: Cache, first: Secret, second: Secret)
    requires first.meta.namespace == second.meta.namespace && first.meta.name == second.meta.name
    ensures SetSecretOnCache(SetSecretOnCache(c, first).cache, second).cache == SetSecretOnCache(c, second).cache
    ensures GetSecret(SetAll(c, [first, second]), second.meta.namespace, second.meta.name) == Ok(second)
  {
    var c1 := SetSecretOnCache(c, first).cache;
    var c2 := SetSecretOnCache(c1, second).cache;
    assert [first, second][1..] == [second];
    assert [second][1..] == [];
    assert SetAll(c, [first, second]) == SetAll(c1, [second]) == SetAll(c2, []) == c2;
  }

  /** A write leaves every read of another (namespace, name) as it was. */
  lemma SetFrame(c: Cache, s: Secret, ns: string, name: string)
    requires '/' !in ns && '/' !in s.meta.namespace
    requires ns != s.meta.namespace || name != s.meta.name
    ensures GetSecret(SetSecretOnCache(c, s).cache, ns, name) == GetSecret(c, ns, name)
  {
    if CacheKey(ns, name) == CacheKey(s.meta.namespace, s.meta.name) {
      CacheKeyInjective(ns, name, s.meta.namespace, s.meta.name);
    }
  }

  /** A key that none of a sequence of writes touches stays a miss: reading
      a secret that was never stored fails with "secret not found". */
  lemma {:induction false} NeverSetMisses(c: Cache, writes: seq<Secret>, ns: string, name: string)
    requires '/' !in ns
    requires CacheKey(ns, name) !in c.secrets
    requires forall i :: 0 <= i < |writes| ==> '/' !in writes[i].meta.namespace
    requires forall i :: 0 <= i < |writes| ==> writes[i].meta.namespace != ns || writes[i].meta.name != name
    ensures GetSecret(SetAll(c, writes), ns, name) == Err(ErrSecretNotFound)
    decreases |writes|
  {
    if |writes| > 0 {
      var c' := SetSecretOnCache(c, writes[0]).cache;
      SetFrame(c, writes[0], ns, name);
      NeverSetMisses(c', writes[1..], ns, name);
    }
  }

  /** A read returns the last write to its (namespace, name), however many
      writes to other keys follow it. */
  lemma {:induction false} ReadSeesLastWrite(c: Cache, writes: seq<Secret>, i: nat)
    requires i < |writes|
    requires forall j :: 0 <= j < |writes| ==> '/' !in writes[j].meta.namespace
    requires forall j :: i < j < |writes| ==> writes[j].Key() != writes[i].Key()
    ensures GetSecret(SetAll(c, writes), writes[i].meta.namespace, writes[i].meta.name) == Ok(writes[i])
    decreases |writes|
  {
    var c' := SetSecretOnCache(c, writes[0]).cache;
    if i == 0 {
      GetAfterSet(c, writes[0]);
      KeepsRead(c', writes[1..], writes[0]);
    } else {
      ReadSeesLastWrite(c', writes[1..], i - 1);
    }
  }

  /** Writes to other keys keep a stored secret readable. */
  lemma {:induction false} KeepsRead(c: Cache, writes: seq<Secret>, s: Secret)
    requires '/' !in s.meta.namespace
    requires GetSecret(c, s.meta.namespace, s.meta.name) == Ok(s)
    requires forall j :: 0 <= j < |writes| ==> '/' !in writes[j].meta.namespace
    requires forall j :: 0 <= j < |writes| ==> writes[j].Key() != s.Key()
    ensures GetSecret(SetAll(c, writes), s.meta.namespace, s.meta.name) == Ok(s)
    decreases |writes|
  {
    if |writes| > 0 {
      SetFrame(c, writes[0], s.meta.namespace, s.meta.name);
      KeepsRead(SetSecretOnCache(c, writes[0]).cache, writes[1..], s);
    }
  }
}

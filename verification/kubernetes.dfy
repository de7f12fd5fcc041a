/** The Kubernetes repository of internal/storage/kubernetes/kubernetes.go,
    modelled against an abstract, sequential API server: one table of
    secrets and one of service accounts, keyed by (namespace, name), and a
    global revision counter that hands out resourceVersions.

    Every API call may fail for reasons outside the model (network, server
    overload); a fault oracle decides which calls do. The NotFound,
    AlreadyExists and Conflict statuses are never injected: they come from the
    store's own contents. */
module Kubernetes {
  import opened Errors
  import opened Objects

  datatype ResourceKind = SecretKind | ServiceAccountKind

  /** An object of either kind the repository upserts. */
  datatype Resource = SecretResource(secret: Secret) | AccountResource(account: ServiceAccount)
  {
    function Kind(): ResourceKind {
      if SecretResource? then SecretKind else ServiceAccountKind
    }

    function Key(): ObjectKey {
      match this
      case SecretResource(s) => s.Key()
      case AccountResource(a) => a.Key()
    }

    function Version(): nat {
      match this
      case SecretResource(s) => s.meta.resourceVersion
      case AccountResource(a) => a.meta.resourceVersion
    }

    function WithVersion(rv: nat): (r: Resource)
      ensures r.Kind() == Kind() && r.Key() == Key() && r.Version() == rv
    {
      match this
      case SecretResource(s) => SecretResource(s.WithVersion(rv))
      case AccountResource(a) => AccountResource(a.WithVersion(rv))
    }
  }

  /** One call to the API server, as it appears in a trace. */
  datatype ApiCall =
    | Get(kind: ResourceKind, key: ObjectKey)
    | Create(obj: Resource)
    | Update(obj: Resource)

  /** Which API calls fail for reasons outside the store, and the reason given. */
  type FaultOracle = ApiCall -> Option<string>

  /** The oracle of a server that never fails on its own. */
  function NoFaults(): FaultOracle {
    (c: ApiCall) => None
  }

  datatype ApiServer = ApiServer(
    secrets: map<ObjectKey, Secret>,
    accounts: map<ObjectKey, ServiceAccount>,
    revision: nat)

  /** Every object is stored under its own namespace and name, as on a real
      API server. */
  ghost predicate WellKeyed(api: ApiServer) {
    && (forall k :: k in api.secrets ==> api.secrets[k].Key() == k)
    && (forall k :: k in api.accounts ==> api.accounts[k].Key() == k)
  }

  /** The object stored under (kind, key), if any. */
  function Lookup(api: ApiServer, kind: ResourceKind, key: ObjectKey): (r: Option<Resource>)
    ensures r.Some? ==> r.value.Kind() == kind
  {
    match kind
    case SecretKind =>
      if key in api.secrets then Some(SecretResource(api.secrets[key])) else None
    case ServiceAccountKind =>
      if key in api.accounts then Some(AccountResource(api.accounts[key])) else None
  }

  /** Every stored object other than the one under (kind, key) is the same in `a` and `b`. */
  ghost predicate SameExcept(a: ApiServer, b: ApiServer, kind: ResourceKind, key: ObjectKey) {
    forall k: ResourceKind, o: ObjectKey :: (k != kind || o != key) ==> Lookup(a, k, o) == Lookup(b, k, o)
  }

  /** Stores `obj` under its key with a freshly allocated resourceVersion. */
  function Put(api: ApiServer, obj: Resource): (r: ApiServer)
    ensures r.revision == api.revision + 1
    ensures Lookup(r, obj.Kind(), obj.Key()) == Some(obj.WithVersion(r.revision))
    ensures SameExcept(r, api, obj.Kind(), obj.Key())
  {
    var rev := api.revision + 1;
    match obj.WithVersion(rev)
    case SecretResource(s) => api.(secrets := api.secrets[obj.Key() := s], revision := rev)
    case AccountResource(a) => api.(accounts := api.accounts[obj.Key() := a], revision := rev)
  }

  /** The error of an injected failure. */
  function Injected(reason: Option<string>): Error
    requires reason.Some?
  {
    ServerFailure(reason.value)
  }

  /** The API server's get verb. */
  function Read(api: ApiServer, kind: ResourceKind, key: ObjectKey, oracle: FaultOracle): (r: Result<Resource>)
    ensures oracle(Get(kind, key)).Some? ==> r == Err(Injected(oracle(Get(kind, key))))
    ensures oracle(Get(kind, key)).None? ==> (r.Ok? <==> Lookup(api, kind, key).Some?)
    ensures r.Ok? ==> Lookup(api, kind, key) == Some(r.value)
    ensures r.Err? && oracle(Get(kind, key)).None? ==> r.error == NotFound
  {
    var fault := oracle(Get(kind, key));
    if fault.Some? then Err(Injected(fault))
    else
      match Lookup(api, kind, key)
      case None => Err(NotFound)
      case Some(obj) => Ok(obj)
  }

  /** The result of a write: the error it returned and the server afterwards. */
  datatype Written = Written(outcome: Outcome, api: ApiServer)

  /** The API server's create verb: refused when the key is taken. */
  function CreateObject(api: ApiServer, obj: Resource, oracle: FaultOracle): (r: Written)
    ensures r.outcome.Fail? ==> r.api == api
    ensures r.outcome.Pass? <==> oracle(Create(obj)).None? && Lookup(api, obj.Kind(), obj.Key()).None?
    ensures r.outcome.Pass? ==> r.api == Put(api, obj)
    ensures oracle(Create(obj)).None? && r.outcome.Fail? ==> r.outcome.error == AlreadyExists
  {
    var fault := oracle(Create(obj));
    if fault.Some? then Written(Fail(Injected(fault)), api)
    else if Lookup(api, obj.Kind(), obj.Key()).Some? then Written(Fail(AlreadyExists), api)
    else Written(Pass, Put(api, obj))
  }

  /** The API server's update verb with optimistic concurrency: a set
      resourceVersion must match the stored one; an unset one (0) overwrites
      unconditionally. */
  function UpdateObject(api: ApiServer, obj: Resource, oracle: FaultOracle): (r: Written)
    ensures r.outcome.Fail? ==> r.api == api
    ensures r.outcome.Pass? <==>
      && oracle(Update(obj)).None?
      && Lookup(api, obj.Kind(), obj.Key()).Some?
      && (obj.Version() == 0 || obj.Version() == Lookup(api, obj.Kind(), obj.Key()).value.Version())
    ensures r.outcome.Pass? ==> r.api == Put(api, obj)
  {
    var fault := oracle(Update(obj));
    if fault.Some? then Written(Fail(Injected(fault)), api)
    else
      match Lookup(api, obj.Kind(), obj.Key())
      case None => Written(Fail(NotFound), api)
      case Some(stored) =>
        if obj.Version() != 0 && obj.Version() != stored.Version() then Written(Fail(Conflict), api)
        else Written(Pass, Put(api, obj))
  }

  /** The write an upsert issues after a successful get: a create of the
      argument when nothing is stored under its key, otherwise an update of
      the argument carrying the stored resourceVersion. */
  function UpsertWrite(api: ApiServer, obj: Resource): ApiCall {
    match Lookup(api, obj.Kind(), obj.Key())
    case None => Create(obj)
    case Some(stored) => Update(obj.WithVersion(stored.Version()))
  }

  /** The outcome of an upsert: the error returned, the server afterwards, and
      the API calls made, in order. */
  datatype Ensured = Ensured(outcome: Outcome, api: ApiServer, calls: seq<ApiCall>)

  /** The create-or-overwrite discipline shared by `EnsureSecret` and
      `EnsureServiceAccount`: get the stored object; on NotFound create the
      argument; on any other get error return it; otherwise copy the stored
      resourceVersion onto the argument and update. */
  function Ensure(api: ApiServer, obj: Resource, oracle: FaultOracle): (r: Ensured)
    // the first call reads the argument's own key
    ensures 1 <= |r.calls| <= 2 && r.calls[0] == Get(obj.Kind(), obj.Key())
    // a get error other than NotFound is returned unchanged and nothing is written
    ensures oracle(Get(obj.Kind(), obj.Key())).Some? ==>
      r == Ensured(Fail(Injected(oracle(Get(obj.Kind(), obj.Key())))), api, [Get(obj.Kind(), obj.Key())])
    // absent: create exactly the argument
    ensures oracle(Get(obj.Kind(), obj.Key())).None? && Lookup(api, obj.Kind(), obj.Key()).None? ==>
      r.calls == [Get(obj.Kind(), obj.Key()), Create(obj)]
    // present: update the argument carrying the stored resourceVersion
    ensures oracle(Get(obj.Kind(), obj.Key())).None? && Lookup(api, obj.Kind(), obj.Key()).Some? ==>
      r.calls == [Get(obj.Kind(), obj.Key()),
                  Update(obj.WithVersion(Lookup(api, obj.Kind(), obj.Key()).value.Version()))]
    ensures oracle(Get(obj.Kind(), obj.Key())).None? ==> r.calls == [Get(obj.Kind(), obj.Key()), UpsertWrite(api, obj)]
    // in a sequential store the upsert fails only where a fault was injected,
    // and then returns that fault unchanged and leaves the store alone
    ensures r.outcome.Fail? <==> oracle(r.calls[|r.calls| - 1]).Some?
    ensures r.outcome.Fail? ==> r.outcome == Fail(Injected(oracle(r.calls[|r.calls| - 1]))) && r.api == api
    // success is a full overwrite: the stored object is the argument, up to its resourceVersion
    ensures r.outcome.Pass? ==>
      && r.api.revision == api.revision + 1
      && Lookup(r.api, obj.Kind(), obj.Key()) == Some(obj.WithVersion(r.api.revision))
      && SameExcept(r.api, api, obj.Kind(), obj.Key())
  {
    var get := Get(obj.Kind(), obj.Key());
    match Read(api, obj.Kind(), obj.Key(), oracle)
    case Err(e) =>
      if !e.IsNotFound() then Ensured(Fail(e), api, [get])
      else
        var created := CreateObject(api, obj, oracle);
        Ensured(created.outcome, created.api, [get, Create(obj)])
    case Ok(stored) =>
      var overwrite := obj.WithVersion(stored.Version());
      var updated := UpdateObject(api, overwrite, oracle);
      Ensured(updated.outcome, updated.api, [get, Update(overwrite)])
  }

  /** `Repository.GetSecret`: a plain get. */
  function GetSecret(api: ApiServer, ns: string, name: string, oracle: FaultOracle): (r: Result<Secret>)
    ensures r.Ok? ==> ObjectKey(ns, name) in api.secrets && api.secrets[ObjectKey(ns, name)] == r.value
    ensures oracle(Get(SecretKind, ObjectKey(ns, name))).None? ==>
      (r.Ok? <==> ObjectKey(ns, name) in api.secrets) && (r.Err? ==> r.error == NotFound)
    // an API error is returned as it is
    ensures oracle(Get(SecretKind, ObjectKey(ns, name))).Some? ==>
      r == Err(Injected(oracle(Get(SecretKind, ObjectKey(ns, name)))))
  {
    match Read(api, SecretKind, ObjectKey(ns, name), oracle)
    case Err(e) => Err(e)
    case Ok(obj) => Ok(obj.secret)
  }

  /** `Repository.GetServiceAccount`: a plain get. */
  function GetServiceAccount(api: ApiServer, ns: string, name: string, oracle: FaultOracle): (r: Result<ServiceAccount>)
    ensures r.Ok? ==> ObjectKey(ns, name) in api.accounts && api.accounts[ObjectKey(ns, name)] == r.value
    ensures oracle(Get(ServiceAccountKind, ObjectKey(ns, name))).None? ==>
      (r.Ok? <==> ObjectKey(ns, name) in api.accounts) && (r.Err? ==> r.error == NotFound)
    // an API error is returned as it is
    ensures oracle(Get(ServiceAccountKind, ObjectKey(ns, name))).Some? ==>
      r == Err(Injected(oracle(Get(ServiceAccountKind, ObjectKey(ns, name)))))
  {
    match Read(api, ServiceAccountKind, ObjectKey(ns, name), oracle)
    case Err(e) => Err(e)
    case Ok(obj) => Ok(obj.account)
  }

  /** `Repository.EnsureSecret`: create the secret if missing, overwrite it otherwise. */
  function EnsureSecret(api: ApiServer, secret: Secret, oracle: FaultOracle): (r: Ensured)
    ensures 1 <= |r.calls| <= 2 && r.calls[0] == Get(SecretKind, secret.Key())
    ensures r.api.accounts == api.accounts
    ensures r.outcome.Fail? ==> r.api == api
    ensures r.outcome.Pass? ==>
      && r.api.secrets == api.secrets[secret.Key() := secret.WithVersion(r.api.revision)]
      && r.api.revision == api.revision + 1
    ensures r.outcome.Fail? <==> oracle(r.calls[|r.calls| - 1]).Some?
    ensures r.outcome.Fail? ==> r.outcome == Fail(Injected(oracle(r.calls[|r.calls| - 1])))
    ensures oracle(Get(SecretKind, secret.Key())).None? ==>
      r.calls == [Get(SecretKind, secret.Key()), UpsertWrite(api, SecretResource(secret))]
    ensures WellKeyed(api) ==> WellKeyed(r.api)
  {
    var r := Ensure(api, SecretResource(secret), oracle);
    SecretTableAfterWrite(api, r.api, secret);
    r
  }

  /** `Repository.EnsureServiceAccount`: create the account if missing, overwrite it otherwise. */
  function EnsureServiceAccount(api: ApiServer, account: ServiceAccount, oracle: FaultOracle): (r: Ensured)
    ensures 1 <= |r.calls| <= 2 && r.calls[0] == Get(ServiceAccountKind, account.Key())
    ensures r.api.secrets == api.secrets
    ensures r.outcome.Fail? ==> r.api == api
    ensures r.outcome.Pass? ==>
      && r.api.accounts == api.accounts[account.Key() := account.WithVersion(r.api.revision)]
      && r.api.revision == api.revision + 1
    ensures r.outcome.Fail? <==> oracle(r.calls[|r.calls| - 1]).Some?
    ensures r.outcome.Fail? ==> r.outcome == Fail(Injected(oracle(r.calls[|r.calls| - 1])))
    ensures oracle(Get(ServiceAccountKind, account.Key())).None? ==>
      r.calls == [Get(ServiceAccountKind, account.Key()), UpsertWrite(api, AccountResource(account))]
    ensures WellKeyed(api) ==> WellKeyed(r.api)
  {
    var r := Ensure(api, AccountResource(account), oracle);
    AccountTableAfterWrite(api, r.api, account);
    r
  }

  /** A write of one secret, seen through the two tables. */
  lemma SecretTableAfterWrite(api: ApiServer, api': ApiServer, secret: Secret)
    requires SameExcept(api', api, SecretKind, secret.Key())
    ensures api'.accounts == api.accounts
    ensures Lookup(api', SecretKind, secret.Key()) == Some(SecretResource(secret.WithVersion(api'.revision))) ==>
      api'.secrets == api.secrets[secret.Key() := secret.WithVersion(api'.revision)]
  {
    forall o | true
      ensures o in api'.accounts <==> o in api.accounts
      ensures o in api.accounts ==> api'.accounts[o] == api.accounts[o]
    {
      assert Lookup(api', ServiceAccountKind, o) == Lookup(api, ServiceAccountKind, o);
    }
    if Lookup(api', SecretKind, secret.Key()) == Some(SecretResource(secret.WithVersion(api'.revision))) {
      forall o | o != secret.Key()
        ensures o in api'.secrets <==> o in api.secrets
        ensures o in api.secrets ==> api'.secrets[o] == api.secrets[o]
      {
        assert Lookup(api', SecretKind, o) == Lookup(api, SecretKind, o);
      }
    }
  }

  /** A write of one service account, seen through the two tables. */
  lemma AccountTableAfterWrite(api: ApiServer, api': ApiServer, account: ServiceAccount)
    requires SameExcept(api', api, ServiceAccountKind, account.Key())
    ensures api'.secrets == api.secrets
    ensures Lookup(api', ServiceAccountKind, account.Key()) == Some(AccountResource(account.WithVersion(api'.revision))) ==>
      api'.accounts == api.accounts[account.Key() := account.WithVersion(api'.revision)]
  {
    forall o | true
      ensures o in api'.secrets <==> o in api.secrets
      ensures o in api.secrets ==> api'.secrets[o] == api.secrets[o]
    {
      assert Lookup(api', SecretKind, o) == Lookup(api, SecretKind, o);
    }
    if Lookup(api', ServiceAccountKind, account.Key()) == Some(AccountResource(account.WithVersion(api'.revision))) {
      forall o | o != account.Key()
        ensures o in api'.accounts <==> o in api.accounts
        ensures o in api.accounts ==> api'.accounts[o] == api.accounts[o]
      {
        assert Lookup(api', ServiceAccountKind, o) == Lookup(api, ServiceAccountKind, o);
      }
    }
  }

  /** Against a server that injects no faults, an upsert always succeeds:
      the update carries the stored resourceVersion, so it never conflicts. */
  lemma EnsureFaultFreeSucceeds(api: ApiServer, obj: Resource)
    ensures Ensure(api, obj, NoFaults()).outcome.Pass?
  {
  }
}

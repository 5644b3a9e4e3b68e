/**
 * The SQL tenant store of apps/broker_api/tenant_store_sql.py: two tables, and a cache in front
 * of them that is refilled by `upsert`, filled by `get` and trimmed by `delete`; and the subkey
 * search of apps/broker_api/auth.py on top of it.
 *
 * One method runs at a time and nothing else writes the tables. Expiry text goes through an
 * opaque parser and printer. Each key row is younger than the rows before it.
 */
module TenantStore {
  import opened Common

  const REVOKED := "revoked"

  type Expiry = int

  /** The expiry parser and printer; nothing is said about how they relate. */
  datatype ExpiryText = ExpiryText(parse: string -> Option<Expiry>, show: Expiry -> string)

  datatype Tenant = Tenant(
    id: string, title: string, subkey: string, quota: int, expiresAt: Option<string>,
    status: string, owner: Option<string>, keyId: Option<string>)

  datatype TenantRow = TenantRow(title: string, status: string, owner: Option<string>)

  datatype KeyRow = KeyRow(
    tenantId: string, subkey: string, quota: int, expires: Option<Expiry>,
    keyId: Option<string>, createdAt: int)

  datatype Db = Db(tenants: map<string, TenantRow>, keys: seq<KeyRow>)

  datatype State = State(db: Db, cache: map<string, Tenant>)

  // ----- The tables -------------------------------------------------------------------------

  /** The newest key row of a tenant: `order_by(created_at desc).limit(1)`. */
  function NewestKey(keys: seq<KeyRow>, id: string): (r: Option<KeyRow>)
    ensures r.None? <==> forall k | k in keys :: k.tenantId != id
    ensures r.Some? ==> r.value in keys && r.value.tenantId == id
    ensures r.Some? ==> forall k | k in keys && k.tenantId == id :: k.createdAt <= r.value.createdAt
  {
    if keys == [] then None
    else
      var last := keys[|keys| - 1];
      var earlier := NewestKey(keys[..|keys| - 1], id);
      assert keys == keys[..|keys| - 1] + [last];
      if last.tenantId != id then earlier
      else if earlier.Some? && earlier.value.createdAt > last.createdAt then earlier
      else Some(last)
  }

  /** A tenant as read straight from the tables. */
  function Project(text: ExpiryText, db: Db, id: string): Tenant
    requires id in db.tenants
  {
    var row := db.tenants[id];
    var key := NewestKey(db.keys, id);
    if key.Some? then
      var k := key.value;
      Tenant(id, row.title, k.subkey, k.quota,
             if k.expires.Some? then Some(text.show(k.expires.value)) else None,
             row.status, row.owner, k.keyId)
    else
      Tenant(id, row.title, "", 0, None, row.status, row.owner, None)
  }

  /** `get` without a cache. */
  function UncachedGet(text: ExpiryText, db: Db, id: string): Option<Tenant> {
    if id in db.tenants then Some(Project(text, db, id)) else None
  }

  /** Every stored tenant, as a full refresh reads them. */
  function AllProjections(text: ExpiryText, db: Db): map<string, Tenant> {
    map id | id in db.tenants :: Project(text, db, id)
  }

  function ParseExpires(text: ExpiryText, expiresAt: Option<string>): Option<Expiry> {
    if expiresAt.None? || expiresAt.value == "" then None else text.parse(expiresAt.value)
  }

  function UpsertRow(existing: Option<TenantRow>, t: Tenant): TenantRow {
    var keepOwner := existing.Some? && (t.owner.None? || t.owner.value == "");
    TenantRow(t.title, t.status, if keepOwner then existing.value.owner else t.owner)
  }

  function UpsertDb(text: ExpiryText, db: Db, t: Tenant, now: int): Db {
    Db(db.tenants[t.id := UpsertRow(if t.id in db.tenants then Some(db.tenants[t.id]) else None, t)],
       db.keys + [KeyRow(t.id, t.subkey, t.quota, ParseExpires(text, t.expiresAt), t.keyId, now)])
  }

  // ----- Operations -------------------------------------------------------------------------

  datatype Op = Upsert(t: Tenant, now: int) | Get(id: string) | Delete(id: string) | All

  /** `all` answers from the cache unless it is empty. */
  function AllView(text: ExpiryText, s: State): map<string, Tenant> {
    if s.cache != map[] then s.cache else AllProjections(text, s.db)
  }

  function Apply(text: ExpiryText, s: State, op: Op): State {
    match op
    case Upsert(t, now) =>
      var db := UpsertDb(text, s.db, t, now);
      State(db, AllProjections(text, db))
    case Get(id) =>
      if id in s.cache || id !in s.db.tenants then s
      else s.(cache := s.cache[id := Project(text, s.db, id)])
    case Delete(id) =>
      if id !in s.db.tenants then s
      else State(s.db.(tenants := s.db.tenants[id := s.db.tenants[id].(status := REVOKED)]), s.cache - {id})
    case All => s.(cache := AllView(text, s))
  }

  predicate Younger(keys: seq<KeyRow>, now: int) {
    forall k | k in keys :: k.createdAt < now
  }

  predicate Possible(s: State, op: Op) {
    op.Upsert? ==> Younger(s.db.keys, op.now)
  }

  function Run(text: ExpiryText, s: State, ops: seq<Op>): Option<State>
    decreases |ops|
  {
    if ops == [] then Some(s)
    else if Possible(s, ops[0]) then Run(text, Apply(text, s, ops[0]), ops[1..])
    else None
  }

  /** The store as constructed over whatever the tables hold. */
  function Opened(text: ExpiryText, db: Db): State {
    State(db, AllProjections(text, db))
  }

  /** The answer of `get`: the cached tenant, else the row. */
  function GetAnswer(text: ExpiryText, s: State, id: string): Option<Tenant> {
    if id in s.cache then Some(s.cache[id]) else UncachedGet(text, s.db, id)
  }

  // ----- The cache agrees with the tables -----------------------------------------------------

  /** Cached tenants are current, and only revoked tenants may be missing from the cache. */
  predicate Agrees(text: ExpiryText, s: State) {
    && (forall id | id in s.cache :: id in s.db.tenants && s.cache[id] == Project(text, s.db, id))
    && (forall id | id in s.db.tenants && id !in s.cache :: s.db.tenants[id].status == REVOKED)
  }

  lemma {:induction false} ApplyKeepsAgreement(text: ExpiryText, s: State, op: Op)
    requires Agrees(text, s)
    ensures Agrees(text, Apply(text, s, op))
  {
  }

  /** A write changes what is read back for that tenant only. */
  lemma {:induction false} WriteIsLocal(text: ExpiryText, s: State, op: Op, id: string)
    requires id in s.db.tenants
    requires !(op.Upsert? && op.t.id == id) && !(op.Delete? && op.id == id)
    ensures UncachedGet(text, Apply(text, s, op).db, id) == UncachedGet(text, s.db, id)
  {
    if op.Upsert? {
      var db := Apply(text, s, op).db;
      assert db.keys[..|db.keys| - 1] == s.db.keys;
    }
  }

  /**
   * A tenant written is the tenant read back, but for the expiry text, which goes through the
   * parser, and a missing owner, which keeps the one on record.
   */
  lemma {:induction false} UpsertThenGet(text: ExpiryText, s: State, t: Tenant, now: int)
    requires Agrees(text, s) && Younger(s.db.keys, now)
    ensures var noExpiry := t.expiresAt.None? || t.expiresAt.value == "";
            var expires := if noExpiry then None else text.parse(t.expiresAt.value);
            var noOwner := t.owner.None? || t.owner.value == "";
            GetAnswer(text, Apply(text, s, Upsert(t, now)), t.id) == Some(t.(
              expiresAt := if expires.Some? then Some(text.show(expires.value)) else None,
              owner := if noOwner && t.id in s.db.tenants then s.db.tenants[t.id].owner else t.owner))
  {
    var keys := Apply(text, s, Upsert(t, now)).db.keys;
    assert keys[..|keys| - 1] == s.db.keys;
  }

  /** A deleted tenant reads back as before but revoked; deleting an unknown one does nothing. */
  lemma {:induction false} DeleteThenGet(text: ExpiryText, s: State, id: string)
    requires Agrees(text, s)
    ensures GetAnswer(text, Apply(text, s, Delete(id)), id) ==
            if id in s.db.tenants then Some(Project(text, s.db, id).(status := "revoked")) else None
    ensures Apply(text, s, Delete(id)).db.keys == s.db.keys
    ensures id !in s.db.tenants ==> Apply(text, s, Delete(id)) == s
  {
  }

  /** A tenant without any key reads back without subkey, quota or expiry. */
  lemma KeylessTenant(text: ExpiryText, db: Db, id: string)
    requires id in db.tenants && forall k | k in db.keys :: k.tenantId != id
    ensures var row := db.tenants[id];
            UncachedGet(text, db, id) == Some(Tenant(id, row.title, "", 0, None, row.status, row.owner, None))
  {
  }

  /** After any history the cache agrees with the tables. */
  lemma {:induction false} HistoryKeepsAgreement(text: ExpiryText, db: Db, ops: seq<Op>)
    requires Run(text, Opened(text, db), ops).Some?
    ensures Agrees(text, Run(text, Opened(text, db), ops).value)
  {
    RunKeepsAgreement(text, Opened(text, db), ops);
  }

  lemma {:induction false} RunKeepsAgreement(text: ExpiryText, s: State, ops: seq<Op>)
    requires Agrees(text, s) && Run(text, s, ops).Some?
    ensures Agrees(text, Run(text, s, ops).value)
    decreases |ops|
  {
    if ops != [] {
      ApplyKeepsAgreement(text, s, ops[0]);
      RunKeepsAgreement(text, Apply(text, s, ops[0]), ops[1..]);
    }
  }

  /**
   * After any history, `get` answers as if there were no cache, and `all` lists current tenants,
   * every tenant that is not revoked among them.
   */
  lemma {:induction false} CacheIsInvisible(text: ExpiryText, db: Db, ops: seq<Op>, s: State, id: string)
    requires Run(text, Opened(text, db), ops) == Some(s)
    ensures GetAnswer(text, s, id) == UncachedGet(text, s.db, id)
    ensures id in AllView(text, s) ==> UncachedGet(text, s.db, id) == Some(AllView(text, s)[id])
    ensures id in s.db.tenants && s.db.tenants[id].status != REVOKED ==> id in AllView(text, s)
  {
    HistoryKeepsAgreement(text, db, ops);
  }

  /**
   * A deleted tenant leaves the listing only while some other tenant is cached: otherwise the
   * next `all` finds an empty cache, refreshes it, and lists the tenant again, as revoked.
   */
  lemma {:induction false} DeletedStaysListedIff(text: ExpiryText, s: State, id: string)
    requires Agrees(text, s) && id in s.db.tenants
    ensures id in AllView(text, Apply(text, s, Delete(id))) <==> s.cache.Keys <= {id}
    ensures id in AllView(text, Apply(text, s, Delete(id))) ==>
              AllView(text, Apply(text, s, Delete(id)))[id].status == REVOKED
  {
    var after := Apply(text, s, Delete(id));
    assert after.cache.Keys == s.cache.Keys - {id};
    if s.cache.Keys <= {id} {
      assert after.cache.Keys == {};
      assert after.cache == map[];
    } else {
      var other :| other in s.cache.Keys && other != id;
      assert other in after.cache;
    }
  }

  // ----- Subkeys ----------------------------------------------------------------------------

  /** What `tenant_by_subkey` may return for a token, whatever order it walks the tenants in. */
  predicate MayResolve(text: ExpiryText, s: State, token: string, answer: Option<Tenant>) {
    match answer
    case Some(t) => token != "" && t.id in AllView(text, s) && AllView(text, s)[t.id] == t && t.subkey == token
    case None => token == "" || forall id | id in AllView(text, s) :: AllView(text, s)[id].subkey != token
  }

  predicate HasNewest(db: Db, id: string, token: string) {
    id in db.tenants && NewestKey(db.keys, id).Some? && NewestKey(db.keys, id).value.subkey == token
  }

  lemma {:induction false} NewestAfterUpsert(text: ExpiryText, s: State, t: Tenant, now: int, id: string, token: string)
    requires Younger(s.db.keys, now)
    ensures HasNewest(Apply(text, s, Upsert(t, now)).db, id, token) <==>
            if id == t.id then token == t.subkey else HasNewest(s.db, id, token)
  {
    var keys := Apply(text, s, Upsert(t, now)).db.keys;
    assert keys[..|keys| - 1] == s.db.keys;
  }

  lemma {:induction false} ListedNewestResolves(
    text: ExpiryText, s: State, id: string, token: string, answer: Option<Tenant>)
    requires Agrees(text, s) && token != "" && MayResolve(text, s, token, answer)
    requires HasNewest(s.db, id, token) && id in AllView(text, s)
    ensures answer.Some?
  {
    assert AllView(text, s)[id] == Project(text, s.db, id);
  }

  /**
   * After any history: a token resolves only to a tenant whose newest key it is, and a newest
   * key of a tenant that is not revoked does resolve. So a replaced subkey resolves to nobody
   * unless it is some tenant's newest key.
   */
  lemma {:induction false} OnlyNewestKeysResolve(
    text: ExpiryText, db: Db, ops: seq<Op>, s: State, token: string, answer: Option<Tenant>)
    requires Run(text, Opened(text, db), ops) == Some(s) && token != ""
    requires MayResolve(text, s, token, answer)
    ensures answer.Some? ==> HasNewest(s.db, answer.value.id, token)
                             && UncachedGet(text, s.db, answer.value.id) == answer
    ensures (forall id :: !HasNewest(s.db, id, token)) ==> answer.None?
    ensures forall id | HasNewest(s.db, id, token) && s.db.tenants[id].status != REVOKED :: answer.Some?
  {
    HistoryKeepsAgreement(text, db, ops);
    forall id | HasNewest(s.db, id, token) && s.db.tenants[id].status != REVOKED ensures answer.Some? {
      ListedNewestResolves(text, s, id, token, answer);
    }
  }

  /**
   * Installing a subkey: right after the upsert the new subkey resolves, and the tenant's
   * previous subkey resolves only if it is the newest key of another tenant.
   */
  lemma {:induction false} UpsertSwitchesSubkey(
    text: ExpiryText, db: Db, ops: seq<Op>, s: State, t: Tenant, now: int,
    previous: string, newAnswer: Option<Tenant>, oldAnswer: Option<Tenant>)
    requires Run(text, Opened(text, db), ops) == Some(s) && Younger(s.db.keys, now)
    requires t.subkey != "" && previous != "" && previous != t.subkey
    requires MayResolve(text, Apply(text, s, Upsert(t, now)), t.subkey, newAnswer)
    requires MayResolve(text, Apply(text, s, Upsert(t, now)), previous, oldAnswer)
    ensures newAnswer.Some?
    ensures oldAnswer.Some? <==> exists id :: id != t.id && HasNewest(s.db, id, previous)
    ensures oldAnswer.Some? ==> oldAnswer.value.id != t.id
  {
    hide Run, NewestKey, Younger, UpsertRow;
    HistoryKeepsAgreement(text, db, ops);
    var after := Apply(text, s, Upsert(t, now));
    NewestAfterUpsert(text, s, t, now, t.id, t.subkey);
    ApplyKeepsAgreement(text, s, Upsert(t, now));
    assert after.cache.Keys == after.db.tenants.Keys;
    assert t.id in after.cache;
    ListedNewestResolves(text, after, t.id, t.subkey, newAnswer);
    forall id ensures HasNewest(after.db, id, previous) <==> id != t.id && HasNewest(s.db, id, previous) {
      NewestAfterUpsert(text, s, t, now, id, previous);
    }
    if id :| id != t.id && HasNewest(s.db, id, previous) {
      ListedNewestResolves(text, after, id, previous, oldAnswer);
    }
    if oldAnswer.Some? {
      assert HasNewest(after.db, oldAnswer.value.id, previous);
    }
  }

  // ----- The store --------------------------------------------------------------------------

  class SQLTenantStore {
    const text: ExpiryText
    var tenants: map<string, TenantRow>
    var keys: seq<KeyRow>
    var cache: map<string, Tenant>

    ghost function Snapshot(): State
      reads this
    {
      State(Db(tenants, keys), cache)
    }

    ghost predicate Valid()
      reads this
    {
      Agrees(text, Snapshot())
    }

    constructor (text: ExpiryText, db: Db)
      ensures Valid() && this.text == text && Snapshot() == Opened(text, db)
    {
      this.text := text;
      tenants, keys := db.tenants, db.keys;
      cache := map[];
      new;
      RefreshCache();
    }

    /** Read every tenant and its newest key, then replace the cache. */
    method RefreshCache()
      modifies this`cache
      ensures cache == AllProjections(text, Db(tenants, keys))
    {
      var records: map<string, Tenant> := map[];
      var todo := tenants.Keys;
      while todo != {}
        invariant todo <= tenants.Keys
        invariant records == map id | id in tenants && id !in todo :: Project(text, Db(tenants, keys), id)
        decreases todo
      {
        var id :| id in todo;
        records := records[id := Project(text, Db(tenants, keys), id)];
        todo := todo - {id};
      }
      cache := records;
    }

    method UpsertTenant(t: Tenant, now: int)
      requires Valid() && Younger(keys, now)
      modifies this
      ensures Valid() && Snapshot() == old(Apply(text, Snapshot(), Upsert(t, now)))
      ensures cache == AllProjections(text, Db(tenants, keys))
      ensures tenants.Keys == old(tenants).Keys + {t.id}
      ensures var noExpiry := t.expiresAt.None? || t.expiresAt.value == "";
              var expires := if noExpiry then None else text.parse(t.expiresAt.value);
              keys == old(keys) + [KeyRow(t.id, t.subkey, t.quota, expires, t.keyId, now)]
    {
      ApplyKeepsAgreement(text, Snapshot(), Upsert(t, now));
      if t.id !in tenants {
        tenants := tenants[t.id := TenantRow(t.title, t.status, t.owner)];
      } else {
        var row := tenants[t.id].(title := t.title, status := t.status);
        if t.owner.Some? && t.owner.value != "" {
          row := row.(owner := t.owner);
        }
        tenants := tenants[t.id := row];
      }
      var expires := ParseExpires(text, t.expiresAt);
      keys := keys + [KeyRow(t.id, t.subkey, t.quota, expires, t.keyId, now)];
      RefreshCache();
    }

    method GetTenant(id: string) returns (r: Option<Tenant>)
      requires Valid()
      modifies this`cache
      ensures Valid() && Snapshot() == old(Apply(text, Snapshot(), Get(id)))
      ensures r == UncachedGet(text, Db(tenants, keys), id)
      ensures r.Some? <==> id in cache
      ensures r.Some? ==> cache == old(cache)[id := r.value]
      ensures r.None? ==> cache == old(cache)
    {
      if id in cache {
        return Some(cache[id]);
      }
      if id !in tenants {
        return None;
      }
      var result := Project(text, Db(tenants, keys), id);
      cache := cache[id := result];
      r := Some(result);
    }

    /** Soft delete: mark the row revoked and drop the cached tenant. */
    method DeleteTenant(id: string)
      requires Valid()
      modifies this
      ensures Valid() && Snapshot() == old(Apply(text, Snapshot(), Delete(id)))
      ensures keys == old(keys) && cache == (if id in old(tenants) then old(cache) - {id} else old(cache))
      ensures tenants == if id in old(tenants) then old(tenants)[id := old(tenants)[id].(status := "revoked")]
                         else old(tenants)
    {
      ApplyKeepsAgreement(text, Snapshot(), Delete(id));
      if id !in tenants {
        return;
      }
      tenants := tenants[id := tenants[id].(status := REVOKED)];
      cache := cache - {id};
    }

    method AllTenants() returns (r: map<string, Tenant>)
      requires Valid()
      modifies this`cache
      ensures Valid() && Snapshot() == old(Apply(text, Snapshot(), All))
      ensures r == cache == old(AllView(text, Snapshot()))
      ensures forall id | id in tenants && tenants[id].status != REVOKED :: id in r
    {
      if cache != map[] {
        return cache;
      }
      RefreshCache();
      r := cache;
    }
  }

  /** The walk over `store.all()` looking for a subkey; the order of the walk is left open. */
  method TenantBySubkey(store: SQLTenantStore, token: Option<string>) returns (answer: Option<Tenant>)
    requires store.Valid()
    modifies store`cache
    ensures store.Valid()
    ensures store.Snapshot().db == old(store.Snapshot().db)
    ensures MayResolve(store.text, old(store.Snapshot()), if token.Some? then token.value else "", answer)
  {
    if token.None? || token.value == "" {
      return None;
    }
    var tenants := store.AllTenants();
    var todo := tenants.Keys;
    while todo != {}
      invariant todo <= tenants.Keys
      invariant forall id | id in tenants && id !in todo :: tenants[id].subkey != token.value
      decreases todo
    {
      var id :| id in todo;
      if tenants[id].subkey == token.value {
        return Some(tenants[id]);
      }
      todo := todo - {id};
    }
    return None;
  }
}

/**
 * The price response cache of apps/broker_api/cache.py: time to live, provider fingerprint,
 * capacity with eviction of the oldest entry, and the metadata stamped on every response.
 *
 * The time to live and the capacity are constant; seconds are reals, and the cache age is not
 * rounded. When several entries are equally old, any of them may be the one evicted. Payloads
 * are values here; PayloadIsolation shows that deep copies make the objects behave so.
 */
module ResponseCache {
  import opened Common

  /** A JSON value; an object's fields are in insertion order. */
  datatype Json =
    | Null
    | Flag(b: bool)
    | Number(n: real)
    | Text(s: string)
    | Obj(fields: seq<Field>)

  datatype Field = Field(key: string, value: Json)

  function Find(fields: seq<Field>, key: string): Option<Json> {
    if fields == [] then None
    else if fields[0].key == key then Some(fields[0].value)
    else Find(fields[1..], key)
  }

  /** `d[key] = value`: in place when the key is there, else at the end. */
  function Put(fields: seq<Field>, key: string, value: Json): seq<Field> {
    if fields == [] then [Field(key, value)]
    else if fields[0].key == key then [Field(key, value)] + fields[1..]
    else [fields[0]] + Put(fields[1..], key, value)
  }

  lemma {:induction false} FindAfterPut(fields: seq<Field>, key: string, value: Json, k: string)
    ensures Find(Put(fields, key, value), k) == if k == key then Some(value) else Find(fields, k)
    decreases |fields|
  {
    if fields != [] {
      if fields[0].key == key {
        assert ([Field(key, value)] + fields[1..])[1..] == fields[1..];
      } else {
        FindAfterPut(fields[1..], key, value, k);
        assert ([fields[0]] + Put(fields[1..], key, value))[1..] == Put(fields[1..], key, value);
      }
    }
  }

  // ----- Stamping ---------------------------------------------------------------------------

  /** `dict(payload.get("meta") or {})` */
  function MetaOf(payload: seq<Field>): seq<Field> {
    match Find(payload, "meta")
    case Some(Obj(fields)) => fields
    case _ => []
  }

  function Milliseconds(seconds: real): Json {
    Number((seconds * 1000.0).Floor as real)
  }

  function MetaStored(meta: seq<Field>, now: real): seq<Field> {
    Put(Put(meta, "cacheHit", Flag(false)), "refreshedAt", Milliseconds(now))
  }

  function MetaHit(meta: seq<Field>, ts: real, now: real): seq<Field> {
    Put(Put(Put(meta, "cacheHit", Flag(true)), "cacheAgeMs", Number((now - ts) * 1000.0)),
        "refreshedAt", Milliseconds(now))
  }

  /** What is stored: a copy marked as not from the cache. */
  function StampStored(payload: seq<Field>, now: real): seq<Field> {
    Put(payload, "meta", Obj(MetaStored(MetaOf(payload), now)))
  }

  /** What is handed out: a copy marked as a hit, with its age. */
  function StampHit(payload: seq<Field>, ts: real, now: real): seq<Field> {
    Put(payload, "meta", Obj(MetaHit(MetaOf(payload), ts, now)))
  }

  predicate Freshness(key: string) {
    key == "cacheHit" || key == "cacheAgeMs" || key == "refreshedAt"
  }

  /** The same response but for the three freshness fields of its metadata. */
  ghost predicate SameButFreshness(p: seq<Field>, q: seq<Field>) {
    && (forall k | k != "meta" :: Find(p, k) == Find(q, k))
    && (forall m | !Freshness(m) :: Find(MetaOf(p), m) == Find(MetaOf(q), m))
  }

  lemma {:induction false} MetaAfterStamps(meta: seq<Field>, setAt: real, now: real, m: string)
    ensures Find(MetaHit(MetaStored(meta, setAt), setAt, now), m) ==
            if m == "cacheHit" then Some(Flag(true))
            else if m == "cacheAgeMs" then Some(Number((now - setAt) * 1000.0))
            else if m == "refreshedAt" then Some(Milliseconds(now))
            else Find(meta, m)
  {
    hide Put, Find, Milliseconds;
    var age := Number((now - setAt) * 1000.0);
    var m1 := Put(meta, "cacheHit", Flag(false));
    var m2 := Put(m1, "refreshedAt", Milliseconds(setAt));
    var m3 := Put(m2, "cacheHit", Flag(true));
    var m4 := Put(m3, "cacheAgeMs", age);
    FindAfterPut(meta, "cacheHit", Flag(false), m);
    FindAfterPut(m1, "refreshedAt", Milliseconds(setAt), m);
    FindAfterPut(m2, "cacheHit", Flag(true), m);
    FindAfterPut(m3, "cacheAgeMs", age, m);
    FindAfterPut(m4, "refreshedAt", Milliseconds(now), m);
  }

  lemma {:induction false} PutMeta(payload: seq<Field>, meta: seq<Field>)
    ensures MetaOf(Put(payload, "meta", Obj(meta))) == meta
  {
    FindAfterPut(payload, "meta", Obj(meta), "meta");
  }

  /** What is stored is marked as fresh, and otherwise is the payload. */
  lemma {:induction false} StoredIsMarkedFresh(payload: seq<Field>, now: real)
    ensures SameButFreshness(StampStored(payload, now), payload)
    ensures var meta := MetaOf(StampStored(payload, now));
            && Find(meta, "cacheHit") == Some(Flag(false))
            && Find(meta, "refreshedAt") == Some(Number((now * 1000.0).Floor as real))
  {
    hide Put, Find, MetaOf;
    var given := MetaOf(payload);
    var marked := Put(given, "cacheHit", Flag(false));
    PutMeta(payload, MetaStored(given, now));
    forall m: string
      ensures Find(MetaStored(given, now), m) ==
              if m == "refreshedAt" then Some(Milliseconds(now))
              else if m == "cacheHit" then Some(Flag(false)) else Find(given, m)
    {
      FindAfterPut(given, "cacheHit", Flag(false), m);
      FindAfterPut(marked, "refreshedAt", Milliseconds(now), m);
    }
    forall k: string | k != "meta" ensures Find(StampStored(payload, now), k) == Find(payload, k) {
      FindAfterPut(payload, "meta", Obj(MetaStored(given, now)), k);
    }
  }

  /** Storing a response and handing it out again changes its freshness fields only. */
  lemma {:induction false} StoredThenHit(payload: seq<Field>, setAt: real, now: real)
    ensures SameButFreshness(StampHit(StampStored(payload, setAt), setAt, now), payload)
    ensures var meta := MetaOf(StampHit(StampStored(payload, setAt), setAt, now));
            && Find(meta, "cacheHit") == Some(Flag(true))
            && Find(meta, "cacheAgeMs") == Some(Number((now - setAt) * 1000.0))
            && Find(meta, "refreshedAt") == Some(Number((now * 1000.0).Floor as real))
  {
    hide Put, Find, MetaOf, MetaStored, MetaHit;
    var stored := StampStored(payload, setAt);
    var hit := StampHit(stored, setAt, now);
    var meta := MetaStored(MetaOf(payload), setAt);
    PutMeta(payload, meta);
    PutMeta(stored, MetaHit(meta, setAt, now));
    forall k | k != "meta" ensures Find(hit, k) == Find(payload, k) {
      FindAfterPut(payload, "meta", Obj(meta), k);
      FindAfterPut(stored, "meta", Obj(MetaHit(meta, setAt, now)), k);
    }
    forall m: string ensures !Freshness(m) ==> Find(MetaOf(hit), m) == Find(MetaOf(payload), m) {
      MetaAfterStamps(MetaOf(payload), setAt, now, m);
    }
    MetaAfterStamps(MetaOf(payload), setAt, now, "cacheHit");
    MetaAfterStamps(MetaOf(payload), setAt, now, "cacheAgeMs");
    MetaAfterStamps(MetaOf(payload), setAt, now, "refreshedAt");
  }

  // ----- The cache --------------------------------------------------------------------------

  datatype Entry = Entry(ts: real, payload: seq<Field>, fingerprint: Option<int>)

  type Cache = map<string, Entry>

  /** A capacity of zero means no limit; a time to live of zero switches the cache off. */
  datatype Settings = Settings(ttl: real, capacity: int)

  datatype Op =
    | Set(key: string, now: real, payload: seq<Field>, source: Option<int>)
    | Get(key: string, now: real, expected: Option<int>)

  function Stored(op: Op): Entry
    requires op.Set?
  {
    Entry(op.now, StampStored(op.payload, op.now), op.source)
  }

  predicate IsOldest(c: Cache, key: string) {
    key in c && forall k | k in c :: c[key].ts <= c[k].ts
  }

  predicate Full(s: Settings, c: Cache) {
    s.capacity > 0 && |c| >= s.capacity
  }

  /** Room for one more entry: a full cache gives up one of its oldest entries. */
  ghost predicate MakesRoom(s: Settings, c: Cache, kept: Cache) {
    if Full(s, c) then exists key :: IsOldest(c, key) && kept == c - {key} else kept == c
  }

  /** Neither expired nor from another provider than the one expected. */
  predicate Usable(s: Settings, e: Entry, op: Op)
    requires op.Get?
  {
    op.now - e.ts <= s.ttl && (op.expected.Some? ==> e.fingerprint == op.expected)
  }

  function Answer(s: Settings, c: Cache, op: Op): Option<seq<Field>>
    requires op.Get?
  {
    if s.ttl > 0.0 && op.key in c && Usable(s, c[op.key], op)
    then Some(StampHit(c[op.key].payload, c[op.key].ts, op.now))
    else None
  }

  ghost predicate Next(s: Settings, c: Cache, op: Op, after: Cache) {
    if s.ttl <= 0.0 then after == c
    else if op.Set? then exists kept :: MakesRoom(s, c, kept) && after == kept[op.key := Stored(op)]
    else after == if op.key in c && !Usable(s, c[op.key], op) then c - {op.key} else c
  }

  /** The states an initially empty cache goes through. */
  ghost predicate Trace(s: Settings, ops: seq<Op>, states: seq<Cache>) {
    && |states| == |ops| + 1
    && states[0] == map[]
    && forall i | 0 <= i < |ops| :: Next(s, states[i], ops[i], states[i + 1])
  }

  class PriceCache {
    const s: Settings
    var entries: map<string, Entry>

    constructor (s: Settings)
      ensures this.s == s && entries == map[]
    {
      this.s := s;
      entries := map[];
    }

    /** `min(items, key=timestamp)` */
    method OldestKey() returns (oldest: string)
      requires entries != map[]
      ensures IsOldest(entries, oldest)
    {
      oldest :| oldest in entries.Keys;
      var todo := entries.Keys - {oldest};
      while todo != {}
        invariant oldest in entries && todo <= entries.Keys
        invariant forall k | k in entries && k !in todo :: entries[oldest].ts <= entries[k].ts
        decreases todo
      {
        var k :| k in todo;
        if entries[k].ts < entries[oldest].ts {
          oldest := k;
        }
        todo := todo - {k};
      }
    }

    method SetEntry(op: Op)
      requires op.Set?
      modifies this
      ensures Next(s, old(entries), op, entries)
      ensures s.ttl <= 0.0 ==> entries == old(entries)
      ensures s.ttl > 0.0 ==>
                && op.key in entries
                && entries[op.key] == Entry(op.now, StampStored(op.payload, op.now), op.source)
                && (forall k | k in entries && k != op.key :: k in old(entries) && entries[k] == old(entries)[k])
                && (s.capacity <= 0 || |old(entries)| < s.capacity ==> old(entries).Keys <= entries.Keys)
    {
      if s.ttl <= 0.0 {
        return;
      }
      if s.capacity > 0 && |entries| >= s.capacity {
        var oldest := OldestKey();
        entries := entries - {oldest};
      }
      assert MakesRoom(s, old(entries), entries);
      entries := entries[op.key := Stored(op)];
    }

    method GetEntry(op: Op) returns (answer: Option<seq<Field>>)
      requires op.Get?
      modifies this
      ensures Next(s, old(entries), op, entries)
      ensures answer == Answer(s, old(entries), op)
      ensures var known := s.ttl > 0.0 && op.key in old(entries);
              var usable := known
                            && op.now - old(entries)[op.key].ts <= s.ttl
                            && (op.expected.Some? ==> old(entries)[op.key].fingerprint == op.expected);
              && (answer.Some? <==> usable)
              && entries == if known && !usable then old(entries) - {op.key} else old(entries)
    {
      if s.ttl <= 0.0 || op.key !in entries {
        return None;
      }
      var e := entries[op.key];
      var expired := op.now - e.ts > s.ttl;
      var mismatch := op.expected.Some? && e.fingerprint != op.expected;
      if e.fingerprint.None? && op.expected.Some? {
        mismatch := true;
      }
      if expired || mismatch {
        entries := entries - {op.key};
        return None;
      }
      answer := Some(StampHit(e.payload, e.ts, op.now));
    }
  }

  // ----- Against the history --------------------------------------------------------------------

  /** The latest `Set` of a key among the first `n` operations. */
  function LastSet(ops: seq<Op>, n: nat, key: string): (r: Option<nat>)
    requires n <= |ops|
    ensures r.Some? ==> r.value < n && ops[r.value].Set? && ops[r.value].key == key
    ensures r.Some? ==> forall i | r.value < i < n :: !(ops[i].Set? && ops[i].key == key)
    ensures r.None? ==> forall i | 0 <= i < n :: !(ops[i].Set? && ops[i].key == key)
  {
    if n == 0 then None
    else if ops[n - 1].Set? && ops[n - 1].key == key then Some(n - 1)
    else LastSet(ops, n - 1, key)
  }

  predicate FromHistory(ops: seq<Op>, n: nat, c: Cache)
    requires n <= |ops|
  {
    forall k | k in c :: LastSet(ops, n, k).Some? && c[k] == Stored(ops[LastSet(ops, n, k).value])
  }

  lemma {:induction false} NextKeepsHistory(s: Settings, ops: seq<Op>, n: nat, c: Cache, after: Cache)
    requires n < |ops| && s.ttl > 0.0 && FromHistory(ops, n, c) && Next(s, c, ops[n], after)
    ensures FromHistory(ops, n + 1, after)
  {
    hide Stored, Usable;
    if ops[n].Set? {
      var kept :| MakesRoom(s, c, kept) && after == kept[ops[n].key := Stored(ops[n])];
      forall k | k in after
        ensures LastSet(ops, n + 1, k).Some? && after[k] == Stored(ops[LastSet(ops, n + 1, k).value])
      {
        if k != ops[n].key {
          assert k in c && after[k] == c[k];
        }
      }
    }
  }

  lemma InsertSize(c: Cache, key: string, e: Entry)
    ensures |c[key := e]| <= |c| + 1
  {
    assert c[key := e].Keys == c.Keys + {key};
  }

  lemma RemoveSize(c: Cache, key: string)
    ensures |c - {key}| <= |c|
    ensures key in c ==> |c - {key}| == |c| - 1
  {
    assert (c - {key}).Keys == c.Keys - {key};
  }

  lemma {:induction false} NextKeepsSize(s: Settings, c: Cache, op: Op, after: Cache)
    requires Next(s, c, op, after) && s.capacity > 0 && |c| <= s.capacity
    ensures |after| <= s.capacity
  {
    hide Stored, Usable;
    if s.ttl > 0.0 && op.Set? {
      var kept :| MakesRoom(s, c, kept) && after == kept[op.key := Stored(op)];
      if Full(s, c) {
        var key :| IsOldest(c, key) && kept == c - {key};
        RemoveSize(c, key);
      }
      InsertSize(kept, op.key, Stored(op));
    } else {
      RemoveSize(c, op.key);
    }
  }

  /** After any trace: every entry is the latest set of its key, and the capacity is kept. */
  lemma {:induction false} TraceFromHistory(s: Settings, ops: seq<Op>, states: seq<Cache>, n: nat)
    requires Trace(s, ops, states) && n <= |ops|
    ensures FromHistory(ops, n, states[n])
    ensures s.capacity > 0 ==> |states[n]| <= s.capacity
    ensures s.ttl <= 0.0 ==> states[n] == map[]
    decreases n
  {
    hide Stored, Usable, MakesRoom;
    if n > 0 {
      TraceFromHistory(s, ops, states, n - 1);
      assert Next(s, states[n - 1], ops[n - 1], states[n]);
      if s.capacity > 0 {
        NextKeepsSize(s, states[n - 1], ops[n - 1], states[n]);
      }
      if s.ttl > 0.0 {
        NextKeepsHistory(s, ops, n - 1, states[n - 1], states[n]);
      }
    }
  }

  predicate ClockNeverRunsBack(ops: seq<Op>) {
    forall i, j | 0 <= i < j < |ops| :: ops[i].now <= ops[j].now
  }

  /**
   * Every hit is the response most recently set for that key, but for its freshness fields; it
   * is no older than the time to live, and comes from the expected provider when one is named.
   */
  lemma {:induction false} HitIsLatestSet(s: Settings, ops: seq<Op>, states: seq<Cache>, n: nat)
    requires Trace(s, ops, states) && ClockNeverRunsBack(ops)
    requires n < |ops| && ops[n].Get? && Answer(s, states[n], ops[n]).Some?
    ensures var latest := LastSet(ops, n, ops[n].key);
            && latest.Some?
            && SameButFreshness(Answer(s, states[n], ops[n]).value, ops[latest.value].payload)
            && 0.0 <= ops[n].now - ops[latest.value].now <= s.ttl
            && (ops[n].expected.Some? ==> ops[latest.value].source == ops[n].expected)
  {
    hide SameButFreshness, StampHit, StampStored;
    TraceFromHistory(s, ops, states, n);
    var j := LastSet(ops, n, ops[n].key).value;
    StoredThenHit(ops[j].payload, ops[j].now, ops[n].now);
  }

  // ----- When a hit is certain ------------------------------------------------------------------

  /** How many of the operations `i..j` are sets. */
  function SetCount(ops: seq<Op>, i: nat, j: nat): nat
    requires i <= j <= |ops|
  {
    if i == j then 0 else SetCount(ops, i, j - 1) + if ops[j - 1].Set? then 1 else 0
  }

  predicate SetWithin(ops: seq<Op>, i: nat, j: nat, key: string)
    requires i <= j <= |ops|
  {
    exists m | i <= m < j :: ops[m].Set? && ops[m].key == key
  }

  /** Distinct keys take distinct `Set`s. */
  lemma {:induction false} KeysNeedSets(ops: seq<Op>, i: nat, j: nat, keys: set<string>)
    requires i <= j <= |ops|
    requires forall k | k in keys :: SetWithin(ops, i, j, k)
    ensures |keys| <= SetCount(ops, i, j)
    decreases j
  {
    if i == j {
      assert forall k | k in keys :: SetWithin(ops, i, j, k);
      assert keys == {};
    } else {
      var last := ops[j - 1];
      var rest := if last.Set? then keys - {last.key} else keys;
      forall k | k in rest ensures SetWithin(ops, i, j - 1, k) {
        assert SetWithin(ops, i, j, k);
      }
      KeysNeedSets(ops, i, j - 1, rest);
      if last.Set? && last.key in keys {
        assert keys == rest + {last.key};
      }
    }
  }

  predicate SetsAtDifferentTimes(ops: seq<Op>) {
    forall i, j | 0 <= i < j < |ops| && ops[i].Set? && ops[j].Set? :: ops[i].now < ops[j].now
  }

  lemma LaterSetIsYounger(ops: seq<Op>, i: nat, j: nat)
    requires SetsAtDifferentTimes(ops) && i < |ops| && j < |ops| && ops[i].Set? && ops[j].Set?
    ensures i < j ==> ops[i].now < ops[j].now
  {
  }

  /** An entry set at step `j` is not the oldest while fewer than `capacity` sets followed it. */
  lemma {:induction false} YoungEntryIsNotOldest(s: Settings, ops: seq<Op>, c: Cache, j: nat, i: nat)
    requires s.capacity > 0 && j < i < |ops| && ops[j].Set? && ops[i].Set?
    requires SetsAtDifferentTimes(ops) && FromHistory(ops, i, c) && Full(s, c)
    requires LastSet(ops, i, ops[j].key) == Some(j)
    requires SetCount(ops, j + 1, i + 1) < s.capacity
    ensures !IsOldest(c, ops[j].key)
  {
    hide FromHistory;
    var key := ops[j].key;
    if IsOldest(c, key) {
      var others := (c - {key}).Keys;
      RemoveSize(c, key);
      forall k | k in others ensures SetWithin(ops, j + 1, i, k) {
        OlderThan(ops, i, c, key, k, j);
      }
      assert SetCount(ops, j + 1, i + 1) == SetCount(ops, j + 1, i) + 1;
      KeysNeedSets(ops, j + 1, i, others);
    }
  }

  lemma {:induction false} OlderThan(ops: seq<Op>, i: nat, c: Cache, key: string, k: string, j: nat)
    requires i <= |ops| && FromHistory(ops, i, c) && SetsAtDifferentTimes(ops)
    requires k in c && key in c && k != key && c[key].ts <= c[k].ts
    requires LastSet(ops, i, key) == Some(j)
    ensures SetWithin(ops, j + 1, i, k)
  {
    hide StampStored;
    var at := LastSet(ops, i, k).value;
    LaterSetIsYounger(ops, at, j);
    assert c[key] == Stored(ops[j]) && c[k] == Stored(ops[at]);
    assert at != j;
  }

  /** One operation that neither evicts, drops nor replaces an entry leaves it. */
  lemma {:induction false} StepKeepsEntry(s: Settings, c: Cache, op: Op, after: Cache, key: string)
    requires Next(s, c, op, after) && key in c
    requires op.Set? ==> op.key != key && (Full(s, c) ==> !IsOldest(c, key))
    requires op.Get? && op.key == key ==> Usable(s, c[key], op)
    ensures key in after && after[key] == c[key]
  {
    hide Stored, Usable, IsOldest;
  }

  lemma {:induction false} SetStores(s: Settings, c: Cache, op: Op, after: Cache)
    requires Next(s, c, op, after) && op.Set? && s.ttl > 0.0
    ensures op.key in after && after[op.key] == Stored(op)
  {
    hide Stored, IsOldest;
  }

  lemma {:induction false} EntryStays(s: Settings, ops: seq<Op>, states: seq<Cache>, j: nat, n: nat)
    requires Trace(s, ops, states) && s.ttl > 0.0 && SetsAtDifferentTimes(ops)
    requires j < n <= |ops| && LastSet(ops, n, ops[j].key) == Some(j)
    requires s.capacity > 0 ==> SetCount(ops, j + 1, n) < s.capacity
    requires forall i | j < i < n && ops[i].Get? && ops[i].key == ops[j].key :: Usable(s, Stored(ops[j]), ops[i])
    ensures ops[j].key in states[n] && states[n][ops[j].key] == Stored(ops[j])
    decreases n
  {
    hide Stored, Usable, Next, IsOldest, FromHistory, SetsAtDifferentTimes;
    var key, i := ops[j].key, n - 1;
    assert Next(s, states[i], ops[i], states[n]);
    if i == j {
      SetStores(s, states[i], ops[i], states[n]);
    } else {
      EntryStays(s, ops, states, j, i);
      if ops[i].Set? && Full(s, states[i]) {
        TraceFromHistory(s, ops, states, i);
        YoungEntryIsNotOldest(s, ops, states[i], j, i);
      }
      StepKeepsEntry(s, states[i], ops[i], states[n], key);
    }
  }

  /**
   * A response stays available: if its key was last set at step `j`, fewer than `capacity` sets
   * (of any keys) followed, and no `get` in between came after its time to live or expected
   * another provider, then it is still stored. So a `get` within the time to live that expects
   * no other provider is a hit.
   */
  lemma {:induction false} YoungEntrySurvives(s: Settings, ops: seq<Op>, states: seq<Cache>, j: nat, n: nat)
    requires Trace(s, ops, states) && s.ttl > 0.0 && SetsAtDifferentTimes(ops)
    requires j < n <= |ops| && LastSet(ops, n, ops[j].key) == Some(j)
    requires s.capacity > 0 ==> SetCount(ops, j + 1, n) < s.capacity
    requires forall i | j < i < n && ops[i].Get? && ops[i].key == ops[j].key ::
               && ops[i].now - ops[j].now <= s.ttl
               && (ops[i].expected.Some? ==> ops[j].source == ops[i].expected)
    ensures ops[j].key in states[n] && states[n][ops[j].key] == Stored(ops[j])
    ensures n < |ops| && ops[n].Get? && ops[n].key == ops[j].key
            && ops[n].now - ops[j].now <= s.ttl && (ops[n].expected.Some? ==> ops[j].source == ops[n].expected) ==>
              Answer(s, states[n], ops[n]).Some?
  {
    hide Trace, StampStored, StampHit;
    EntryStays(s, ops, states, j, n);
  }
}

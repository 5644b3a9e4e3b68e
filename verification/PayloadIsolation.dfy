/**
 * The price cache of apps/broker_api/cache.py over mutable objects. A `set` is given an object
 * that the client goes on holding, a `get` hands out an object that the client may change, and
 * between the calls client code may rewrite every object it can reach. The cache deep copies on
 * both sides; these theorems say that it then behaves as ResponseCache describes it, with
 * payloads as values.
 *
 * A payload that is passed in may share parts but has no cycles, so it spells out a JSON value.
 */
module PayloadIsolation {
  import opened Common
  import opened ResponseCache
  import opened DeepCopy

  /** A cache entry, with the object that is kept. */
  datatype Kept = Kept(ts: real, root: Loc, fingerprint: Option<int>) {
    /** As far as the checks of a `get` look at it. */
    function Label(): Entry {
      Entry(ts, [], fingerprint)
    }
  }

  /** The heap, the entries of the cache, and the objects that clients can reach. */
  datatype World = World(heap: Heap, stored: map<string, Kept>, exposed: set<Loc>)

  function Private(w: World): set<Loc> {
    w.heap.objs.Keys - w.exposed
  }

  /** Following references from an exposed object never leaves the exposed objects. */
  predicate Closed(w: World) {
    forall l | l in w.exposed :: l in w.heap.objs && RefsWithin(w.heap.objs[l], w.exposed)
  }

  /** The entry's object spells the payload of the value cache's entry, out of reach of clients. */
  predicate SpellsEntry(w: World, k: Kept, e: Entry) {
    && k.ts == e.ts && k.fingerprint == e.fingerprint
    && Denotes(w.heap, Ref(k.root), Obj(e.payload), Private(w))
  }

  predicate Isolated(w: World, c: Cache) {
    && w.heap.Valid() && Closed(w)
    && w.stored.Keys == c.Keys
    && forall k | k in c :: SpellsEntry(w, w.stored[k], c[k])
  }

  // ----- Steps ------------------------------------------------------------------------------

  /**
   * Client code rewrites an object it can reach, or makes a new one, with references it holds;
   * or it calls the cache. `Store` passes the object at `root`, which spells `op.payload` at that
   * time; `evicted` is the key given up if the cache is full.
   */
  datatype Act =
    | Write(l: Loc, cells: seq<Cell>)
    | Allocate(cells: seq<Cell>)
    | Store(op: Op, root: Loc, evicted: string)
    | Fetch(op: Op)

  predicate FullOfObjects(s: Settings, w: World) {
    s.capacity > 0 && |w.stored| >= s.capacity
  }

  predicate IsOldestKept(w: World, key: string) {
    key in w.stored && forall k | k in w.stored :: w.stored[key].ts <= w.stored[k].ts
  }

  predicate CanDo(s: Settings, w: World, a: Act) {
    match a
    case Write(l, cells) => l in w.exposed && RefsWithin(cells, w.exposed)
    case Allocate(cells) => RefsWithin(cells, w.exposed)
    case Store(op, root, evicted) =>
      && op.Set? && Denotes(w.heap, Ref(root), Obj(op.payload), w.exposed)
      && (FullOfObjects(s, w) ==> IsOldestKept(w, evicted))
    case Fetch(op) => op.Get?
  }

  predicate Hits(s: Settings, w: World, op: Op)
    requires op.Get?
  {
    s.ttl > 0.0 && op.key in w.stored && Usable(s, w.stored[op.key].Label(), op)
  }

  function DoStore(s: Settings, w: World, op: Op, root: Loc, evicted: string): World
    requires op.Set?
  {
    if s.ttl <= 0.0 then w
    else
      var (h, l) := KeepCopy(w.heap, root, op.now);
      var kept := if FullOfObjects(s, w) then w.stored - {evicted} else w.stored;
      World(h, kept[op.key := Kept(op.now, l, op.source)], w.exposed)
  }

  /** What a `get` hands out on a hit, on the heap it leaves behind. */
  function Handed(s: Settings, w: World, op: Op): (Heap, Loc)
    requires op.Get? && Hits(s, w, op)
  {
    HandCopy(w.heap, w.stored[op.key].root, w.stored[op.key].ts, op.now)
  }

  function DoFetch(s: Settings, w: World, op: Op): World
    requires op.Get?
  {
    if Hits(s, w, op) then
      var (h, l) := Handed(s, w, op);
      World(h, w.stored, w.exposed + New(w.heap, h))
    else if s.ttl > 0.0 then w.(stored := w.stored - {op.key})
    else w
  }

  function Do(s: Settings, w: World, a: Act): World
    requires CanDo(s, w, a)
  {
    match a
    case Write(l, cells) => w.(heap := Heap(w.heap.objs[l := cells], w.heap.next))
    case Allocate(cells) =>
      World(Heap(w.heap.objs[w.heap.next := cells], w.heap.next + 1), w.stored, w.exposed + {w.heap.next})
    case Store(op, root, evicted) => DoStore(s, w, op, root, evicted)
    case Fetch(op) => DoFetch(s, w, op)
  }

  // ----- The same cache with payloads as values ---------------------------------------------------

  function AfterSet(s: Settings, c: Cache, op: Op, evicted: string): Cache
    requires op.Set?
  {
    if s.ttl <= 0.0 then c
    else (if Full(s, c) then c - {evicted} else c)[op.key := Stored(op)]
  }

  function AfterGet(s: Settings, c: Cache, op: Op): Cache
    requires op.Get?
  {
    if s.ttl > 0.0 && op.key in c && !Usable(s, c[op.key], op) then c - {op.key} else c
  }

  /** Client code does not change it. */
  function DoValues(s: Settings, c: Cache, a: Act): Cache {
    match a
    case Store(op, _, evicted) => if op.Set? then AfterSet(s, c, op, evicted) else c
    case Fetch(op) => if op.Get? then AfterGet(s, c, op) else c
    case _ => c
  }

  // ----- One step -----------------------------------------------------------------------------

  lemma {:induction false} OthersKeepMeaning(w: World, w': World, k: Kept, e: Entry)
    requires SpellsEntry(w, k, e) && Private(w) <= Private(w')
    requires forall l | l in Private(w) :: l in w'.heap.objs && w'.heap.objs[l] == w.heap.objs[l]
    ensures SpellsEntry(w', k, e)
  {
    FrameKeepsMeaning(w.heap, w'.heap, Ref(k.root), Obj(e.payload), Private(w), Private(w'));
  }

  lemma {:induction false} ClientKeepsIsolation(s: Settings, w: World, c: Cache, a: Act)
    requires Isolated(w, c) && CanDo(s, w, a) && (a.Write? || a.Allocate?)
    ensures Isolated(Do(s, w, a), c)
  {
    hide SpellsEntry;
    var w' := Do(s, w, a);
    forall k | k in c ensures SpellsEntry(w', w'.stored[k], c[k]) {
      OthersKeepMeaning(w, w', w.stored[k], c[k]);
    }
    if a.Allocate? {
      AllocateKeepsHeap(w.heap, a.cells);
    } else {
      assert RefsWithin(a.cells, w.heap.objs.Keys);
      assert w'.heap.objs.Keys == w.heap.objs.Keys;
    }
  }

  lemma AllocateKeepsHeap(h: Heap, cells: seq<Cell>)
    requires h.Valid() && RefsWithin(cells, h.objs.Keys)
    ensures Heap(h.objs[h.next := cells], h.next + 1).Valid()
  {
  }

  lemma {:induction false} SameFullness(s: Settings, w: World, c: Cache)
    requires Isolated(w, c)
    ensures FullOfObjects(s, w) <==> Full(s, c)
    ensures forall k :: IsOldestKept(w, k) <==> IsOldest(c, k)
  {
    assert |w.stored| == |w.stored.Keys| && |c| == |c.Keys|;
    hide Denotes, Closed;
    forall k | k in c ensures w.stored[k].ts == c[k].ts {
      assert SpellsEntry(w, w.stored[k], c[k]);
    }
  }

  /** New objects that clients cannot reach stay out of their reach. */
  lemma {:induction false} GrowthKeepsClosed(w: World, h: Heap, stored: map<string, Kept>)
    requires Closed(w) && Grows(w.heap, h)
    ensures Closed(World(h, stored, w.exposed))
  {
  }

  lemma {:induction false} StoreKeepsIsolation(
    s: Settings, w: World, c: Cache, op: Op, root: Loc, evicted: string)
    requires Isolated(w, c) && CanDo(s, w, Store(op, root, evicted))
    ensures Isolated(DoStore(s, w, op, root, evicted), AfterSet(s, c, op, evicted))
    ensures Next(s, c, op, AfterSet(s, c, op, evicted))
  {
    hide Denotes, KeepCopy, StampStored;
    SameFullness(s, w, c);
    if s.ttl > 0.0 {
      KeepCopySpells(w.heap, root, op.payload, op.now, w.exposed);
      var w' := DoStore(s, w, op, root, evicted);
      var (h, l) := KeepCopy(w.heap, root, op.now);
      GrowthKeepsClosed(w, h, w'.stored);
      var left := if Full(s, c) then c - {evicted} else c;
      assert MakesRoom(s, c, left);
      FrameKeepsMeaning(h, h, Ref(l), Obj(StampStored(op.payload, op.now)), New(w.heap, h), Private(w'));
      forall k | k in left && k != op.key ensures SpellsEntry(w', w'.stored[k], c[k]) {
        OthersKeepMeaning(w, w', w.stored[k], c[k]);
      }
    }
  }

  lemma {:induction false} FetchKeepsIsolation(s: Settings, w: World, c: Cache, op: Op)
    requires Isolated(w, c) && op.Get?
    ensures Isolated(DoFetch(s, w, op), AfterGet(s, c, op))
    ensures Next(s, c, op, AfterGet(s, c, op))
    ensures Hits(s, w, op) <==> Answer(s, c, op).Some?
    ensures Hits(s, w, op) ==>
              var (h, l) := Handed(s, w, op);
              Denotes(h, Ref(l), Obj(Answer(s, c, op).value), New(w.heap, h))
  {
    hide Denotes, HandCopy, StampHit;
    if op.key in c {
      assert SpellsEntry(w, w.stored[op.key], c[op.key]);
    }
    if Hits(s, w, op) {
      var k := w.stored[op.key];
      HandCopySpells(w.heap, k.root, c[op.key].payload, k.ts, op.now, Private(w));
      var w' := DoFetch(s, w, op);
      HandingOutKeepsClosed(w, w'.heap);
      forall k | k in c ensures SpellsEntry(w', w'.stored[k], c[k]) {
        OthersKeepMeaning(w, w', w.stored[k], c[k]);
      }
    } else {
      var w' := DoFetch(s, w, op);
      assert Private(w') == Private(w);
      forall k | k in AfterGet(s, c, op) ensures SpellsEntry(w', w'.stored[k], c[k]) {
        OthersKeepMeaning(w, w', w.stored[k], c[k]);
      }
    }
  }

  lemma HandingOutKeepsClosed(w: World, h: Heap)
    requires Closed(w) && Grows(w.heap, h)
    ensures Closed(World(h, w.stored, w.exposed + New(w.heap, h)))
  {
  }

  // ----- A whole run ----------------------------------------------------------------------------

  /** The world after these acts, if each could be done. */
  function Run(s: Settings, w: World, acts: seq<Act>): Option<World>
    decreases |acts|
  {
    if acts == [] then Some(w)
    else
      var n := |acts| - 1;
      var before := Run(s, w, acts[..n]);
      if before.Some? && CanDo(s, before.value, acts[n]) then Some(Do(s, before.value, acts[n])) else None
  }

  predicate IsCall(a: Act) {
    (a.Store? && a.op.Set?) || (a.Fetch? && a.op.Get?)
  }

  /** The cache calls among the acts. */
  function Calls(acts: seq<Act>): seq<Op> {
    if acts == [] then []
    else
      var n := |acts| - 1;
      Calls(acts[..n]) + if IsCall(acts[n]) then [acts[n].op] else []
  }

  /** What the value cache goes through meanwhile. */
  function Caches(s: Settings, acts: seq<Act>): (states: seq<Cache>)
    ensures |states| == |Calls(acts)| + 1
  {
    if acts == [] then [map[]]
    else
      var n := |acts| - 1;
      var before := Caches(s, acts[..n]);
      before + if IsCall(acts[n]) then [DoValues(s, before[|before| - 1], acts[n])] else []
  }

  function LastCache(s: Settings, acts: seq<Act>): Cache {
    Caches(s, acts)[|Calls(acts)|]
  }

  /** Nothing stored yet; every object there is may be a client's. */
  predicate Start(w: World) {
    w.heap.Valid() && w.stored == map[] && w.exposed == w.heap.objs.Keys
  }

  lemma {:induction false} TraceGrows(s: Settings, ops: seq<Op>, states: seq<Cache>, op: Op, after: Cache)
    requires Trace(s, ops, states) && Next(s, states[|ops|], op, after)
    ensures Trace(s, ops + [op], states + [after])
  {
    hide Next;
    forall i | 0 <= i < |ops| + 1
      ensures Next(s, (states + [after])[i], (ops + [op])[i], (states + [after])[i + 1])
    {
      if i < |ops| {
        assert Next(s, states[i], ops[i], states[i + 1]);
      }
    }
  }

  /**
   * Over any interleaving of cache calls and client code, the objects in the cache spell out
   * exactly what the value cache of ResponseCache holds after the same calls, so changing a
   * payload that was passed in or handed out never changes the cache.
   */
  lemma {:induction false} ClientsCannotChangeTheCache(s: Settings, w: World, acts: seq<Act>)
    requires Start(w) && Run(s, w, acts).Some?
    ensures Trace(s, Calls(acts), Caches(s, acts))
    ensures Isolated(Run(s, w, acts).value, LastCache(s, acts))
    decreases |acts|
  {
    hide Isolated, CanDo, DoStore, DoFetch, AfterSet, AfterGet, Next, Trace;
    if acts == [] {
      StartIsIsolated(s, w);
    } else {
      var n := |acts| - 1;
      ClientsCannotChangeTheCache(s, w, acts[..n]);
      var v, c, a := Run(s, w, acts[..n]).value, LastCache(s, acts[..n]), acts[n];
      if a.Store? {
        assert a.op.Set? by { StoreSets(s, v, a); }
        StoreKeepsIsolation(s, v, c, a.op, a.root, a.evicted);
        TraceGrows(s, Calls(acts[..n]), Caches(s, acts[..n]), a.op, DoValues(s, c, a));
      } else if a.Fetch? {
        assert a.op.Get? by { FetchGets(s, v, a); }
        FetchKeepsIsolation(s, v, c, a.op);
        TraceGrows(s, Calls(acts[..n]), Caches(s, acts[..n]), a.op, DoValues(s, c, a));
      } else {
        ClientKeepsIsolation(s, v, c, a);
        assert Calls(acts) == Calls(acts[..n]) && Caches(s, acts) == Caches(s, acts[..n]);
      }
    }
  }

  lemma StartIsIsolated(s: Settings, w: World)
    requires Start(w)
    ensures Isolated(w, map[]) && Trace(s, [], [map[]])
  {
  }

  lemma StoreSets(s: Settings, w: World, a: Act)
    requires a.Store? && CanDo(s, w, a)
    ensures a.op.Set?
  {
  }

  lemma FetchGets(s: Settings, w: World, a: Act)
    requires a.Fetch? && CanDo(s, w, a)
    ensures a.op.Get?
  {
  }

  /**
   * After any such run, a `get` that hits hands out new objects. They spell what the client's
   * object spelled when it was last passed to `set` for that key, whatever was written since, but
   * for the freshness fields; and it is young enough and from the expected provider.
   */
  lemma {:induction false} HitSpellsLatestSet(s: Settings, w: World, acts: seq<Act>, op: Op)
      returns (answer: seq<Field>)
    requires Start(w) && Run(s, w, acts).Some? && op.Get? && Hits(s, Run(s, w, acts).value, op)
    requires ClockNeverRunsBack(Calls(acts) + [op])
    ensures var v := Run(s, w, acts).value;
            var (h, l) := Handed(s, v, op);
            Denotes(h, Ref(l), Obj(answer), New(v.heap, h))
    ensures var latest := LastSet(Calls(acts) + [op], |Calls(acts)|, op.key);
            && latest.Some?
            && var latestSet := (Calls(acts) + [op])[latest.value];
               && SameButFreshness(answer, latestSet.payload)
               && 0.0 <= op.now - latestSet.now <= s.ttl
               && (op.expected.Some? ==> latestSet.source == op.expected)
  {
    hide Isolated, Trace, Next, Denotes, SameButFreshness, Usable, Handed, AfterGet, Calls, Caches, Run;
    ClientsCannotChangeTheCache(s, w, acts);
    var v, ops, c := Run(s, w, acts).value, Calls(acts), LastCache(s, acts);
    FetchKeepsIsolation(s, v, c, op);
    answer := Answer(s, c, op).value;
    var states := Caches(s, acts);
    TraceGrows(s, ops, states, op, AfterGet(s, c, op));
    HitIsLatestSet(s, ops + [op], states + [AfterGet(s, c, op)], |ops|);
  }
}

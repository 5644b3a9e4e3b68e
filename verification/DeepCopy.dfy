/**
 * Deep copies of mutable payloads: the objects of a response, Python's `copy.deepcopy` over
 * them, and the metadata that apps/broker_api/cache.py writes on a copy.
 *
 * Objects live on a heap and refer to each other, possibly sharing parts. A list is an object
 * keyed by position. The copy keeps a memo of what it has copied, as `deepcopy` does, so it
 * ends on every finite graph and repeats the sharing of the original.
 */
module DeepCopy {
  import opened Common
  import opened ResponseCache

  type Loc = nat

  /** What a dict slot holds: a scalar, or a reference to another dict. */
  datatype Slot = Scalar(value: Json) | Ref(loc: Loc)

  datatype Cell = Cell(key: string, slot: Slot)

  predicate RefsWithin(cells: seq<Cell>, locs: set<Loc>) {
    forall c | c in cells && c.slot.Ref? :: c.slot.loc in locs
  }

  /** Live objects; locations from `next` on have never been used. */
  datatype Heap = Heap(objs: map<Loc, seq<Cell>>, next: Loc) {
    /** Locations not yet used are free, and references never dangle. */
    predicate Valid() {
      forall l | l in objs :: l < next && RefsWithin(objs[l], objs.Keys)
    }

    function CellsAt(l: Loc): seq<Cell> {
      if l in objs then objs[l] else []
    }
  }

  /** The object graph at `slot` spells out `j`, using only objects in `region`. */
  predicate Denotes(h: Heap, slot: Slot, j: Json, region: set<Loc>)
    decreases j
  {
    match j
    case Obj(fields) =>
      && slot.Ref? && slot.loc in region && slot.loc in h.objs
      && |h.objs[slot.loc]| == |fields|
      && forall i | 0 <= i < |fields| ::
           && h.objs[slot.loc][i].key == fields[i].key
           && Denotes(h, h.objs[slot.loc][i].slot, fields[i].value, region)
    case _ => slot == Scalar(j)
  }

  /** Nothing an observer outside `region` does can change what is spelled out inside it. */
  lemma {:induction false} FrameKeepsMeaning(
    h: Heap, h': Heap, slot: Slot, j: Json, region: set<Loc>, region': set<Loc>)
    requires Denotes(h, slot, j, region) && region <= region'
    requires forall l | l in region && l in h.objs :: l in h'.objs && h'.objs[l] == h.objs[l]
    ensures Denotes(h', slot, j, region')
    decreases j
  {
    if j.Obj? {
      forall i | 0 <= i < |j.fields|
        ensures Denotes(h', h'.objs[slot.loc][i].slot, j.fields[i].value, region')
      {
        FrameKeepsMeaning(h, h', h.objs[slot.loc][i].slot, j.fields[i].value, region, region');
      }
    }
  }

  lemma {:induction false} MeaningIsUnique(h: Heap, slot: Slot, j: Json, k: Json, region: set<Loc>)
    requires Denotes(h, slot, j, region) && Denotes(h, slot, k, region)
    ensures j == k
    decreases j
  {
    if j.Obj? && k.Obj? {
      forall i | 0 <= i < |j.fields| ensures j.fields[i] == k.fields[i] {
        MeaningIsUnique(h, h.objs[slot.loc][i].slot, j.fields[i].value, k.fields[i].value, region);
      }
      assert j.fields == k.fields;
    }
  }

  // ----- The copy ---------------------------------------------------------------------------

  /** A copy under way: the memo says where the copy of each object is. */
  datatype Copying = Copying(heap: Heap, memo: map<Loc, Loc>)

  /** Copy what `slot` holds; `src` is the heap as it was before the copy began. */
  function CopySlot(src: Heap, c: Copying, slot: Slot): (r: (Copying, Slot))
    ensures c.memo.Keys <= r.0.memo.Keys
    decreases src.objs.Keys - c.memo.Keys, 0, 0
  {
    if slot.Scalar? || slot.loc !in src.objs then (c, slot)
    else if slot.loc in c.memo then (c, Ref(c.memo[slot.loc]))
    else
      var y := c.heap.next;
      var started := Copying(Heap(c.heap.objs[y := []], y + 1), c.memo[slot.loc := y]);
      assert slot.loc in src.objs.Keys - c.memo.Keys && slot.loc in started.memo.Keys;
      var (done, cells) := CopyCells(src, started, src.objs[slot.loc], |src.objs[slot.loc]|);
      (Copying(Heap(done.heap.objs[y := cells], done.heap.next), done.memo), Ref(y))
  }

  /** Copy the first `n` of these cells. */
  function CopyCells(src: Heap, c: Copying, cells: seq<Cell>, n: nat): (r: (Copying, seq<Cell>))
    requires n <= |cells|
    ensures c.memo.Keys <= r.0.memo.Keys
    decreases src.objs.Keys - c.memo.Keys, 1, n
  {
    if n == 0 then (c, [])
    else
      var (c1, front) := CopyCells(src, c, cells, n - 1);
      assert src.objs.Keys - c1.memo.Keys <= src.objs.Keys - c.memo.Keys;
      var (c2, slot) := CopySlot(src, c1, cells[n - 1].slot);
      (c2, front + [Cell(cells[n - 1].key, slot)])
  }

  /** `copy.deepcopy` */
  function DeepCopy(h: Heap, slot: Slot): (Heap, Slot) {
    var (c, copy) := CopySlot(h, Copying(h, map[]), slot);
    (c.heap, copy)
  }

  // ----- What holds while copying ----------------------------------------------------------------

  function MapSlot(slot: Slot, memo: map<Loc, Loc>): Slot {
    if slot.Ref? && slot.loc in memo then Ref(memo[slot.loc]) else slot
  }

  predicate Memoed(slot: Slot, memo: map<Loc, Loc>) {
    slot.Ref? ==> slot.loc in memo
  }

  /** The same cells, with every reference turned to the copy. */
  predicate IsImage(cells: seq<Cell>, copy: seq<Cell>, memo: map<Loc, Loc>) {
    && |copy| == |cells|
    && forall i | 0 <= i < |cells| ::
         Memoed(cells[i].slot, memo) && copy[i] == Cell(cells[i].key, MapSlot(cells[i].slot, memo))
  }

  /** The originals are as they were, and copies are at new locations. */
  predicate OriginalsKept(src: Heap, c: Copying) {
    && src.next <= c.heap.next
    && (forall l | l in c.heap.objs :: l < c.heap.next)
    && (forall l | l in src.objs :: l in c.heap.objs && c.heap.objs[l] == src.objs[l])
    && (forall l | l in c.memo :: l in src.objs && c.memo[l] in c.heap.objs && src.next <= c.memo[l])
    && (forall l | l in c.heap.objs && l !in src.objs :: l in c.memo.Values)
  }

  predicate Injective(memo: map<Loc, Loc>) {
    forall k, l | k in memo && l in memo && k != l :: memo[k] != memo[l]
  }

  /** Every object copied, but for those still open, has its image in place. */
  predicate Imaged(src: Heap, c: Copying, open: set<Loc>) {
    forall l | l in c.memo && l !in open ::
      l in src.objs && c.memo[l] in c.heap.objs && IsImage(src.objs[l], c.heap.objs[c.memo[l]], c.memo)
  }

  predicate Copied(src: Heap, c: Copying, open: set<Loc>) {
    OriginalsKept(src, c) && Injective(c.memo) && Imaged(src, c, open)
  }

  predicate MemoGrows(c: Copying, d: Copying) {
    forall l | l in c.memo :: l in d.memo && d.memo[l] == c.memo[l]
  }

  lemma ImageSurvives(cells: seq<Cell>, copy: seq<Cell>, c: Copying, d: Copying)
    requires IsImage(cells, copy, c.memo) && MemoGrows(c, d)
    ensures IsImage(cells, copy, d.memo)
  {
  }

  lemma NothingImaged(memo: map<Loc, Loc>)
    ensures IsImage([], [], memo)
  {
  }

  lemma ImageLonger(cells: seq<Cell>, n: nat, front: seq<Cell>, memo: map<Loc, Loc>)
    requires n < |cells| && IsImage(cells[..n], front, memo) && Memoed(cells[n].slot, memo)
    ensures IsImage(cells[..n + 1], front + [Cell(cells[n].key, MapSlot(cells[n].slot, memo))], memo)
  {
  }

  /** An object is entered in the memo before its cells are copied. */
  lemma {:induction false} StartKeepsCopied(src: Heap, c: Copying, l: Loc, open: set<Loc>)
    requires Copied(src, c, open) && l in src.objs && l !in c.memo
    ensures var y := c.heap.next;
            var started := Copying(Heap(c.heap.objs[y := []], y + 1), c.memo[l := y]);
            Copied(src, started, open + {l}) && MemoGrows(c, started)
  {
    hide IsImage;
    var y := c.heap.next;
    var started := Copying(Heap(c.heap.objs[y := []], y + 1), c.memo[l := y]);
    assert started.memo[l] == y;
    forall m | m in started.heap.objs && m !in src.objs ensures m in started.memo.Values {
      if m != y {
        var k :| k in c.memo && c.memo[k] == m;
        assert started.memo[k] == m;
      }
    }
    forall k | k in started.memo && k !in open + {l}
      ensures IsImage(src.objs[k], started.heap.objs[started.memo[k]], started.memo)
    {
      ImageSurvives(src.objs[k], c.heap.objs[c.memo[k]], c, started);
    }
  }

  /** And filled in when they are. */
  lemma {:induction false} FinishKeepsCopied(src: Heap, d: Copying, l: Loc, cells: seq<Cell>, open: set<Loc>)
    requires src.Valid() && Copied(src, d, open + {l}) && l in d.memo && IsImage(src.objs[l], cells, d.memo)
    ensures Copied(src, Copying(Heap(d.heap.objs[d.memo[l] := cells], d.heap.next), d.memo), open)
  {
    hide IsImage;
    var done := Copying(Heap(d.heap.objs[d.memo[l] := cells], d.heap.next), d.memo);
    forall k | k in done.memo && k !in open
      ensures k in src.objs && done.memo[k] in done.heap.objs
      ensures IsImage(src.objs[k], done.heap.objs[done.memo[k]], done.memo)
    {
      if k != l {
        assert done.memo[k] != done.memo[l];
        assert k !in open + {l};
      }
    }
  }

  lemma {:induction false} CopySlotWorks(src: Heap, c: Copying, slot: Slot, open: set<Loc>)
    requires src.Valid() && (slot.Ref? ==> slot.loc in src.objs) && Copied(src, c, open)
    ensures var (d, copy) := CopySlot(src, c, slot);
            && Copied(src, d, open) && MemoGrows(c, d)
            && Memoed(slot, d.memo) && copy == MapSlot(slot, d.memo)
    decreases src.objs.Keys - c.memo.Keys, 0, 0
  {
    hide Copied, IsImage;
    if slot.Ref? && slot.loc !in c.memo {
      var l, y := slot.loc, c.heap.next;
      var started := Copying(Heap(c.heap.objs[y := []], y + 1), c.memo[l := y]);
      StartKeepsCopied(src, c, l, open);
      assert l in src.objs.Keys - c.memo.Keys && l in started.memo.Keys;
      CopyCellsWork(src, started, src.objs[l], |src.objs[l]|, open + {l});
      var (done, cells) := CopyCells(src, started, src.objs[l], |src.objs[l]|);
      assert src.objs[l][..|src.objs[l]|] == src.objs[l];
      assert done.memo[l] == y;
      FinishKeepsCopied(src, done, l, cells, open);
    }
  }

  lemma {:induction false} CopyCellsWork(src: Heap, c: Copying, cells: seq<Cell>, n: nat, open: set<Loc>)
    requires src.Valid() && n <= |cells| && RefsWithin(cells, src.objs.Keys) && Copied(src, c, open)
    ensures var (d, copy) := CopyCells(src, c, cells, n);
            Copied(src, d, open) && MemoGrows(c, d) && IsImage(cells[..n], copy, d.memo)
    decreases src.objs.Keys - c.memo.Keys, 1, n
  {
    hide Copied, IsImage, MapSlot;
    if n == 0 {
      NothingImaged(c.memo);
    } else {
      CopyCellsWork(src, c, cells, n - 1, open);
      var (c1, front) := CopyCells(src, c, cells, n - 1);
      assert src.objs.Keys - c1.memo.Keys <= src.objs.Keys - c.memo.Keys;
      assert cells[n - 1] in cells;
      CopySlotWorks(src, c1, cells[n - 1].slot, open);
      var (c2, slot) := CopySlot(src, c1, cells[n - 1].slot);
      ImageSurvives(cells[..n - 1], front, c1, c2);
      ImageLonger(cells, n - 1, front, c2.memo);
    }
  }

  // ----- What a copy is -----------------------------------------------------------------------

  /** The objects `h'` has and `h` has not. */
  function New(h: Heap, h': Heap): set<Loc> {
    h'.objs.Keys - h.objs.Keys
  }

  /** `h'` is `h` with some more objects, which refer only to each other. */
  predicate Grows(h: Heap, h': Heap) {
    && h'.Valid()
    && (forall l | l in h.objs :: l in h'.objs && h'.objs[l] == h.objs[l])
    && (forall l | l in New(h, h') :: RefsWithin(h'.objs[l], New(h, h')))
  }

  /** An image spells what the original spells, in copies only. */
  lemma {:induction false} ImageSpells(src: Heap, c: Copying, slot: Slot, j: Json, region: set<Loc>)
    requires src.Valid() && Copied(src, c, {}) && Denotes(src, slot, j, region) && Memoed(slot, c.memo)
    ensures Denotes(c.heap, MapSlot(slot, c.memo), j, New(src, c.heap))
    decreases j
  {
    if j.Obj? {
      var cells, copy := src.objs[slot.loc], c.heap.objs[c.memo[slot.loc]];
      assert IsImage(cells, copy, c.memo);
      forall i | 0 <= i < |j.fields|
        ensures Denotes(c.heap, copy[i].slot, j.fields[i].value, New(src, c.heap))
      {
        ImageSpells(src, c, cells[i].slot, j.fields[i].value, region);
      }
    }
  }

  lemma {:induction false} CopiedGrows(src: Heap, c: Copying)
    requires src.Valid() && Copied(src, c, {})
    ensures Grows(src, c.heap)
  {
    forall l | l in New(src, c.heap) ensures RefsWithin(c.heap.objs[l], New(src, c.heap)) {
      var k :| k in c.memo && c.memo[k] == l;
      assert IsImage(src.objs[k], c.heap.objs[l], c.memo);
    }
    forall l | l in c.heap.objs ensures RefsWithin(c.heap.objs[l], c.heap.objs.Keys) {
      if l !in src.objs {
        assert l in New(src, c.heap);
      }
    }
  }

  lemma NothingCopied(h: Heap)
    requires h.Valid()
    ensures Copied(h, Copying(h, map[]), {})
  {
  }

  /**
   * A deep copy is made of new objects only, which refer only to each other, and it spells the
   * same value as the original; the original and everything else stay as they were.
   */
  lemma {:induction false} DeepCopySpellsTheSame(h: Heap, slot: Slot, j: Json, region: set<Loc>)
    requires h.Valid() && Denotes(h, slot, j, region)
    ensures var (h', copy) := DeepCopy(h, slot);
            Grows(h, h') && Denotes(h', copy, j, New(h, h'))
  {
    hide Copied;
    NothingCopied(h);
    CopySlotWorks(h, Copying(h, map[]), slot, {});
    var (c, copy) := CopySlot(h, Copying(h, map[]), slot);
    CopiedGrows(h, c);
    ImageSpells(h, c, slot, j, region);
  }

  /** Sharing and cycles are repeated: the copies are a one-to-one image of what was copied. */
  lemma {:induction false} DeepCopyIsIsomorphic(h: Heap, slot: Slot) returns (memo: map<Loc, Loc>)
    requires h.Valid() && (slot.Ref? ==> slot.loc in h.objs)
    ensures var (h', copy) := DeepCopy(h, slot);
            && Grows(h, h') && New(h, h') == memo.Values && Injective(memo)
            && Memoed(slot, memo) && copy == MapSlot(slot, memo)
            && forall l | l in memo :: l in h.objs && IsImage(h.objs[l], h'.CellsAt(memo[l]), memo)
  {
    NothingCopied(h);
    CopySlotWorks(h, Copying(h, map[]), slot, {});
    var (c, copy) := CopySlot(h, Copying(h, map[]), slot);
    CopiedGrows(h, c);
    memo := c.memo;
  }

  // ----- Writing the metadata on a copy ----------------------------------------------------------

  function FindCell(cells: seq<Cell>, key: string): Option<Slot> {
    if cells == [] then None
    else if cells[0].key == key then Some(cells[0].slot)
    else FindCell(cells[1..], key)
  }

  function PutCell(cells: seq<Cell>, key: string, slot: Slot): seq<Cell> {
    if cells == [] then [Cell(key, slot)]
    else if cells[0].key == key then [Cell(key, slot)] + cells[1..]
    else [cells[0]] + PutCell(cells[1..], key, slot)
  }

  /** `snapshot.get("meta") or {}` */
  function MetaCells(h: Heap, cells: seq<Cell>): seq<Cell> {
    var meta := FindCell(cells, "meta");
    if meta.Some? && meta.value.Ref? then h.CellsAt(meta.value.loc) else []
  }

  /** `snapshot["meta"] = meta`, for a new dict of these cells. */
  function SetMeta(h: Heap, root: Loc, meta: seq<Cell>): Heap {
    Heap(h.objs[h.next := meta][root := PutCell(h.CellsAt(root), "meta", Ref(h.next))], h.next + 1)
  }

  function StoredCells(meta: seq<Cell>, now: real): seq<Cell> {
    PutCell(PutCell(meta, "cacheHit", Scalar(Flag(false))), "refreshedAt", Scalar(Milliseconds(now)))
  }

  function HitCells(meta: seq<Cell>, ts: real, now: real): seq<Cell> {
    PutCell(PutCell(PutCell(meta, "cacheHit", Scalar(Flag(true))),
                    "cacheAgeMs", Scalar(Number((now - ts) * 1000.0))),
            "refreshedAt", Scalar(Milliseconds(now)))
  }

  /** The cells spell out these fields. */
  predicate Spells(h: Heap, cells: seq<Cell>, fields: seq<Field>, region: set<Loc>) {
    && |cells| == |fields|
    && forall i | 0 <= i < |fields| ::
         cells[i].key == fields[i].key && Denotes(h, cells[i].slot, fields[i].value, region)
  }

  lemma SpellsLonger(h: Heap, c: Cell, cells: seq<Cell>, f: Field, fields: seq<Field>, region: set<Loc>)
    requires Spells(h, cells, fields, region) && c.key == f.key && Denotes(h, c.slot, f.value, region)
    ensures Spells(h, [c] + cells, [f] + fields, region)
  {
    hide Denotes;
  }

  lemma {:induction false} PutCellSpells(
    h: Heap, cells: seq<Cell>, fields: seq<Field>, region: set<Loc>, key: string, slot: Slot, value: Json)
    requires Spells(h, cells, fields, region) && Denotes(h, slot, value, region)
    ensures Spells(h, PutCell(cells, key, slot), Put(fields, key, value), region)
    decreases |cells|
  {
    hide Denotes;
    if cells != [] {
      var put := if cells[0].key == key then cells[1..] else PutCell(cells[1..], key, slot);
      var fits := if cells[0].key == key then fields[1..] else Put(fields[1..], key, value);
      if cells[0].key != key {
        PutCellSpells(h, cells[1..], fields[1..], region, key, slot, value);
      }
      var first := if cells[0].key == key then Cell(key, slot) else cells[0];
      var field := if cells[0].key == key then Field(key, value) else fields[0];
      SpellsLonger(h, first, put, field, fits, region);
    }
  }

  lemma {:induction false} FindCellSpells(
    h: Heap, cells: seq<Cell>, fields: seq<Field>, region: set<Loc>, key: string) returns (i: nat)
    requires Spells(h, cells, fields, region)
    ensures FindCell(cells, key).None? ==> Find(fields, key).None?
    ensures FindCell(cells, key).Some? ==> i < |fields| && Find(fields, key) == Some(fields[i].value)
                                           && FindCell(cells, key).value == cells[i].slot
    decreases |cells|
  {
    hide Denotes;
    i := 0;
    if cells != [] && cells[0].key != key {
      var k := FindCellSpells(h, cells[1..], fields[1..], region, key);
      i := k + 1;
    }
  }

  lemma {:induction false} PutCellRefs(cells: seq<Cell>, key: string, slot: Slot, locs: set<Loc>)
    requires RefsWithin(cells, locs) && (slot.Ref? ==> slot.loc in locs)
    ensures RefsWithin(PutCell(cells, key, slot), locs)
    decreases |cells|
  {
    if cells != [] && cells[0].key != key {
      PutCellRefs(cells[1..], key, slot, locs);
    }
  }

  /** A proper part of what `root` spells does not pass through `root`, so it survives a change there. */
  lemma {:induction false} PartSurvives(
    h: Heap, h': Heap, root: Loc, whole: Json, slot: Slot, part: Json, region: set<Loc>, region': set<Loc>)
    requires Denotes(h, Ref(root), whole, region) && Denotes(h, slot, part, region) && part < whole
    requires region <= region'
    requires forall l | l in region && l in h.objs && l != root :: l in h'.objs && h'.objs[l] == h.objs[l]
    ensures Denotes(h', slot, part, region')
    decreases part
  {
    if part.Obj? {
      if slot.loc == root {
        MeaningIsUnique(h, slot, part, whole, region);
        assert false;
      }
      forall i | 0 <= i < |part.fields|
        ensures Denotes(h', h'.objs[slot.loc][i].slot, part.fields[i].value, region')
      {
        PartSurvives(h, h', root, whole, h.objs[slot.loc][i].slot, part.fields[i].value, region, region');
      }
    }
  }

  /** Given new metadata that spells `metaFields`, the object spells its fields with them put in. */
  lemma {:induction false} SetMetaSpells(
    h: Heap, root: Loc, fields: seq<Field>, region: set<Loc>, meta: seq<Cell>, metaFields: seq<Field>)
    requires h.Valid() && Denotes(h, Ref(root), Obj(fields), region) && region <= h.objs.Keys
    requires Spells(SetMeta(h, root, meta), meta, metaFields, region + {h.next})
    ensures Denotes(SetMeta(h, root, meta), Ref(root), Obj(Put(fields, "meta", Obj(metaFields))), region + {h.next})
  {
    var h', region' := SetMeta(h, root, meta), region + {h.next};
    var cells := h.objs[root];
    forall i | 0 <= i < |fields| ensures Denotes(h', cells[i].slot, fields[i].value, region') {
      PartSurvives(h, h', root, Obj(fields), cells[i].slot, fields[i].value, region, region');
    }
    assert Denotes(h', Ref(h.next), Obj(metaFields), region');
    PutCellSpells(h', cells, fields, region', "meta", Ref(h.next), Obj(metaFields));
  }

  /** The old metadata still spell what they did, whatever new metadata are set. */
  lemma {:induction false} OldMetaSpells(h: Heap, root: Loc, fields: seq<Field>, region: set<Loc>, meta: seq<Cell>)
    requires h.Valid() && Denotes(h, Ref(root), Obj(fields), region) && region <= h.objs.Keys
    ensures Spells(SetMeta(h, root, meta), MetaCells(h, h.objs[root]), MetaOf(fields), region + {h.next})
  {
    var h', region' := SetMeta(h, root, meta), region + {h.next};
    var cells := h.objs[root];
    var k := FindCellSpells(h, cells, fields, region, "meta");
    if FindCell(cells, "meta").Some? && fields[k].value.Obj? {
      var earlier := fields[k].value;
      forall i | 0 <= i < |earlier.fields|
        ensures Denotes(h', h.objs[cells[k].slot.loc][i].slot, earlier.fields[i].value, region')
      {
        assert earlier.fields[i].value < earlier < Obj(fields);
        PartSurvives(h, h', root, Obj(fields), h.objs[cells[k].slot.loc][i].slot, earlier.fields[i].value,
                     region, region');
      }
    }
  }

  // ----- The two copies the cache makes ---------------------------------------------------------

  /** `prices_cache_set`: a deep copy, marked as not from the cache. */
  function KeepCopy(h: Heap, root: Loc, now: real): (Heap, Loc) {
    var (h1, copy) := DeepCopy(h, Ref(root));
    var l := if copy.Ref? then copy.loc else root;
    (SetMeta(h1, l, StoredCells(MetaCells(h1, h1.CellsAt(l)), now)), l)
  }

  /** `prices_cache_get`: a deep copy, marked as a hit. */
  function HandCopy(h: Heap, root: Loc, ts: real, now: real): (Heap, Loc) {
    var (h1, copy) := DeepCopy(h, Ref(root));
    var l := if copy.Ref? then copy.loc else root;
    (SetMeta(h1, l, HitCells(MetaCells(h1, h1.CellsAt(l)), ts, now)), l)
  }

  /** Setting metadata on a new object, with references to new objects only, adds one object. */
  lemma {:induction false} SetMetaGrows(h: Heap, h1: Heap, root: Loc, meta: seq<Cell>)
    requires h.Valid() && Grows(h, h1) && root in New(h, h1) && RefsWithin(meta, New(h, h1))
    ensures Grows(h, SetMeta(h1, root, meta))
    ensures New(h, SetMeta(h1, root, meta)) == New(h, h1) + {h1.next}
  {
    var h2 := SetMeta(h1, root, meta);
    assert h1.next !in h1.objs;
    assert New(h, h2) == New(h, h1) + {h1.next};
    PutCellRefs(h1.objs[root], "meta", Ref(h1.next), New(h, h2));
  }

  lemma {:induction false} MetaCellsAreNew(h: Heap, h1: Heap, root: Loc)
    requires Grows(h, h1) && root in New(h, h1)
    ensures RefsWithin(MetaCells(h1, h1.objs[root]), New(h, h1))
  {
    FindCellIsThere(h1.objs[root], "meta");
  }

  lemma {:induction false} FindCellIsThere(cells: seq<Cell>, key: string)
    ensures FindCell(cells, key).Some? ==> Cell(key, FindCell(cells, key).value) in cells
    decreases |cells|
  {
    if cells != [] && cells[0].key != key {
      FindCellIsThere(cells[1..], key);
    }
  }

  /** What is kept: new objects only, spelling the payload as the cache stores it. */
  lemma {:induction false} KeepCopySpells(h: Heap, root: Loc, fields: seq<Field>, now: real, region: set<Loc>)
    requires h.Valid() && Denotes(h, Ref(root), Obj(fields), region)
    ensures var (h', l) := KeepCopy(h, root, now);
            Grows(h, h') && Denotes(h', Ref(l), Obj(StampStored(fields, now)), New(h, h'))
  {
    hide Put, PutCell, DeepCopy, FindCell, MetaOf, MetaCells, Milliseconds;
    DeepCopySpellsTheSame(h, Ref(root), Obj(fields), region);
    var (h1, copy) := DeepCopy(h, Ref(root));
    var earlier := MetaCells(h1, h1.objs[copy.loc]);
    var meta := StoredCells(earlier, now);
    var h', added := SetMeta(h1, copy.loc, meta), New(h, h1);
    MetaCellsAreNew(h, h1, copy.loc);
    PutCellRefs(earlier, "cacheHit", Scalar(Flag(false)), added);
    PutCellRefs(PutCell(earlier, "cacheHit", Scalar(Flag(false))), "refreshedAt", Scalar(Milliseconds(now)), added);
    SetMetaGrows(h, h1, copy.loc, meta);
    OldMetaSpells(h1, copy.loc, fields, added, meta);
    StoredCellsSpell(h', earlier, MetaOf(fields), now, New(h, h'));
    SetMetaSpells(h1, copy.loc, fields, added, meta, MetaStored(MetaOf(fields), now));
  }

  lemma {:induction false} StoredCellsSpell(
    h: Heap, earlier: seq<Cell>, fields: seq<Field>, now: real, region: set<Loc>)
    requires Spells(h, earlier, fields, region)
    ensures Spells(h, StoredCells(earlier, now), MetaStored(fields, now), region)
  {
    hide Put, PutCell, Spells;
    PutCellSpells(h, earlier, fields, region, "cacheHit", Scalar(Flag(false)), Flag(false));
    PutCellSpells(h, PutCell(earlier, "cacheHit", Scalar(Flag(false))), Put(fields, "cacheHit", Flag(false)), region,
                  "refreshedAt", Scalar(Milliseconds(now)), Milliseconds(now));
  }

  lemma {:induction false} HitCellsSpell(
    h: Heap, earlier: seq<Cell>, fields: seq<Field>, ts: real, now: real, region: set<Loc>)
    requires Spells(h, earlier, fields, region)
    ensures Spells(h, HitCells(earlier, ts, now), MetaHit(fields, ts, now), region)
  {
    hide Put, PutCell, Spells;
    var age := Number((now - ts) * 1000.0);
    PutCellSpells(h, earlier, fields, region, "cacheHit", Scalar(Flag(true)), Flag(true));
    var cells, marked := PutCell(earlier, "cacheHit", Scalar(Flag(true))), Put(fields, "cacheHit", Flag(true));
    PutCellSpells(h, cells, marked, region, "cacheAgeMs", Scalar(age), age);
    PutCellSpells(h, PutCell(cells, "cacheAgeMs", Scalar(age)), Put(marked, "cacheAgeMs", age), region,
                  "refreshedAt", Scalar(Milliseconds(now)), Milliseconds(now));
  }

  lemma {:induction false} HitCellsAreNew(earlier: seq<Cell>, ts: real, now: real, locs: set<Loc>)
    requires RefsWithin(earlier, locs)
    ensures RefsWithin(HitCells(earlier, ts, now), locs)
  {
    hide RefsWithin, PutCell;
    var age := Scalar(Number((now - ts) * 1000.0));
    PutCellRefs(earlier, "cacheHit", Scalar(Flag(true)), locs);
    var cells := PutCell(earlier, "cacheHit", Scalar(Flag(true)));
    PutCellRefs(cells, "cacheAgeMs", age, locs);
    PutCellRefs(PutCell(cells, "cacheAgeMs", age), "refreshedAt", Scalar(Milliseconds(now)), locs);
  }

  /** What is handed out: new objects only, spelling the stored payload marked as a hit. */
  lemma {:induction false} HandCopySpells(
    h: Heap, root: Loc, fields: seq<Field>, ts: real, now: real, region: set<Loc>)
    requires h.Valid() && Denotes(h, Ref(root), Obj(fields), region)
    ensures var (h', l) := HandCopy(h, root, ts, now);
            Grows(h, h') && Denotes(h', Ref(l), Obj(StampHit(fields, ts, now)), New(h, h'))
  {
    hide Put, PutCell, DeepCopy, FindCell, MetaOf, MetaCells, Milliseconds;
    DeepCopySpellsTheSame(h, Ref(root), Obj(fields), region);
    var (h1, copy) := DeepCopy(h, Ref(root));
    var earlier := MetaCells(h1, h1.objs[copy.loc]);
    var meta := HitCells(earlier, ts, now);
    var h', added := SetMeta(h1, copy.loc, meta), New(h, h1);
    MetaCellsAreNew(h, h1, copy.loc);
    HitCellsAreNew(earlier, ts, now, added);
    SetMetaGrows(h, h1, copy.loc, meta);
    OldMetaSpells(h1, copy.loc, fields, added, meta);
    HitCellsSpell(h', earlier, MetaOf(fields), ts, now, New(h, h'));
    SetMetaSpells(h1, copy.loc, fields, added, meta, MetaHit(MetaOf(fields), ts, now));
  }
}

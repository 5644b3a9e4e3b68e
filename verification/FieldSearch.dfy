/**
 * The nested field search of apps/broker_api/config.py: an explicit stack and a set of
 * visited identities, over Python objects that may be shared or form cycles.
 *
 * The object graph is a finite heap that the search only reads. `VisitAll` is the recursive
 * depth-first search that carries the visited set; the loop is proved equal to it on every
 * graph, and the theorems then say what that search returns.
 */
module FieldSearch {
  import opened Common

  type Ref = nat
  type NonEmptyText = s: string | |s| > 0 witness "0"

  /** A Python value: `Number` is an int or float (its `str`), `Opaque` is a bool, None, ... */
  datatype Value = Str(s: string) | Number(shown: NonEmptyText) | Container(ref: Ref) | Opaque

  datatype Entry = Entry(key: string, value: Value)

  /** A container object: a dict, or a list, tuple or set. */
  datatype Node = Dict(entries: seq<Entry>) | Items(items: seq<Value>)

  type Heap = map<Ref, Node>

  /** In the order of insertion. */
  function ValuesOf(node: Node): (vs: seq<Value>)
    ensures node.Dict? ==>
              |vs| == |node.entries| && forall i | 0 <= i < |vs| :: vs[i] == node.entries[i].value
    ensures node.Items? ==> vs == node.items
  {
    match node
    case Dict(entries) => seq(|entries|, i requires 0 <= i < |entries| => entries[i].value)
    case Items(items) => items
  }

  predicate Resolves(h: Heap, v: Value) {
    v.Container? ==> v.ref in h
  }

  predicate UniqueKeys(entries: seq<Entry>) {
    forall i, j | 0 <= i < j < |entries| :: entries[i].key != entries[j].key
  }

  /** Python gives both for free: references never dangle, and a dict key occurs once. */
  predicate WellFormed(h: Heap) {
    forall r | r in h ::
      && (forall v | v in ValuesOf(h[r]) :: Resolves(h, v))
      && (h[r].Dict? ==> UniqueKeys(h[r].entries))
  }

  // ----- One dict ------------------------------------------------------------------------

  predicate Usable(v: Value) {
    (v.Str? && Strip(v.s) != "") || v.Number?
  }

  function TextOf(v: Value): (r: string)
    requires Usable(v)
    ensures r != ""
  {
    if v.Str? then Strip(v.s) else v.shown
  }

  /** What a usable value shows: a number as printed, a string without the space around it. */
  predicate Shows(v: Value, text: string) {
    || (v.Number? && text == v.shown)
    || (v.Str? && text != "" && IsTrimmedPart(v.s, text))
  }

  lemma {:induction false} UsableShowsItsText(v: Value, text: string)
    ensures Shows(v, text) <==> Usable(v) && TextOf(v) == text
  {
    hide IsTrimmedPart, Strip;
    if v.Str? {
      StripIsTheTrimmedPart(v.s, text);
    }
  }

  predicate Holds(node: Node, keys: seq<string>, text: string) {
    node.Dict? &&
    exists i | 0 <= i < |node.entries| :: node.entries[i].key in keys && Shows(node.entries[i].value, text)
  }

  function Lookup(entries: seq<Entry>, key: string): (r: Option<Value>)
    ensures r.Some? <==> exists i | 0 <= i < |entries| :: entries[i].key == key
    ensures r.Some? ==> exists i | 0 <= i < |entries| :: entries[i] == Entry(key, r.value)
  {
    if entries == [] then None
    else if entries[0].key == key then
      assert entries[0] == Entry(key, entries[0].value);
      Some(entries[0].value)
    else
      var rest := Lookup(entries[1..], key);
      assert forall i | 0 < i < |entries| :: entries[i] == entries[1..][i - 1];
      rest
  }

  /** The value of the first candidate key, in candidate order, that holds something usable. */
  function DirectHit(entries: seq<Entry>, keys: seq<string>): Option<string> {
    if keys == [] then None
    else
      var v := Lookup(entries, keys[0]);
      if v.Some? && Usable(v.value) then Some(TextOf(v.value)) else DirectHit(entries, keys[1..])
  }

  function NodeHit(node: Node, keys: seq<string>): Option<string> {
    if node.Dict? then DirectHit(node.entries, keys) else None
  }

  lemma {:induction false} LookupUnique(entries: seq<Entry>, i: nat)
    requires UniqueKeys(entries) && i < |entries|
    ensures Lookup(entries, entries[i].key) == Some(entries[i].value)
  {
    var r := Lookup(entries, entries[i].key);
    assert r.Some?;
    var j :| 0 <= j < |entries| && entries[j] == Entry(entries[i].key, r.value);
    assert j == i;
  }

  lemma {:induction false} DirectHitSound(entries: seq<Entry>, keys: seq<string>)
    ensures DirectHit(entries, keys).Some? ==> Holds(Dict(entries), keys, DirectHit(entries, keys).value)
  {
    if keys != [] {
      var v := Lookup(entries, keys[0]);
      if v.Some? && Usable(v.value) {
        var i :| 0 <= i < |entries| && entries[i] == Entry(keys[0], v.value);
        UsableShowsItsText(entries[i].value, TextOf(v.value));
      } else {
        DirectHitSound(entries, keys[1..]);
      }
    }
  }

  lemma {:induction false} DirectHitComplete(entries: seq<Entry>, keys: seq<string>, text: string)
    requires UniqueKeys(entries) && Holds(Dict(entries), keys, text)
    ensures DirectHit(entries, keys).Some?
  {
    var i :| 0 <= i < |entries| && entries[i].key in keys && Shows(entries[i].value, text);
    UsableShowsItsText(entries[i].value, text);
    LookupUnique(entries, i);
    if entries[i].key != keys[0] {
      assert Dict(entries).entries[i].key in keys[1..];
      DirectHitComplete(entries, keys[1..], text);
    }
  }

  /** The candidate order decides: the hit comes from the first key that holds something usable. */
  lemma {:induction false} DirectHitIsFirst(entries: seq<Entry>, keys: seq<string>) returns (k: nat)
    requires DirectHit(entries, keys).Some?
    ensures k < |keys|
    ensures var v := Lookup(entries, keys[k]);
            v.Some? && Usable(v.value) && DirectHit(entries, keys) == Some(TextOf(v.value))
    ensures forall i | 0 <= i < k :: Lookup(entries, keys[i]).None? || !Usable(Lookup(entries, keys[i]).value)
    decreases |keys|
  {
    var v := Lookup(entries, keys[0]);
    if v.Some? && Usable(v.value) {
      k := 0;
    } else {
      var rest := DirectHitIsFirst(entries, keys[1..]);
      k := rest + 1;
      assert forall i | 0 < i < k :: keys[i] == keys[1..][i - 1];
    }
  }

  // ----- Depth-first search with a visited set ----------------------------------------------

  datatype Outcome = Outcome(found: Option<string>, seen: set<Ref>)

  function Containers(vs: seq<Value>): seq<Value> {
    if vs == [] then []
    else Containers(vs[..|vs| - 1]) + if vs[|vs| - 1].Container? then [vs[|vs| - 1]] else []
  }

  /** Search one value, skipping a container that has been visited. */
  function Visit(h: Heap, keys: seq<string>, v: Value, seen: set<Ref>): (o: Outcome)
    ensures seen <= o.seen
    decreases h.Keys - seen, 0
  {
    if !v.Container? || v.ref in seen || v.ref !in h then Outcome(None, seen)
    else
      var hit := NodeHit(h[v.ref], keys);
      if hit.Some? then Outcome(hit, seen + {v.ref})
      else VisitAll(h, keys, Containers(ValuesOf(h[v.ref])), seen + {v.ref})
  }

  /** Search several values, last one first, threading the visited set. */
  function VisitAll(h: Heap, keys: seq<string>, vs: seq<Value>, seen: set<Ref>): (o: Outcome)
    ensures seen <= o.seen
    decreases h.Keys - seen, |vs|
  {
    if vs == [] then Outcome(None, seen)
    else
      var last := Visit(h, keys, vs[|vs| - 1], seen);
      if last.found.Some? then last
      else
        assert h.Keys - last.seen <= h.Keys - seen;
        VisitAll(h, keys, vs[..|vs| - 1], last.seen)
  }

  lemma {:induction false} VisitAllConcat(h: Heap, keys: seq<string>, a: seq<Value>, b: seq<Value>, seen: set<Ref>)
    ensures VisitAll(h, keys, a + b, seen) ==
            var right := VisitAll(h, keys, b, seen);
            if right.found.Some? then right else VisitAll(h, keys, a, right.seen)
    decreases |b|
  {
    if b == [] {
      assert a + b == a;
    } else {
      var front := b[..|b| - 1];
      assert (a + b)[..|a + b| - 1] == a + front;
      var last := Visit(h, keys, b[|b| - 1], seen);
      if last.found.None? {
        VisitAllConcat(h, keys, a, front, last.seen);
      }
    }
  }

  /** Pushing only the containers changes nothing: other values are never searched. */
  lemma {:induction false} SkippingOthersIsHarmless(h: Heap, keys: seq<string>, vs: seq<Value>, seen: set<Ref>)
    ensures VisitAll(h, keys, Containers(vs), seen) == VisitAll(h, keys, vs, seen)
    decreases |vs|
  {
    if vs != [] {
      var front, last := vs[..|vs| - 1], vs[|vs| - 1];
      VisitAllConcat(h, keys, Containers(front), if last.Container? then [last] else [], seen);
      assert vs == front + [last];
      VisitAllConcat(h, keys, front, [last], seen);
      var o := Visit(h, keys, last, seen);
      assert [last][..0] == [];
      assert VisitAll(h, keys, [last], seen) == o by {
        if o.found.None? {
          assert VisitAll(h, keys, [last][..0], o.seen) == Outcome(None, o.seen);
        }
      }
      if o.found.None? {
        SkippingOthersIsHarmless(h, keys, front, o.seen);
      }
    }
  }

  // ----- Reachability -----------------------------------------------------------------------

  /** A chain of containers, each holding the next one. */
  predicate IsPath(h: Heap, p: seq<Ref>) {
    && |p| > 0
    && (forall i | 0 <= i < |p| :: p[i] in h)
    && (forall i | 0 < i < |p| :: Container(p[i]) in ValuesOf(h[p[i - 1]]))
  }

  ghost predicate Reachable(h: Heap, from: Value, r: Ref) {
    exists p :: IsPath(h, p) && from == Container(p[0]) && p[|p| - 1] == r
  }

  /** Some dict reachable from `payload` holds `text` under one of `keys`. */
  ghost predicate FieldSomewhere(h: Heap, payload: Value, keys: seq<string>, text: string) {
    exists r :: r in h && Reachable(h, payload, r) && Holds(h[r], keys, text)
  }

  lemma {:induction false} ContainersSubset(vs: seq<Value>)
    ensures forall v :: v in Containers(vs) <==> v in vs && v.Container?
    decreases |vs|
  {
    if vs != [] {
      ContainersSubset(vs[..|vs| - 1]);
      assert vs == vs[..|vs| - 1] + [vs[|vs| - 1]];
    }
  }

  lemma {:induction false} VisitSound(h: Heap, keys: seq<string>, v: Value, seen: set<Ref>)
      returns (p: seq<Ref>)
    requires Visit(h, keys, v, seen).found.Some?
    ensures IsPath(h, p) && v == Container(p[0])
    ensures Holds(h[p[|p| - 1]], keys, Visit(h, keys, v, seen).found.value)
    decreases h.Keys - seen, 0
  {
    var node := h[v.ref];
    if NodeHit(node, keys).Some? {
      DirectHitSound(node.entries, keys);
      p := [v.ref];
    } else {
      ContainersSubset(ValuesOf(node));
      var w, q := VisitAllSound(h, keys, Containers(ValuesOf(node)), seen + {v.ref});
      p := [v.ref] + q;
    }
  }

  lemma {:induction false} VisitAllSound(h: Heap, keys: seq<string>, vs: seq<Value>, seen: set<Ref>)
      returns (v: Value, p: seq<Ref>)
    requires VisitAll(h, keys, vs, seen).found.Some?
    ensures v in vs && IsPath(h, p) && v == Container(p[0])
    ensures Holds(h[p[|p| - 1]], keys, VisitAll(h, keys, vs, seen).found.value)
    decreases h.Keys - seen, |vs|
  {
    v := vs[|vs| - 1];
    var last := Visit(h, keys, v, seen);
    if last.found.Some? {
      p := VisitSound(h, keys, v, seen);
    } else {
      assert h.Keys - last.seen <= h.Keys - seen;
      v, p := VisitAllSound(h, keys, vs[..|vs| - 1], last.seen);
    }
  }

  /** Every container that was added to `seen` misses, and what it holds was visited too. */
  predicate Explored(h: Heap, keys: seq<string>, before: set<Ref>, after: set<Ref>) {
    forall r | r in after && r !in before ::
      && r in h
      && NodeHit(h[r], keys).None?
      && forall v | v in ValuesOf(h[r]) && v.Container? :: v.ref in after
  }

  lemma {:induction false} VisitExplores(h: Heap, keys: seq<string>, v: Value, seen: set<Ref>)
    requires WellFormed(h) && Resolves(h, v)
    requires Visit(h, keys, v, seen).found.None?
    ensures v.Container? ==> v.ref in Visit(h, keys, v, seen).seen
    ensures Explored(h, keys, seen, Visit(h, keys, v, seen).seen)
    decreases h.Keys - seen, 0
  {
    if v.Container? && v.ref !in seen {
      ContainersSubset(ValuesOf(h[v.ref]));
      VisitAllExplores(h, keys, Containers(ValuesOf(h[v.ref])), seen + {v.ref});
    }
  }

  lemma {:induction false} VisitAllExplores(h: Heap, keys: seq<string>, vs: seq<Value>, seen: set<Ref>)
    requires WellFormed(h) && forall v | v in vs :: Resolves(h, v)
    requires VisitAll(h, keys, vs, seen).found.None?
    ensures forall v | v in vs && v.Container? :: v.ref in VisitAll(h, keys, vs, seen).seen
    ensures Explored(h, keys, seen, VisitAll(h, keys, vs, seen).seen)
    decreases h.Keys - seen, |vs|
  {
    if vs != [] {
      var last := Visit(h, keys, vs[|vs| - 1], seen);
      VisitExplores(h, keys, vs[|vs| - 1], seen);
      assert h.Keys - last.seen <= h.Keys - seen;
      VisitAllExplores(h, keys, vs[..|vs| - 1], last.seen);
    }
  }

  lemma {:induction false} PathIsExplored(h: Heap, keys: seq<string>, seen: set<Ref>, p: seq<Ref>)
    requires IsPath(h, p) && p[0] in seen && Explored(h, keys, {}, seen)
    ensures p[|p| - 1] in seen
    decreases |p|
  {
    if |p| > 1 {
      assert IsPath(h, p[1..]) by {
        forall i | 0 < i < |p[1..]| ensures Container(p[1..][i]) in ValuesOf(h[p[1..][i - 1]]) {
          assert p[1..][i] == p[i + 1] && p[1..][i - 1] == p[i];
        }
      }
      assert Container(p[1]) in ValuesOf(h[p[0]]);
      PathIsExplored(h, keys, seen, p[1..]);
    }
  }

  /**
   * On every finite graph, cycles and sharing included: the search finds nothing exactly when
   * no reachable dict holds a usable value, and what it finds is held by a reachable dict.
   */
  lemma {:induction false} SearchIsSoundAndComplete(h: Heap, keys: seq<string>, payload: Value)
    requires WellFormed(h) && Resolves(h, payload)
    ensures var found := VisitAll(h, keys, [payload], {}).found;
            && (found.Some? ==> found.value != "" && FieldSomewhere(h, payload, keys, found.value))
            && (found.None? <==> forall text :: !FieldSomewhere(h, payload, keys, text))
  {
    var o := VisitAll(h, keys, [payload], {});
    if o.found.Some? {
      var v, p := VisitAllSound(h, keys, [payload], {});
      assert Reachable(h, payload, p[|p| - 1]);
      assert FieldSomewhere(h, payload, keys, o.found.value);
    } else {
      VisitAllExplores(h, keys, [payload], {});
      forall text ensures !FieldSomewhere(h, payload, keys, text) {
        if FieldSomewhere(h, payload, keys, text) {
          var r :| r in h && Reachable(h, payload, r) && Holds(h[r], keys, text);
          var p :| IsPath(h, p) && payload == Container(p[0]) && p[|p| - 1] == r;
          assert payload in [payload];
          PathIsExplored(h, keys, o.seen, p);
          DirectHitComplete(h[r].entries, keys, text);
        }
      }
    }
  }

  // ----- The search without a visited set ---------------------------------------------------

  /** The unrolling of an acyclic payload into a tree; `kids` follow `ValuesOf(node)`. */
  datatype Tree = Leaf(v: Value) | Branch(ref: Ref, node: Node, kids: seq<Tree>)

  predicate Unrolls(h: Heap, v: Value, t: Tree)
    decreases t
  {
    match t
    case Leaf(w) => w == v && !v.Container?
    case Branch(ref, node, kids) =>
      && v == Container(ref)
      && ref in h
      && h[ref] == node
      && |kids| == |ValuesOf(node)|
      && forall i | 0 <= i < |kids| :: Unrolls(h, ValuesOf(node)[i], kids[i])
  }

  /** The plain recursive search: this dict first, then its values from right to left. */
  function RecursiveSearch(t: Tree, keys: seq<string>): Option<string>
    decreases t, 0
  {
    if t.Leaf? then None
    else if NodeHit(t.node, keys).Some? then NodeHit(t.node, keys)
    else RightmostHit(t, |t.kids|, keys)
  }

  function RightmostHit(t: Tree, n: nat, keys: seq<string>): Option<string>
    requires t.Branch? && n <= |t.kids|
    decreases t, 0, n
  {
    if n == 0 then None
    else
      var hit := RecursiveSearch(t.kids[n - 1], keys);
      if hit.Some? then hit else RightmostHit(t, n - 1, keys)
  }

  predicate Mentions(t: Tree, r: Ref)
    decreases t
  {
    t.Branch? && (t.ref == r || exists i | 0 <= i < |t.kids| :: Mentions(t.kids[i], r))
  }

  lemma {:induction false} UnrollingIsUnique(h: Heap, v: Value, t: Tree, u: Tree)
    requires Unrolls(h, v, t) && Unrolls(h, v, u)
    ensures t == u
    decreases t
  {
    if t.Branch? {
      forall i | 0 <= i < |t.kids| ensures t.kids[i] == u.kids[i] {
        UnrollingIsUnique(h, ValuesOf(t.node)[i], t.kids[i], u.kids[i]);
      }
      assert t.kids == u.kids;
    }
  }

  lemma {:induction false} MentionedUnrolls(h: Heap, v: Value, t: Tree, r: Ref) returns (u: Tree)
    requires Unrolls(h, v, t) && Mentions(t, r)
    ensures Unrolls(h, Container(r), u) && (u == t || u < t)
    decreases t
  {
    if t.ref == r {
      u := t;
    } else {
      var i :| 0 <= i < |t.kids| && Mentions(t.kids[i], r);
      u := MentionedUnrolls(h, ValuesOf(t.node)[i], t.kids[i], r);
    }
  }

  /** A finite unrolling means no container lies below itself. */
  lemma {:induction false} NoCycle(h: Heap, v: Value, t: Tree, i: nat)
    requires Unrolls(h, v, t) && t.Branch? && i < |t.kids|
    ensures !Mentions(t.kids[i], t.ref)
  {
    if Mentions(t.kids[i], t.ref) {
      var u := MentionedUnrolls(h, ValuesOf(t.node)[i], t.kids[i], t.ref);
      UnrollingIsUnique(h, v, t, u);
      assert false;
    }
  }

  // ----- Acyclic means it has an unrolling -------------------------------------------------------

  /** A chain of containers that ends where it starts. */
  predicate IsCycle(h: Heap, p: seq<Ref>) {
    |p| > 1 && IsPath(h, p) && p[0] == p[|p| - 1]
  }

  ghost predicate Acyclic(h: Heap, payload: Value) {
    forall p | IsCycle(h, p) :: !Reachable(h, payload, p[0])
  }

  function Elements(p: seq<Ref>): set<Ref> {
    set r | r in p
  }

  lemma PathPart(h: Heap, p: seq<Ref>, i: nat, j: nat)
    requires IsPath(h, p) && i < j <= |p|
    ensures IsPath(h, p[i..j])
  {
    forall k | 0 < k < j - i ensures Container(p[i..j][k]) in ValuesOf(h[p[i..j][k - 1]]) {
      assert p[i..j][k] == p[i + k] && p[i..j][k - 1] == p[i + k - 1];
    }
  }

  /** On a path from the payload, a container that came before would close a cycle. */
  lemma {:induction false} PathIsFresh(h: Heap, payload: Value, p: seq<Ref>, r: Ref)
    requires Acyclic(h, payload) && IsPath(h, p + [r]) && payload == Container((p + [r])[0])
    ensures r !in p
  {
    if r in p {
      var i :| 0 <= i < |p| && p[i] == r;
      var q := p + [r];
      PathPart(h, q, i, |q|);
      PathPart(h, q, 0, i + 1);
      assert Reachable(h, payload, r) by {
        assert q[0..i + 1][i] == r;
      }
      assert IsCycle(h, q[i..|q|]);
    }
  }

  lemma {:induction false} Unroll(h: Heap, payload: Value, p: seq<Ref>, v: Value) returns (t: Tree)
    requires WellFormed(h) && Resolves(h, v) && Acyclic(h, payload)
    requires v.Container? ==> IsPath(h, p + [v.ref]) && payload == Container((p + [v.ref])[0])
    ensures Unrolls(h, v, t)
    decreases h.Keys - Elements(p), 0, 0
  {
    if v.Container? {
      PathIsFresh(h, payload, p, v.ref);
      assert v.ref in h.Keys - Elements(p) && v.ref in Elements(p + [v.ref]);
      var kids := UnrollValues(h, payload, p + [v.ref], |ValuesOf(h[v.ref])|);
      t := Branch(v.ref, h[v.ref], kids);
    } else {
      t := Leaf(v);
    }
  }

  lemma {:induction false} UnrollValues(h: Heap, payload: Value, p: seq<Ref>, n: nat) returns (kids: seq<Tree>)
    requires WellFormed(h) && Acyclic(h, payload)
    requires IsPath(h, p) && payload == Container(p[0]) && n <= |ValuesOf(h[p[|p| - 1]])|
    ensures |kids| == n && forall i | 0 <= i < n :: Unrolls(h, ValuesOf(h[p[|p| - 1]])[i], kids[i])
    decreases h.Keys - Elements(p), 1, n
  {
    if n == 0 {
      kids := [];
    } else {
      kids := UnrollValues(h, payload, p, n - 1);
      var last := Unroll(h, payload, p, ValuesOf(h[p[|p| - 1]])[n - 1]);
      kids := kids + [last];
    }
  }

  /** Following a path goes down in the unrolling. */
  lemma {:induction false} AlongPath(h: Heap, p: seq<Ref>, t: Tree) returns (u: Tree)
    requires IsPath(h, p) && Unrolls(h, Container(p[0]), t)
    ensures Unrolls(h, Container(p[|p| - 1]), u) && if |p| > 1 then u < t else u == t
    decreases |p|
  {
    u := t;
    if |p| > 1 {
      PathPart(h, p, 1, |p|);
      var i :| 0 <= i < |ValuesOf(t.node)| && ValuesOf(t.node)[i] == Container(p[1]);
      u := AlongPath(h, p[1..|p|], t.kids[i]);
    }
  }

  lemma {:induction false} UnrolledIsAcyclic(h: Heap, payload: Value, t: Tree)
    requires Unrolls(h, payload, t)
    ensures Acyclic(h, payload)
  {
    forall p | IsCycle(h, p) ensures !Reachable(h, payload, p[0]) {
      if Reachable(h, payload, p[0]) {
        var q :| IsPath(h, q) && payload == Container(q[0]) && q[|q| - 1] == p[0];
        var u := AlongPath(h, q, t);
        var w := AlongPath(h, p, u);
        UnrollingIsUnique(h, Container(p[0]), u, w);
        assert false;
      }
    }
  }

  /** A payload has a finite unrolling if and only if no cycle can be reached from it. */
  lemma {:induction false} UnrollsIffAcyclic(h: Heap, payload: Value)
    requires WellFormed(h) && Resolves(h, payload)
    ensures (exists t :: Unrolls(h, payload, t)) <==> Acyclic(h, payload)
  {
    hide Acyclic;
    if Acyclic(h, payload) {
      var t := Unroll(h, payload, [], payload);
      assert exists t :: Unrolls(h, payload, t);
    }
    forall t | Unrolls(h, payload, t) ensures Acyclic(h, payload) {
      UnrolledIsAcyclic(h, payload, t);
    }
  }

  /** Searching again below `r` would find nothing. */
  ghost predicate CleanRef(h: Heap, keys: seq<string>, r: Ref) {
    forall u | Unrolls(h, Container(r), u) :: RecursiveSearch(u, keys).None?
  }

  ghost predicate CleanFor(h: Heap, keys: seq<string>, t: Tree, seen: set<Ref>) {
    forall r | r in seen && Mentions(t, r) :: CleanRef(h, keys, r)
  }

  ghost predicate OnlyCleanAdded(h: Heap, keys: seq<string>, before: set<Ref>, after: set<Ref>) {
    forall r | r in after :: r in before || CleanRef(h, keys, r)
  }

  lemma {:induction false} VisitMatchesRecursion(h: Heap, keys: seq<string>, v: Value, t: Tree, seen: set<Ref>)
    requires Unrolls(h, v, t) && CleanFor(h, keys, t, seen)
    ensures Visit(h, keys, v, seen).found == RecursiveSearch(t, keys)
    ensures RecursiveSearch(t, keys).None? ==> OnlyCleanAdded(h, keys, seen, Visit(h, keys, v, seen).seen)
    decreases t, 1, 0
  {
    if t.Branch? {
      if t.ref in seen {
        assert Mentions(t, t.ref);
      } else if NodeHit(t.node, keys).None? {
        var inner := seen + {t.ref};
        forall i | 0 <= i < |t.kids| ensures CleanFor(h, keys, t.kids[i], inner) {
          NoCycle(h, v, t, i);
        }
        SkippingOthersIsHarmless(h, keys, ValuesOf(t.node), inner);
        assert ValuesOf(t.node)[..|t.kids|] == ValuesOf(t.node);
        VisitAllMatchesRecursion(h, keys, v, t, |t.kids|, inner);
        if RecursiveSearch(t, keys).None? {
          forall u | Unrolls(h, Container(t.ref), u) ensures RecursiveSearch(u, keys).None? {
            UnrollingIsUnique(h, v, t, u);
          }
        }
      }
    }
  }

  lemma {:induction false} VisitAllMatchesRecursion(
    h: Heap, keys: seq<string>, v: Value, t: Tree, n: nat, seen: set<Ref>)
    requires Unrolls(h, v, t) && t.Branch? && n <= |t.kids|
    requires forall i | 0 <= i < n :: CleanFor(h, keys, t.kids[i], seen)
    ensures VisitAll(h, keys, ValuesOf(t.node)[..n], seen).found == RightmostHit(t, n, keys)
    ensures RightmostHit(t, n, keys).None? ==>
              OnlyCleanAdded(h, keys, seen, VisitAll(h, keys, ValuesOf(t.node)[..n], seen).seen)
    decreases t, 0, n
  {
    if n > 0 {
      var vs := ValuesOf(t.node)[..n];
      assert vs[..n - 1] == ValuesOf(t.node)[..n - 1];
      VisitMatchesRecursion(h, keys, vs[n - 1], t.kids[n - 1], seen);
      var last := Visit(h, keys, vs[n - 1], seen);
      if last.found.None? {
        VisitAllMatchesRecursion(h, keys, v, t, n - 1, last.seen);
      }
    }
  }

  /**
   * On a payload from which no cycle can be reached the visited set is only an optimisation: the
   * search returns what the plain recursive search of the unrolled payload returns, sharing or
   * not.
   */
  lemma {:induction false} AcyclicSearchIsRecursive(h: Heap, keys: seq<string>, payload: Value) returns (t: Tree)
    requires WellFormed(h) && Resolves(h, payload) && Acyclic(h, payload)
    ensures Unrolls(h, payload, t)
    ensures VisitAll(h, keys, [payload], {}).found == RecursiveSearch(t, keys)
  {
    hide Acyclic, RecursiveSearch;
    UnrollsIffAcyclic(h, payload);
    t :| Unrolls(h, payload, t);
    VisitMatchesRecursion(h, keys, payload, t, {});
    var o := Visit(h, keys, payload, {});
    assert VisitAll(h, keys, [payload], {}).found == o.found by {
      if o.found.None? {
        assert [payload][..0] == [];
        assert VisitAll(h, keys, [payload][..0], o.seen).found.None?;
      }
    }
  }

  // ----- The loop ---------------------------------------------------------------------------

  function NonEmptyKeys(candidates: seq<string>): (r: seq<string>)
    ensures forall k :: k in r <==> k in candidates && k != ""
  {
    if candidates == [] then []
    else (if candidates[0] != "" then [candidates[0]] else []) + NonEmptyKeys(candidates[1..])
  }

  /** The candidates keep their order; an empty one is passed over wherever it stands. */
  lemma {:induction false} EmptyKeysArePassedOver(a: seq<string>, b: seq<string>)
    ensures NonEmptyKeys(a + [""] + b) == NonEmptyKeys(a + b)
    ensures "" !in a ==> NonEmptyKeys(a) == a
    decreases |a|
  {
    if a == [] {
      assert [] + [""] + b == [""] + b && ([""] + b)[1..] == b && [] + b == b;
    } else {
      assert (a + [""] + b)[1..] == a[1..] + [""] + b && (a + b)[1..] == a[1..] + b;
      EmptyKeysArePassedOver(a[1..], b);
      assert a == [a[0]] + a[1..];
    }
  }

  /** The scan of one dict for the candidate keys. */
  method CheckKeys(entries: seq<Entry>, keys: seq<string>) returns (hit: Option<string>)
    ensures hit == DirectHit(entries, keys)
  {
    for i := 0 to |keys|
      invariant DirectHit(entries, keys) == DirectHit(entries, keys[i..])
    {
      var v := Lookup(entries, keys[i]);
      if v.Some? {
        if v.value.Str? {
          var text := Strip(v.value.s);
          if text != "" {
            return Some(text);
          }
        } else if v.value.Number? {
          return Some(v.value.shown);
        }
      }
      assert keys[i..][1..] == keys[i + 1..];
    }
    return None;
  }

  /** Push the containers among the values of one node, in order. */
  method PushContainers(stack: seq<Value>, values: seq<Value>) returns (pushed: seq<Value>)
    ensures pushed == stack + Containers(values)
  {
    pushed := stack;
    for i := 0 to |values|
      invariant pushed == stack + Containers(values[..i])
    {
      assert values[..i + 1][..i] == values[..i];
      if values[i].Container? {
        pushed := pushed + [values[i]];
      }
    }
    assert values[..|values|] == values;
  }

  /** What one turn of the loop leaves to be searched. */
  lemma {:induction false} PopOne(h: Heap, keys: seq<string>, below: seq<Value>, current: Value, seen: set<Ref>)
    requires Resolves(h, current)
    ensures VisitAll(h, keys, below + [current], seen).found ==
            if !current.Container? || current.ref in seen then VisitAll(h, keys, below, seen).found
            else if NodeHit(h[current.ref], keys).Some? then NodeHit(h[current.ref], keys)
            else VisitAll(h, keys, below + Containers(ValuesOf(h[current.ref])), seen + {current.ref}).found
  {
    assert (below + [current])[..|below|] == below;
    if current.Container? && current.ref !in seen && NodeHit(h[current.ref], keys).None? {
      VisitAllConcat(h, keys, below, Containers(ValuesOf(h[current.ref])), seen + {current.ref});
    }
  }

  method ExtractField(h: Heap, payload: Value, candidates: seq<string>) returns (text: string)
    requires WellFormed(h) && Resolves(h, payload)
    ensures var found := VisitAll(h, NonEmptyKeys(candidates), [payload], {}).found;
            text == if found.Some? then found.value else ""
    ensures text == "" <==> forall s :: !FieldSomewhere(h, payload, NonEmptyKeys(candidates), s)
    ensures text != "" ==> FieldSomewhere(h, payload, NonEmptyKeys(candidates), text)
  {
    hide FieldSomewhere, UniqueKeys, VisitAll, Visit, DirectHit, Containers, NonEmptyKeys;
    var keys := NonEmptyKeys(candidates);
    var seen: set<Ref> := {};
    var stack := [payload];
    SearchIsSoundAndComplete(h, keys, payload);
    NothingLeft(h, keys);
    ghost var answer := VisitAll(h, keys, [payload], {}).found;
    while stack != []
      invariant forall v | v in stack :: Resolves(h, v)
      invariant VisitAll(h, keys, stack, seen).found == answer
      decreases h.Keys - seen, |stack|
    {
      var current := stack[|stack| - 1];
      var below := stack[..|stack| - 1];
      assert stack == below + [current];
      PopOne(h, keys, below, current, seen);
      stack := below;
      if current.Container? {
        if current.ref in seen {
          continue;
        }
        seen := seen + {current.ref};
        var node := h[current.ref];
        if node.Dict? {
          var hit := CheckKeys(node.entries, keys);
          if hit.Some? {
            return hit.value;
          }
        }
        stack := PushContainers(stack, ValuesOf(node));
        ContainersSubset(ValuesOf(node));
      }
    }
    return "";
  }

  lemma NothingLeft(h: Heap, keys: seq<string>)
    ensures forall seen :: VisitAll(h, keys, [], seen).found.None?
  {
  }
}

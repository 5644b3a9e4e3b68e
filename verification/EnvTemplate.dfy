/**
 * The `${NAME:default}` extractor of libs/env.py, a hand-written scanner that counts braces.
 *
 * `Assignments` is the scanner as a recursive function on the text still to be read; the loop
 * is proved equal to it. A template is written down as a list of placeholders between texts,
 * and the theorems relate rendering a template to extracting from it, in both directions.
 */
module EnvTemplate {
  import opened Common

  type Assignment = (string, string)

  // ----- The scanner ------------------------------------------------------------------------

  predicate OpensAt(s: string, i: nat) {
    i + 1 < |s| && s[i] == '$' && s[i + 1] == '{'
  }

  /** `text.find("${")`: the first place where a placeholder opens. */
  function FindOpen(s: string): (r: Option<nat>)
    ensures r.Some? ==> r.value + 2 <= |s|
    ensures r.Some? ==> OpensAt(s, r.value) && forall i | 0 <= i < r.value :: !OpensAt(s, i)
    ensures r.None? ==> forall i: nat :: !OpensAt(s, i)
  {
    if |s| < 2 then None
    else if OpensAt(s, 0) then Some(0)
    else
      var rest := FindOpen(s[1..]);
      assert forall i: nat | i > 0 :: OpensAt(s, i) == OpensAt(s[1..], i - 1);
      if rest.Some? then Some(rest.value + 1) else None
  }

  predicate IsDelimiter(c: char) {
    c == ':' || c == '}'
  }

  predicate NoDelimiter(s: string) {
    forall i | 0 <= i < |s| :: !IsDelimiter(s[i])
  }

  /** How far a variable name reaches: up to the first `:` or `}`. */
  function NameLength(s: string): (n: nat)
    ensures n <= |s| && NoDelimiter(s[..n]) && (n < |s| ==> IsDelimiter(s[n]))
  {
    if s == "" || IsDelimiter(s[0]) then 0
    else
      var n := NameLength(s[1..]);
      assert s[..n + 1] == [s[0]] + s[1..][..n];
      n + 1
  }

  /** Where the brace that closes the default stands, with `nested` braces already open. */
  function CloseAt(s: string, nested: nat): (r: Option<nat>)
    ensures r.Some? ==> r.value < |s| && s[r.value] == '}'
  {
    if s == "" then None
    else if s[0] == '}' && nested == 0 then Some(0)
    else
      var deeper := if s[0] == '{' then nested + 1 else if s[0] == '}' then nested - 1 else nested;
      var rest := CloseAt(s[1..], deeper);
      if rest.Some? then Some(rest.value + 1) else None
  }

  /** One turn of the scanner: give up, move on without assigning, or assign and move on. */
  datatype Turn = Stop | Skip(next: string) | Assign(name: string, value: string, next: string)

  function TakeTurn(s: string): (t: Turn)
    ensures !t.Stop? ==> |t.next| < |s|
  {
    var open := FindOpen(s);
    if open.None? then Stop else AfterOpen(s[open.value + 2..])
  }

  /** The turn once `${` has been read. */
  function AfterOpen(body: string): (t: Turn)
    ensures !t.Stop? ==> |t.next| <= |body|
  {
    var n := NameLength(body);
    if n == |body| then Stop
    else if Strip(body[..n]) == "" then Skip(body)
    else if body[n] == '}' then Skip(body[n + 1..])
    else AfterColon(body[..n], body[n + 1..])
  }

  /** The turn once `${NAME:` has been read. */
  function AfterColon(name: string, rest: string): (t: Turn)
    ensures !t.Stop? ==> |t.next| <= |rest|
    ensures !t.Skip? && (t.Assign? ==> t.name == name)
  {
    var end := CloseAt(rest, 0);
    if end.None? then Stop else Assign(name, rest[..end.value], rest[end.value + 1..])
  }

  /** The assignments the scanner makes, in the order it makes them. */
  function Assignments(s: string): seq<Assignment>
    decreases |s|
  {
    match TakeTurn(s)
    case Stop => []
    case Skip(next) => Assignments(next)
    case Assign(name, value, next) => Entry(name, value) + Assignments(next)
  }

  /** What one closed placeholder assigns: a blank default assigns nothing. */
  function Entry(rawName: string, rawDefault: string): seq<Assignment> {
    if Strip(rawDefault) != "" then [(Strip(rawName), Strip(rawDefault))] else []
  }

  /** A Python dict filled in order: the last assignment to a name wins. */
  function Store(start: map<string, string>, steps: seq<Assignment>): map<string, string>
    decreases |steps|
  {
    if steps == [] then start
    else Store(start[steps[0].0 := steps[0].1], steps[1..])
  }

  lemma {:induction false} StoreConcat(start: map<string, string>, a: seq<Assignment>, b: seq<Assignment>)
    ensures Store(start, a + b) == Store(Store(start, a), b)
    decreases |a|
  {
    if a == [] {
      assert a + b == b;
    } else {
      assert (a + b)[1..] == a[1..] + b;
      StoreConcat(start[a[0].0 := a[0].1], a[1..], b);
    }
  }

  /** `Store` from an empty dict holds exactly the last assignment made to each name. */
  lemma {:induction false} StoreIsLastWins(steps: seq<Assignment>, name: string, value: string)
    ensures (name in Store(map[], steps) && Store(map[], steps)[name] == value) <==>
            exists i | 0 <= i < |steps| ::
              steps[i] == (name, value) && forall j | i < j < |steps| :: steps[j].0 != name
    decreases |steps|
  {
    if steps != [] {
      var front, last := steps[..|steps| - 1], steps[|steps| - 1];
      assert steps == front + [last];
      StoreConcat(map[], front, [last]);
      StoreIsLastWins(front, name, value);
      if last.0 == name {
        assert steps[|front|] == last;
      } else {
        forall i | 0 <= i < |front| ensures front[i] == steps[i] {}
      }
    }
  }

  // ----- The loop ---------------------------------------------------------------------------

  /** Read a variable name: advance to the first delimiter, or to the end of the text. */
  method ReadName(text: string, start: nat) returns (cursor: nat)
    requires start <= |text|
    ensures cursor == start + NameLength(text[start..])
  {
    cursor := start;
    while cursor < |text| && text[cursor] != ':' && text[cursor] != '}'
      invariant start <= cursor <= |text|
      invariant NameLength(text[start..]) == cursor - start + NameLength(text[cursor..])
    {
      assert text[cursor..][1..] == text[cursor + 1..];
      cursor := cursor + 1;
    }
  }

  /** Read a default: advance to the brace that closes it, counting nested braces. */
  method ReadDefault(text: string, start: nat) returns (end: Option<nat>)
    requires start <= |text|
    ensures var e := CloseAt(text[start..], 0);
            end == if e.Some? then Some(start + e.value) else None
  {
    var cursor := start;
    var nested: nat := 0;
    ghost var answer := CloseAt(text[start..], 0);
    while cursor < |text|
      invariant start <= cursor <= |text|
      invariant answer.None? <==> CloseAt(text[cursor..], nested).None?
      invariant answer.Some? ==> answer.value == cursor - start + CloseAt(text[cursor..], nested).value
    {
      if text[cursor] == '{' {
        nested := nested + 1;
      } else if text[cursor] == '}' {
        if nested == 0 {
          return Some(cursor);
        }
        nested := nested - 1;
      }
      assert text[cursor..][1..] == text[cursor + 1..];
      cursor := cursor + 1;
    }
    return None;
  }

  /** The loop body from the `:` on: read the default and store it unless it is blank. */
  method StoreDefault(text: string, start: nat, name: string, defaults: map<string, string>)
      returns (next: Option<nat>, updated: map<string, string>)
    requires start <= |text|
    ensures next.Some? ==> start <= next.value <= |text|
    ensures var turn := AfterColon(name, text[start..]);
            if turn.Assign? then
              next.Some? && text[next.value..] == turn.next && updated == Store(defaults, Entry(name, turn.value))
            else
              next == None && updated == defaults
  {
    hide Strip, CloseAt;
    var end := ReadDefault(text, start);
    if end.None? {
      return None, defaults;
    }
    Slice(text, start, end.value);
    DropTwice(text, start, end.value + 1 - start);
    var defaultValue := Strip(text[start..end.value]);
    updated := defaults;
    if defaultValue != "" {
      updated := updated[Strip(name) := defaultValue];
    }
    next := Some(end.value + 1);
  }

  /** The loop body from `${` on; None means the scan is over. */
  method ReadPlaceholder(text: string, start: nat, defaults: map<string, string>)
      returns (next: Option<nat>, updated: map<string, string>)
    requires start <= |text|
    ensures next.Some? ==> start <= next.value <= |text|
    ensures var turn := AfterOpen(text[start..]);
            && (turn.Stop? ==> next == None && updated == defaults)
            && (turn.Skip? ==> next.Some? && text[next.value..] == turn.next && updated == defaults)
            && (turn.Assign? ==>
                  next.Some? && text[next.value..] == turn.next
                  && updated == Store(defaults, Entry(turn.name, turn.value)))
  {
    hide Strip, NameLength, NoDelimiter, AfterColon, CloseAt, Store, Entry;
    var cursor := ReadName(text, start);
    if cursor >= |text| {
      return None, defaults;
    }
    Slice(text, start, cursor);
    DropTwice(text, start, cursor + 1 - start);
    if Strip(text[start..cursor]) == "" {
      return Some(start), defaults;
    }
    if text[cursor] == '}' {
      return Some(cursor + 1), defaults;
    }
    next, updated := StoreDefault(text, cursor + 1, text[start..cursor], defaults);
  }

  method ExtractEnvDefaults(text: string) returns (defaults: map<string, string>)
    ensures defaults == Store(map[], Assignments(text))
  {
    hide AfterOpen, OpensAt, Entry;
    defaults := map[];
    var idx := 0;
    assert text[0..] == text;
    while true
      invariant 0 <= idx <= |text|
      invariant Store(map[], Assignments(text)) == Store(defaults, Assignments(text[idx..]))
      decreases |text| - idx
    {
      var found := FindOpen(text[idx..]);
      if found.None? {
        break;
      }
      var start := idx + found.value;
      DropTwice(text, idx, found.value + 2);
      ghost var turn := TakeTurn(text[idx..]);
      if turn.Assign? {
        StoreConcat(defaults, Entry(turn.name, turn.value), Assignments(turn.next));
      }
      var next;
      next, defaults := ReadPlaceholder(text, start + 2, defaults);
      if next.None? {
        break;
      }
      idx := next.value;
    }
  }

  lemma DropTwice(s: string, i: nat, j: nat)
    requires i + j <= |s|
    ensures s[i..][j..] == s[i + j..]
  {
  }

  lemma Slice(s: string, i: nat, j: nat)
    requires i <= j <= |s|
    ensures s[i..][..j - i] == s[i..j]
  {
  }

  // ----- Templates --------------------------------------------------------------------------

  /**
   * A placeholder after some text: with a default, a bare reference `${NAME}`, or an opening
   * whose name is blank, after which the scanner starts over.
   */
  datatype Piece =
    | Defaulted(before: string, name: string, value: string)
    | Bare(before: string, name: string)
    | Blank(before: string)

  /** The piece written in front of `rest`. */
  function Write(p: Piece, rest: string): string {
    match p
    case Defaulted(before, name, value) => before + ("${" + (name + (":" + (value + ("}" + rest)))))
    case Bare(before, name) => before + ("${" + (name + ("}" + rest)))
    case Blank(before) => before + ("${" + rest)
  }

  function Render(pieces: seq<Piece>, tail: string): string {
    if pieces == [] then tail else Write(pieces[0], Render(pieces[1..], tail))
  }

  /** What the template declares, in order. */
  function Declared(pieces: seq<Piece>): seq<Assignment> {
    if pieces == [] then [] else DeclaredBy(pieces[0]) + Declared(pieces[1..])
  }

  function DeclaredBy(p: Piece): seq<Assignment> {
    if p.Defaulted? then Entry(p.name, p.value) else []
  }

  /** Name and default are both stored trimmed, and a blank default declares nothing. */
  lemma {:induction false} DeclaredIsTrimmed(p: Piece, name: string, value: string)
    requires p.Defaulted?
    ensures DeclaredBy(p) == [(name, value)] <==>
            value != "" && IsTrimmedPart(p.name, name) && IsTrimmedPart(p.value, value)
    ensures DeclaredBy(p) == [] <==> AllSpace(p.value)
  {
    hide IsTrimmedPart, Strip, AllSpace;
    StripIsTheTrimmedPart(p.name, name);
    StripIsTheTrimmedPart(p.value, value);
    StripIsBlankIff(p.value);
  }

  predicate NoOpen(s: string) {
    forall i | 0 <= i < |s| :: !OpensAt(s, i)
  }

  /** Depth after reading `s`, never letting it drop below zero. */
  function Depth(s: string, nested: int): int {
    if s == "" || nested < 0 then nested
    else Depth(s[1..], if s[0] == '{' then nested + 1 else if s[0] == '}' then nested - 1 else nested)
  }

  /** Every closing brace matches an earlier opening brace and none stays open. */
  predicate Balanced(s: string) {
    Depth(s, 0) == 0
  }

  function Occurrences(s: string, c: char): nat {
    if s == "" then 0 else Occurrences(s[..|s| - 1], c) + if s[|s| - 1] == c then 1 else 0
  }

  /** More closing braces than opening ones and `nested` together. */
  predicate Overdrawn(s: string, nested: nat) {
    Occurrences(s, '}') > Occurrences(s, '{') + nested
  }

  lemma {:induction false} DepthOfLonger(s: string, c: char, nested: int)
    ensures Depth(s + [c], nested) ==
            var d := Depth(s, nested);
            if d < 0 then d else if c == '{' then d + 1 else if c == '}' then d - 1 else d
    decreases |s|
  {
    if s == "" {
      assert [c][1..] == "";
      assert s + [c] == [c];
    } else if nested >= 0 {
      assert (s + [c])[1..] == s[1..] + [c];
      DepthOfLonger(s[1..], c, if s[0] == '{' then nested + 1 else if s[0] == '}' then nested - 1 else nested);
    }
  }

  lemma {:induction false} DepthCounts(s: string, nested: nat)
    ensures Depth(s, nested) < 0 <==> exists k | 0 <= k <= |s| :: Overdrawn(s[..k], nested)
    ensures Depth(s, nested) >= 0 ==> Depth(s, nested) == nested + Occurrences(s, '{') - Occurrences(s, '}')
    decreases |s|
  {
    if s == "" {
      assert s[..0] == "";
    } else {
      var front, c := s[..|s| - 1], s[|s| - 1];
      assert s == front + [c];
      DepthOfLonger(front, c, nested);
      DepthCounts(front, nested);
      assert forall k | 0 <= k <= |front| :: s[..k] == front[..k];
      assert s[..|s|] == s;
    }
  }

  /** Braces are balanced if and only if as many close as open, and never more up to any place. */
  lemma {:induction false} BalancedIffCounts(s: string)
    ensures Balanced(s) <==>
            Occurrences(s, '{') == Occurrences(s, '}') && forall k | 0 <= k <= |s| :: !Overdrawn(s[..k], 0)
  {
    DepthCounts(s, 0);
  }

  /** A name any caller would write: not blank, free of the two delimiters. */
  predicate GoodName(name: string) {
    Strip(name) != "" && NoDelimiter(name)
  }

  predicate GoodPiece(p: Piece) {
    && NoOpen(p.before)
    && !p.Blank?
    && GoodName(p.name)
    && (p.Defaulted? ==> Balanced(p.value))
  }

  lemma {:induction false} FirstOpen(before: string, after: string)
    requires NoOpen(before) && |after| >= 2 && after[0] == '$' && after[1] == '{'
    ensures FindOpen(before + after) == Some(|before|)
  {
    var s := before + after;
    assert OpensAt(s, |before|);
    forall i: nat | i < |before| ensures !OpensAt(s, i) {
      if i + 1 < |before| {
        assert !OpensAt(before, i);
      }
    }
  }

  lemma {:induction false} NameEnds(name: string, rest: string)
    requires NoDelimiter(name) && rest != "" && IsDelimiter(rest[0])
    ensures NameLength(name + rest) == |name|
  {
    hide NameLength, IsDelimiter;
    var s := name + rest;
    assert s[|name|] == rest[0];
    assert forall i | 0 <= i < |name| :: s[i] == name[i];
  }

  /** A balanced default closes at the brace written after it and nowhere earlier. */
  lemma {:induction false} DefaultCloses(value: string, nested: nat, rest: string)
    requires Depth(value, nested) == 0
    ensures CloseAt(value + ("}" + rest), nested) == Some(|value|)
    decreases |value|
  {
    var s := value + ("}" + rest);
    if value == "" {
      assert s[0] == '}';
    } else {
      assert s[1..] == value[1..] + ("}" + rest);
      var deeper := if s[0] == '{' then nested + 1 else if s[0] == '}' then nested - 1 else nested;
      if deeper >= 0 {
        DefaultCloses(value[1..], deeper, rest);
      }
    }
  }

  lemma SplitAt(a: string, mark: string, b: string)
    ensures var s := a + (mark + b);
            s[..|a|] == a && s[|a|..|a| + |mark|] == mark && s[|a| + |mark|..] == b
  {
  }

  lemma {:induction false} BareThenRest(name: string, rest: string)
    requires GoodName(name)
    ensures AfterOpen(name + ("}" + rest)) == Skip(rest)
  {
    SplitAt(name, "}", rest);
    NameEnds(name, "}" + rest);
  }

  lemma {:induction false} DefaultedThenRest(name: string, value: string, rest: string)
    requires GoodName(name) && Balanced(value)
    ensures AfterOpen(name + (":" + (value + ("}" + rest)))) == Assign(name, value, rest)
  {
    var after := value + ("}" + rest);
    SplitAt(name, ":", after);
    NameEnds(name, ":" + after);
    DefaultCloses(value, 0, rest);
    SplitAt(value, "}", rest);
  }

  lemma {:induction false} OpenThenRest(before: string, body: string)
    requires NoOpen(before)
    ensures TakeTurn(before + ("${" + body)) == AfterOpen(body)
  {
    hide AfterOpen;
    FirstOpen(before, "${" + body);
    SplitAt(before, "${", body);
  }

  /** The first turn over a written piece reads that piece and nothing else. */
  lemma {:induction false} PieceThenRest(p: Piece, rest: string)
    requires GoodPiece(p)
    ensures TakeTurn(Write(p, rest)) == if p.Defaulted? then Assign(p.name, p.value, rest) else Skip(rest)
  {
    hide TakeTurn, AfterOpen, NoOpen, GoodName;
    if p.Defaulted? {
      DefaultedThenRest(p.name, p.value, rest);
      OpenThenRest(p.before, p.name + (":" + (p.value + ("}" + rest))));
    } else {
      BareThenRest(p.name, rest);
      OpenThenRest(p.before, p.name + ("}" + rest));
    }
  }

  lemma {:induction false} PieceDeclares(p: Piece, rest: string)
    requires GoodPiece(p)
    ensures Assignments(Write(p, rest)) == DeclaredBy(p) + Assignments(rest)
  {
    PieceThenRest(p, rest);
    AssignmentsByTurn(Write(p, rest), if p.Defaulted? then Assign(p.name, p.value, rest) else Skip(rest));
  }

  lemma AssignmentsByTurn(s: string, t: Turn)
    requires t == TakeTurn(s) && !t.Stop?
    ensures Assignments(s) == (if t.Assign? then Entry(t.name, t.value) else []) + Assignments(t.next)
  {
  }

  /** Extracting from a rendered template gives exactly what the template declares. */
  lemma {:induction false} RenderThenExtract(pieces: seq<Piece>, tail: string)
    requires forall p | p in pieces :: GoodPiece(p)
    requires NoOpen(tail)
    ensures Assignments(Render(pieces, tail)) == Declared(pieces)
    decreases |pieces|
  {
    if pieces == [] {
      assert FindOpen(tail).None?;
    } else {
      PieceDeclares(pieces[0], Render(pieces[1..], tail));
      RenderThenExtract(pieces[1..], tail);
    }
  }

  function Pairs(pieces: seq<Piece>): seq<Assignment>
    requires forall p | p in pieces :: p.Defaulted?
  {
    if pieces == [] then [] else [(pieces[0].name, pieces[0].value)] + Pairs(pieces[1..])
  }

  /**
   * The round trip: names and defaults that are written trimmed come back unchanged, as the
   * map in which the last default of a name wins.
   */
  lemma {:induction false} RoundTrip(pieces: seq<Piece>, tail: string)
    requires forall p | p in pieces ::
               && GoodPiece(p) && p.Defaulted?
               && Trimmed(p.name) && Trimmed(p.value) && p.value != ""
    requires NoOpen(tail)
    ensures Store(map[], Assignments(Render(pieces, tail))) == Store(map[], Pairs(pieces))
  {
    RenderThenExtract(pieces, tail);
    TrimmedDeclares(pieces);
  }

  lemma {:induction false} TrimmedDeclares(pieces: seq<Piece>)
    requires forall p | p in pieces ::
               p.Defaulted? && Trimmed(p.name) && Trimmed(p.value) && p.value != ""
    ensures Declared(pieces) == Pairs(pieces)
    decreases |pieces|
  {
    if pieces != [] {
      assert pieces[0] in pieces;
      StripKeepsTrimmed(pieces[0].name);
      StripKeepsTrimmed(pieces[0].value);
      TrimmedDeclares(pieces[1..]);
    }
  }

  // ----- Every text reads as a template -------------------------------------------------------

  /** A default that ended at `CloseAt` is balanced. */
  lemma {:induction false} ClosedIsBalanced(s: string, nested: nat)
    requires CloseAt(s, nested).Some?
    ensures Depth(s[..CloseAt(s, nested).value], nested) == 0
    decreases |s|
  {
    var end := CloseAt(s, nested).value;
    if end > 0 {
      var deeper := if s[0] == '{' then nested + 1 else if s[0] == '}' then nested - 1 else nested;
      ClosedIsBalanced(s[1..], deeper);
      assert s[..end][1..] == s[1..][..end - 1];
    }
  }

  datatype Reading = Reading(pieces: seq<Piece>, tail: string)

  predicate ReadablePiece(p: Piece) {
    GoodPiece(p) || (p.Blank? && NoOpen(p.before))
  }

  lemma {:induction false} BeforeFirstOpen(s: string)
    requires FindOpen(s).Some?
    ensures var k := FindOpen(s).value;
            NoOpen(s[..k]) && s == s[..k] + ("${" + s[k + 2..])
  {
    var k := FindOpen(s).value;
    forall i | 0 <= i < k ensures !OpensAt(s[..k], i) {
      assert !OpensAt(s, i);
    }
  }

  lemma CutAt(s: string, n: nat)
    requires n < |s|
    ensures s == s[..n] + ([s[n]] + s[n + 1..])
  {
  }

  /** Whatever text the scanner moves past is the rendering of one piece. */
  lemma {:induction false} TurnReadsPiece(s: string) returns (p: Piece)
    requires !TakeTurn(s).Stop?
    ensures ReadablePiece(p)
    ensures s == Write(p, TakeTurn(s).next)
    ensures TakeTurn(s).Assign? <==> p.Defaulted?
    ensures p.Defaulted? ==> p.name == TakeTurn(s).name && p.value == TakeTurn(s).value
  {
    hide AfterOpen, Write, ReadablePiece, OpensAt;
    BeforeFirstOpen(s);
    var k := FindOpen(s).value;
    p := OpenReadsPiece(s[..k], s[k + 2..]);
  }

  lemma {:induction false} OpenReadsPiece(before: string, body: string) returns (p: Piece)
    requires NoOpen(before) && !AfterOpen(body).Stop?
    ensures ReadablePiece(p)
    ensures before + ("${" + body) == Write(p, AfterOpen(body).next)
    ensures AfterOpen(body).Assign? <==> p.Defaulted?
    ensures p.Defaulted? ==> p.name == AfterOpen(body).name && p.value == AfterOpen(body).value
  {
    hide Strip, CloseAt, Depth, NoOpen;
    var n := NameLength(body);
    if Strip(body[..n]) == "" {
      p := Blank(before);
    } else {
      CutAt(body, n);
      if body[n] == '}' {
        p := Bare(before, body[..n]);
      } else {
        var rest := body[n + 1..];
        var end := CloseAt(rest, 0).value;
        ClosedIsBalanced(rest, 0);
        CutAt(rest, end);
        p := Defaulted(before, body[..n], rest[..end]);
      }
    }
  }

  /**
   * Conversely, any text whatever reads as placeholders between texts free of `${`, followed
   * by a tail where the scanner gives up, and the result is what those placeholders declare.
   */
  lemma {:induction false} ExtractThenRender(s: string) returns (r: Reading)
    ensures Render(r.pieces, r.tail) == s
    ensures Declared(r.pieces) == Assignments(s)
    ensures TakeTurn(r.tail).Stop?
    ensures forall p | p in r.pieces :: ReadablePiece(p)
    decreases |s|
  {
    if TakeTurn(s).Stop? {
      r := Reading([], s);
    } else {
      var p := TurnReadsPiece(s);
      var q := ExtractThenRender(TakeTurn(s).next);
      r := Reading([p] + q.pieces, q.tail);
      assert r.pieces[1..] == q.pieces;
    }
  }
}

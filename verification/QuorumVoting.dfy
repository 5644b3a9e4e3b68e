/**
 * The weighted vote of agents/quorum/core.py: every member's vote counts with its weight times
 * its clamped confidence, and the quorum approves when the approving share reaches a threshold.
 */
module QuorumVoting {
  import opened Common

  /** A `QuorumVote`; no weight means the member's own weight counts. */
  datatype Vote = Vote(approve: bool, weight: Option<real>, confidence: real)

  /** What a member's callable may return: a bool, a vote, or a dict read key by key. */
  datatype RawVote =
    | Plain(approve: bool)
    | Full(vote: Vote)
    | Fields(approveKey: Option<bool>, voteKey: Option<bool>, weightKey: Option<real>, confidenceKey: Option<real>)

  datatype Member = Member(name: string, weight: real)

  /** A vote with its weight settled. */
  datatype Cast = Cast(approve: bool, weight: real, confidence: real)

  datatype Entry = Entry(name: string, approve: bool, weight: real, confidence: real, effectiveWeight: real)

  datatype Info = Info(
    ratio: real, approvedWeight: real, totalWeight: real, threshold: real,
    breakdown: seq<Entry>, confidence: real)

  function Clamp(x: real): real {
    if x < 0.0 then 0.0 else if x > 1.0 then 1.0 else x
  }

  function Normalize(raw: RawVote, defaultWeight: real): Vote {
    match raw
    case Full(vote) => vote
    case Plain(approve) => Vote(approve, Some(defaultWeight), 1.0)
    case Fields(approveKey, voteKey, weightKey, confidenceKey) =>
      Vote(if approveKey.Some? then approveKey.value else voteKey.Some? && voteKey.value,
           if weightKey.Some? then weightKey else Some(defaultWeight),
           if confidenceKey.Some? then confidenceKey.value else 1.0)
  }

  /** The three forms a member may answer in: a bare bool is a vote of full confidence with the
      member's weight, and a dict is the vote it spells, its `approve` before its `vote`. */
  lemma SameVoteInThreeForms(m: Member, v: Vote, other: Option<bool>)
    ensures Settle(m, Plain(v.approve)) == Settle(m, Full(Vote(v.approve, None, 1.0)))
    ensures Settle(m, Fields(Some(v.approve), other, v.weight, Some(v.confidence))) == Settle(m, Full(v))
    ensures Settle(m, Fields(None, Some(v.approve), v.weight, Some(v.confidence))) == Settle(m, Full(v))
    ensures Settle(m, Fields(None, None, None, None)) == Settle(m, Plain(false))
    ensures Settle(m, Full(v)) == Cast(v.approve, if v.weight.Some? then v.weight.value else m.weight, v.confidence)
  {
  }

  function Settle(m: Member, raw: RawVote): Cast {
    var v := Normalize(raw, m.weight);
    Cast(v.approve, if v.weight.Some? then v.weight.value else m.weight, v.confidence)
  }

  function SettleAll(members: seq<Member>, raws: seq<RawVote>): (casts: seq<Cast>)
    requires |members| == |raws|
    ensures |casts| == |members| && forall i | 0 <= i < |casts| :: casts[i] == Settle(members[i], raws[i])
  {
    seq(|members|, i requires 0 <= i < |members| => Settle(members[i], raws[i]))
  }

  function Effective(c: Cast): real {
    c.weight * Clamp(c.confidence)
  }

  /** The weight cast for and against. */
  datatype Tally = Tally(approved: real, rejected: real) {
    function Total(): real {
      approved + rejected
    }

    function Plus(c: Cast): Tally {
      if c.approve then Tally(approved + Effective(c), rejected)
      else Tally(approved, rejected + Effective(c))
    }

    /** The approving share of the weight that was cast; no weight at all counts as no support. */
    function Share(): real {
      if Total() != 0.0 then approved / Total() else 0.0
    }
  }

  function Count(casts: seq<Cast>): Tally {
    if casts == [] then Tally(0.0, 0.0) else Count(casts[..|casts| - 1]).Plus(casts[|casts| - 1])
  }

  function Ratio(casts: seq<Cast>): real {
    Count(casts).Share()
  }

  predicate Approves(casts: seq<Cast>, threshold: real) {
    Ratio(casts) >= threshold
  }

  predicate NonNegative(casts: seq<Cast>) {
    forall c | c in casts :: c.weight >= 0.0
  }

  // ----- Bounds -----------------------------------------------------------------------------

  lemma ProductMonotone(w: real, a: real, b: real)
    requires w >= 0.0 && a <= b
    ensures w * a <= w * b
  {
    assert w * (b - a) >= 0.0;
  }

  lemma PartOfWeight(w: real, k: real)
    requires w >= 0.0 && 0.0 <= k <= 1.0
    ensures 0.0 <= w * k <= w
  {
    var rest := w * (1.0 - k);
    assert rest >= 0.0;
    assert rest == w - w * k;
  }

  lemma ClampBounds(x: real)
    ensures 0.0 <= Clamp(x) <= 1.0
  {
  }

  lemma {:induction false} EffectiveBounds(c: Cast)
    requires c.weight >= 0.0
    ensures 0.0 <= Effective(c) <= c.weight
  {
    hide Clamp;
    ClampBounds(c.confidence);
    var k := Clamp(c.confidence);
    PartOfWeight(c.weight, k);
    assert Effective(c) == c.weight * k;
  }

  lemma {:induction false} CountNonNegative(casts: seq<Cast>)
    requires NonNegative(casts)
    ensures Count(casts).approved >= 0.0 && Count(casts).rejected >= 0.0
    decreases |casts|
  {
    hide Effective;
    if casts != [] {
      assert casts[|casts| - 1] in casts;
      EffectiveBounds(casts[|casts| - 1]);
      CountNonNegative(casts[..|casts| - 1]);
    }
  }

  lemma {:induction false} ShareTimesTotal(t: Tally)
    requires t.approved >= 0.0 && t.rejected >= 0.0
    ensures t.Share() * t.Total() == t.approved
    ensures 0.0 <= t.Share() <= 1.0
  {
  }

  lemma {:induction false} RatioInUnitInterval(casts: seq<Cast>)
    requires NonNegative(casts)
    ensures 0.0 <= Ratio(casts) <= 1.0
  {
    CountNonNegative(casts);
    ShareTimesTotal(Count(casts));
  }

  lemma QuotientCompares(q: real, total: real, threshold: real)
    requires total > 0.0
    ensures q >= threshold <==> q * total >= threshold * total
  {
    if q >= threshold {
      ProductMonotone(total, threshold, q);
    } else {
      assert (threshold - q) * total > 0.0;
    }
  }

  lemma QuotientReaches(a: real, total: real, threshold: real)
    requires total > 0.0
    ensures a / total >= threshold <==> a >= threshold * total
  {
    var q := a / total;
    assert q * total == a;
    QuotientCompares(q, total, threshold);
  }

  lemma ShareReaches(t: Tally, threshold: real)
    requires t.Total() > 0.0
    ensures t.Share() >= threshold <==> t.approved >= threshold * t.Total()
  {
    QuotientReaches(t.approved, t.Total(), threshold);
  }

  /** When anything at all was cast, approval compares weights, without division. */
  lemma {:induction false} ApprovesIffShare(casts: seq<Cast>, threshold: real)
    requires NonNegative(casts) && Count(casts).Total() > 0.0
    ensures Approves(casts, threshold) <==> Count(casts).approved >= threshold * Count(casts).Total()
  {
    hide Tally.Share;
    ShareReaches(Count(casts), threshold);
  }

  // ----- The order of the members does not matter -----------------------------------------------

  lemma {:induction false} CountRemove(casts: seq<Cast>, i: nat)
    requires i < |casts|
    ensures Count(casts) == Count(casts[..i] + casts[i + 1..]).Plus(casts[i])
    decreases |casts|
  {
    var front := casts[..|casts| - 1];
    var rest := casts[..i] + casts[i + 1..];
    if i == |casts| - 1 {
      assert rest == front;
    } else {
      CountRemove(front, i);
      assert rest[..|rest| - 1] == front[..i] + front[i + 1..];
      assert rest[|rest| - 1] == casts[|casts| - 1];
    }
  }

  lemma RemoveFromMultiset(casts: seq<Cast>, i: nat)
    requires i < |casts|
    ensures multiset(casts[..i] + casts[i + 1..]) == multiset(casts) - multiset{casts[i]}
  {
    assert casts == casts[..i] + ([casts[i]] + casts[i + 1..]);
  }

  lemma {:induction false} CountPermuted(a: seq<Cast>, b: seq<Cast>)
    requires multiset(a) == multiset(b)
    ensures Count(a) == Count(b)
    decreases |a|
  {
    if a == [] {
      assert |multiset(b)| == |b|;
    } else {
      var last := |a| - 1;
      assert a[last] in multiset(b);
      var i :| 0 <= i < |b| && b[i] == a[last];
      RemoveFromMultiset(a, last);
      RemoveFromMultiset(b, i);
      assert a[..last] + a[last + 1..] == a[..last];
      CountPermuted(a[..last], b[..i] + b[i + 1..]);
      CountRemove(b, i);
    }
  }

  lemma {:induction false} OrderDoesNotMatter(a: seq<Cast>, b: seq<Cast>, threshold: real)
    requires multiset(a) == multiset(b)
    ensures Ratio(a) == Ratio(b) && (Approves(a, threshold) <==> Approves(b, threshold))
  {
    CountPermuted(a, b);
  }

  // ----- Only relative weights matter -----------------------------------------------------------

  function ScaleCast(c: Cast, k: real): Cast {
    Cast(c.approve, k * c.weight, c.confidence)
  }

  /** The same votes with every weight multiplied by `k`. */
  predicate Scaled(casts: seq<Cast>, k: real, scaled: seq<Cast>) {
    && |scaled| == |casts|
    && forall i | 0 <= i < |casts| :: scaled[i] == ScaleCast(casts[i], k)
  }

  lemma Distribute(k: real, a: real, b: real)
    ensures k * (a + b) == k * a + k * b
  {
  }

  lemma ScaledProduct(k: real, w: real, c: real)
    ensures (k * w) * c == k * (w * c)
  {
  }

  lemma {:induction false} EffectiveScales(k: real, c: Cast)
    ensures Effective(ScaleCast(c, k)) == k * Effective(c)
  {
    ScaledProduct(k, c.weight, Clamp(c.confidence));
  }

  function ScaleTally(t: Tally, k: real): Tally {
    Tally(k * t.approved, k * t.rejected)
  }

  lemma {:induction false} PlusScales(t: Tally, k: real, c: Cast)
    ensures ScaleTally(t, k).Plus(ScaleCast(c, k)) == ScaleTally(t.Plus(c), k)
  {
    EffectiveScales(k, c);
    Distribute(k, t.approved, Effective(c));
    Distribute(k, t.rejected, Effective(c));
  }

  lemma NothingScales(k: real)
    ensures ScaleTally(Tally(0.0, 0.0), k) == Tally(0.0, 0.0)
  {
  }

  lemma {:induction false} CountScales(casts: seq<Cast>, k: real, scaled: seq<Cast>)
    requires Scaled(casts, k, scaled)
    ensures Count(scaled) == ScaleTally(Count(casts), k)
    decreases |casts|
  {
    hide ScaleTally, ScaleCast, Tally.Plus;
    if casts == [] {
      NothingScales(k);
    } else {
      var n := |casts| - 1;
      CountScales(casts[..n], k, scaled[..n]);
      PlusScales(Count(casts[..n]), k, casts[n]);
    }
  }

  lemma ScaledQuotient(k: real, a: real, t: real)
    requires k != 0.0 && t != 0.0
    ensures k * t != 0.0 && (k * a) / (k * t) == a / t
  {
    var q := a / t;
    assert q * t == a;
    ScaledProduct(k, q, t);
    assert k * a == q * (k * t);
  }

  lemma {:induction false} ShareScales(t: Tally, k: real)
    requires k > 0.0
    ensures ScaleTally(t, k).Share() == t.Share()
  {
    Distribute(k, t.approved, t.rejected);
    if t.Total() != 0.0 {
      ScaledQuotient(k, t.approved, t.Total());
    }
  }

  lemma {:induction false} OnlyRelativeWeightsMatter(casts: seq<Cast>, k: real, scaled: seq<Cast>, threshold: real)
    requires k > 0.0 && Scaled(casts, k, scaled)
    ensures Ratio(scaled) == Ratio(casts)
    ensures Approves(scaled, threshold) <==> Approves(casts, threshold)
  {
    hide Tally.Share, ScaleTally;
    CountScales(casts, k, scaled);
    ShareScales(Count(casts), k);
  }

  // ----- More support never blocks --------------------------------------------------------------

  /** The same voice, at least as favourable: turned to approval, or surer if it already approved,
      or less sure if it still rejects. */
  predicate AtLeastAsFavourable(c: Cast, d: Cast) {
    && c.weight == d.weight
    && (c.approve ==> d.approve && c.confidence <= d.confidence)
    && (!c.approve && !d.approve ==> d.confidence <= c.confidence)
  }

  lemma {:induction false} EffectiveMonotone(c: Cast, d: Cast)
    requires c.weight == d.weight >= 0.0 && c.confidence <= d.confidence
    ensures Effective(c) <= Effective(d)
  {
    ProductMonotone(c.weight, Clamp(c.confidence), Clamp(d.confidence));
  }

  lemma {:induction false} CountMovesTheRightWay(before: seq<Cast>, after: seq<Cast>)
    requires NonNegative(before) && |before| == |after|
    requires forall i | 0 <= i < |before| :: AtLeastAsFavourable(before[i], after[i])
    ensures Count(before).approved <= Count(after).approved
    ensures Count(after).rejected <= Count(before).rejected
    decreases |before|
  {
    hide Effective;
    if before != [] {
      var n := |before| - 1;
      var c, d := before[n], after[n];
      assert c in before && AtLeastAsFavourable(c, d);
      EffectiveBounds(c);
      EffectiveBounds(d);
      if c.approve {
        EffectiveMonotone(c, d);
      } else if !d.approve {
        EffectiveMonotone(d, c);
      }
      CountMovesTheRightWay(before[..n], after[..n]);
    }
  }

  lemma PartOfGap(q: real, a: real, a': real)
    requires q <= 1.0 && a <= a'
    ensures a - q * a <= a' - q * a'
  {
    var gap := a' - a;
    ProductMonotone(gap, q, 1.0);
    assert gap * q == q * a' - q * a;
  }

  /** From q (a + r) = a, with a' >= a and r' <= r, follows q (a' + r') <= a'. */
  lemma ShareStaysBelow(q: real, a: real, r: real, a': real, r': real)
    requires 0.0 <= q <= 1.0 && a <= a' && r' <= r && q * (a + r) == a
    ensures q * (a' + r') <= a'
  {
    ProductMonotone(q, r', r);
    PartOfGap(q, a, a');
    Distribute(q, a, r);
    Distribute(q, a', r');
  }

  lemma SharesCompare(q: real, a: real, r: real, q': real, a': real, r': real)
    requires 0.0 <= q <= 1.0 && a <= a' && r' <= r && a' + r' > 0.0
    requires q * (a + r) == a && q' * (a' + r') == a'
    ensures q <= q'
  {
    ShareStaysBelow(q, a, r, a', r');
    QuotientCompares(q', a' + r', q);
  }

  lemma ShareWithoutSupport(t: Tally)
    requires t.approved == 0.0
    ensures t.Share() == 0.0
  {
  }

  lemma {:induction false} ShareMonotone(t: Tally, u: Tally)
    requires 0.0 <= t.approved <= u.approved && 0.0 <= u.rejected <= t.rejected
    ensures t.Share() <= u.Share()
  {
    hide Tally.Share;
    ShareTimesTotal(t);
    ShareTimesTotal(u);
    if t.approved == 0.0 {
      ShareWithoutSupport(t);
    } else {
      SharesCompare(t.Share(), t.approved, t.rejected, u.Share(), u.approved, u.rejected);
    }
  }

  /** No combination of friendlier votes turns an approval into a block. */
  lemma {:induction false} MoreSupportNeverBlocks(before: seq<Cast>, after: seq<Cast>, threshold: real)
    requires NonNegative(before) && |before| == |after|
    requires forall i | 0 <= i < |before| :: AtLeastAsFavourable(before[i], after[i])
    ensures Ratio(before) <= Ratio(after)
    ensures Approves(before, threshold) ==> Approves(after, threshold)
  {
    hide Tally.Share;
    CountMovesTheRightWay(before, after);
    assert NonNegative(after) by {
      forall d | d in after ensures d.weight >= 0.0 {
        var i :| 0 <= i < |after| && after[i] == d;
        assert AtLeastAsFavourable(before[i], after[i]) && before[i] in before;
      }
    }
    CountNonNegative(before);
    CountNonNegative(after);
    ShareMonotone(Count(before), Count(after));
  }

  // ----- The quorum -------------------------------------------------------------------------

  function EntryOf(m: Member, raw: RawVote): Entry {
    var c := Settle(m, raw);
    Entry(m.name, c.approve, c.weight, Clamp(c.confidence), Effective(c))
  }

  /** A line of the breakdown: the settled vote, its confidence clamped, and their product. */
  predicate TellsVote(line: Entry, name: string, c: Cast) {
    && line.name == name && line.approve == c.approve && line.weight == c.weight
    && line.confidence == (if c.confidence < 0.0 then 0.0 else if c.confidence > 1.0 then 1.0 else c.confidence)
    && line.effectiveWeight == line.weight * line.confidence
  }

  lemma EntryTellsVote(m: Member, raw: RawVote)
    ensures TellsVote(EntryOf(m, raw), m.name, Settle(m, raw))
  {
  }

  predicate IsGreatestConfidence(breakdown: seq<Entry>, confidence: real) {
    && (forall e | e in breakdown :: e.confidence <= confidence)
    && (if breakdown == [] then confidence == 0.0 else exists e | e in breakdown :: e.confidence == confidence)
  }

  method GreatestConfidence(breakdown: seq<Entry>) returns (greatest: real)
    ensures IsGreatestConfidence(breakdown, greatest)
  {
    if breakdown == [] {
      return 0.0;
    }
    greatest := breakdown[0].confidence;
    for i := 1 to |breakdown|
      invariant forall j | 0 <= j < i :: breakdown[j].confidence <= greatest
      invariant exists j | 0 <= j < i :: breakdown[j].confidence == greatest
    {
      if greatest < breakdown[i].confidence {
        greatest := breakdown[i].confidence;
      }
    }
    assert exists e | e in breakdown :: e.confidence == greatest;
  }

  /** The part of the loop body that turns what a member returned into a line of the breakdown. */
  method CountVote(m: Member, raw: RawVote) returns (line: Entry)
    ensures line == EntryOf(m, raw)
    ensures line.effectiveWeight == Effective(Settle(m, raw)) && line.approve == Settle(m, raw).approve
  {
    var normalized := Normalize(raw, m.weight);
    var weight := if normalized.weight.Some? then normalized.weight.value else m.weight;
    var confidence := Clamp(normalized.confidence);
    var effectiveWeight := weight * confidence;
    line := Entry(m.name, normalized.approve, weight, confidence, effectiveWeight);
  }

  /** The loop over the members. */
  method CollectVotes(members: seq<Member>, raws: seq<RawVote>)
      returns (breakdown: seq<Entry>, approved: real, total: real)
    requires |raws| == |members|
    ensures approved == Count(SettleAll(members, raws)).approved
    ensures total == Count(SettleAll(members, raws)).Total()
    ensures |breakdown| == |members|
    ensures forall i | 0 <= i < |members| :: breakdown[i] == EntryOf(members[i], raws[i])
  {
    hide Effective, EntryOf, Settle;
    ghost var casts := SettleAll(members, raws);
    breakdown := [];
    approved, total := 0.0, 0.0;
    for i := 0 to |members|
      invariant approved == Count(casts[..i]).approved && total == Count(casts[..i]).Total()
      invariant |breakdown| == i && forall j | 0 <= j < i :: breakdown[j] == EntryOf(members[j], raws[j])
    {
      var line := CountVote(members[i], raws[i]);
      assert casts[..i + 1][..i] == casts[..i] && casts[i] == Settle(members[i], raws[i]);
      total := total + line.effectiveWeight;
      if line.approve {
        approved := approved + line.effectiveWeight;
      }
      breakdown := breakdown + [line];
    }
    assert casts[..|members|] == casts;
  }

  class Quorum {
    const members: seq<Member>
    const threshold: real
    var lastInfo: Option<Info>
    var lastDecision: Option<bool>

    constructor (members: seq<Member>, threshold: real)
      ensures this.members == members && this.threshold == threshold
      ensures lastInfo == None && lastDecision == None
    {
      this.members, this.threshold := members, threshold;
      lastInfo, lastDecision := None, None;
    }

    /** `raws` is what the members' callables return, in order. */
    method DecideWithDetails(raws: seq<RawVote>) returns (decision: bool, info: Info)
      requires |raws| == |members|
      modifies this
      ensures decision <==> Approves(SettleAll(members, raws), threshold)
      ensures info.ratio == Ratio(SettleAll(members, raws)) && info.threshold == threshold
      ensures info.approvedWeight == Count(SettleAll(members, raws)).approved
      ensures info.totalWeight == Count(SettleAll(members, raws)).Total()
      ensures |info.breakdown| == |members|
      ensures forall i | 0 <= i < |members| :: info.breakdown[i] == EntryOf(members[i], raws[i])
      ensures forall i | 0 <= i < |members| ::
                TellsVote(info.breakdown[i], members[i].name, Settle(members[i], raws[i]))
      ensures IsGreatestConfidence(info.breakdown, info.confidence)
      ensures lastInfo == Some(info) && lastDecision == Some(decision)
    {
      hide Count, EntryOf, TellsVote, Settle;
      var breakdown, approved, total := CollectVotes(members, raws);
      var ratio := if total != 0.0 then approved / total else 0.0;
      decision := ratio >= threshold;
      var greatest := GreatestConfidence(breakdown);
      info := Info(ratio, approved, total, threshold, breakdown, greatest);
      lastInfo, lastDecision := Some(info), Some(decision);
      forall i | 0 <= i < |members| ensures TellsVote(breakdown[i], members[i].name, Settle(members[i], raws[i])) {
        EntryTellsVote(members[i], raws[i]);
      }
    }
  }
}

/**
 * The guardian, the models and the quorum together, with the default weights and threshold.
 *
 * A reflex halt is one vote among several, so it is not an absolute veto. These theorems say
 * exactly when it blocks, for every context and every setting of the other limits, and that a
 * halt the guardian raises over the stake always does.
 */
module DecisionStack {
  import opened Common
  import opened QuorumVoting
  import opened ReflexGuardian
  import opened QuorumModels

  const RISK := 2

  function Votes(l: Limits, includeTreasury: bool, ctx: Context): (casts: seq<Cast>)
    ensures |casts| == if includeTreasury then 5 else 4
  {
    CastsOf(DefaultModels(l, includeTreasury), ctx)
  }

  predicate OthersApprove(casts: seq<Cast>) {
    forall i | 0 <= i < |casts| && i != RISK :: casts[i].approve
  }

  // ----- Counting a short list -----------------------------------------------------------------

  lemma CountNext(casts: seq<Cast>, n: nat)
    requires n < |casts|
    ensures Count(casts[..n + 1]) == Count(casts[..n]).Plus(casts[n])
  {
    assert casts[..n + 1][..n] == casts[..n];
  }

  lemma CountFour(casts: seq<Cast>)
    requires |casts| >= 4
    ensures Count(casts[..4]) == Tally(0.0, 0.0).Plus(casts[0]).Plus(casts[1]).Plus(casts[2]).Plus(casts[3])
  {
    CountNext(casts, 0);
    CountNext(casts, 1);
    CountNext(casts, 2);
    CountNext(casts, 3);
  }

  // ----- What each member can put on the scales --------------------------------------------------

  /** The most weight a member's approval carries, and the least its rejection does. */
  predicate Within(c: Cast, least: real, most: real) {
    0.0 <= Effective(c) && (if c.approve then Effective(c) <= most else Effective(c) >= least)
  }

  lemma {:induction false} ModelWithin(m: Model, ctx: Context)
    requires DefaultConfidences(m.kind) && m.weight > 0.0
    ensures Within(CastOf(m, ctx), m.weight * RejectFloor(m.kind), m.weight * ApproveCeiling(m.kind))
    ensures CastOf(m, ctx).weight == m.weight
  {
    hide VoteOf, RejectFloor, ApproveCeiling;
    ConfidenceBounds(m, ctx);
    var c := CastOf(m, ctx);
    EffectiveWithin(c, RejectFloor(m.kind), ApproveCeiling(m.kind));
  }

  lemma {:induction false} EffectiveWithin(c: Cast, floor: real, ceiling: real)
    requires c.weight > 0.0 && 0.0 <= c.confidence <= 1.0
    requires if c.approve then c.confidence <= ceiling else c.confidence >= floor
    ensures Within(c, c.weight * floor, c.weight * ceiling)
  {
    ProductMonotone(c.weight, 0.0, c.confidence);
    if c.approve {
      ProductMonotone(c.weight, c.confidence, ceiling);
    } else {
      ProductMonotone(c.weight, floor, c.confidence);
    }
  }

  lemma RiskUnderHalt(m: Model, ctx: Context)
    requires m.kind.RiskKind? && ctx.reflexHalt
    ensures CastOf(m, ctx) == Cast(false, m.weight, 1.0)
    ensures Effective(CastOf(m, ctx)) == m.weight
  {
  }

  /** With a halt: the bounds of every member's vote, risk rejecting with its full weight. */
  lemma {:induction false} VotesUnderHalt(l: Limits, includeTreasury: bool, ctx: Context)
    requires ctx.reflexHalt
    ensures var v := Votes(l, includeTreasury, ctx);
            && Within(v[0], 0.6, 0.65) && Within(v[1], 0.48, 1.2) && Within(v[3], 0.32, 0.8)
            && !v[RISK].approve && Effective(v[RISK]) == 2.0
            && (includeTreasury ==> Within(v[4], 0.24, 0.48))
            && NonNegative(v)
  {
    hide Effective, VoteOf;
    var models := DefaultModels(l, includeTreasury);
    forall i | 0 <= i < |models|
      ensures Within(CastOf(models[i], ctx),
                     models[i].weight * RejectFloor(models[i].kind), models[i].weight * ApproveCeiling(models[i].kind))
      ensures CastOf(models[i], ctx).weight == models[i].weight
    {
      ModelWithin(models[i], ctx);
    }
    RiskUnderHalt(models[RISK], ctx);
    assert Within(CastOf(models[0], ctx), 1.0 * 0.6, 1.0 * 0.65);
    assert Within(CastOf(models[1], ctx), 1.2 * 0.4, 1.2 * 1.0);
    assert Within(CastOf(models[3], ctx), 0.8 * 0.4, 0.8 * 1.0);
    if includeTreasury {
      assert Within(CastOf(models[4], ctx), 0.6 * 0.4, 0.6 * 0.8);
    }
  }

  // ----- A halt against the others -----------------------------------------------------------------

  lemma {:induction false} HaltIsOutweighedIff(l: Limits, includeTreasury: bool, ctx: Context)
    requires ctx.reflexHalt
    ensures var v := Votes(l, includeTreasury, ctx);
            Approves(v, DEFAULT_THRESHOLD) <==> OthersApprove(v) && 9.0 * Count(v).approved >= 22.0
  {
    hide Tally.Share, Effective, CastsOf, DefaultModels, VoteOf;
    var v := Votes(l, includeTreasury, ctx);
    VotesUnderHalt(l, includeTreasury, ctx);
    CountFour(v);
    if includeTreasury {
      CountNext(v, 4);
      assert v[..5] == v;
    } else {
      assert v[..4] == v;
    }
    var t := Count(v);
    assert t.rejected >= 2.0;
    CountNonNegative(v);
    ApprovesIffShare(v, DEFAULT_THRESHOLD);
    assert OthersApprove(v) <==> v[0].approve && v[1].approve && v[3].approve && (includeTreasury ==> v[4].approve);
  }

  /** Every signal but the halt speaks for the decision. */
  predicate OthersFavour(l: Limits, includeTreasury: bool, ctx: Context) {
    && Favours(YieldKind(0.55), ctx)
    && Favours(ArbKind(l.premiumThreshold, l.minUnits), ctx)
    && Favours(DemandKind(l.surge, l.relax), ctx)
    && (includeTreasury ==> Favours(TreasuryKind(l.bufferDays, 0.4), ctx))
  }

  /** What the other members put on the scales when they all approve. */
  function Support(l: Limits, includeTreasury: bool, ctx: Context): real
    requires OthersFavour(l, includeTreasury, ctx)
  {
    Strength(YieldKind(0.55), ctx)
    + 1.2 * Strength(ArbKind(l.premiumThreshold, l.minUnits), ctx)
    + 0.8 * Strength(DemandKind(l.surge, l.relax), ctx)
    + if includeTreasury then 0.6 * Strength(TreasuryKind(l.bufferDays, 0.4), ctx) else 0.0
  }

  lemma {:induction false} CastOfApproval(m: Model, ctx: Context)
    requires DefaultConfidences(m.kind) && Favours(m.kind, ctx)
    ensures CastOf(m, ctx).approve && Effective(CastOf(m, ctx)) == m.weight * Strength(m.kind, ctx)
  {
    hide VoteOf, Strength, Favours;
    ApprovalsAreThisSure(m, ctx);
  }

  lemma {:induction false} OthersApproveIffFavoured(l: Limits, includeTreasury: bool, ctx: Context)
    ensures OthersApprove(Votes(l, includeTreasury, ctx)) <==> OthersFavour(l, includeTreasury, ctx)
  {
    hide VoteOf, Favours;
    var models := DefaultModels(l, includeTreasury);
    forall i | 0 <= i < |models|
      ensures CastOf(models[i], ctx).approve <==> Favours(models[i].kind, ctx)
    {
      ApprovesIffFavoured(models[i], ctx);
    }
    var v := Votes(l, includeTreasury, ctx);
    assert v[0].approve <==> Favours(YieldKind(0.55), ctx);
    assert v[1].approve <==> Favours(ArbKind(l.premiumThreshold, l.minUnits), ctx);
    assert v[3].approve <==> Favours(DemandKind(l.surge, l.relax), ctx);
    assert includeTreasury ==> (v[4].approve <==> Favours(TreasuryKind(l.bufferDays, 0.4), ctx));
  }

  lemma {:induction false} SupportIsCounted(l: Limits, includeTreasury: bool, ctx: Context)
    requires ctx.reflexHalt && OthersFavour(l, includeTreasury, ctx)
    ensures Count(Votes(l, includeTreasury, ctx)).approved == Support(l, includeTreasury, ctx)
  {
    hide VoteOf, Favours, Strength, Effective;
    var models, v := DefaultModels(l, includeTreasury), Votes(l, includeTreasury, ctx);
    CastOfApproval(models[0], ctx);
    CastOfApproval(models[1], ctx);
    CastOfApproval(models[3], ctx);
    RiskUnderHalt(models[RISK], ctx);
    CountFour(v);
    if includeTreasury {
      CastOfApproval(models[4], ctx);
      CountNext(v, 4);
      assert v[..5] == v;
    } else {
      assert v[..4] == v;
    }
  }

  /**
   * Under a halt the quorum approves if and only if every other signal of the context speaks for
   * it and together they weigh at least 22/9. In particular one more rejection always blocks.
   */
  lemma {:induction false} HaltIsOutvotedIff(l: Limits, includeTreasury: bool, ctx: Context)
    requires ctx.reflexHalt
    ensures Approves(Votes(l, includeTreasury, ctx), DEFAULT_THRESHOLD)
            <==> OthersFavour(l, includeTreasury, ctx) && 9.0 * Support(l, includeTreasury, ctx) >= 22.0
  {
    hide Votes, Approves, OthersFavour, Support, OthersApprove;
    HaltIsOutweighedIff(l, includeTreasury, ctx);
    OthersApproveIffFavoured(l, includeTreasury, ctx);
    if OthersFavour(l, includeTreasury, ctx) {
      SupportIsCounted(l, includeTreasury, ctx);
    }
  }

  lemma {:induction false} HaltPlusOneRejectionBlocks(l: Limits, includeTreasury: bool, ctx: Context, i: nat)
    requires ctx.reflexHalt
    requires i < |DefaultModels(l, includeTreasury)| && i != RISK
    requires !VoteOf(DefaultModels(l, includeTreasury)[i], ctx).approve
    ensures !Approves(Votes(l, includeTreasury, ctx), DEFAULT_THRESHOLD)
  {
    HaltIsOutweighedIff(l, includeTreasury, ctx);
    assert !Votes(l, includeTreasury, ctx)[i].approve;
  }

  /** A halt alone can be outvoted: a healthy stake, a wide premium and full use are enough. */
  lemma {:induction false} HaltAloneCanBeOutvoted() returns (l: Limits, ctx: Context)
    ensures ctx.reflexHalt && Approves(Votes(l, false, ctx), DEFAULT_THRESHOLD)
  {
    l := Limits(1.03, 1, None, {}, 0.82, 0.45, 1.5);
    ctx := Context(Some(2.0), Some(1), Some(1.0), None, None,
                   Some(Stake(Some("ok"), Some(Snapshot(Some(true), Some(1.0))), false)),
                   true, false, None, Unknown, true);
    assert Strength(DemandKind(l.surge, l.relax), ctx) == 1.0 by {
      assert (1.0 - 0.82) / Max(EPSILON, 1.0 - 0.82) == 1.0;
    }
    HaltIsOutvotedIff(l, false, ctx);
  }

  // ----- From the guardian to the decision ---------------------------------------------------------

  /** A stake the guardian finds in error or explicitly inactive is one the yield model rejects. */
  lemma {:induction false} BadStakeIsRejected(o: Observation, ctx: Context, minConfidence: real)
    requires ctx.stake == o.stake && (StakeErrored(o) || ExplicitlyInactive(o))
    ensures !YieldVote(minConfidence, ctx).approve
  {
    assert Lower("ok") == "ok";
  }

  /**
   * A halt over the stake is a real veto. After any history of evaluations, if the guardian
   * halts because the stake errored or stayed inactive, and the quorum is asked with that halt
   * and that stake, it blocks, whatever the other signals and limits.
   */
  lemma {:induction false} StakeHaltAlwaysBlocks(
    c: Config, earlier: seq<Observation>, o: Observation, verdict: Verdict,
    l: Limits, includeTreasury: bool, ctx: Context)
    requires ValidConfig(c)
    requires IsVerdict(c, After(c, earlier + [o]), o, verdict)
    requires StakeInactive in verdict.reasons || StakeError in verdict.reasons
    requires ctx.stake == o.stake && ctx.reflexHalt == verdict.halt
    ensures !Approves(Votes(l, includeTreasury, ctx), DEFAULT_THRESHOLD)
  {
    StakeHaltShowsInStake(c, earlier, o, verdict);
    BadStakeIsRejected(o, ctx, 0.55);
    HaltPlusOneRejectionBlocks(l, includeTreasury, ctx, 0);
  }

  /** The same, with the objects: evaluate, update the coordinator, decide. */
  method EvaluateThenDecide(
    guardian: Guardian, coordinator: Coordinator, ghost l: Limits, ghost includeTreasury: bool,
    ghost earlier: seq<Observation>, o: Observation, base: Context)
    returns (verdict: Verdict, ballot: Ballot)
    requires ValidConfig(guardian.config) && guardian.Streaks() == After(guardian.config, earlier)
    requires coordinator.Valid() && coordinator.quorum.threshold == DEFAULT_THRESHOLD
    requires coordinator.models == DefaultModels(l, includeTreasury)
    requires base.stake == o.stake
    modifies guardian, coordinator, coordinator.quorum
    ensures coordinator.Valid() && guardian.Streaks() == After(guardian.config, earlier + [o])
    ensures ballot.Decided?
    ensures StakeInactive in verdict.reasons || StakeError in verdict.reasons ==> !ballot.approved
  {
    verdict := guardian.Evaluate(o);
    assert (earlier + [o])[..|earlier|] == earlier;
    var ctx := base.(reflexHalt := verdict.halt);
    coordinator.Update(ctx);
    ballot := coordinator.DecideWithDetails();
    SameContextForAll(coordinator.models, coordinator.contexts, ctx);
    if StakeInactive in verdict.reasons || StakeError in verdict.reasons {
      StakeHaltAlwaysBlocks(guardian.config, earlier, o, verdict, l, includeTreasury, ctx);
    }
  }
}

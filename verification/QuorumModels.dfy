/**
 * The five voting models of agents/quorum/models.py and the coordinator of
 * agents/quorum/coordinator.py that feeds them one context and puts them to the vote.
 *
 * Reason texts are left out of the votes. Tunable limits are parameters; the weights and the
 * threshold take their defaults in the theorems that need them.
 */
module QuorumModels {
  import opened Common
  import opened QuorumVoting
  import opened ReflexGuardian

  /** The reported daily usage: absent, not a number, or a number. */
  datatype Usage = Unknown | Invalid | Daily(average: real)

  /** The signals a cycle pushes into every model. */
  datatype Context = Context(
    premium: Option<real>, suggestedUnits: Option<int>, utilization: Option<real>, vol: Option<real>,
    inventoryUsd: Option<real>, stake: Option<Stake>, reflexHalt: bool, reflexWarns: bool,
    priceGuard: Option<string>, usage: Usage, simulateDecision: bool)

  datatype Kind =
    | YieldKind(minConfidence: real)
    | ArbKind(premiumThreshold: real, minUnits: int)
    | RiskKind(maxVol: Option<real>, blockReasons: set<string>)
    | DemandKind(surge: real, relax: real)
    | TreasuryKind(bufferDays: real, minConfidence: real)

  datatype Model = Model(name: string, weight: real, kind: Kind)

  const EPSILON := 0.000001

  function Abs(x: real): real { if x >= 0.0 then x else -x }

  /** A vote without a weight of its own. */
  function Say(approve: bool, confidence: real): Vote {
    Vote(approve, None, confidence)
  }

  function YieldVote(minConfidence: real, ctx: Context): Vote {
    if ctx.stake.Some? && ctx.stake.value.status.Some? && ctx.stake.value.status.value != "ok" then Say(false, 0.9)
    else if ActiveFlag(ctx.stake) != Some(true) then Say(false, 0.8)
    else if ctx.stake.value.heartbeatError then Say(false, 0.6)
    else
      var rewards := ctx.stake.value.snapshot.value.rewards;
      var hasRewards := rewards.Some? && rewards.value > 0.0;
      Say(true, Clamp(minConfidence + if hasRewards then 0.1 else 0.0))
  }

  function ArbVote(premiumThreshold: real, minUnits: int, ctx: Context): Vote {
    var suggested := if ctx.suggestedUnits.Some? then ctx.suggestedUnits.value else 0;
    if !ctx.simulateDecision then Say(false, 0.4)
    else if ctx.premium.None? || ctx.premium.value <= 0.0 then Say(false, 0.5)
    else if suggested < minUnits then Say(false, 0.6)
    else if ctx.premium.value >= premiumThreshold then
      Say(true, Clamp(0.6 + Max(0.0, ctx.premium.value - premiumThreshold) * 4.0))
    else Say(false, 0.6)
  }

  function RiskVote(maxVol: Option<real>, blockReasons: set<string>, ctx: Context): Vote {
    if ctx.reflexHalt then Say(false, 1.0)
    else if ctx.priceGuard.Some? && ctx.priceGuard.value in blockReasons then Say(false, 0.9)
    else if Exceeds(ctx.vol, maxVol) then Say(false, 0.85)
    else if ctx.reflexWarns then Say(false, 0.7)
    else Say(true, 0.55)
  }

  function DemandVote(surge: real, relax: real, ctx: Context): Vote {
    if ctx.utilization.None? then Say(false, 0.4)
    else
      var util := Clamp(ctx.utilization.value);
      if util >= surge then
        var intensity := (util - surge) / Max(EPSILON, 1.0 - surge);
        Say(true, Clamp(0.6 + intensity * 0.4))
      else if util <= relax then
        var slack := (relax - util) / Max(EPSILON, relax);
        Say(false, Clamp(0.6 + slack * 0.3))
      else Say(false, 0.45)
  }

  /** The target inventory: so many days of the average daily usage. */
  function Need(bufferDays: real, average: real): real {
    average * Max(0.0, bufferDays)
  }

  function Inventory(ctx: Context): real {
    if ctx.inventoryUsd.Some? then ctx.inventoryUsd.value else 0.0
  }

  function TreasuryVote(bufferDays: real, minConfidence: real, ctx: Context): Vote {
    match ctx.usage
    case Unknown => Say(false, minConfidence)
    case Invalid => Say(false, minConfidence)
    case Daily(average) =>
      var target := Need(bufferDays, average);
      var delta := target - Inventory(ctx);
      if delta <= 0.0 then Say(false, Clamp(minConfidence + Min(0.2, Abs(delta) / Max(1.0, target))))
      else Say(true, Clamp(0.5 + Min(0.3, delta / Max(1.0, target))))
  }

  function VoteOf(m: Model, ctx: Context): Vote {
    match m.kind
    case YieldKind(minConfidence) => YieldVote(minConfidence, ctx)
    case ArbKind(premiumThreshold, minUnits) => ArbVote(premiumThreshold, minUnits, ctx)
    case RiskKind(maxVol, blockReasons) => RiskVote(maxVol, blockReasons, ctx)
    case DemandKind(surge, relax) => DemandVote(surge, relax, ctx)
    case TreasuryKind(bufferDays, minConfidence) => TreasuryVote(bufferDays, minConfidence, ctx)
  }

  // ----- When a model approves, and what makes it surer --------------------------------------------

  /** The condition under which each kind of model approves. */
  predicate Favours(kind: Kind, ctx: Context) {
    match kind
    case YieldKind(_) =>
      && ctx.stake.Some?
      && (ctx.stake.value.status.None? || ctx.stake.value.status == Some("ok"))
      && ActiveFlag(ctx.stake) == Some(true) && !ctx.stake.value.heartbeatError
    case ArbKind(premiumThreshold, minUnits) =>
      && ctx.simulateDecision
      && ctx.premium.Some? && ctx.premium.value > 0.0 && ctx.premium.value >= premiumThreshold
      && (if ctx.suggestedUnits.Some? then ctx.suggestedUnits.value else 0) >= minUnits
    case RiskKind(maxVol, blockReasons) =>
      && !ctx.reflexHalt && !ctx.reflexWarns
      && !(ctx.priceGuard.Some? && ctx.priceGuard.value in blockReasons)
      && !Exceeds(ctx.vol, maxVol)
    case DemandKind(surge, _) => ctx.utilization.Some? && Clamp(ctx.utilization.value) >= surge
    case TreasuryKind(bufferDays, _) =>
      ctx.usage.Daily? && Inventory(ctx) < Need(bufferDays, ctx.usage.average)
  }

  lemma {:induction false} ApprovesIffFavoured(m: Model, ctx: Context)
    ensures VoteOf(m, ctx).approve <==> Favours(m.kind, ctx)
  {
  }

  /** How sure a model is when it approves. */
  function Strength(kind: Kind, ctx: Context): real
    requires Favours(kind, ctx)
  {
    match kind
    case YieldKind(_) =>
      var rewards := ctx.stake.value.snapshot.value.rewards;
      if rewards.Some? && rewards.value > 0.0 then 0.65 else 0.55
    case ArbKind(premiumThreshold, _) => Min(1.0, 0.6 + 4.0 * (ctx.premium.value - premiumThreshold))
    case RiskKind(_, _) => 0.55
    case DemandKind(surge, _) =>
      Min(1.0, 0.6 + 0.4 * ((Clamp(ctx.utilization.value) - surge) / Max(EPSILON, 1.0 - surge)))
    case TreasuryKind(bufferDays, _) =>
      var need := Need(bufferDays, ctx.usage.average);
      0.5 + Min(0.3, (need - Inventory(ctx)) / Max(1.0, need))
  }

  lemma {:induction false} DemandStrength(surge: real, relax: real, ctx: Context)
    requires Favours(DemandKind(surge, relax), ctx)
    ensures DemandVote(surge, relax, ctx) == Say(true, Strength(DemandKind(surge, relax), ctx))
    ensures 0.5 <= Strength(DemandKind(surge, relax), ctx) <= 1.0
  {
    QuotientNonNegative(Clamp(ctx.utilization.value) - surge, Max(EPSILON, 1.0 - surge));
  }

  lemma {:induction false} TreasuryStrength(bufferDays: real, minConfidence: real, ctx: Context)
    requires Favours(TreasuryKind(bufferDays, minConfidence), ctx)
    ensures TreasuryVote(bufferDays, minConfidence, ctx)
            == Say(true, Strength(TreasuryKind(bufferDays, minConfidence), ctx))
    ensures 0.5 <= Strength(TreasuryKind(bufferDays, minConfidence), ctx) <= 1.0
  {
    hide Need;
    var need := Need(bufferDays, ctx.usage.average);
    QuotientNonNegative(need - Inventory(ctx), Max(1.0, need));
  }

  /** With the default confidences an approval is exactly this sure, for every context. */
  lemma {:induction false} ApprovalsAreThisSure(m: Model, ctx: Context)
    requires DefaultConfidences(m.kind) && Favours(m.kind, ctx)
    ensures VoteOf(m, ctx) == Vote(true, None, Strength(m.kind, ctx))
    ensures 0.5 <= Strength(m.kind, ctx) <= 1.0
  {
    hide DemandVote, TreasuryVote;
    if m.kind.DemandKind? {
      DemandStrength(m.kind.surge, m.kind.relax, ctx);
    } else if m.kind.TreasuryKind? {
      TreasuryStrength(m.kind.bufferDays, m.kind.minConfidence, ctx);
    }
  }

  /** What a cause for rejection weighs when it is there. */
  function Weigh(cause: bool, confidence: real): real {
    if cause then confidence else 0.0
  }

  /** A yield or risk rejection is as sure as the gravest of its causes. */
  lemma {:induction false} GravestCauseDecides(
    minConfidence: real, maxVol: Option<real>, blockReasons: set<string>, ctx: Context)
    ensures var v := YieldVote(minConfidence, ctx);
            var errored := ctx.stake.Some? && ctx.stake.value.status.Some? && ctx.stake.value.status.value != "ok";
            var active := ctx.stake.Some? && ctx.stake.value.snapshot.Some?
                          && ctx.stake.value.snapshot.value.active == Some(true);
            var failing := ctx.stake.Some? && ctx.stake.value.heartbeatError;
            !v.approve ==> v.confidence == Max(Weigh(errored, 0.9), Max(Weigh(!active, 0.8), Weigh(failing, 0.6)))
    ensures var v := RiskVote(maxVol, blockReasons, ctx);
            var blocked := ctx.priceGuard.Some? && ctx.priceGuard.value in blockReasons;
            var volatile := ctx.vol.Some? && maxVol.Some? && ctx.vol.value > maxVol.value;
            !v.approve ==>
              v.confidence == Max(Max(Weigh(ctx.reflexHalt, 1.0), Weigh(blocked, 0.9)),
                                  Max(Weigh(volatile, 0.85), Weigh(ctx.reflexWarns, 0.7)))
  {
  }

  /** The other rejections: arbitrage is least sure when it was not asked to trade, demand is
      surer the more slack there is, and the treasury the larger its surplus. */
  lemma {:induction false} OtherRejectionsInNumbers(
    premiumThreshold: real, minUnits: int, surge: real, relax: real, bufferDays: real, minConfidence: real,
    ctx: Context)
    requires DefaultConfidences(TreasuryKind(bufferDays, minConfidence))
    ensures var v := ArbVote(premiumThreshold, minUnits, ctx);
            !v.approve ==>
              v.confidence == if !ctx.simulateDecision then 0.4
                              else if ctx.premium.Some? && ctx.premium.value > 0.0 then 0.6 else 0.5
    ensures var v := DemandVote(surge, relax, ctx);
            !v.approve ==>
              v.confidence == if ctx.utilization.None? then 0.4
                              else if Clamp(ctx.utilization.value) > relax then 0.45
                              else Min(1.0, 0.6 + 0.3 * ((relax - Clamp(ctx.utilization.value)) / Max(EPSILON, relax)))
    ensures var v := TreasuryVote(bufferDays, minConfidence, ctx);
            !v.approve ==>
              v.confidence == if !ctx.usage.Daily? then 0.4
                              else var need := Need(bufferDays, ctx.usage.average);
                                   0.4 + Min(0.2, (Inventory(ctx) - need) / Max(1.0, need))
  {
    hide Need;
    if ctx.utilization.Some? && Clamp(ctx.utilization.value) <= relax {
      QuotientNonNegative(relax - Clamp(ctx.utilization.value), Max(EPSILON, relax));
    }
    if ctx.usage.Daily? && Need(bufferDays, ctx.usage.average) <= Inventory(ctx) {
      QuotientNonNegative(Inventory(ctx) - Need(bufferDays, ctx.usage.average),
                          Max(1.0, Need(bufferDays, ctx.usage.average)));
    }
  }

  lemma NeedInNumbers(bufferDays: real, average: real)
    ensures bufferDays >= 0.0 ==> Need(bufferDays, average) == average * bufferDays
    ensures bufferDays <= 0.0 ==> Need(bufferDays, average) == 0.0
  {
  }

  lemma QuotientMonotone(a: real, b: real, d: real)
    requires a <= b && d > 0.0
    ensures a / d <= b / d
  {
    assert b / d - a / d == (b - a) / d;
  }

  /** Among approvals a higher utilisation is surer; among slack rejections a lower one is. */
  lemma {:induction false} DemandIsSurerAtTheEnds(surge: real, relax: real, c: Context, d: Context)
    requires c.utilization.Some? && d.utilization.Some? && c.utilization.value <= d.utilization.value
    ensures DemandVote(surge, relax, c).approve ==>
              DemandVote(surge, relax, d).approve
              && DemandVote(surge, relax, c).confidence <= DemandVote(surge, relax, d).confidence
    ensures !DemandVote(surge, relax, d).approve && Clamp(d.utilization.value) <= relax ==>
              !DemandVote(surge, relax, c).approve
              && DemandVote(surge, relax, c).confidence >= DemandVote(surge, relax, d).confidence
  {
    var u, v := Clamp(c.utilization.value), Clamp(d.utilization.value);
    QuotientMonotone(u - surge, v - surge, Max(EPSILON, 1.0 - surge));
    QuotientMonotone(relax - v, relax - u, Max(EPSILON, relax));
  }

  /** A wider premium keeps an approval and makes it surer. */
  lemma {:induction false} ArbIsSurerWithPremium(premiumThreshold: real, minUnits: int, c: Context, premium: real)
    requires ArbVote(premiumThreshold, minUnits, c).approve && premium >= c.premium.value
    ensures var d := c.(premium := Some(premium));
            && ArbVote(premiumThreshold, minUnits, d).approve
            && ArbVote(premiumThreshold, minUnits, d).confidence >= ArbVote(premiumThreshold, minUnits, c).confidence
  {
  }

  // ----- How sure a model can be ----------------------------------------------------------------

  /** The least confidence of a rejection. */
  function RejectFloor(kind: Kind): real {
    match kind
    case YieldKind(_) => 0.6
    case RiskKind(_, _) => 0.7
    case _ => 0.4
  }

  /** The greatest confidence of an approval. */
  function ApproveCeiling(kind: Kind): real {
    match kind
    case YieldKind(_) => 0.65
    case RiskKind(_, _) => 0.55
    case TreasuryKind(_, _) => 0.8
    case _ => 1.0
  }

  predicate DefaultConfidences(kind: Kind) {
    && (kind.YieldKind? ==> kind.minConfidence == 0.55)
    && (kind.TreasuryKind? ==> kind.minConfidence == 0.4)
  }

  lemma QuotientNonNegative(a: real, b: real)
    requires a >= 0.0 && b > 0.0
    ensures a / b >= 0.0
  {
  }

  /** Whatever the context and the tunable limits, confidences stay within these bounds. */
  lemma {:induction false} ConfidenceBounds(m: Model, ctx: Context)
    requires DefaultConfidences(m.kind)
    ensures 0.0 <= VoteOf(m, ctx).confidence <= 1.0
    ensures VoteOf(m, ctx).approve ==> VoteOf(m, ctx).confidence <= ApproveCeiling(m.kind)
    ensures !VoteOf(m, ctx).approve ==> VoteOf(m, ctx).confidence >= RejectFloor(m.kind)
    ensures VoteOf(m, ctx).weight == None
  {
    hide Need;
    match m.kind
    case DemandKind(surge, relax) =>
      if ctx.utilization.Some? {
        var util := Clamp(ctx.utilization.value);
        if util < surge && util <= relax {
          QuotientNonNegative(relax - util, Max(EPSILON, relax));
        }
      }
    case TreasuryKind(bufferDays, minConfidence) =>
      if ctx.usage.Daily? {
        var target := Need(bufferDays, ctx.usage.average);
        if target - Inventory(ctx) <= 0.0 {
          QuotientNonNegative(Abs(target - Inventory(ctx)), Max(1.0, target));
        }
      }
    case _ =>
  }

  // ----- The coordinator --------------------------------------------------------------------

  /** `build_default_models` with the default weights; the limits are left open. */
  datatype Limits = Limits(
    premiumThreshold: real, minUnits: int, maxVol: Option<real>, blockReasons: set<string>,
    surge: real, relax: real, bufferDays: real)

  const DEFAULT_THRESHOLD := 0.55

  function DefaultModels(l: Limits, includeTreasury: bool): seq<Model> {
    [ Model("yield", 1.0, YieldKind(0.55)),
      Model("arbitrage", 1.2, ArbKind(l.premiumThreshold, l.minUnits)),
      Model("risk", 2.0, RiskKind(l.maxVol, l.blockReasons)),
      Model("demand", 0.8, DemandKind(l.surge, l.relax)) ]
    + if includeTreasury then [Model("treasury", 0.6, TreasuryKind(l.bufferDays, 0.4))] else []
  }

  function MembersOf(models: seq<Model>): (members: seq<Member>)
    ensures |members| == |models|
    ensures forall i | 0 <= i < |models| :: members[i] == Member(models[i].name, models[i].weight)
  {
    seq(|models|, i requires 0 <= i < |models| => Member(models[i].name, models[i].weight))
  }

  function CastOf(m: Model, ctx: Context): Cast {
    Settle(Member(m.name, m.weight), Full(VoteOf(m, ctx)))
  }

  function CastsOf(models: seq<Model>, ctx: Context): (casts: seq<Cast>)
    ensures |casts| == |models|
    ensures forall i | 0 <= i < |models| :: casts[i] == CastOf(models[i], ctx)
  {
    seq(|models|, i requires 0 <= i < |models| => CastOf(models[i], ctx))
  }

  predicate Informed(contexts: seq<Option<Context>>) {
    forall i | 0 <= i < |contexts| :: contexts[i].Some?
  }

  /** What the models return, each under the context it was handed last. */
  function RawsOf(models: seq<Model>, contexts: seq<Option<Context>>): (raws: seq<RawVote>)
    requires |contexts| == |models| && Informed(contexts)
    ensures |raws| == |models|
  {
    seq(|models|, i requires 0 <= i < |models| => Full(VoteOf(models[i], contexts[i].value)))
  }

  /** When all were handed the same context, the casts are those of that context. */
  lemma {:induction false} SameContextForAll(models: seq<Model>, contexts: seq<Option<Context>>, ctx: Context)
    requires |contexts| == |models| && forall i | 0 <= i < |contexts| :: contexts[i] == Some(ctx)
    ensures SettleAll(MembersOf(models), RawsOf(models, contexts)) == CastsOf(models, ctx)
  {
    hide VoteOf, Settle;
  }

  /** A model's `vote` before any `update` raises, which the coordinator does not catch. */
  datatype Ballot = Decided(approved: bool, info: Info) | NoContext(model: string)

  class Coordinator {
    const models: seq<Model>
    const quorum: Quorum
    var contexts: seq<Option<Context>>
    var lastContext: Option<Context>

    ghost predicate Valid()
      reads this
    {
      quorum.members == MembersOf(models) && |contexts| == |models|
    }

    constructor (models: seq<Model>, threshold: real)
      ensures Valid() && this.models == models && quorum.threshold == threshold
      ensures fresh(quorum)
      ensures lastContext == None && forall i | 0 <= i < |models| :: contexts[i] == None
    {
      this.models := models;
      quorum := new Quorum(MembersOf(models), threshold);
      contexts := seq(|models|, _ => None);
      lastContext := None;
    }

    /** Hand the context to every model. */
    method Update(ctx: Context)
      requires Valid()
      modifies this
      ensures Valid() && lastContext == Some(ctx)
      ensures forall i | 0 <= i < |models| :: contexts[i] == Some(ctx)
    {
      lastContext := Some(ctx);
      for i := 0 to |models|
        invariant Valid() && lastContext == Some(ctx)
        invariant forall j | 0 <= j < i :: contexts[j] == Some(ctx)
      {
        contexts := contexts[i := Some(ctx)];
      }
    }

    method DecideWithDetails() returns (ballot: Ballot)
      requires Valid()
      modifies quorum
      ensures Valid() && contexts == old(contexts) && lastContext == old(lastContext)
      ensures ballot.Decided? <==> Informed(contexts)
      ensures ballot.Decided? ==>
                (ballot.approved <==>
                 Approves(SettleAll(MembersOf(models), RawsOf(models, contexts)), quorum.threshold))
    {
      hide VoteOf, Approves, EntryOf;
      var raws: seq<RawVote> := [];
      for i := 0 to |models|
        invariant Informed(contexts[..i])
        invariant |raws| == i
        invariant forall j | 0 <= j < i :: contexts[j].Some? && raws[j] == Full(VoteOf(models[j], contexts[j].value))
      {
        if contexts[i].None? {
          return NoContext(models[i].name);
        }
        raws := raws + [Full(VoteOf(models[i], contexts[i].value))];
      }
      assert raws == RawsOf(models, contexts);
      var approved, info := quorum.DecideWithDetails(raws);
      ballot := Decided(approved, info);
    }
  }
}

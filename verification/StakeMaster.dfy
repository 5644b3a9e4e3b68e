/**
 * One staking cycle after another: `StakeMaster.run_once` of agents/stake_master/agent.py, with
 * its auto-stake budget, its claim gates, and the dry-run copy of those gates.
 *
 * The staking service, the gas estimator, the nonce state, the wallet, the prices, the clock
 * and the key-value store are oracles: a `Cycle` holds their answers. The settings are constant
 * over a run. Idle staking, heartbeats, events and the log records are left out.
 */
module StakeMaster {
  import opened Common

  datatype Settings = Settings(
    progressive: bool, maxAttempts: int, minInterval: real, minUnits: int,
    minClaimUsd: real, gasBuffer: real, unitsPerToken: real)

  /** What the readers of the settings guarantee. */
  predicate ValidSettings(s: Settings) {
    s.maxAttempts >= 1 && s.minInterval >= 0.0 && s.minUnits >= 0 && s.unitsPerToken >= 1.0
  }

  // ----- What a reward is worth -----------------------------------------------------------------

  datatype Valuation = Valuation(usd: Option<real>, eth: Option<real>, ethPrice: Option<real>)

  predicate Priced(x: Option<real>) {
    x.Some? && x.value != 0.0
  }

  function RewardUsd(s: Settings, rewards: int, price: real): real
    requires ValidSettings(s)
  {
    rewards as real / s.unitsPerToken * price
  }

  function InEth(usd: real, ethPrice: real): real
    requires ethPrice != 0.0
  {
    usd / ethPrice
  }

  function FeeEth(wei: real): real {
    wei / 1000000000000000000.0
  }

  function FeeUsd(wei: real, ethPrice: real): real {
    FeeEth(wei) * ethPrice
  }

  function Appraise(s: Settings, rewards: int, vvvPrice: Option<real>, ethPrice: Option<real>): Valuation
    requires ValidSettings(s)
  {
    var usd := if vvvPrice.Some? then Some(RewardUsd(s, rewards, vvvPrice.value)) else None;
    var eth := if usd.Some? && Priced(ethPrice) then Some(InEth(usd.value, ethPrice.value)) else None;
    Valuation(usd, eth, ethPrice)
  }

  /** A gas estimate; the amounts in ETH and USD are filled in from the fee in wei. */
  datatype Estimate = Estimate(feeWei: Option<real>, feeEth: Option<real>, feeUsd: Option<real>)

  function Augment(e: Estimate, v: Valuation): Estimate {
    if e.feeWei.None? then e
    else
      Estimate(e.feeWei, Some(FeeEth(e.feeWei.value)),
               if Priced(v.ethPrice) then Some(FeeUsd(e.feeWei.value, v.ethPrice.value)) else e.feeUsd)
  }

  predicate GasExceedsReward(e: Estimate, v: Valuation) {
    if e.feeEth.Some? && v.eth.Some? then v.eth.value <= e.feeEth.value
    else if e.feeUsd.Some? && v.usd.Some? then v.usd.value <= e.feeUsd.value
    else false
  }

  // ----- The claim gates --------------------------------------------------------------------

  /** Everything a claim decision reads: `first` and `second` are the estimator's two answers. */
  datatype Gate = Gate(
    s: Settings, rewards: int, valuation: Valuation, now: real, last: Option<real>,
    first: Option<Estimate>, second: Option<Estimate>)

  datatype Objection =
    | NoRewards
    | BelowMinInterval
    | BelowMinValueUsd
    | BelowMinUnits
    | GasEstimateUnavailable
    | GasOverReward

  function AugmentSome(e: Option<Estimate>, v: Valuation): Option<Estimate> {
    if e.Some? then Some(Augment(e.value, v)) else None
  }

  /** The estimate the value gate sees. */
  function FirstEstimate(g: Gate): Option<Estimate> {
    if g.rewards > 0 then AugmentSome(g.first, g.valuation) else None
  }

  /** The estimate the gas check sees: the second answer stands in for a missing first one. */
  function FinalEstimate(g: Gate): Option<Estimate> {
    if FirstEstimate(g).Some? then FirstEstimate(g) else AugmentSome(g.second, g.valuation)
  }

  function GasUsd(e: Option<Estimate>, v: Valuation): Option<real> {
    if e.None? then None
    else if e.value.feeUsd.Some? then e.value.feeUsd
    else if e.value.feeEth.Some? && Priced(v.ethPrice) then Some(e.value.feeEth.value * v.ethPrice.value)
    else None
  }

  function GasEth(e: Option<Estimate>): Option<real> {
    if e.Some? then e.value.feeEth else None
  }

  /** The reward and the fee are both known in USD. */
  predicate ComparedInUsd(g: Gate) {
    g.valuation.usd.Some? && GasUsd(FirstEstimate(g), g.valuation).Some?
    && GasUsd(FirstEstimate(g), g.valuation).value >= 0.0
  }

  /** Otherwise, both known in ETH. */
  predicate ComparedInEth(g: Gate) {
    && !ComparedInUsd(g) && g.valuation.eth.Some?
    && GasEth(FirstEstimate(g)).Some? && GasEth(FirstEstimate(g)).value >= 0.0
  }

  /** Whether the reward clears the required value; None when there is nothing to compare. */
  function ValueGate(g: Gate): Option<bool> {
    var usd, eth := g.valuation.usd, g.valuation.eth;
    var gasUsd, gasEth := GasUsd(FirstEstimate(g), g.valuation), GasEth(FirstEstimate(g));
    if usd.Some? && gasUsd.Some? && gasUsd.value >= 0.0 then
      Some(usd.value >= g.s.minClaimUsd && usd.value >= gasUsd.value * g.s.gasBuffer)
    else if eth.Some? && gasEth.Some? && gasEth.value >= 0.0 then
      Some(eth.value >= gasEth.value * g.s.gasBuffer)
    else if usd.Some? && g.s.minClaimUsd > 0.0 then Some(usd.value >= g.s.minClaimUsd)
    else None
  }

  /** The interval rule applies, and then it replaces the value and unit rules. */
  predicate IntervalApplies(g: Gate) {
    g.s.minInterval > 0.0 && g.last.Some?
  }

  predicate IntervalMet(g: Gate) {
    IntervalApplies(g) ==> g.now - g.last.value >= g.s.minInterval
  }

  predicate TooFewUnits(g: Gate) {
    g.valuation.usd.None? && ValueGate(g).None? && g.s.minUnits > 0 && g.rewards < g.s.minUnits
  }

  /** Exactly when a claim is sent. */
  predicate ShouldClaim(g: Gate) {
    && g.rewards > 0
    && IntervalMet(g)
    && (!IntervalApplies(g) ==> ValueGate(g) != Some(false) && !TooFewUnits(g))
    && FinalEstimate(g).Some?
    && !GasExceedsReward(FinalEstimate(g).value, g.valuation)
  }

  /** The value gate as both copies of the code compute it. */
  method CheckValue(g: Gate, estimate: Option<Estimate>) returns (passed: Option<bool>)
    requires estimate == FirstEstimate(g)
    ensures passed == ValueGate(g)
    ensures ComparedInUsd(g) ==>
              passed == Some(g.valuation.usd.value >=
                             Max(g.s.minClaimUsd, GasUsd(estimate, g.valuation).value * g.s.gasBuffer))
    ensures ComparedInEth(g) ==> passed == Some(g.valuation.eth.value >= GasEth(estimate).value * g.s.gasBuffer)
    ensures !ComparedInUsd(g) && !ComparedInEth(g) ==>
              passed == if g.valuation.usd.Some? && g.s.minClaimUsd > 0.0
                        then Some(g.valuation.usd.value >= g.s.minClaimUsd) else None
  {
    var gasUsd: Option<real> := None;
    var gasEth: Option<real> := None;
    if estimate.Some? {
      gasUsd := estimate.value.feeUsd;
      gasEth := estimate.value.feeEth;
      if gasUsd.None? && gasEth.Some? && Priced(g.valuation.ethPrice) {
        gasUsd := Some(gasEth.value * g.valuation.ethPrice.value);
      }
    }
    passed := None;
    var usd, eth := g.valuation.usd, g.valuation.eth;
    if usd.Some? && gasUsd.Some? && gasUsd.value >= 0.0 {
      var scaled := gasUsd.value * g.s.gasBuffer;
      var required := if scaled > g.s.minClaimUsd then scaled else g.s.minClaimUsd;
      passed := Some(usd.value >= required);
    } else if eth.Some? && gasEth.Some? && gasEth.value >= 0.0 {
      passed := Some(eth.value >= gasEth.value * g.s.gasBuffer);
    } else if usd.Some? && g.s.minClaimUsd > 0.0 {
      passed := Some(usd.value >= g.s.minClaimUsd);
    }
  }

  /** The gates of live mode, up to the call of `claim()`. */
  method LiveGate(g: Gate) returns (objection: Option<Objection>)
    ensures objection.None? <==> ShouldClaim(g)
  {
    hide ValueGate, Augment;
    var estimate: Option<Estimate> := None;
    if g.rewards > 0 {
      estimate := AugmentSome(g.first, g.valuation);
    }
    var valuePassed := CheckValue(g, estimate);
    objection := None;
    if g.rewards <= 0 {
      objection := Some(NoRewards);
    } else if g.s.minInterval > 0.0 && g.last.Some? {
      var elapsed := g.now - g.last.value;
      if elapsed < g.s.minInterval {
        objection := Some(BelowMinInterval);
      }
    } else if valuePassed == Some(false) {
      objection := Some(BelowMinValueUsd);
    } else if g.valuation.usd.None? && valuePassed.None? && g.s.minUnits > 0 && g.rewards < g.s.minUnits {
      objection := Some(BelowMinUnits);
    }
    if objection.None? {
      if estimate.None? {
        estimate := AugmentSome(g.second, g.valuation);
      }
      if estimate.None? {
        objection := Some(GasEstimateUnavailable);
      } else if GasExceedsReward(estimate.value, g.valuation) {
        objection := Some(GasOverReward);
      }
    }
  }

  /** The same gates as the dry run repeats them, to report `would_claim`. */
  method DryGate(g: Gate) returns (wouldClaim: bool)
    ensures wouldClaim <==> ShouldClaim(g)
  {
    hide ValueGate, Augment;
    var estimate: Option<Estimate> := None;
    if g.rewards > 0 {
      estimate := AugmentSome(g.first, g.valuation);
    }
    var valuePassed := CheckValue(g, estimate);
    var objection: Option<Objection> := None;
    if g.rewards <= 0 {
      objection := Some(NoRewards);
    } else if g.s.minInterval > 0.0 && g.last.Some? {
      if g.now - g.last.value < g.s.minInterval {
        objection := Some(BelowMinInterval);
      }
    } else if valuePassed == Some(false) {
      objection := Some(BelowMinValueUsd);
    } else if g.valuation.usd.None? && valuePassed.None? && g.s.minUnits > 0 && g.rewards < g.s.minUnits {
      objection := Some(BelowMinUnits);
    }
    if objection.None? {
      if estimate.None? && g.rewards > 0 {
        estimate := AugmentSome(g.second, g.valuation);
      }
      if g.rewards > 0 && estimate.None? {
        objection := Some(GasEstimateUnavailable);
      } else if g.rewards > 0 && estimate.Some? && GasExceedsReward(estimate.value, g.valuation) {
        objection := Some(GasOverReward);
      }
    }
    wouldClaim := objection.None?;
  }

  predicate ComparableInEth(g: Gate, e: Estimate) {
    e.feeEth.Some? && g.valuation.eth.Some?
  }

  predicate ComparableInUsd(g: Gate, e: Estimate) {
    e.feeUsd.Some? && g.valuation.usd.Some?
  }

  /** Positive rewards, strictly above the fee in the unit they are compared in, ETH before USD. */
  predicate PaidFor(g: Gate) {
    && g.rewards > 0
    && FinalEstimate(g).Some?
    && var e := FinalEstimate(g).value;
       && (ComparableInEth(g, e) ==> g.valuation.eth.value > e.feeEth.value)
       && (!ComparableInEth(g, e) && ComparableInUsd(g, e) ==> g.valuation.usd.value > e.feeUsd.value)
  }

  /** A claim is never sent at a loss, where reward and fee can be compared in one unit. */
  lemma {:induction false} ClaimsArePaidFor(g: Gate)
    requires ShouldClaim(g)
    ensures PaidFor(g)
  {
  }

  // ----- Auto-stake -------------------------------------------------------------------------

  datatype StakeAnswer = Staked | NotStaked | StakeRaises

  /** The oracles' answers in one cycle; a status reading may raise. */
  datatype Cycle = Cycle(
    live: bool, staked: int, rewards: int, minActive: int,
    balance: Option<int>, pendingNonce: bool, approveRaises: bool, stake: StakeAnswer,
    rewardsAfterStake: Option<int>, isOverflow: bool, isNonceIssue: bool, recovered: bool,
    rewardsAfterRecovery: Option<int>,
    vvvPrice: Option<real>, ethPrice: Option<real>, now: real, storedClaim: Option<real>,
    first: Option<Estimate>, second: Option<Estimate>, claimRaises: bool)

  predicate EntersAutoStake(s: Settings, attempts: int, c: Cycle) {
    c.live && s.progressive && c.staked <= 0 && c.minActive > 0 && attempts < s.maxAttempts
  }

  predicate TriesToStake(c: Cycle) {
    c.balance.Some? && c.balance.value >= c.minActive && !c.pendingNonce
  }

  /** The first stake went through. */
  predicate FirstStakeSent(c: Cycle) {
    TriesToStake(c) && !c.approveRaises && c.stake.Staked?
  }

  /** Something raised while approving, staking or reading the status after the stake. */
  predicate Raised(c: Cycle) {
    TriesToStake(c) && (c.approveRaises || !c.stake.Staked? || c.rewardsAfterStake.None?)
  }

  predicate RecoverySent(c: Cycle) {
    Raised(c) && c.isNonceIssue && c.recovered
  }

  function StakesSent(c: Cycle): nat {
    (if FirstStakeSent(c) then 1 else 0) + if RecoverySent(c) then 1 else 0
  }

  /**
   * The report of a stake is right except in one family of cycles: the stake went through, the
   * status could not be read after it, and no recovery stake followed. There the cycle reports
   * a failure although VVV was staked.
   */
  predicate ReportMisses(c: Cycle) {
    FirstStakeSent(c) && c.rewardsAfterStake.None? && !(c.isNonceIssue && c.recovered)
  }

  /** Such a cycle: the balance suffices, the stake is sent, the status cannot be read after it. */
  lemma LostStakeReport(s: Settings) returns (c: Cycle)
    requires ValidSettings(s) && s.progressive
    ensures EntersAutoStake(s, 0, c) && StakesSent(c) == 1 && ReportMisses(c)
  {
    c := Cycle(true, 0, 0, 1, Some(1), false, false, Staked, None, false, false, false, None,
               None, None, 0.0, None, None, None, false);
  }

  datatype StakeReport = StakeReport(entered: bool, executed: bool, sent: nat)

  /**
   * `raised` tells that the cycle raised out of `run_once` before its claim step; else `last` is
   * the last claim time that the claim step saw.
   */
  datatype Outcome = Outcome(
    stake: StakeReport, raised: bool, last: Option<real>, claimed: bool, wouldClaim: bool)

  /** The rewards the claim step reads: a status taken after a stake replaces the first one. */
  function RewardsAtClaim(c: Cycle, entered: bool): Option<int> {
    if entered && RecoverySent(c) then c.rewardsAfterRecovery
    else if entered && FirstStakeSent(c) && c.rewardsAfterStake.Some? then c.rewardsAfterStake
    else Some(c.rewards)
  }

  /** Consecutive claims are at least the interval apart. */
  predicate Spaced(claims: seq<real>, interval: real) {
    forall i | 0 < i < |claims| :: claims[i] - claims[i - 1] >= interval
  }

  /** The gates as a cycle's claim step sees them. */
  function GateOf(s: Settings, c: Cycle, rewards: int, last: Option<real>): Gate
    requires ValidSettings(s)
  {
    Gate(s, rewards, Appraise(s, rewards, c.vvvPrice, c.ethPrice), c.now, last, c.first, c.second)
  }

  /** In a claim step that saw `o.last`: claims, and `would_claim` reports, exactly when due. */
  predicate ClaimsWhenDue(s: Settings, c: Cycle, o: Outcome)
    requires ValidSettings(s)
  {
    var rewards := RewardsAtClaim(c, o.stake.entered);
    var due := rewards.Some? && ShouldClaim(GateOf(s, c, rewards.value, o.last));
    && (o.raised <==> rewards.None?)
    && (o.claimed <==> c.live && due && !c.claimRaises)
    && (o.wouldClaim <==> !c.live && due)
  }

  /**
   * Who stakes: only a live cycle of a progressive agent with nothing staked and a minimum to
   * reach; and only with the balance for it and no nonce pending. The first such cycle of a run
   * always enters, and then stakes unless approving or staking fails.
   */
  predicate StakesOnlyWhenDue(s: Settings, c: Cycle, o: Outcome, firstEntry: bool) {
    var wanted := c.live && s.progressive && c.staked <= 0 && c.minActive > 0;
    var able := c.balance.Some? && c.balance.value >= c.minActive && !c.pendingNonce;
    && (o.stake.entered ==> wanted)
    && (wanted && firstEntry ==> o.stake.entered)
    && (o.stake.sent > 0 ==> o.stake.entered && able)
    && (o.stake.entered && able && !c.approveRaises && c.stake.Staked? ==> o.stake.sent > 0)
  }

  predicate ClaimPaidFor(s: Settings, c: Cycle, o: Outcome)
    requires ValidSettings(s)
  {
    var rewards := RewardsAtClaim(c, o.stake.entered);
    rewards.Some? && PaidFor(GateOf(s, c, rewards.value, o.last))
  }

  // ----- Where the value gate binds ----------------------------------------------------------------

  /** An idle live cycle in which gas costs so many wei. */
  function ClaimCycle(vvvPrice: real, ethPrice: Option<real>, now: real, feeWei: real): Cycle {
    Cycle(true, 1, 1, 0, None, false, false, NotStaked, None, false, false, false, None,
          Some(vvvPrice), ethPrice, now, None, Some(Estimate(Some(feeWei), None, None)), None, false)
  }

  /** Prices are not negative, and the estimator gives no fee but one in wei. */
  predicate Plausible(c: Cycle) {
    && (c.vvvPrice.Some? ==> c.vvvPrice.value >= 0.0)
    && (c.ethPrice.Some? ==> c.ethPrice.value >= 0.0)
    && (c.first.Some? ==>
          && c.first.value.feeEth.None? && c.first.value.feeUsd.None?
          && (c.first.value.feeWei.Some? ==> c.first.value.feeWei.value >= 0.0))
  }

  predicate IntervalPassed(s: Settings, now: real, last: Option<real>) {
    s.minInterval > 0.0 && last.Some? && now - last.value >= s.minInterval
  }

  lemma UnitTimesPrice(t: real, unit: real, worth: real)
    requires t * unit == 1.0
    ensures t * (worth * unit) == worth
  {
    assert t * (worth * unit) == (t * unit) * worth;
  }

  /** A price under which one unit is worth this much. */
  lemma OneUnitAppraised(s: Settings, rewards: int, worth: real, ethPrice: Option<real>)
    requires ValidSettings(s) && rewards == 1 && worth >= 0.0
    ensures worth * s.unitsPerToken >= 0.0
    ensures Appraise(s, rewards, Some(worth * s.unitsPerToken), ethPrice).usd == Some(worth)
  {
    var price := worth * s.unitsPerToken;
    UnitTimesPrice(rewards as real / s.unitsPerToken, s.unitsPerToken, worth);
    assert Appraise(s, rewards, Some(price), ethPrice).usd.value == worth;
  }

  /**
   * Once the interval has passed, a reward worth half the minimum value is claimed. The ETH
   * price is not known, so the estimate in wei has nothing to be compared with.
   */
  lemma {:induction false} LowValueIsClaimedAfterInterval(s: Settings, now: real, last: real)
      returns (c: Cycle, rewards: int)
    requires ValidSettings(s) && s.minClaimUsd > 0.0 && IntervalPassed(s, now, Some(last))
    ensures c.now == now && Plausible(c) && c.ethPrice.None?
    ensures ShouldClaim(GateOf(s, c, rewards, Some(last)))
    ensures ValueGate(GateOf(s, c, rewards, Some(last))) == Some(false)
  {
    rewards := 1;
    var worth := s.minClaimUsd / 2.0;
    c := ClaimCycle(worth * s.unitsPerToken, None, now, 1.0);
    OneUnitAppraised(s, rewards, worth, None);
    hide Appraise;
  }

  /** And so is a reward above the gas cost but below the buffered one. */
  lemma {:induction false} UnbufferedGasIsClaimedAfterInterval(s: Settings, now: real, last: real)
      returns (c: Cycle, rewards: int)
    requires ValidSettings(s) && s.gasBuffer > 1.0 && IntervalPassed(s, now, Some(last))
    ensures c.now == now && Plausible(c)
    ensures ShouldClaim(GateOf(s, c, rewards, Some(last)))
    ensures ValueGate(GateOf(s, c, rewards, Some(last))) == Some(false)
  {
    rewards := 1;
    var worth := (1.0 + s.gasBuffer) / 2.0;
    c := ClaimCycle(worth * s.unitsPerToken, Some(1.0), now, 1000000000000000000.0);
    OneUnitAppraised(s, rewards, worth, Some(1.0));
    var g := GateOf(s, c, rewards, Some(last));
    assert g.valuation.eth == Some(worth);
    assert FirstEstimate(g).value.feeEth == Some(1.0) && FirstEstimate(g).value.feeUsd == Some(1.0);
  }

  lemma BufferAtMostOne(reward: real, fee: real, buffer: real)
    requires reward > fee >= 0.0 && buffer <= 1.0
    ensures reward >= fee * buffer
  {
    assert fee * (1.0 - buffer) >= 0.0;
  }

  lemma EthToUsd(usd: real, price: real, feeEth: real)
    requires price > 0.0 && usd / price > feeEth
    ensures usd > feeEth * price
  {
    var eth := usd / price;
    assert eth * price == usd;
    assert (eth - feeEth) * price > 0.0;
  }

  lemma ProductNotNegative(x: real, y: real)
    requires x >= 0.0 && y >= 0.0
    ensures x * y >= 0.0
  {
  }

  /** With no minimum and no buffer above the cost itself, the gas check is the stricter one. */
  lemma {:induction false} GasCheckCoversValueGate(s: Settings, c: Cycle, rewards: int, last: Option<real>)
    requires ValidSettings(s) && s.minClaimUsd <= 0.0 && s.gasBuffer <= 1.0 && Plausible(c)
    requires ShouldClaim(GateOf(s, c, rewards, last))
    ensures ValueGate(GateOf(s, c, rewards, last)) != Some(false)
  {
    var g := GateOf(s, c, rewards, last);
    var usd, gasUsd := g.valuation.usd, GasUsd(FirstEstimate(g), g.valuation);
    if usd.Some? && gasUsd.Some? {
      var price, feeEth := c.ethPrice.value, FirstEstimate(g).value.feeEth.value;
      var tokens := rewards as real / s.unitsPerToken;
      ProductNotNegative(tokens, c.vvvPrice.value);
      ProductNotNegative(feeEth, price);
      EthToUsd(usd.value, price, feeEth);
      BufferAtMostOne(usd.value, gasUsd.value, s.gasBuffer);
    }
  }

  /**
   * The value gate is enforced only where the interval rule does not apply. For given settings,
   * clock and last claim, every claim clears the value gate if and only if the interval has not
   * passed, or there is nothing to enforce beyond the gas check: no minimum and no buffer. In
   * the first case that holds whatever the oracles answer.
   */
  lemma {:induction false} ValueGateEnforcedIff(s: Settings, now: real, last: Option<real>)
    requires ValidSettings(s)
    ensures (forall c: Cycle, rewards: int |
               c.now == now && Plausible(c) && ShouldClaim(GateOf(s, c, rewards, last)) ::
               ValueGate(GateOf(s, c, rewards, last)) != Some(false))
            <==> !IntervalPassed(s, now, last) || (s.minClaimUsd <= 0.0 && s.gasBuffer <= 1.0)
    ensures !IntervalPassed(s, now, last) ==>
              forall c: Cycle, rewards: int | c.now == now && ShouldClaim(GateOf(s, c, rewards, last)) ::
                ValueGate(GateOf(s, c, rewards, last)) != Some(false)
  {
    hide ValueGate, Appraise, FinalEstimate, Plausible;
    if IntervalPassed(s, now, last) {
      if s.minClaimUsd > 0.0 {
        var c, rewards := LowValueIsClaimedAfterInterval(s, now, last.value);
      } else if s.gasBuffer > 1.0 {
        var c, rewards := UnbufferedGasIsClaimedAfterInterval(s, now, last.value);
      } else {
        forall c: Cycle, rewards: int |
          c.now == now && Plausible(c) && ShouldClaim(GateOf(s, c, rewards, last))
          ensures ValueGate(GateOf(s, c, rewards, last)) != Some(false)
        {
          GasCheckCoversValueGate(s, c, rewards, last);
        }
      }
    }
  }

  /** An estimate that, as the estimator returns it, has no fee but one in wei. */
  predicate InWei(e: Option<Estimate>) {
    e.Some? ==> e.value.feeEth.None? && e.value.feeUsd.None?
  }

  /** Estimates and valuation agree on whether the ETH price is known. */
  predicate SameEthPrice(v: Valuation, e: Option<Estimate>) {
    e.Some? ==>
      && (e.value.feeEth.None? ==> e.value.feeUsd.None?)
      && (e.value.feeEth.Some? ==> (e.value.feeUsd.Some? <==> Priced(v.ethPrice)))
  }

  /** The decision once reward and fees are appraised. */
  lemma {:induction false} ClaimFromAppraisal(g: Gate, first: Option<Estimate>, second: Option<Estimate>)
    requires first == AugmentSome(g.first, g.valuation) && second == AugmentSome(g.second, g.valuation)
    requires SameEthPrice(g.valuation, first) && SameEthPrice(g.valuation, second)
    requires g.valuation.eth.Some? <==> g.valuation.usd.Some? && Priced(g.valuation.ethPrice)
    requires first.Some? && first.value.feeUsd.Some? ==> first.value.feeUsd.value >= 0.0
    ensures var usd, eth := g.valuation.usd, g.valuation.eth;
            var feeUsd := if first.Some? then first.value.feeUsd else None;
            var estimate := if first.Some? then first else second;
            var due := if g.s.minInterval > 0.0 && g.last.Some? then g.now - g.last.value >= g.s.minInterval
                       else if usd.None? then g.s.minUnits <= 0 || g.rewards >= g.s.minUnits
                       else if feeUsd.Some? then usd.value >= Max(g.s.minClaimUsd, feeUsd.value * g.s.gasBuffer)
                       else g.s.minClaimUsd <= 0.0 || usd.value >= g.s.minClaimUsd;
            var pays := estimate.Some?
                        && (estimate.value.feeEth.Some? && eth.Some? ==> eth.value > estimate.value.feeEth.value);
            ShouldClaim(g) <==> g.rewards > 0 && due && pays
  {
    hide AugmentSome;
  }

  lemma {:induction false} AppraisedInNumbers(s: Settings, c: Cycle, rewards: int, e: Option<Estimate>)
    requires ValidSettings(s) && InWei(e)
    ensures var v := Appraise(s, rewards, c.vvvPrice, c.ethPrice);
            var ethKnown := c.ethPrice.Some? && c.ethPrice.value != 0.0;
            var a := AugmentSome(e, v);
            && v.ethPrice == c.ethPrice
            && v.usd == (if c.vvvPrice.Some? then Some(RewardUsd(s, rewards, c.vvvPrice.value)) else None)
            && v.eth == (if v.usd.Some? && ethKnown then Some(InEth(v.usd.value, c.ethPrice.value)) else None)
            && (a.Some? <==> e.Some?)
            && (a.Some? ==>
                  var wei := e.value.feeWei;
                  && a.value.feeEth == (if wei.Some? then Some(FeeEth(wei.value)) else None)
                  && a.value.feeUsd == (if wei.Some? && ethKnown then Some(FeeUsd(wei.value, c.ethPrice.value))
                                        else None))
  {
    hide RewardUsd, FeeEth, FeeUsd, InEth;
  }

  /** What the amounts are: units over units per token, wei over 10^18, each times a price. */
  lemma AmountsInNumbers(s: Settings, rewards: int, price: real, wei: real, ethPrice: real)
    requires ValidSettings(s)
    ensures RewardUsd(s, rewards, price) == rewards as real / s.unitsPerToken * price
    ensures FeeEth(wei) == wei / 1000000000000000000.0
    ensures FeeUsd(wei, ethPrice) == wei / 1000000000000000000.0 * ethPrice
    ensures ethPrice != 0.0 ==> InEth(price, ethPrice) == price / ethPrice
    ensures wei >= 0.0 && ethPrice >= 0.0 ==> FeeUsd(wei, ethPrice) >= 0.0
  {
    if wei >= 0.0 && ethPrice >= 0.0 {
      ProductNotNegative(FeeEth(wei), ethPrice);
    }
  }

  /**
   * The whole decision in numbers, for prices that are not negative and fees in wei. A claim
   * needs rewards and an estimate; a passed interval where one applies, and otherwise the
   * buffered gas cost and the minimum value, or the minimum of units when the token has no
   * price; and rewards worth more than the fee where the two can be compared.
   */
  lemma {:induction false} ClaimInNumbers(s: Settings, c: Cycle, rewards: int, last: Option<real>)
    requires ValidSettings(s) && Plausible(c) && InWei(c.second)
    ensures var usd := if c.vvvPrice.Some? then Some(RewardUsd(s, rewards, c.vvvPrice.value)) else None;
            var ethKnown := c.ethPrice.Some? && c.ethPrice.value != 0.0;
            var wei := if c.first.Some? then c.first.value.feeWei else None;
            var feeUsd := if wei.Some? && ethKnown then Some(FeeUsd(wei.value, c.ethPrice.value)) else None;
            var estimate := if c.first.Some? then c.first else c.second;
            var due := if s.minInterval > 0.0 && last.Some? then c.now - last.value >= s.minInterval
                       else if usd.None? then s.minUnits <= 0 || rewards >= s.minUnits
                       else if feeUsd.Some? then usd.value >= Max(s.minClaimUsd, feeUsd.value * s.gasBuffer)
                       else s.minClaimUsd <= 0.0 || usd.value >= s.minClaimUsd;
            var pays := estimate.Some?
                        && (estimate.value.feeWei.Some? && usd.Some? && ethKnown ==>
                              InEth(usd.value, c.ethPrice.value) > FeeEth(estimate.value.feeWei.value));
            ShouldClaim(GateOf(s, c, rewards, last)) <==> rewards > 0 && due && pays
  {
    hide Appraise, AugmentSome, ShouldClaim, RewardUsd, FeeEth, FeeUsd, InEth;
    AppraisedInNumbers(s, c, rewards, c.first);
    AppraisedInNumbers(s, c, rewards, c.second);
    var g := GateOf(s, c, rewards, last);
    if c.first.Some? && c.first.value.feeWei.Some? && c.ethPrice.Some? {
      AmountsInNumbers(s, rewards, 0.0, c.first.value.feeWei.value, c.ethPrice.value);
    }
    ClaimFromAppraisal(g, AugmentSome(c.first, g.valuation), AugmentSome(c.second, g.valuation));
  }

  // ----- The last claim -------------------------------------------------------------------------

  function FirstOf(earlier: Option<real>, later: Option<real>): Option<real> {
    if earlier.Some? then earlier else later
  }

  /** The last executed claim, or before any of them the time found in the store. */
  function LatestClaim(claims: seq<real>, stored: Option<real>): Option<real> {
    if claims != [] then Some(claims[|claims| - 1]) else stored
  }

  // ----- The agent --------------------------------------------------------------------------

  class Agent {
    const s: Settings
    var autoStakeAttempts: int
    var lastClaimCached: Option<real>
    /** History, for the statement only: claim times, entered cycles, stakes sent, and the first
        claim time found in the store. */
    ghost var claims: seq<real>
    ghost var entered: nat
    ghost var sent: nat
    ghost var stored: Option<real>

    /** What holds between any two cycles of a run. */
    ghost predicate Valid()
      reads this
    {
      && ValidSettings(s)
      && autoStakeAttempts >= 0
      && entered <= autoStakeAttempts && entered <= s.maxAttempts
      && (entered == 0 ==> autoStakeAttempts == 0)
      && (sent > 0 ==> autoStakeAttempts >= s.maxAttempts)
      && lastClaimCached == LatestClaim(claims, stored)
      && (s.minInterval > 0.0 ==> Spaced(claims, s.minInterval))
    }

    constructor (s: Settings)
      requires ValidSettings(s)
      ensures Valid() && this.s == s
      ensures autoStakeAttempts == 0 && lastClaimCached == None
      ensures claims == [] && entered == 0 && sent == 0 && stored == None
    {
      this.s := s;
      autoStakeAttempts, lastClaimCached := 0, None;
      claims, entered, sent, stored := [], 0, 0, None;
    }

    /**
     * The auto-stake branch. Entering it always uses up budget, and any stake that goes through
     * uses up all of it. None means the cycle raises out of `run_once`.
     */
    method AutoStake(c: Cycle) returns (report: StakeReport, rewards: Option<int>)
      requires ValidSettings(s)
      modifies this`autoStakeAttempts
      ensures report.entered <==> EntersAutoStake(s, old(autoStakeAttempts), c)
      ensures report.entered <==>
                c.live && s.progressive && c.staked <= 0 && c.minActive > 0 && old(autoStakeAttempts) < s.maxAttempts
      ensures var tries := report.entered && c.balance.Some? && c.balance.value >= c.minActive && !c.pendingNonce;
              var first := tries && !c.approveRaises && c.stake.Staked?;
              var failed := tries && !(first && c.rewardsAfterStake.Some?);
              var again := failed && c.isNonceIssue && c.recovered;
              && report.sent == (if first then 1 else 0) + (if again then 1 else 0)
              && (report.executed <==> again || (first && !failed))
              && rewards == (if again then c.rewardsAfterRecovery
                             else if first && !failed then c.rewardsAfterStake else Some(c.rewards))
              && autoStakeAttempts == if !report.entered then old(autoStakeAttempts)
                                      else if !failed || c.isOverflow || c.isNonceIssue then s.maxAttempts
                                      else if first then s.maxAttempts + 1 else old(autoStakeAttempts) + 1
      ensures !c.live ==> !report.entered && report.sent == 0 && autoStakeAttempts == old(autoStakeAttempts)
      ensures report.entered ==> autoStakeAttempts > old(autoStakeAttempts)
      ensures rewards == RewardsAtClaim(c, report.entered)
      ensures report.sent == if report.entered then StakesSent(c) else 0
      ensures report.sent > 0 ==> autoStakeAttempts >= s.maxAttempts
      ensures report.executed <==> report.sent > 0 && !ReportMisses(c)
    {
      report := StakeReport(false, false, 0);
      rewards := Some(c.rewards);
      if c.live && s.progressive && c.staked <= 0 && c.minActive > 0 && autoStakeAttempts < s.maxAttempts {
        report := report.(entered := true);
        if c.balance.None? {
          autoStakeAttempts := s.maxAttempts;
        } else if c.balance.value < c.minActive {
          autoStakeAttempts := s.maxAttempts;
        } else if c.pendingNonce {
          autoStakeAttempts := s.maxAttempts;
        } else {
          var raised := c.approveRaises || !c.stake.Staked?;
          if !raised {
            report := report.(executed := true, sent := 1);
            autoStakeAttempts := s.maxAttempts;
            rewards := c.rewardsAfterStake;
            raised := rewards.None?;
          }
          if raised {
            rewards := Some(c.rewards);
            autoStakeAttempts := autoStakeAttempts + 1;
            report := report.(executed := false);
            if c.isOverflow {
              autoStakeAttempts := s.maxAttempts;
            }
            if c.isNonceIssue {
              if c.recovered {
                report := report.(executed := true, sent := report.sent + 1);
                rewards := c.rewardsAfterRecovery;
              }
              autoStakeAttempts := s.maxAttempts;
            }
          }
        }
      }
    }

    /** The last claim time: cached, else read from the store and cached. */
    method LastClaimTs(stored: Option<real>) returns (last: Option<real>)
      modifies this`lastClaimCached
      ensures last == lastClaimCached
      ensures lastClaimCached == if old(lastClaimCached).Some? then old(lastClaimCached) else stored
    {
      if lastClaimCached.Some? {
        return lastClaimCached;
      }
      if stored.None? {
        return lastClaimCached;
      }
      lastClaimCached := stored;
      last := stored;
    }

    /** One cycle. */
    method RunOnce(c: Cycle) returns (o: Outcome)
      requires Valid()
      modifies this
      ensures Valid()
      ensures o.stake.entered <==> EntersAutoStake(s, old(autoStakeAttempts), c)
      ensures o.stake.sent == if o.stake.entered then StakesSent(c) else 0
      ensures StakesOnlyWhenDue(s, c, o, old(entered) == 0)
      ensures !c.live ==> !o.stake.entered && o.stake.sent == 0 && !o.claimed
      ensures c.live ==> !o.wouldClaim
      ensures entered == old(entered) + if o.stake.entered then 1 else 0
      ensures sent == old(sent) + o.stake.sent
      ensures old(sent) > 0 ==> !o.stake.entered
      ensures claims == old(claims) + if o.claimed then [c.now] else []
      ensures stored == if o.raised then old(stored) else FirstOf(old(stored), c.storedClaim)
      ensures !o.raised ==> o.last == LatestClaim(old(claims), stored)
      ensures ClaimsWhenDue(s, c, o)
      ensures o.claimed ==> ClaimPaidFor(s, c, o)
    {
      hide ShouldClaim, GateOf, StakesSent, RewardsAtClaim, Spaced, PaidFor;
      var report, rewards := AutoStake(c);
      entered := entered + if report.entered then 1 else 0;
      sent := sent + report.sent;
      if rewards.None? {
        return Outcome(report, true, None, false, false);
      }
      var last, claimed, wouldClaim := ClaimStep(c, rewards.value);
      o := Outcome(report, false, last, claimed, wouldClaim);
    }

    /** The claim step of a cycle: claim in live mode, report in a dry run. */
    method ClaimStep(c: Cycle, rewards: int) returns (last: Option<real>, claimed: bool, wouldClaim: bool)
      requires ValidSettings(s)
      requires lastClaimCached == LatestClaim(claims, stored)
      requires s.minInterval > 0.0 ==> Spaced(claims, s.minInterval)
      modifies this`lastClaimCached, this`claims, this`stored
      ensures lastClaimCached == LatestClaim(claims, stored)
      ensures s.minInterval > 0.0 ==> Spaced(claims, s.minInterval)
      ensures claims == old(claims) + if claimed then [c.now] else []
      ensures stored == FirstOf(old(stored), c.storedClaim)
      ensures last == LatestClaim(old(claims), stored)
      ensures var should := ShouldClaim(GateOf(s, c, rewards, last));
              && (claimed <==> c.live && should && !c.claimRaises)
              && (wouldClaim <==> !c.live && should)
      ensures claimed ==> PaidFor(GateOf(s, c, rewards, last))
    {
      hide ShouldClaim, GateOf, PaidFor;
      claimed, wouldClaim := false, false;
      last := LastClaimTs(c.storedClaim);
      stored := FirstOf(stored, c.storedClaim);
      var g := GateOf(s, c, rewards, last);
      if c.live {
        var objection := LiveGate(g);
        if objection.None? && !c.claimRaises {
          ClaimsArePaidFor(g);
          ClaimKeepsSpacing(s, c, rewards, last, claims);
          lastClaimCached := Some(c.now);
          claims := claims + [c.now];
          claimed := true;
        }
      } else {
        wouldClaim := DryGate(g);
      }
    }
  }

  lemma ClaimKeepsSpacing(s: Settings, c: Cycle, rewards: int, last: Option<real>, claims: seq<real>)
    requires ValidSettings(s) && ShouldClaim(GateOf(s, c, rewards, last))
    requires claims != [] ==> last == Some(claims[|claims| - 1])
    requires s.minInterval > 0.0 ==> Spaced(claims, s.minInterval)
    ensures s.minInterval > 0.0 ==> Spaced(claims + [c.now], s.minInterval)
  {
  }

  function Entries(log: seq<Outcome>): nat {
    if log == [] then 0
    else Entries(log[..|log| - 1]) + if log[|log| - 1].stake.entered then 1 else 0
  }

  function ClaimTimes(cycles: seq<Cycle>, log: seq<Outcome>): seq<real>
    requires |cycles| == |log|
  {
    if log == [] then []
    else
      var n := |log| - 1;
      ClaimTimes(cycles[..n], log[..n]) + if log[n].claimed then [cycles[n].now] else []
  }

  /** The first claim time that any claim step of a run finds in the store. */
  function FirstStored(cycles: seq<Cycle>, log: seq<Outcome>): Option<real>
    requires |cycles| == |log|
  {
    if log == [] then None
    else
      var n := |log| - 1;
      FirstOf(FirstStored(cycles[..n], log[..n]), if log[n].raised then None else cycles[n].storedClaim)
  }

  lemma NothingLogged()
    ensures Entries([]) == 0 && ClaimTimes([], []) == [] && FirstStored([], []) == None
  {
  }

  lemma LogGrows(cycles: seq<Cycle>, log: seq<Outcome>, o: Outcome)
    requires |log| < |cycles|
    ensures Entries(log + [o]) == Entries(log) + if o.stake.entered then 1 else 0
    ensures ClaimTimes(cycles[..|log| + 1], log + [o]) ==
            ClaimTimes(cycles[..|log|], log) + if o.claimed then [cycles[|log|].now] else []
    ensures FirstStored(cycles[..|log| + 1], log + [o]) ==
            FirstOf(FirstStored(cycles[..|log|], log), if o.raised then None else cycles[|log|].storedClaim)
  {
    assert (log + [o])[..|log|] == log;
    assert cycles[..|log| + 1][..|log|] == cycles[..|log|];
  }

  /** Cycle `i` judged its claim by the last claim of the run before it, or the stored one. */
  predicate SawLastClaim(cycles: seq<Cycle>, log: seq<Outcome>, i: nat)
    requires i < |log| <= |cycles|
  {
    !log[i].raised ==>
      log[i].last == LatestClaim(ClaimTimes(cycles[..i], log[..i]), FirstStored(cycles[..i + 1], log[..i + 1]))
  }

  lemma LogKeepsSaw(cycles: seq<Cycle>, log: seq<Outcome>, o: Outcome, i: nat)
    requires i < |log| < |cycles| && SawLastClaim(cycles, log, i)
    ensures SawLastClaim(cycles, log + [o], i)
  {
    assert (log + [o])[..i] == log[..i] && (log + [o])[..i + 1] == log[..i + 1];
  }

  /**
   * A whole run of a fresh agent, whatever the oracles answer and however the clock moves. At
   * most `maxAttempts` cycles enter auto-stake, and none enters after one in which a stake went
   * through; dry-run cycles neither stake nor claim. Claims are at least the minimum interval
   * apart. Every claim step is judged by the claim executed last, or the stored time before any;
   * it claims exactly when due, and every claim is paid for.
   */
  method RunAll(s: Settings, cycles: seq<Cycle>) returns (log: seq<Outcome>)
    requires ValidSettings(s)
    ensures |log| == |cycles|
    ensures Entries(log) <= s.maxAttempts
    ensures forall i, j | 0 <= i < j < |log| :: log[i].stake.sent > 0 ==> !log[j].stake.entered
    ensures forall i | 0 <= i < |log| :: StakesOnlyWhenDue(s, cycles[i], log[i], Entries(log[..i]) == 0)
    ensures forall i | 0 <= i < |log| && !cycles[i].live ::
              !log[i].stake.entered && log[i].stake.sent == 0 && !log[i].claimed
    ensures forall i | 0 <= i < |log| && cycles[i].live :: !log[i].wouldClaim
    ensures s.minInterval > 0.0 ==> Spaced(ClaimTimes(cycles, log), s.minInterval)
    ensures forall i | 0 <= i < |log| :: SawLastClaim(cycles, log, i)
    ensures forall i | 0 <= i < |log| :: ClaimsWhenDue(s, cycles[i], log[i])
    ensures forall i | 0 <= i < |log| && log[i].claimed :: ClaimPaidFor(s, cycles[i], log[i])
  {
    hide StakesSent, EntersAutoStake, Spaced, Entries, ClaimTimes, FirstStored, ClaimsWhenDue, ClaimPaidFor,
         SawLastClaim, LatestClaim, StakesOnlyWhenDue;
    NothingLogged();
    var agent := new Agent(s);
    log := [];
    for i := 0 to |cycles|
      invariant |log| == i && agent.Valid() && agent.s == s && fresh(agent)
      invariant Entries(log) == agent.entered
      invariant ClaimTimes(cycles[..i], log) == agent.claims
      invariant FirstStored(cycles[..i], log) == agent.stored
      invariant forall k | 0 <= k < i :: StakesOnlyWhenDue(s, cycles[k], log[k], Entries(log[..k]) == 0)
      invariant forall k | 0 <= k < i && !cycles[k].live ::
                  !log[k].stake.entered && log[k].stake.sent == 0 && !log[k].claimed
      invariant forall k | 0 <= k < i && cycles[k].live :: !log[k].wouldClaim
      invariant forall k | 0 <= k < i :: SawLastClaim(cycles, log, k)
      invariant forall k | 0 <= k < i :: ClaimsWhenDue(s, cycles[k], log[k])
      invariant forall k | 0 <= k < i && log[k].claimed :: ClaimPaidFor(s, cycles[k], log[k])
      invariant agent.sent == 0 ==> forall k | 0 <= k < i :: log[k].stake.sent == 0
      invariant forall k, j | 0 <= k < j < i :: log[k].stake.sent > 0 ==> !log[j].stake.entered
    {
      var o := agent.RunOnce(cycles[i]);
      LogGrows(cycles, log, o);
      forall k | 0 <= k < i ensures SawLastClaim(cycles, log + [o], k) {
        LogKeepsSaw(cycles, log, o, k);
      }
      LogSeesLast(cycles, log, o);
      assert forall k | 0 <= k <= i :: (log + [o])[..k] == log[..k];
      assert log[..i] == log;
      log := log + [o];
    }
    assert cycles[..|cycles|] == cycles;
  }

  lemma LogSeesLast(cycles: seq<Cycle>, log: seq<Outcome>, o: Outcome)
    requires |log| < |cycles|
    requires !o.raised ==>
               o.last == LatestClaim(ClaimTimes(cycles[..|log|], log), FirstStored(cycles[..|log| + 1], log + [o]))
    ensures SawLastClaim(cycles, log + [o], |log|)
  {
    assert (log + [o])[..|log|] == log && (log + [o])[..|log| + 1] == log + [o];
  }
}

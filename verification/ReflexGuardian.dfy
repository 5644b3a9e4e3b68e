/**
 * The anomaly detector of agents/reflex/guardian.py: one evaluation per cycle, with two streak
 * counters that survive from call to call.
 *
 * The last price and the provider error count taken from the previous cycle's record are
 * inputs. The theorems describe the counters, and the halts they cause, by the history of
 * observations alone.
 */
module ReflexGuardian {
  import opened Common

  datatype Snapshot = Snapshot(active: Option<bool>, rewards: Option<real>)

  /** The stake payload: `heartbeatError` tells whether the heartbeat reported an error. */
  datatype Stake = Stake(status: Option<string>, snapshot: Option<Snapshot>, heartbeatError: bool)

  datatype Config = Config(
    maxVol: Option<real>, maxUtilization: Option<real>, maxDrawdown: Option<real>,
    applyInDryRun: bool, requireActiveStake: bool, inactiveThreshold: int, errorThreshold: int)

  /** The constructor and the threshold reader keep both thresholds at one or more. */
  predicate ValidConfig(c: Config) {
    c.inactiveThreshold >= 1 && c.errorThreshold >= 1
  }

  datatype Observation = Observation(
    price: Option<real>, utilization: Option<real>, vol: Option<real>, stake: Option<Stake>,
    dryRun: bool, enableLive: bool, lastPrice: Option<real>, providerErrors: Option<int>)

  datatype Counters = Counters(inactive: nat, errors: nat)

  datatype Reason =
    | PriceUnavailable
    | PriceDrawdown
    | VolatilityExceeded
    | StakeError
    | StakeInactive
    | ProviderErrors

  datatype Warning = UtilizationHot | ProviderErrorsSeen

  // ----- One evaluation ---------------------------------------------------------------------

  predicate Skipped(c: Config, o: Observation) {
    (o.dryRun && !c.applyInDryRun) || (!o.enableLive && !o.dryRun)
  }

  function StatusText(stake: Option<Stake>): string {
    if stake.Some? && stake.value.status.Some? then Lower(stake.value.status.value) else ""
  }

  function ActiveFlag(stake: Option<Stake>): Option<bool> {
    if stake.Some? && stake.value.snapshot.Some? then stake.value.snapshot.value.active else None
  }

  predicate ExplicitlyInactive(o: Observation) {
    StatusText(o.stake) != "unknown" && ActiveFlag(o.stake) == Some(false)
  }

  predicate ReportsErrors(o: Observation) {
    o.providerErrors.Some? && o.providerErrors.value > 0
  }

  predicate StakeErrored(o: Observation) {
    var status := StatusText(o.stake);
    status != "" && status != "ok" && status != "unknown"
  }

  predicate Exceeds(x: Option<real>, limit: Option<real>) {
    x.Some? && limit.Some? && x.value > limit.value
  }

  predicate PriceMissing(o: Observation) {
    o.price.None? || o.price.value <= 0.0
  }

  /** The price fell by more than the allowed fraction of the last one. */
  predicate Drawdown(c: Config, o: Observation) {
    && !PriceMissing(o)
    && o.lastPrice.Some? && o.lastPrice.value > 0.0
    && c.maxDrawdown.Some?
    && (o.lastPrice.value - o.price.value) / o.lastPrice.value > c.maxDrawdown.value
  }

  function Advance(c: Config, k: Counters, o: Observation): Counters {
    if Skipped(c, o) then k
    else Counters(
           if !c.requireActiveStake then k.inactive else if ExplicitlyInactive(o) then k.inactive + 1 else 0,
           if ReportsErrors(o) then k.errors + 1 else if o.providerErrors.Some? then 0 else k.errors)
  }

  /** Which halt reasons an evaluation gives, with the counters as they stand after it. */
  predicate HasReason(c: Config, after: Counters, o: Observation, reason: Reason) {
    !Skipped(c, o) &&
    match reason
    case PriceUnavailable => PriceMissing(o)
    case PriceDrawdown => Drawdown(c, o)
    case VolatilityExceeded => Exceeds(o.vol, c.maxVol)
    case StakeError => StakeErrored(o)
    case StakeInactive => c.requireActiveStake && after.inactive >= c.inactiveThreshold
    case ProviderErrors => ReportsErrors(o) && after.errors >= c.errorThreshold
  }

  predicate HasWarning(c: Config, o: Observation, warning: Warning) {
    !Skipped(c, o) &&
    match warning
    case UtilizationHot => Exceeds(o.utilization, c.maxUtilization)
    case ProviderErrorsSeen => ReportsErrors(o)
  }

  datatype Verdict = Verdict(halt: bool, reasons: seq<Reason>, warnings: seq<Warning>)

  /** The verdict lists the reasons and warnings that hold, and halts on any reason. */
  ghost predicate IsVerdict(c: Config, after: Counters, o: Observation, v: Verdict) {
    && (forall r :: r in v.reasons <==> HasReason(c, after, o, r))
    && (forall w :: w in v.warnings <==> HasWarning(c, o, w))
    && (v.halt <==> v.reasons != [])
  }

  /** A fall of more than the allowed fraction, without division. */
  lemma {:induction false} DrawdownIsBelowFloor(c: Config, o: Observation)
    ensures Drawdown(c, o) <==>
            && o.price.Some? && o.price.value > 0.0 && o.lastPrice.Some? && o.lastPrice.value > 0.0
            && c.maxDrawdown.Some? && o.price.value < (1.0 - c.maxDrawdown.value) * o.lastPrice.value
  {
    if o.price.Some? && o.lastPrice.Some? && o.lastPrice.value > 0.0 && c.maxDrawdown.Some? {
      QuotientAbove(o.lastPrice.value - o.price.value, o.lastPrice.value, c.maxDrawdown.value);
    }
  }

  lemma QuotientAbove(x: real, y: real, limit: real)
    requires y > 0.0
    ensures x / y > limit <==> x > limit * y
  {
    var q := x / y;
    assert q * y == x;
    assert q > limit ==> (q - limit) * y > 0.0;
    assert q <= limit ==> (limit - q) * y >= 0.0;
  }

  /** What a verdict says in terms of the observation, streaks aside. */
  lemma {:induction false} VerdictInNumbers(c: Config, after: Counters, o: Observation, v: Verdict)
    requires IsVerdict(c, after, o, v)
    ensures var skipped := (o.dryRun && !c.applyInDryRun) || (!o.dryRun && !o.enableLive);
            && (skipped ==> !v.halt && v.reasons == [] && v.warnings == [])
            && (!skipped ==>
                  && (PriceUnavailable in v.reasons <==> o.price.None? || o.price.value <= 0.0)
                  && (VolatilityExceeded in v.reasons <==>
                      o.vol.Some? && c.maxVol.Some? && o.vol.value > c.maxVol.value)
                  && (UtilizationHot in v.warnings <==>
                      o.utilization.Some? && c.maxUtilization.Some? && o.utilization.value > c.maxUtilization.value)
                  && (ProviderErrorsSeen in v.warnings <==> o.providerErrors.Some? && o.providerErrors.value > 0))
    ensures PriceDrawdown in v.reasons ==>
              o.price.Some? && o.lastPrice.Some? && c.maxDrawdown.Some?
              && 0.0 < o.price.value < (1.0 - c.maxDrawdown.value) * o.lastPrice.value
    ensures !Skipped(c, o) && o.price.Some? && o.lastPrice.Some? && c.maxDrawdown.Some?
            && o.price.value > 0.0 && o.lastPrice.value > 0.0
            && o.price.value < (1.0 - c.maxDrawdown.value) * o.lastPrice.value ==>
              PriceDrawdown in v.reasons
  {
    DrawdownIsBelowFloor(c, o);
    hide Drawdown;
    if v.reasons != [] {
      assert v.reasons[0] in v.reasons;
    }
    if v.warnings != [] {
      assert v.warnings[0] in v.warnings;
    }
  }

  /** When the stake halts: any status but a blank, `ok` or `unknown` one, in any case of letters. */
  lemma {:induction false} StakeInWords(c: Config, after: Counters, o: Observation, v: Verdict)
    requires IsVerdict(c, after, o, v) && !Skipped(c, o)
    ensures StakeError in v.reasons <==>
              && o.stake.Some? && o.stake.value.status.Some?
              && Lower(o.stake.value.status.value) !in {"", "ok", "unknown"}
    ensures ExplicitlyInactive(o) <==>
              && o.stake.Some? && o.stake.value.snapshot.Some?
              && o.stake.value.snapshot.value.active == Some(false)
              && !(o.stake.value.status.Some? && Lower(o.stake.value.status.value) == "unknown")
  {
  }

  class Guardian {
    const config: Config
    var consecutiveInactive: nat
    var providerErrorStreak: nat

    ghost function Streaks(): Counters
      reads this
    {
      Counters(consecutiveInactive, providerErrorStreak)
    }

    constructor (config: Config)
      ensures this.config == config && Streaks() == Counters(0, 0)
    {
      this.config := config;
      consecutiveInactive, providerErrorStreak := 0, 0;
    }

    method Evaluate(o: Observation) returns (v: Verdict)
      modifies this
      ensures Streaks() == old(Advance(config, Streaks(), o))
      ensures IsVerdict(config, Streaks(), o, v)
      ensures (o.dryRun && !config.applyInDryRun) || (!o.dryRun && !o.enableLive) ==> Streaks() == old(Streaks())
      ensures !config.requireActiveStake ==> consecutiveInactive == old(consecutiveInactive)
      ensures o.providerErrors.None? ==> providerErrorStreak == old(providerErrorStreak)
    {
      if o.dryRun && !config.applyInDryRun {
        return Verdict(false, [], []);
      }
      if !o.enableLive && !o.dryRun {
        return Verdict(false, [], []);
      }
      var reasons := CheckMarket(o);
      var warnings: seq<Warning> := [];
      if Exceeds(o.utilization, config.maxUtilization) {
        warnings := warnings + [UtilizationHot];
      }
      var stakeReasons := CheckStake(o);
      var providerReasons := CheckProviders(o);
      if ReportsErrors(o) {
        warnings := warnings + [ProviderErrorsSeen];
      }
      reasons := reasons + stakeReasons + providerReasons;
      v := Verdict(reasons != [], reasons, warnings);
    }

    /** The price and volatility checks. */
    method CheckMarket(o: Observation) returns (reasons: seq<Reason>)
      ensures forall r :: r in reasons <==>
                || (r.PriceUnavailable? && PriceMissing(o))
                || (r.PriceDrawdown? && Drawdown(config, o))
                || (r.VolatilityExceeded? && Exceeds(o.vol, config.maxVol))
    {
      reasons := [];
      if o.price.None? || o.price.value <= 0.0 {
        reasons := reasons + [PriceUnavailable];
      } else if o.lastPrice.Some? && o.lastPrice.value > 0.0 {
        var drawdown := (o.lastPrice.value - o.price.value) / o.lastPrice.value;
        if config.maxDrawdown.Some? && drawdown > config.maxDrawdown.value {
          reasons := reasons + [PriceDrawdown];
        }
      }
      if Exceeds(o.vol, config.maxVol) {
        reasons := reasons + [VolatilityExceeded];
      }
    }

    /** The stake checks, which move the inactivity counter. */
    method CheckStake(o: Observation) returns (reasons: seq<Reason>)
      requires !Skipped(config, o)
      modifies this`consecutiveInactive
      ensures consecutiveInactive == old(Advance(config, Streaks(), o).inactive)
      ensures forall r :: r in reasons <==>
                || (r.StakeError? && StakeErrored(o))
                || (r.StakeInactive? && config.requireActiveStake && consecutiveInactive >= config.inactiveThreshold)
    {
      reasons := [];
      var status := StatusText(o.stake);
      if status != "" && status != "ok" && status != "unknown" {
        reasons := reasons + [StakeError];
      }
      if config.requireActiveStake {
        var active := ActiveFlag(o.stake);
        if status == "unknown" || active.None? {
          consecutiveInactive := 0;
        } else if !active.value {
          consecutiveInactive := consecutiveInactive + 1;
        } else {
          consecutiveInactive := 0;
        }
        if consecutiveInactive >= config.inactiveThreshold {
          reasons := reasons + [StakeInactive];
        }
      }
    }

    /** The provider check, which moves the error streak. */
    method CheckProviders(o: Observation) returns (reasons: seq<Reason>)
      requires !Skipped(config, o)
      modifies this`providerErrorStreak
      ensures providerErrorStreak == old(Advance(config, Streaks(), o).errors)
      ensures forall r :: r in reasons <==>
                r.ProviderErrors? && ReportsErrors(o) && providerErrorStreak >= config.errorThreshold
    {
      reasons := [];
      if o.providerErrors.Some? {
        if o.providerErrors.value > 0 {
          providerErrorStreak := providerErrorStreak + 1;
          if providerErrorStreak >= config.errorThreshold {
            reasons := reasons + [ProviderErrors];
          }
        } else {
          providerErrorStreak := 0;
        }
      }
    }
  }

  // ----- The counters as functions of the history ------------------------------------------------

  /** The counters after a sequence of evaluations of a fresh guardian. */
  function After(c: Config, history: seq<Observation>): Counters {
    if history == [] then Counters(0, 0)
    else Advance(c, After(c, history[..|history| - 1]), history[|history| - 1])
  }

  /** Whether each evaluation that was not skipped saw an explicitly inactive stake. */
  function InactivityLog(c: Config, history: seq<Observation>): seq<bool> {
    if history == [] then []
    else
      var o := history[|history| - 1];
      InactivityLog(c, history[..|history| - 1]) + if Skipped(c, o) then [] else [ExplicitlyInactive(o)]
  }

  /** Whether each known provider report, skipped evaluations aside, was of errors. */
  function ErrorLog(c: Config, history: seq<Observation>): seq<bool> {
    if history == [] then []
    else
      var o := history[|history| - 1];
      ErrorLog(c, history[..|history| - 1])
      + if Skipped(c, o) || o.providerErrors.None? then [] else [ReportsErrors(o)]
  }

  /** `n` is the length of the run of `true` at the end of `log`. */
  predicate TrailingRun(log: seq<bool>, n: nat) {
    && n <= |log|
    && (forall i | |log| - n <= i < |log| :: log[i])
    && (n < |log| ==> !log[|log| - n - 1])
  }

  /** The last `n` entries exist and are all `true`. */
  predicate LastAll(log: seq<bool>, n: nat) {
    n <= |log| && forall i | |log| - n <= i < |log| :: log[i]
  }

  lemma RunGrows(log: seq<bool>, n: nat, b: bool)
    requires TrailingRun(log, n)
    ensures TrailingRun(log + [b], if b then n + 1 else 0)
  {
  }

  lemma LastAllIffRun(log: seq<bool>, n: nat, k: nat)
    requires TrailingRun(log, n)
    ensures LastAll(log, k) <==> k <= n
  {
  }

  lemma {:induction false} InactivityIsTrailingRun(c: Config, history: seq<Observation>)
    requires c.requireActiveStake
    ensures TrailingRun(InactivityLog(c, history), After(c, history).inactive)
    decreases |history|
  {
    hide ExplicitlyInactive, Skipped, ReportsErrors;
    if history != [] {
      var front, o := history[..|history| - 1], history[|history| - 1];
      InactivityIsTrailingRun(c, front);
      if !Skipped(c, o) {
        RunGrows(InactivityLog(c, front), After(c, front).inactive, ExplicitlyInactive(o));
      }
    }
  }

  lemma {:induction false} ErrorsAreTrailingRun(c: Config, history: seq<Observation>)
    ensures TrailingRun(ErrorLog(c, history), After(c, history).errors)
    decreases |history|
  {
    hide ExplicitlyInactive, Skipped;
    if history != [] {
      var front, o := history[..|history| - 1], history[|history| - 1];
      ErrorsAreTrailingRun(c, front);
      if !Skipped(c, o) && o.providerErrors.Some? {
        RunGrows(ErrorLog(c, front), After(c, front).errors, ReportsErrors(o));
      }
    }
  }

  /**
   * Over any history, skipped calls included: the inactivity counter is the trailing run of
   * explicitly inactive evaluations, and the error streak is the trailing run of positive
   * reports among the known ones.
   */
  lemma {:induction false} CountersAreTrailingRuns(c: Config, history: seq<Observation>)
    ensures c.requireActiveStake ==> TrailingRun(InactivityLog(c, history), After(c, history).inactive)
    ensures TrailingRun(ErrorLog(c, history), After(c, history).errors)
  {
    if c.requireActiveStake {
      InactivityIsTrailingRun(c, history);
    }
    ErrorsAreTrailingRun(c, history);
  }

  /**
   * The two streak halts appear exactly at their thresholds: an evaluation gives the reason if
   * and only if that many of the latest relevant observations, its own the last, were bad.
   */
  lemma {:induction false} StreakHaltsAtThreshold(c: Config, earlier: seq<Observation>, o: Observation, v: Verdict)
    requires ValidConfig(c) && !Skipped(c, o)
    requires IsVerdict(c, After(c, earlier + [o]), o, v)
    ensures StakeInactive in v.reasons <==>
              c.requireActiveStake && LastAll(InactivityLog(c, earlier + [o]), c.inactiveThreshold)
    ensures ProviderErrors in v.reasons <==>
              ReportsErrors(o) && LastAll(ErrorLog(c, earlier + [o]), c.errorThreshold)
  {
    var history := earlier + [o];
    CountersAreTrailingRuns(c, history);
    if c.requireActiveStake {
      LastAllIffRun(InactivityLog(c, history), After(c, history).inactive, c.inactiveThreshold);
    }
    LastAllIffRun(ErrorLog(c, history), After(c, history).errors, c.errorThreshold);
  }

  /** A stake halt is about the stake just observed: it is in error, or explicitly inactive. */
  lemma {:induction false} StakeHaltShowsInStake(c: Config, earlier: seq<Observation>, o: Observation, v: Verdict)
    requires ValidConfig(c)
    requires IsVerdict(c, After(c, earlier + [o]), o, v)
    requires StakeInactive in v.reasons || StakeError in v.reasons
    ensures v.halt && o.stake.Some?
    ensures StakeErrored(o) || ExplicitlyInactive(o)
  {
    if StakeInactive in v.reasons {
      var history := earlier + [o];
      StreakHaltsAtThreshold(c, earlier, o, v);
      var log := InactivityLog(c, history);
      assert history[..|history| - 1] == earlier;
      assert log[|log| - 1] == ExplicitlyInactive(o);
    }
  }
}

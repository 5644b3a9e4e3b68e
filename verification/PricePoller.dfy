/**
 * The visibility-driven price poller of apps/control-plane/buy.js.
 *
 * Events are the browser's: a timer fires, a fetch settles either way, some other code starts
 * the polling, the page is shown or hidden. A change of visibility and its event are one step.
 * `pricesTimer` keeps the handle of a timer that has already fired until it is cleared.
 */
module PricePoller {
  import opened Common

  type Timer = nat

  /** `live` are the timers set and neither fired nor cleared; `pending` counts the fetches
      whose completion will schedule the next poll. */
  datatype State = State(
    visible: bool, pricesTimer: Option<Timer>, live: set<Timer>, pending: nat, started: bool, nextTimer: Timer)

  datatype Event =
    | Start(immediate: bool)
    | Fire(t: Timer)
    | Settle
    | Show
    | Hide

  predicate Enabled(s: State, e: Event) {
    match e
    case Fire(t) => t in s.live
    case Settle => s.pending > 0
    case Show => !s.visible
    case Hide => s.visible
    case Start(_) => true
  }

  function Stop(s: State): State {
    if s.pricesTimer.Some? then s.(live := s.live - {s.pricesTimer.value}, pricesTimer := None) else s
  }

  function Schedule(s: State): State {
    var stopped := Stop(s);
    if !s.visible then stopped
    else stopped.(live := stopped.live + {s.nextTimer}, pricesTimer := Some(s.nextTimer), nextTimer := s.nextTimer + 1)
  }

  function Fetch(s: State): State {
    s.(pending := s.pending + 1)
  }

  function Begin(s: State, immediate: bool): State {
    var stopped := Stop(s).(started := true);
    if !s.visible then stopped
    else if immediate then Fetch(stopped)
    else Schedule(stopped)
  }

  function Step(s: State, e: Event): State
    requires Enabled(s, e)
  {
    match e
    case Start(immediate) => Begin(s, immediate)
    case Fire(t) =>
      var fired := s.(live := s.live - {t});
      if s.visible then Fetch(fired) else fired
    case Settle => Schedule(s.(pending := s.pending - 1))
    case Show => Begin(s.(visible := true), true)
    case Hide => Stop(s.(visible := false))
  }

  function Run(s: State, events: seq<Event>): Option<State>
    decreases |events|
  {
    if events == [] then Some(s)
    else if Enabled(s, events[0]) then Run(Step(s, events[0]), events[1..])
    else None
  }

  function Initial(visible: bool): State {
    State(visible, None, {}, 0, false, 0)
  }

  /** A live timer is the one `pricesTimer` names. */
  predicate OneHandle(s: State) {
    forall t | t in s.live :: s.pricesTimer == Some(t)
  }

  /**
   * At most one timer is live, and it is the one `pricesTimer` can clear; none is live while
   * the page is hidden; and a shown page that has started polling always has a next poll: a
   * live timer, or a pending fetch that will set one.
   */
  predicate Inv(s: State) {
    && OneHandle(s)
    && (s.pricesTimer.Some? ==> s.pricesTimer.value < s.nextTimer)
    && (!s.visible ==> s.live == {})
    && (s.started && s.visible ==> s.live != {} || s.pending > 0)
  }

  lemma {:induction false} StepKeepsInv(s: State, e: Event)
    requires Inv(s) && Enabled(s, e)
    ensures Inv(Step(s, e))
  {
    var s' := Step(s, e);
    if s'.started && s'.visible && s'.pending == 0 {
      match e {
        case Start(_) => assert s.nextTimer in s'.live;
        case Settle => assert s.nextTimer in s'.live;
        case _ =>
      }
    }
  }

  lemma {:induction false} PollingNeverDoublesNorStops(visible: bool, events: seq<Event>)
    requires Run(Initial(visible), events).Some?
    ensures var s := Run(Initial(visible), events).value;
            && (forall t, u | t in s.live && u in s.live :: t == u)
            && (!s.visible ==> s.live == {})
            && (s.started && s.visible ==> s.live != {} || s.pending > 0)
  {
    RunKeepsInv(Initial(visible), events);
  }

  lemma {:induction false} RunKeepsInv(s: State, events: seq<Event>)
    requires Inv(s) && Run(s, events).Some?
    ensures Inv(Run(s, events).value)
    decreases |events|
  {
    if events != [] {
      StepKeepsInv(s, events[0]);
      RunKeepsInv(Step(s, events[0]), events[1..]);
    }
  }

  /** However many fetches overlap, once they have all settled on a shown page exactly one
      timer is live. */
  lemma {:induction false} OverlapsDrainToOneTimer(s: State, settles: seq<Event>)
    requires Inv(s) && s.visible && s.pending > 0
    requires |settles| == s.pending && forall e | e in settles :: e.Settle?
    ensures Run(s, settles).Some?
    ensures var s' := Run(s, settles).value; s'.pending == 0 && exists t :: s'.live == {t}
    decreases |settles|
  {
    assert settles[0] in settles;
    var next := Step(s, settles[0]);
    StepKeepsInv(s, settles[0]);
    if |settles| == 1 {
      assert settles[1..] == [];
      assert next.live == {s.nextTimer};
    } else {
      OverlapsDrainToOneTimer(next, settles[1..]);
    }
  }

  // ----- The handlers -----------------------------------------------------------------------

  /** The module state of the page and the browser's timers. */
  class Page {
    var visible: bool
    var pricesTimer: Option<Timer>
    var live: set<Timer>
    var pending: nat
    var started: bool
    var nextTimer: Timer

    ghost function Snapshot(): State
      reads this
    {
      State(visible, pricesTimer, live, pending, started, nextTimer)
    }

    ghost predicate Valid()
      reads this
    {
      Inv(Snapshot())
    }

    constructor (visible: bool)
      ensures Valid() && Snapshot() == Initial(visible)
    {
      this.visible := visible;
      pricesTimer, live, pending, started, nextTimer := None, {}, 0, false, 0;
    }

    /** Afterwards no timer is live. */
    method StopPricePolling()
      requires OneHandle(Snapshot())
      modifies this`pricesTimer, this`live
      ensures Snapshot() == old(Stop(Snapshot()))
      ensures live == {} && pricesTimer == None
    {
      if pricesTimer.Some? {
        live := live - {pricesTimer.value};
        pricesTimer := None;
      }
    }

    /** Afterwards exactly one timer is live on a shown page, and none on a hidden one. */
    method ScheduleNextPricePoll()
      requires OneHandle(Snapshot())
      modifies this`pricesTimer, this`live, this`nextTimer
      ensures Snapshot() == old(Schedule(Snapshot()))
      ensures if visible then pricesTimer.Some? && live == {pricesTimer.value} else live == {}
    {
      StopPricePolling();
      if !visible {
        return;
      }
      live := live + {nextTimer};
      pricesTimer := Some(nextTimer);
      nextTimer := nextTimer + 1;
    }

    method RunPricePoll(t: Timer)
      requires Valid() && t in live
      modifies this
      ensures Valid() && Snapshot() == old(Step(Snapshot(), Fire(t)))
      ensures live == old(live) - {t} && pending == old(pending) + if visible then 1 else 0
    {
      StepKeepsInv(Snapshot(), Fire(t));
      live := live - {t};
      if !visible {
        return;
      }
      pending := pending + 1;
    }

    method FetchSettled()
      requires Valid() && pending > 0
      modifies this
      ensures Valid() && Snapshot() == old(Step(Snapshot(), Settle))
      ensures pending == old(pending) - 1
      ensures if visible then exists t :: live == {t} else live == {}
    {
      StepKeepsInv(Snapshot(), Settle);
      pending := pending - 1;
      ScheduleNextPricePoll();
      assert visible ==> live == {pricesTimer.value};
    }

    /** Starting stops the old timer; a shown page then fetches at once or sets a new timer. */
    method StartPricePolling(immediate: bool)
      requires Inv(Snapshot()) || (visible && Inv(Snapshot().(visible := false)))
      modifies this
      ensures Valid() && Snapshot() == old(Begin(Snapshot(), immediate))
      ensures started && visible == old(visible)
      ensures pending == old(pending) + if visible && immediate then 1 else 0
      ensures if visible && !immediate then live == {old(nextTimer)} else live == {}
    {
      StopPricePolling();
      started := true;
      if !visible {
        return;
      }
      if immediate {
        pending := pending + 1;
        return;
      }
      ScheduleNextPricePoll();
    }

    method HandleVisibilityChange(nowVisible: bool)
      requires Valid() && nowVisible != visible
      modifies this
      ensures Valid() && Snapshot() == old(Step(Snapshot(), if nowVisible then Show else Hide))
      ensures visible == nowVisible && live == {}
      ensures pending == old(pending) + if nowVisible then 1 else 0
      ensures started == (old(started) || nowVisible)
    {
      StepKeepsInv(Snapshot(), if nowVisible then Show else Hide);
      visible := nowVisible;
      if visible {
        StartPricePolling(true);
        return;
      }
      StopPricePolling();
    }
  }
}

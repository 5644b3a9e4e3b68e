/**
 * Overlapping quote requests in apps/control-plane/buy.js: each `requestQuote` call that gets
 * as far as the network takes the next request id, and every later step of it looks again
 * whether that id is still the active one.
 *
 * A call is a task that runs from one `await` to the next; events say which wait ends and how.
 * Only ids, warm-up retry timers, applied quotes and whether a treasury address is known are
 * kept. Every load of the server's settings may bring the address or take it away; when loads
 * run and how they overlap is left open. Form contents and display are left out, so an invalid
 * form and an error kind are choices of the event.
 */
module QuoteRequests {
  import opened Common

  type Task = nat
  type Timer = nat

  /** What a call is waiting for; `id` is its request id once it has one. */
  datatype Phase =
    | Treasury
    | Response(id: nat)
    | ErrorText(id: nat)
    | Body(id: nat)
    | Done

  datatype State = State(
    treasury: bool, active: nat, tasks: map<Task, Phase>,
    warmupTimer: Option<Timer>, live: map<Timer, nat>, nextTimer: Timer, applied: seq<nat>)

  /** `validForm`: units and asset are acceptable when the call reads them. */
  datatype Event =
    | Request(task: Task, validForm: bool)
    | EnvLoaded(hasTreasury: bool)
    | WaitEnds(task: Task, raised: bool, validForm: bool)
    | ResponseArrives(task: Task, ok: bool)
    | BodyArrives(task: Task, wellFormed: bool, applyFails: bool, warmup: bool)
    | Fails(task: Task, warmup: bool)
    | TimerFires(timer: Timer, task: Task, validForm: bool)

  predicate Enabled(s: State, e: Event) {
    match e
    case Request(task, _) => task !in s.tasks
    case EnvLoaded(_) => true
    case WaitEnds(task, _, _) => task in s.tasks && s.tasks[task].Treasury?
    case ResponseArrives(task, _) => task in s.tasks && s.tasks[task].Response?
    case BodyArrives(task, _, _, _) => task in s.tasks && (s.tasks[task].Body? || s.tasks[task].Response?)
    case Fails(task, _) =>
      task in s.tasks && (s.tasks[task].Response? || s.tasks[task].ErrorText? || s.tasks[task].Body?)
    case TimerFires(timer, task, _) => timer in s.live && task !in s.tasks
  }

  function SetPhase(s: State, task: Task, phase: Phase): State {
    s.(tasks := s.tasks[task := phase])
  }

  /** The start of a call clears the pending warm-up retry, as far as its handle reaches. */
  function ClearRetry(s: State): State {
    if s.warmupTimer.Some? then s.(live := s.live - {s.warmupTimer.value}, warmupTimer := None) else s
  }

  /** From the form check to the network: take a new request id. */
  function Launch(s: State, task: Task, validForm: bool): State {
    if validForm then SetPhase(s.(active := s.active + 1), task, Response(s.active + 1))
    else SetPhase(s, task, Done)
  }

  function Start(s: State, task: Task, retry: bool, validForm: bool): State {
    var cleared := ClearRetry(s);
    if !s.treasury && !retry then SetPhase(cleared, task, Treasury) else Launch(cleared, task, validForm)
  }

  /** The `catch` block: silent when stale, else perhaps a warm-up retry. */
  function Catch(s: State, task: Task, id: nat, warmup: bool): State {
    var ended := SetPhase(s, task, Done);
    if id != s.active || !warmup then ended
    else ended.(warmupTimer := Some(s.nextTimer), live := s.live[s.nextTimer := id], nextTimer := s.nextTimer + 1)
  }

  function Step(s: State, e: Event): State
    requires Enabled(s, e)
  {
    match e
    case Request(task, validForm) => Start(s, task, false, validForm)
    case EnvLoaded(hasTreasury) => s.(treasury := hasTreasury)
    case WaitEnds(task, raised, validForm) =>
      if s.treasury && !raised then Launch(s, task, validForm) else SetPhase(s, task, Done)
    case ResponseArrives(task, ok) =>
      var id := s.tasks[task].id;
      if id != s.active then SetPhase(s, task, Done)
      else SetPhase(s, task, if ok then Body(id) else ErrorText(id))
    case BodyArrives(task, wellFormed, applyFails, warmup) =>
      var id := s.tasks[task].id;
      if id != s.active then SetPhase(s, task, Done)
      else if !wellFormed then Catch(s, task, id, warmup)
      else
        var shown := s.(applied := s.applied + [id]);
        if applyFails then Catch(shown, task, id, warmup) else SetPhase(shown, task, Done)
    case Fails(task, warmup) => Catch(s, task, s.tasks[task].id, warmup)
    case TimerFires(timer, task, validForm) =>
      var fired := s.(live := s.live - {timer}, warmupTimer := None);
      if s.live[timer] == s.active then Start(fired, task, true, validForm) else fired
  }

  function Run(s: State, events: seq<Event>): Option<State>
    decreases |events|
  {
    if events == [] then Some(s)
    else if Enabled(s, events[0]) then Run(Step(s, events[0]), events[1..])
    else None
  }

  function Initial(treasury: bool): State {
    State(treasury, 0, map[], None, map[], 0, [])
  }

  // ----- Quotes are applied in the order they were asked for --------------------------------------

  predicate HasId(p: Phase) {
    p.Response? || p.ErrorText? || p.Body?
  }

  predicate Increasing(ids: seq<nat>) {
    forall i, j | 0 <= i < j < |ids| :: ids[i] < ids[j]
  }

  /** Ids in flight are at most the active one, belong to one task each, and are not applied yet. */
  predicate Inv(s: State) {
    && Increasing(s.applied)
    && (forall i | 0 <= i < |s.applied| :: s.applied[i] <= s.active)
    && (forall t | t in s.tasks && HasId(s.tasks[t]) ::
          s.tasks[t].id <= s.active && s.tasks[t].id !in s.applied)
    && (forall t, u | t in s.tasks && u in s.tasks && t != u && HasId(s.tasks[t]) && HasId(s.tasks[u]) ::
          s.tasks[t].id != s.tasks[u].id)
  }

  /** A task may move on under its own id, or drop it. */
  lemma {:induction false} PhaseKeepsInv(s: State, task: Task, phase: Phase)
    requires Inv(s)
    requires HasId(phase) ==> task in s.tasks && HasId(s.tasks[task]) && phase.id == s.tasks[task].id
    ensures Inv(SetPhase(s, task, phase))
  {
    hide Increasing;
  }

  lemma {:induction false} LaunchKeepsInv(s: State, task: Task, validForm: bool)
    requires Inv(s)
    ensures Inv(Launch(s, task, validForm))
  {
    hide Increasing;
    if !validForm {
      PhaseKeepsInv(s, task, Done);
    }
  }

  lemma {:induction false} CatchKeepsInv(s: State, task: Task, id: nat, warmup: bool)
    requires Inv(s)
    ensures Inv(Catch(s, task, id, warmup))
  {
    PhaseKeepsInv(s, task, Done);
    TimersDoNotMatter(SetPhase(s, task, Done), Catch(s, task, id, warmup));
  }

  lemma TimersDoNotMatter(s: State, t: State)
    requires Inv(s) && t.active == s.active && t.tasks == s.tasks && t.applied == s.applied
    ensures Inv(t)
  {
  }

  /** Applying under the active id: it is above every id applied before. */
  lemma {:induction false} ApplyKeepsInv(s: State, task: Task)
    requires Inv(s) && task in s.tasks && HasId(s.tasks[task]) && s.tasks[task].id == s.active
    ensures Inv(SetPhase(s, task, Done).(applied := s.applied + [s.active]))
  {
    forall i | 0 <= i < |s.applied| ensures s.applied[i] < s.active {
      assert s.applied[i] in s.applied;
    }
  }

  lemma {:induction false} StartKeepsInv(s: State, task: Task, retry: bool, validForm: bool)
    requires Inv(s)
    ensures Inv(Start(s, task, retry, validForm))
  {
    TimersDoNotMatter(s, ClearRetry(s));
    PhaseKeepsInv(ClearRetry(s), task, Treasury);
    LaunchKeepsInv(ClearRetry(s), task, validForm);
  }

  lemma {:induction false} StepKeepsInv(s: State, e: Event)
    requires Inv(s) && Enabled(s, e)
    ensures Inv(Step(s, e))
    ensures s.active <= Step(s, e).active
    ensures Step(s, e).applied == s.applied
            || Step(s, e).applied == s.applied + [s.active]
  {
    hide Inv;
    match e {
      case Request(task, validForm) => StartKeepsInv(s, task, false, validForm);
      case EnvLoaded(hasTreasury) => TimersDoNotMatter(s, s.(treasury := hasTreasury));
      case WaitEnds(task, raised, validForm) =>
        LaunchKeepsInv(s, task, validForm);
        PhaseKeepsInv(s, task, Done);
      case ResponseArrives(task, ok) =>
        PhaseKeepsInv(s, task, Done);
        PhaseKeepsInv(s, task, Body(s.tasks[task].id));
        PhaseKeepsInv(s, task, ErrorText(s.tasks[task].id));
      case BodyArrives(task, wellFormed, applyFails, warmup) =>
        PhaseKeepsInv(s, task, Done);
        if s.tasks[task].id == s.active {
          CatchKeepsInv(s, task, s.active, warmup);
          ApplyKeepsInv(s, task);
          var shown := s.(applied := s.applied + [s.active]);
          TimersDoNotMatter(SetPhase(shown, task, Done), Catch(shown, task, s.active, warmup));
        }
      case Fails(task, warmup) => CatchKeepsInv(s, task, s.tasks[task].id, warmup);
      case TimerFires(timer, task, validForm) =>
        var fired := s.(live := s.live - {timer}, warmupTimer := None);
        TimersDoNotMatter(s, fired);
        StartKeepsInv(fired, task, true, validForm);
    }
  }

  lemma {:induction false} RunKeepsInv(s: State, events: seq<Event>)
    requires Inv(s) && Run(s, events).Some?
    ensures Inv(Run(s, events).value)
    decreases |events|
  {
    if events != [] {
      StepKeepsInv(s, events[0]);
      RunKeepsInv(Step(s, events[0]), events[1..]);
    }
  }

  /**
   * Over every overlap of requests, retries, late, failed and malformed responses, while loads
   * bring and take away the treasury address: a quote is applied only under the active id, and
   * the ids of applied quotes strictly increase.
   */
  lemma {:induction false} AppliedIdsIncrease(treasury: bool, events: seq<Event>, e: Event)
    requires Run(Initial(treasury), events).Some?
    requires Enabled(Run(Initial(treasury), events).value, e)
    ensures var s := Run(Initial(treasury), events).value;
            var s' := Step(s, e);
            && Increasing(s'.applied)
            && (s'.applied != s.applied ==> e.BodyArrives? && s.tasks[e.task].id == s.active
                                            && s'.applied == s.applied + [s.active])
  {
    RunKeepsInv(Initial(treasury), events);
    StepKeepsInv(Run(Initial(treasury), events).value, e);
  }

  // ----- A quote that is not overtaken is applied -------------------------------------------------

  predicate ConcernsTask(e: Event, t: Task) {
    match e
    case EnvLoaded(_) => false
    case _ => e.task == t
  }

  /** None of these events is of call `t`, and none launches a newer request. */
  predicate Quiet(s: State, events: seq<Event>, t: Task)
    requires Run(s, events).Some?
    decreases |events|
  {
    events != [] ==>
      && !ConcernsTask(events[0], t)
      && Step(s, events[0]).active == s.active
      && Quiet(Step(s, events[0]), events[1..], t)
  }

  lemma {:induction false} QuietStep(s: State, e: Event, t: Task)
    requires Inv(s) && Enabled(s, e) && !ConcernsTask(e, t) && Step(s, e).active == s.active
    requires t in s.tasks && HasId(s.tasks[t]) && s.tasks[t].id == s.active
    ensures var s' := Step(s, e);
            t in s'.tasks && s'.tasks[t] == s.tasks[t] && s'.applied == s.applied
  {
    hide Increasing;
  }

  lemma {:induction false} QuietKeepsCall(s: State, events: seq<Event>, t: Task)
    requires Inv(s) && Run(s, events).Some? && Quiet(s, events, t)
    requires t in s.tasks && HasId(s.tasks[t]) && s.tasks[t].id == s.active
    ensures var s' := Run(s, events).value;
            && t in s'.tasks && s'.tasks[t] == s.tasks[t]
            && s'.active == s.active && s'.applied == s.applied && Inv(s')
    decreases |events|
  {
    hide Inv, HasId;
    if events != [] {
      QuietStep(s, events[0], t);
      StepKeepsInv(s, events[0]);
      QuietKeepsCall(Step(s, events[0]), events[1..], t);
    }
  }

  /** From its ok response on: the body of a call that is not overtaken is applied. */
  lemma {:induction false} AnsweredQuoteIsApplied(s: State, t: Task, between: seq<Event>, warmup: bool)
    requires Inv(s) && t in s.tasks && s.tasks[t] == Body(s.active)
    requires Run(s, between).Some? && Quiet(s, between, t)
    ensures var s' := Run(s, between).value;
            && Enabled(s', BodyArrives(t, true, false, warmup))
            && Step(s', BodyArrives(t, true, false, warmup)).applied == s.applied + [s.active]
  {
    hide Inv, Quiet, Run;
    QuietKeepsCall(s, between, t);
  }

  /**
   * From any state a run can reach with the treasury known: a valid request whose ok response
   * and well-formed body arrive, with no newer request launched before either, has its quote
   * applied. Its id is the last one applied, and nothing else was applied meanwhile.
   */
  lemma {:induction false} UnovertakenQuoteIsApplied(
    treasury: bool, earlier: seq<Event>, s: State, t: Task, before: seq<Event>, waiting: State)
    requires Run(Initial(treasury), earlier) == Some(s) && s.treasury && t !in s.tasks
    requires Run(Step(s, Request(t, true)), before) == Some(waiting) && Quiet(Step(s, Request(t, true)), before, t)
    ensures Enabled(waiting, ResponseArrives(t, true))
    ensures var answered := Step(waiting, ResponseArrives(t, true));
            forall between, warmup | Run(answered, between).Some? && Quiet(answered, between, t) ::
              var s' := Run(answered, between).value;
              && Enabled(s', BodyArrives(t, true, false, warmup))
              && Step(s', BodyArrives(t, true, false, warmup)).applied == s.applied + [s.active + 1]
  {
    hide Inv, Quiet, Run;
    RunKeepsInv(Initial(treasury), earlier);
    StepKeepsInv(s, Request(t, true));
    QuietKeepsCall(Step(s, Request(t, true)), before, t);
    StepKeepsInv(waiting, ResponseArrives(t, true));
    var answered := Step(waiting, ResponseArrives(t, true));
    forall between, warmup | Run(answered, between).Some? && Quiet(answered, between, t)
      ensures var s' := Run(answered, between).value;
              && Enabled(s', BodyArrives(t, true, false, warmup))
              && Step(s', BodyArrives(t, true, false, warmup)).applied == s.applied + [s.active + 1]
    {
      AnsweredQuoteIsApplied(answered, t, between, warmup);
    }
  }

  // ----- Warm-up retries ---------------------------------------------------------------------

  predicate AtMostOneRetry(s: State) {
    forall t, u | t in s.live && u in s.live :: t == u
  }

  /** At most one retry is scheduled, for the active request, none of whose calls is in flight. */
  predicate OneRetry(s: State) {
    && AtMostOneRetry(s)
    && (forall t | t in s.live :: s.live[t] == s.active)
    && (s.live != map[] ==> forall t | t in s.tasks && HasId(s.tasks[t]) :: s.tasks[t].id != s.active)
  }

  /** A call that waited for the treasury goes on to take an id while a retry is scheduled. */
  predicate Overtakes(s: State, e: Event) {
    e.WaitEnds? && s.treasury && !e.raised && e.validForm && s.live != map[]
  }

  predicate NoneOvertakes(s: State, events: seq<Event>)
    requires Run(s, events).Some?
    decreases |events|
  {
    events != [] ==> !Overtakes(s, events[0]) && NoneOvertakes(Step(s, events[0]), events[1..])
  }

  /** The handle of the one scheduled retry is at hand. */
  predicate RetryInv(s: State) {
    && (forall t | t in s.live :: s.warmupTimer == Some(t) && s.live[t] == s.active)
    && (s.warmupTimer.Some? ==> s.warmupTimer.value < s.nextTimer)
    && (s.live != map[] ==> forall t | t in s.tasks && HasId(s.tasks[t]) :: s.tasks[t].id != s.active)
  }

  lemma {:induction false} StepKeepsRetryInv(s: State, e: Event)
    requires Inv(s) && RetryInv(s) && Enabled(s, e) && !Overtakes(s, e)
    ensures RetryInv(Step(s, e))
  {
    if s.warmupTimer.Some? {
      assert s.live.Keys <= {s.warmupTimer.value};
    } else {
      assert s.live == map[];
    }
  }

  lemma {:induction false} RunKeepsRetryInv(s: State, events: seq<Event>)
    requires Inv(s) && RetryInv(s) && Run(s, events).Some? && NoneOvertakes(s, events)
    ensures RetryInv(Run(s, events).value)
    decreases |events|
  {
    if events != [] {
      StepKeepsInv(s, events[0]);
      StepKeepsRetryInv(s, events[0]);
      RunKeepsRetryInv(Step(s, events[0]), events[1..]);
    }
  }

  /** Unless a waiting call overtakes a scheduled retry, retries never pile up. */
  lemma {:induction false} OneRetryUnlessOvertaken(treasury: bool, events: seq<Event>)
    requires Run(Initial(treasury), events).Some? && NoneOvertakes(Initial(treasury), events)
    ensures OneRetry(Run(Initial(treasury), events).value)
  {
    RunKeepsRetryInv(Initial(treasury), events);
  }

  /**
   * And when one does, a warm-up failure of that call at once leaves two retries: in any state
   * so far without overtaking, the end of a wait leads there if and only if it overtakes.
   */
  lemma {:induction false} OvertakingDoublesRetries(treasury: bool, events: seq<Event>, e: Event)
    requires Run(Initial(treasury), events).Some? && NoneOvertakes(Initial(treasury), events)
    requires e.WaitEnds? && Enabled(Run(Initial(treasury), events).value, e)
    requires Enabled(Step(Run(Initial(treasury), events).value, e), Fails(e.task, true))
    ensures var s := Run(Initial(treasury), events).value;
            !AtMostOneRetry(Step(Step(s, e), Fails(e.task, true))) <==> Overtakes(s, e)
  {
    hide Run, NoneOvertakes;
    RunKeepsRetryInv(Initial(treasury), events);
    var s := Run(Initial(treasury), events).value;
    var failed := Step(Step(s, e), Fails(e.task, true));
    if s.live != map[] {
      var t :| t in s.live;
      assert t in failed.live && s.nextTimer in failed.live && t < s.nextTimer;
    }
  }

  // ----- When no call waits --------------------------------------------------------------------

  /** How many calls of a run find no treasury address and wait for one. */
  function Waits(s: State, events: seq<Event>): nat
    requires Run(s, events).Some?
    decreases |events|
  {
    if events == [] then 0
    else (if events[0].Request? && !s.treasury then 1 else 0) + Waits(Step(s, events[0]), events[1..])
  }

  lemma {:induction false} WithoutWaitsNoneOvertakes(s: State, events: seq<Event>)
    requires Run(s, events).Some? && Waits(s, events) == 0
    requires forall t | t in s.tasks :: !s.tasks[t].Treasury?
    ensures NoneOvertakes(s, events)
    decreases |events|
  {
    if events != [] {
      WithoutWaitsNoneOvertakes(Step(s, events[0]), events[1..]);
    }
  }

  /** One more event at the end of a run. */
  lemma {:induction false} RunMore(s: State, events: seq<Event>, e: Event) returns (longer: seq<Event>)
    requires Run(s, events).Some? && Enabled(Run(s, events).value, e)
    ensures Run(s, longer) == Some(Step(Run(s, events).value, e))
    ensures var waits := e.Request? && !Run(s, events).value.treasury;
            Waits(s, longer) == Waits(s, events) + if waits then 1 else 0
    decreases |events|
  {
    if events == [] {
      longer := [e];
    } else {
      var rest := RunMore(Step(s, events[0]), events[1..], e);
      longer := [events[0]] + rest;
      assert longer[1..] == rest;
    }
  }

  /** The address is missing, call 0 waits; a load brings the address, call 1 is launched. */
  lemma {:induction false} OneCallWaits(treasury: bool) returns (events: seq<Event>)
    ensures Run(Initial(treasury), events)
            == Some(State(true, 1, map[0 := Treasury, 1 := Response(1)], None, map[], 0, []))
    ensures Waits(Initial(treasury), events) == 1
  {
    var s0 := Initial(treasury);
    events := [];
    assert Run(s0, events) == Some(s0) && Waits(s0, events) == 0;
    hide Run, Waits;
    events := RunMore(s0, events, EnvLoaded(false));
    events := RunMore(s0, events, Request(0, true));
    events := RunMore(s0, events, EnvLoaded(true));
    events := RunMore(s0, events, Request(1, true));
  }

  /**
   * One waiting call is enough to double the retries: call 1 fails and schedules a retry; then
   * call 0 goes on, fails and schedules another.
   */
  lemma {:induction false} OneWaitCanDoubleRetries(treasury: bool) returns (events: seq<Event>, s: State)
    ensures Run(Initial(treasury), events) == Some(s) && Waits(Initial(treasury), events) == 1
    ensures !AtMostOneRetry(s)
  {
    hide Run, Waits;
    var s0 := Initial(treasury);
    events := OneCallWaits(treasury);
    events := RunMore(s0, events, Fails(1, true));
    events := RunMore(s0, events, WaitEnds(0, false, true));
    events := RunMore(s0, events, Fails(0, true));
    s := Run(s0, events).value;
    assert 0 in s.live && 1 in s.live;
  }

  ghost predicate SingleWithin(treasury: bool, waits: nat) {
    forall events | Run(Initial(treasury), events).Some? && Waits(Initial(treasury), events) <= waits ::
      AtMostOneRetry(Run(Initial(treasury), events).value)
  }

  /** Retries stay single over all runs with at most so many waits, if and only if that is none. */
  lemma {:induction false} OneRetryIffNoneWaits(treasury: bool, waits: nat)
    ensures SingleWithin(treasury, waits) <==> waits == 0
  {
    if waits == 0 {
      forall events | Run(Initial(treasury), events).Some? && Waits(Initial(treasury), events) == 0
        ensures AtMostOneRetry(Run(Initial(treasury), events).value)
      {
        WithoutWaitsNoneOvertakes(Initial(treasury), events);
        OneRetryUnlessOvertaken(treasury, events);
      }
    } else {
      var events, s := OneWaitCanDoubleRetries(treasury);
    }
  }

  // ----- The handlers -----------------------------------------------------------------------

  /** The page's `state` object, its calls and the browser's timers. */
  class Page {
    var treasury: bool
    var activeQuoteRequestId: nat
    var tasks: map<Task, Phase>
    var quoteWarmupTimer: Option<Timer>
    var live: map<Timer, nat>
    var nextTimer: Timer
    var applied: seq<nat>

    ghost function Snapshot(): State
      reads this
    {
      State(treasury, activeQuoteRequestId, tasks, quoteWarmupTimer, live, nextTimer, applied)
    }

    ghost predicate Valid()
      reads this
    {
      Inv(Snapshot())
    }

    constructor (treasury: bool)
      ensures Valid() && Snapshot() == Initial(treasury)
    {
      this.treasury := treasury;
      activeQuoteRequestId, tasks, quoteWarmupTimer, live, nextTimer, applied := 0, map[], None, map[], 0, [];
    }

    /** `requestQuote` up to its first wait. */
    method RequestQuote(task: Task, warmupRetry: bool, validForm: bool)
      requires Valid() && task !in tasks
      modifies this
      ensures Valid() && Snapshot() == old(Start(Snapshot(), task, warmupRetry, validForm))
      ensures quoteWarmupTimer == None && applied == old(applied)
      ensures live == (if old(quoteWarmupTimer).Some? then old(live) - {old(quoteWarmupTimer).value} else old(live))
      ensures var waits := !treasury && !warmupRetry;
              && activeQuoteRequestId == old(activeQuoteRequestId) + (if !waits && validForm then 1 else 0)
              && tasks == old(tasks)[task := if waits then Treasury
                                             else if validForm then Response(activeQuoteRequestId) else Done]
    {
      StartKeepsInv(Snapshot(), task, warmupRetry, validForm);
      if quoteWarmupTimer.Some? {
        live := live - {quoteWarmupTimer.value};
        quoteWarmupTimer := None;
      }
      if !treasury && !warmupRetry {
        tasks := tasks[task := Treasury];
        return;
      }
      TakeRequestId(task, validForm);
    }

    method TakeRequestId(task: Task, validForm: bool)
      modifies this
      ensures Snapshot() == old(Launch(Snapshot(), task, validForm))
    {
      if !validForm {
        tasks := tasks[task := Done];
        return;
      }
      activeQuoteRequestId := activeQuoteRequestId + 1;
      tasks := tasks[task := Response(activeQuoteRequestId)];
    }

    /** `applyEnvPayload`, as far as the treasury address goes. */
    method ApplyEnvPayload(hasTreasury: bool)
      requires Valid()
      modifies this
      ensures Valid() && Snapshot() == old(Step(Snapshot(), EnvLoaded(hasTreasury)))
    {
      StepKeepsInv(Snapshot(), EnvLoaded(hasTreasury));
      treasury := hasTreasury;
    }

    /** `requestQuote` from the end of its wait for the treasury. */
    method OnWaitEnds(task: Task, raised: bool, validForm: bool)
      requires Valid() && Enabled(Snapshot(), WaitEnds(task, raised, validForm))
      modifies this
      ensures Valid() && Snapshot() == old(Step(Snapshot(), WaitEnds(task, raised, validForm)))
      ensures live == old(live) && quoteWarmupTimer == old(quoteWarmupTimer) && applied == old(applied)
      ensures var goesOn := treasury && !raised && validForm;
              && activeQuoteRequestId == old(activeQuoteRequestId) + (if goesOn then 1 else 0)
              && tasks == old(tasks)[task := if goesOn then Response(activeQuoteRequestId) else Done]
    {
      StepKeepsInv(Snapshot(), WaitEnds(task, raised, validForm));
      if raised || !treasury {
        tasks := tasks[task := Done];
        return;
      }
      TakeRequestId(task, validForm);
    }

    method OnResponse(task: Task, ok: bool)
      requires Valid() && Enabled(Snapshot(), ResponseArrives(task, ok))
      modifies this
      ensures Valid() && Snapshot() == old(Step(Snapshot(), ResponseArrives(task, ok)))
      ensures var id := old(tasks[task].id);
              tasks == old(tasks)[task := if id != activeQuoteRequestId then Done
                                          else if ok then Body(id) else ErrorText(id)]
      ensures activeQuoteRequestId == old(activeQuoteRequestId) && live == old(live) && applied == old(applied)
    {
      StepKeepsInv(Snapshot(), ResponseArrives(task, ok));
      var thisRequestId := tasks[task].id;
      if thisRequestId != activeQuoteRequestId {
        tasks := tasks[task := Done];
        return;
      }
      tasks := tasks[task := if ok then Body(thisRequestId) else ErrorText(thisRequestId)];
    }

    /** A well-formed body of the active request is applied, and is newer than every quote before. */
    method OnBody(task: Task, wellFormed: bool, applyFails: bool, warmup: bool)
      requires Valid() && Enabled(Snapshot(), BodyArrives(task, wellFormed, applyFails, warmup))
      modifies this
      ensures Valid() && Snapshot() == old(Step(Snapshot(), BodyArrives(task, wellFormed, applyFails, warmup)))
      ensures var isActive := old(tasks[task].id) == activeQuoteRequestId;
              && applied == old(applied) + (if isActive && wellFormed then [activeQuoteRequestId] else [])
              && (isActive && wellFormed ==>
                    forall i | 0 <= i < |old(applied)| :: old(applied)[i] < activeQuoteRequestId)
      ensures activeQuoteRequestId == old(activeQuoteRequestId) && tasks == old(tasks)[task := Done]
    {
      StepKeepsInv(Snapshot(), BodyArrives(task, wellFormed, applyFails, warmup));
      var thisRequestId := tasks[task].id;
      if thisRequestId != activeQuoteRequestId {
        tasks := tasks[task := Done];
        return;
      }
      if wellFormed {
        applied := applied + [thisRequestId];
        if !applyFails {
          tasks := tasks[task := Done];
          return;
        }
      }
      OnError(task, thisRequestId, warmup);
    }

    /** The `catch` block. */
    method OnError(task: Task, thisRequestId: nat, warmup: bool)
      modifies this
      ensures Snapshot() == old(Catch(Snapshot(), task, thisRequestId, warmup))
      ensures var retries := warmup && thisRequestId == activeQuoteRequestId;
              && live == (if retries then old(live)[old(nextTimer) := thisRequestId] else old(live))
              && quoteWarmupTimer == (if retries then Some(old(nextTimer)) else old(quoteWarmupTimer))
      ensures tasks == old(tasks)[task := Done] && applied == old(applied)
      ensures activeQuoteRequestId == old(activeQuoteRequestId)
    {
      tasks := tasks[task := Done];
      if thisRequestId != activeQuoteRequestId {
        return;
      }
      if warmup {
        quoteWarmupTimer := Some(nextTimer);
        live := live[nextTimer := thisRequestId];
        nextTimer := nextTimer + 1;
      }
    }

    method OnTimer(timer: Timer, task: Task, validForm: bool)
      requires Valid() && Enabled(Snapshot(), TimerFires(timer, task, validForm))
      modifies this
      ensures Valid() && Snapshot() == old(Step(Snapshot(), TimerFires(timer, task, validForm)))
      ensures live == old(live) - {timer} && quoteWarmupTimer == None && applied == old(applied)
      ensures var goesOn := old(live[timer] == activeQuoteRequestId);
              && activeQuoteRequestId == old(activeQuoteRequestId) + (if goesOn && validForm then 1 else 0)
              && tasks == (if !goesOn then old(tasks)
                           else old(tasks)[task := if validForm then Response(activeQuoteRequestId) else Done])
    {
      StepKeepsInv(Snapshot(), TimerFires(timer, task, validForm));
      var thisRequestId := live[timer];
      live := live - {timer};
      quoteWarmupTimer := None;
      if thisRequestId == activeQuoteRequestId {
        RequestQuote(task, true, validForm);
      }
    }
  }
}

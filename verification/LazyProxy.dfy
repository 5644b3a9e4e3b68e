/**
 * The double-checked lazy initialiser of apps/broker_api/app.py, under any interleaving of any
 * number of threads.
 *
 * Every read or write of `_value`, every lock operation and every factory outcome is one atomic
 * step. `prefetch` starts a thread that runs `_get`, so it is a `Begin` of a new thread. The
 * factory may fail, which leaves the proxy unset and raises in that thread only.
 */
module LazyProxy {
  import opened Common

  type Thread = nat

  /** An object the factory built. */
  type Built = nat

  /** Where a thread stands in `_get`. `Returned(None)` would hand out the missing marker. */
  datatype Pc =
    | Outside
    | FastCheck
    | WantLock
    | SlowCheck
    | Building
    | Storing(made: Built)
    | Unlocking(failed: bool)
    | Reading
    | Returned(result: Option<Built>)
    | Raised

  datatype State = State(value: Option<Built>, holder: Option<Thread>, pc: map<Thread, Pc>, built: seq<Built>)

  const FRESH := State(None, None, map[], [])

  function At(s: State, t: Thread): Pc {
    if t in s.pc then s.pc[t] else Outside
  }

  datatype Event =
    | Begin(t: Thread)
    | Check(t: Thread)
    | Acquire(t: Thread)
    | Recheck(t: Thread)
    | BuildSucceeds(t: Thread, made: Built)
    | BuildFails(t: Thread)
    | Assign(t: Thread)
    | Release(t: Thread)
    | ReadOut(t: Thread)

  predicate Enabled(s: State, e: Event) {
    var pc := At(s, e.t);
    match e
    case Begin(_) => pc.Outside? || pc.Returned? || pc.Raised?
    case Check(_) => pc.FastCheck?
    case Acquire(_) => pc.WantLock? && s.holder.None?
    case Recheck(_) => pc.SlowCheck?
    case BuildSucceeds(_, _) => pc.Building?
    case BuildFails(_) => pc.Building?
    case Assign(_) => pc.Storing?
    case Release(_) => pc.Unlocking?
    case ReadOut(_) => pc.Reading?
  }

  function Step(s: State, e: Event): State
    requires Enabled(s, e)
  {
    match e
    case Begin(t) => s.(pc := s.pc[t := FastCheck])
    case Check(t) => s.(pc := s.pc[t := if s.value.None? then WantLock else Reading])
    case Acquire(t) => s.(holder := Some(t), pc := s.pc[t := SlowCheck])
    case Recheck(t) => s.(pc := s.pc[t := if s.value.None? then Building else Unlocking(false)])
    case BuildSucceeds(t, made) => s.(pc := s.pc[t := Storing(made)], built := s.built + [made])
    case BuildFails(t) => s.(pc := s.pc[t := Unlocking(true)])
    case Assign(t) => s.(value := Some(s.pc[t].made), pc := s.pc[t := Unlocking(false)])
    case Release(t) => s.(holder := None, pc := s.pc[t := if s.pc[t].failed then Raised else Reading])
    case ReadOut(t) => s.(pc := s.pc[t := Returned(s.value)])
  }

  /** The state after a schedule, None when the schedule asks for a step that is not enabled. */
  function Run(s: State, events: seq<Event>): Option<State>
    decreases |events|
  {
    if events == [] then Some(s)
    else if Enabled(s, events[0]) then Run(Step(s, events[0]), events[1..])
    else None
  }

  // ----- What every step keeps --------------------------------------------------------------

  predicate InLock(pc: Pc) {
    pc.SlowCheck? || pc.Building? || pc.Storing? || pc.Unlocking?
  }

  predicate ThreadOk(s: State, t: Thread) {
    var pc := At(s, t);
    && (InLock(pc) <==> s.holder == Some(t))
    && (pc.Building? ==> s.built == [])
    && (pc.Storing? ==> s.value.None? && s.built == [pc.made])
    && ((pc == Unlocking(false) || pc.Reading?) ==> s.value.Some?)
    && (pc.Returned? ==> pc.result.Some? && pc.result == s.value)
  }

  /** At most one object is ever built, and once stored it is the value. */
  predicate ValueOk(s: State) {
    && (s.value.Some? ==> s.built == [s.value.value])
    && (s.value.None? && s.built != [] ==> s.holder.Some? && At(s, s.holder.value).Storing?)
  }

  ghost predicate Inv(s: State) {
    ValueOk(s) && forall t :: ThreadOk(s, t)
  }

  lemma {:induction false} StepKeepsInv(s: State, e: Event)
    requires Inv(s) && Enabled(s, e)
    ensures Inv(Step(s, e))
    ensures s.value.Some? ==> Step(s, e).value == s.value
  {
    var s' := Step(s, e);
    assert ThreadOk(s, e.t);
    if s.holder.Some? {
      assert ThreadOk(s, s.holder.value);
    }
    forall t ensures ThreadOk(s', t) {
      assert ThreadOk(s, t);
    }
  }

  lemma {:induction false} RunKeepsInv(s: State, events: seq<Event>)
    requires Inv(s) && Run(s, events).Some?
    ensures Inv(Run(s, events).value)
    ensures s.value.Some? ==> Run(s, events).value.value == s.value
    decreases |events|
  {
    if events != [] {
      StepKeepsInv(s, events[0]);
      RunKeepsInv(Step(s, events[0]), events[1..]);
    }
  }

  /**
   * Over every schedule: the factory succeeds at most once, the stored value never changes,
   * and what any caller has returned by one moment of the run is the one object ever built,
   * which is also what every caller returns at any later moment.
   */
  lemma {:induction false} OneObjectForEveryCaller(
    early: seq<Event>, late: seq<Event>, now: State, later: State, t: Thread, u: Thread)
    requires Run(FRESH, early) == Some(now) && Run(now, late) == Some(later)
    ensures |later.built| <= 1
    ensures now.value.Some? ==> later.value == now.value
    ensures At(now, t).Returned? ==> At(now, t).result.Some? && later.built == [At(now, t).result.value]
    ensures At(now, t).Returned? && At(later, u).Returned? ==> At(now, t).result == At(later, u).result
  {
    RunKeepsInv(FRESH, early);
    RunKeepsInv(now, late);
    assert ThreadOk(now, t) && ThreadOk(later, u);
    if later.holder.Some? {
      assert ThreadOk(later, later.holder.value);
    }
  }

  /**
   * No deadlock, factory failures included: while any thread is inside `_get`, some thread can
   * take its next step (the factory's return counts as one).
   */
  lemma {:induction false} SomeoneCanMove(s: State, t: Thread) returns (e: Event)
    requires Inv(s)
    requires var pc := At(s, t); !pc.Outside? && !pc.Returned? && !pc.Raised?
    ensures Enabled(s, e) && !e.Begin?
  {
    var mover := t;
    if At(s, t).WantLock? && s.holder.Some? {
      mover := s.holder.value;
    }
    assert ThreadOk(s, mover);
    e := match At(s, mover)
      case FastCheck => Check(mover)
      case WantLock => Acquire(mover)
      case SlowCheck => Recheck(mover)
      case Building => BuildFails(mover)
      case Storing(_) => Assign(mover)
      case Unlocking(_) => Release(mover)
      case _ => ReadOut(mover);
  }

  // ----- Always taking the lock -------------------------------------------------------------

  /** A caller of the reference proxy: waiting its turn, served, or told of a failure. */
  datatype Status = Away | Waiting | Got(result: Built) | Failed

  /** The reference proxy: each call is one indivisible critical section. */
  datatype Serial = Serial(value: Option<Built>, status: map<Thread, Status>)

  datatype SerialEvent = Arrive(t: Thread) | Serve(t: Thread, factory: Option<Built>) | Nothing

  function SerialAt(s: Serial, t: Thread): Status {
    if t in s.status then s.status[t] else Away
  }

  predicate SerialEnabled(s: Serial, e: SerialEvent) {
    match e
    case Arrive(t) => !SerialAt(s, t).Waiting?
    case Serve(t, _) => SerialAt(s, t).Waiting?
    case Nothing => true
  }

  /** `Serve` consults the factory only when nothing is stored yet. */
  function SerialStep(s: Serial, e: SerialEvent): Serial
    requires SerialEnabled(s, e)
  {
    match e
    case Nothing => s
    case Arrive(t) => s.(status := s.status[t := Waiting])
    case Serve(t, factory) =>
      if s.value.Some? then s.(status := s.status[t := Got(s.value.value)])
      else if factory.Some? then Serial(factory, s.status[t := Got(factory.value)])
      else s.(status := s.status[t := Failed])
  }

  function SerialRun(s: Serial, events: seq<SerialEvent>): Option<Serial>
    decreases |events|
  {
    if events == [] then Some(s)
    else if SerialEnabled(s, events[0]) then SerialRun(SerialStep(s, events[0]), events[1..])
    else None
  }

  function StatusOf(value: Option<Built>, pc: Pc): Status {
    match pc
    case Outside => Away
    case FastCheck | WantLock | SlowCheck | Building | Storing(_) => Waiting
    case Unlocking(failed) => if failed then Failed else if value.Some? then Got(value.value) else Waiting
    case Reading => if value.Some? then Got(value.value) else Waiting
    case Returned(result) => if result.Some? then Got(result.value) else Waiting
    case Raised => Failed
  }

  function Shadow(s: State): Serial {
    Serial(s.value, map t | t in s.pc :: StatusOf(s.value, s.pc[t]))
  }

  /** The reference event a step stands for: a call takes effect where its outcome is decided. */
  function ShadowEvent(s: State, e: Event): SerialEvent
    requires Enabled(s, e)
  {
    match e
    case Begin(t) => Arrive(t)
    case Check(t) => if s.value.Some? then Serve(t, None) else Nothing
    case Recheck(t) => if s.value.Some? then Serve(t, None) else Nothing
    case BuildFails(t) => Serve(t, None)
    case Assign(t) => Serve(t, Some(s.pc[t].made))
    case _ => Nothing
  }

  function ShadowEvents(s: State, events: seq<Event>): seq<SerialEvent>
    requires Run(s, events).Some?
    decreases |events|
  {
    if events == [] then []
    else [ShadowEvent(s, events[0])] + ShadowEvents(Step(s, events[0]), events[1..])
  }

  /** A step leaves the standing of every other caller as it was, in the eyes of the reference. */
  lemma {:induction false} OthersKeepStatus(s: State, e: Event, t: Thread)
    requires Inv(s) && Enabled(s, e) && t != e.t
    ensures StatusOf(Step(s, e).value, At(Step(s, e), t)) == StatusOf(s.value, At(s, t))
  {
    assert ThreadOk(s, t) && ThreadOk(s, e.t);
  }

  lemma {:induction false} StepRefines(s: State, e: Event)
    requires Inv(s) && Enabled(s, e)
    ensures SerialEnabled(Shadow(s), ShadowEvent(s, e))
    ensures SerialStep(Shadow(s), ShadowEvent(s, e)) == Shadow(Step(s, e))
  {
    var s' := Step(s, e);
    assert ThreadOk(s, e.t);
    var left := SerialStep(Shadow(s), ShadowEvent(s, e));
    assert left.value == s'.value;
    assert left.status.Keys == s'.pc.Keys;
    forall t | t in s'.pc && t != e.t ensures left.status[t] == StatusOf(s'.value, s'.pc[t]) {
      OthersKeepStatus(s, e, t);
    }
  }

  /**
   * The unlocked fast path refines always locking: every run of the double-checked proxy is,
   * call by call, a run of the proxy whose calls are indivisible and serialised by the lock.
   */
  lemma {:induction false} FastPathRefinesAlwaysLock(s: State, events: seq<Event>)
    requires Inv(s) && Run(s, events).Some?
    ensures SerialRun(Shadow(s), ShadowEvents(s, events)) == Some(Shadow(Run(s, events).value))
    decreases |events|
  {
    if events != [] {
      StepRefines(s, events[0]);
      StepKeepsInv(s, events[0]);
      FastPathRefinesAlwaysLock(Step(s, events[0]), events[1..]);
      assert ShadowEvents(s, events)[1..] == ShadowEvents(Step(s, events[0]), events[1..]);
    }
  }

  /** What a caller has in hand at the end of a run is what the reference proxy served it. */
  lemma {:induction false} ReturnsAreServed(events: seq<Event>, t: Thread)
    requires Run(FRESH, events).Some?
    ensures var s := Run(FRESH, events).value;
            var reference := SerialRun(Shadow(FRESH), ShadowEvents(FRESH, events));
            && reference.Some?
            && (At(s, t).Returned? ==> At(s, t).result.Some?
                                       && SerialAt(reference.value, t) == Got(At(s, t).result.value))
            && (At(s, t).Raised? ==> SerialAt(reference.value, t) == Failed)
  {
    FastPathRefinesAlwaysLock(FRESH, events);
    RunKeepsInv(FRESH, events);
    assert ThreadOk(Run(FRESH, events).value, t);
  }

  // ----- The object -------------------------------------------------------------------------

  /** The proxy with the program counters of its callers; one method per atomic step. */
  class Proxy {
    var value: Option<Built>
    var holder: Option<Thread>
    var pc: map<Thread, Pc>
    var built: seq<Built>

    ghost function Snapshot(): State
      reads this
    {
      State(value, holder, pc, built)
    }

    ghost predicate Valid()
      reads this
    {
      Inv(Snapshot())
    }

    constructor ()
      ensures Valid() && Snapshot() == FRESH
    {
      value, holder, pc, built := None, None, map[], [];
    }

    method BeginGet(t: Thread)
      requires Valid() && Enabled(Snapshot(), Begin(t))
      modifies this`pc
      ensures Valid() && Snapshot() == old(Step(Snapshot(), Begin(t)))
    {
      StepKeepsInv(Snapshot(), Begin(t));
      pc := pc[t := FastCheck];
    }

    /** A caller that sees no value must go for the lock; any other may skip it for good. */
    method CheckWithoutLock(t: Thread) returns (skipsLock: bool)
      requires Valid() && Enabled(Snapshot(), Check(t))
      modifies this`pc
      ensures Valid() && Snapshot() == old(Step(Snapshot(), Check(t)))
      ensures skipsLock <==> value.Some? && built == [value.value]
      ensures pc == old(pc)[t := if value.Some? then Reading else WantLock]
    {
      StepKeepsInv(Snapshot(), Check(t));
      if value.None? {
        pc := pc[t := WantLock];
        return false;
      }
      pc := pc[t := Reading];
      skipsLock := true;
    }

    method TakeLock(t: Thread)
      requires Valid() && Enabled(Snapshot(), Acquire(t))
      modifies this`pc, this`holder
      ensures Valid() && Snapshot() == old(Step(Snapshot(), Acquire(t)))
      ensures old(holder) == None && holder == Some(t) && pc == old(pc)[t := SlowCheck]
    {
      StepKeepsInv(Snapshot(), Acquire(t));
      holder := Some(t);
      pc := pc[t := SlowCheck];
    }

    /** The factory is called only when nothing was ever built. */
    method CheckUnderLock(t: Thread) returns (callsFactory: bool)
      requires Valid() && Enabled(Snapshot(), Recheck(t))
      modifies this`pc
      ensures Valid() && Snapshot() == old(Step(Snapshot(), Recheck(t)))
      ensures callsFactory <==> built == []
      ensures pc == old(pc)[t := if value.None? then Building else Unlocking(false)]
    {
      StepKeepsInv(Snapshot(), Recheck(t));
      assert ThreadOk(Snapshot(), t);
      if value.None? {
        pc := pc[t := Building];
        return true;
      }
      pc := pc[t := Unlocking(false)];
      callsFactory := false;
    }

    method FactoryReturns(t: Thread, made: Option<Built>)
      requires Valid() && At(Snapshot(), t).Building?
      modifies this`pc, this`built
      ensures Valid()
      ensures Snapshot() == old(Step(Snapshot(), if made.Some? then BuildSucceeds(t, made.value) else BuildFails(t)))
      ensures old(built) == [] && built == if made.Some? then [made.value] else []
      ensures pc == old(pc)[t := if made.Some? then Storing(made.value) else Unlocking(true)]
    {
      assert ThreadOk(Snapshot(), t);
      StepKeepsInv(Snapshot(), if made.Some? then BuildSucceeds(t, made.value) else BuildFails(t));
      if made.Some? {
        built := built + [made.value];
        pc := pc[t := Storing(made.value)];
      } else {
        pc := pc[t := Unlocking(true)];
      }
    }

    /** `_value` is assigned at most once: it is still missing here. */
    method StoreValue(t: Thread)
      requires Valid() && Enabled(Snapshot(), Assign(t))
      modifies this`pc, this`value
      ensures Valid() && Snapshot() == old(Step(Snapshot(), Assign(t)))
      ensures old(value).None? && value.Some? && built == [value.value]
      ensures pc == old(pc)[t := Unlocking(false)]
    {
      assert ThreadOk(Snapshot(), t);
      StepKeepsInv(Snapshot(), Assign(t));
      value := Some(pc[t].made);
      pc := pc[t := Unlocking(false)];
    }

    method LeaveLock(t: Thread)
      requires Valid() && Enabled(Snapshot(), Release(t))
      modifies this`pc, this`holder
      ensures Valid() && Snapshot() == old(Step(Snapshot(), Release(t)))
      ensures holder == None && pc == old(pc)[t := if old(pc[t].failed) then Raised else Reading]
    {
      StepKeepsInv(Snapshot(), Release(t));
      holder := None;
      pc := pc[t := if pc[t].failed then Raised else Reading];
    }

    /** The second read of `_value`: never the missing marker. */
    method ReturnValue(t: Thread) returns (result: Option<Built>)
      requires Valid() && Enabled(Snapshot(), ReadOut(t))
      modifies this`pc
      ensures Valid() && Snapshot() == old(Step(Snapshot(), ReadOut(t)))
      ensures result.Some? && built == [result.value]
      ensures pc == old(pc)[t := Returned(result)]
    {
      assert ThreadOk(Snapshot(), t);
      StepKeepsInv(Snapshot(), ReadOut(t));
      result := value;
      pc := pc[t := Returned(result)];
    }
  }
}

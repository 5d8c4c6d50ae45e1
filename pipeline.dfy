/** The three stages scheduled together. The interrupts of the firmware
    preempt one another by priority; here every handler runs to completion
    and the next one to run is chosen freely among those whose interrupt is
    enabled, interleaved with the calls the exec stage's planner makes. */
module Pipeline {
  import opened FixedWidth
  import opened StepperSpec

  /** What can happen next to the stepper state. */
  datatype Event =
    | DdaInterrupt
    | LoadInterrupt
    | ExecInterrupt(produced: bool)
    | ExecRequest
    | PrepLineCall(increments: seq<nat>, dirs: seq<bv8>, dur: Duration, ticks: nat, ticksX: nat)
    | PrepNullCall

  /** The arguments of a `st_prep_line` call fit their C types. */
  predicate EventOk(e: Event) {
    e.PrepLineCall? ==> PrepArgsOk(e.increments, e.dirs, e.ticks, e.ticksX)
  }

  /** An interrupt handler runs only while its interrupt is enabled; the
      calls can happen at any time. */
  predicate Enabled(m: Machine, e: Event) {
    match e
    case DdaInterrupt => m.timers.dda
    case LoadInterrupt => m.timers.load
    case ExecInterrupt(_) => m.timers.exec
    case _ => true
  }

  /** One event. */
  function Step(cfg: Config, m: Machine, e: Event): (r: Machine)
    requires ValidConfig(cfg) && Shaped(m) && EventOk(e)
    ensures Shaped(r) && (WellFormed(m) ==> WellFormed(r))
    ensures !Enabled(m, e) ==> r == m
  {
    if !Enabled(m, e) then m
    else
      match e
      case DdaInterrupt => Tick(m)
      case LoadInterrupt => LoadIsr(m)
      case ExecInterrupt(produced) => ExecIsr(m, produced)
      case ExecRequest => RequestExecMove(m)
      case PrepLineCall(increments, dirs, dur, ticks, ticksX) =>
        PrepLine(m, cfg, increments, dirs, dur, ticks, ticksX).0
      case PrepNullCall => PrepNull(m)
  }

  predicate TraceOk(t: seq<Event>) {
    forall k :: 0 <= k < |t| ==> EventOk(t[k])
  }

  /** A sequence of events, first to last. */
  function Run(cfg: Config, m: Machine, t: seq<Event>): (r: Machine)
    requires ValidConfig(cfg) && Shaped(m) && TraceOk(t)
    ensures Shaped(r) && (WellFormed(m) ==> WellFormed(r))
    decreases |t|
  {
    if t == [] then m else Run(cfg, Step(cfg, m, t[0]), t[1..])
  }

  // ----------------------------------------------------------- ownership

  /** The staging buffer changes hands in two places only: the exec stage
      gives it to the loader when the planner produced a move, and a load
      (from its own interrupt or from the end of a move) gives it back. */
  lemma OwnerChanges(cfg: Config, m: Machine, e: Event)
    requires ValidConfig(cfg) && Shaped(m) && EventOk(e)
    ensures var r := Step(cfg, m, e);
      && (m.sps.execState == OwnedByExec && r.sps.execState == OwnedByLoader <==>
            m.sps.execState == OwnedByExec && m.timers.exec && e == ExecInterrupt(true))
      && (m.sps.execState == OwnedByLoader && r.sps.execState == OwnedByExec ==>
            e == LoadInterrupt || (e == DdaInterrupt && m.timers.dda))
  {
    if Enabled(m, e) && e == DdaInterrupt {
      var m1 := TickMotors(m);
      assert m1.sps == m.sps;
    }
  }

  /** While the loader owns the buffer, nothing the exec stage or the planner
      does can change it, except `st_prep_null`, which does not check. */
  lemma FrozenWhileLoading(cfg: Config, m: Machine, e: Event)
    requires ValidConfig(cfg) && Shaped(m) && EventOk(e)
    requires m.sps.execState == OwnedByLoader && e != PrepNullCall
    requires Step(cfg, m, e).sps.execState == OwnedByLoader
    ensures Step(cfg, m, e).sps == m.sps
  {
    if Enabled(m, e) && e == DdaInterrupt {
      var m1 := TickMotors(m);
      assert m1.sps == m.sps;
    }
  }

  /** The owner stays the loader at every state along the trace. */
  predicate LoaderThroughout(cfg: Config, m: Machine, t: seq<Event>)
    requires ValidConfig(cfg) && Shaped(m) && TraceOk(t)
    decreases |t|
  {
    && m.sps.execState == OwnedByLoader
    && (t != [] ==> LoaderThroughout(cfg, Step(cfg, m, t[0]), t[1..]))
  }

  /** A trace without `st_prep_null`, all of whose states leave the buffer to
      the loader, leaves the staged move exactly as it was. */
  lemma {:induction false} FrozenAlongTrace(cfg: Config, m: Machine, t: seq<Event>)
    requires ValidConfig(cfg) && Shaped(m) && TraceOk(t)
    requires LoaderThroughout(cfg, m, t)
    requires forall k :: 0 <= k < |t| ==> t[k] != PrepNullCall
    ensures Run(cfg, m, t).sps == m.sps
    decreases |t|
  {
    if t != [] {
      var m1 := Step(cfg, m, t[0]);
      assert LoaderThroughout(cfg, m1, t[1..]);
      FrozenWhileLoading(cfg, m, t[0]);
      assert forall k :: 0 <= k < |t[1..]| ==> t[1..][k] == t[k + 1];
      FrozenAlongTrace(cfg, m1, t[1..]);
    }
  }

  // ------------------------------------------------------- timer and counter

  /** The state the pipeline keeps: every field fits its C type, the DDA
      timer runs exactly while the down-counter is nonzero, and a staged ALINE
      move has at least one tick. */
  predicate Safe(m: Machine) {
    && WellFormed(m)
    && (m.timers.dda <==> m.st.downcount != 0)
    && (m.sps.moveType == MoveAline ==> m.sps.ddaTicks > 0)
  }

  /** `st_prep_line` is only given durations of at least one DDA tick. */
  predicate PositiveTicks(e: Event) {
    e.PrepLineCall? ==> e.ticks > 0
  }

  lemma InitSafe(dir: seq<bool>, motionComplete: bool)
    requires |dir| == AXES
    ensures Safe(Init(dir, motionComplete))
  {
  }

  /** A load that passes both guards leaves the timer running exactly when
      the down-counter is nonzero. */
  lemma LoadKeepsSafe(m: Machine)
    requires Safe(m) && m.st.downcount == 0 && !m.timers.dda
    ensures Safe(LoadMove(m))
  {
    if m.sps.execState == OwnedByLoader && m.sps.moveType == MoveAline {
      Int32OfUint32Zero(m.sps.ddaTicks);
    }
  }

  lemma TickKeepsSafe(m: Machine)
    requires Safe(m) && m.timers.dda
    ensures Safe(Tick(m))
  {
    var m1 := TickMotors(m);
    if m1.st.downcount == 0 {
      LoadKeepsSafe(m1.(timers := m1.timers.(dda := false)));
    }
  }

  /** Every enabled handler and every call keeps the state safe, provided
      `st_prep_line` stages at least one tick. */
  lemma StepKeepsSafe(cfg: Config, m: Machine, e: Event)
    requires ValidConfig(cfg) && Safe(m) && EventOk(e) && PositiveTicks(e)
    ensures Safe(Step(cfg, m, e))
  {
    if Enabled(m, e) {
      match e
      case DdaInterrupt => TickKeepsSafe(m);
      case LoadInterrupt =>
        if m.st.downcount == 0 {
          LoadKeepsSafe(m.(timers := m.timers.(load := false)));
        }
      case ExecInterrupt(produced) =>
      case ExecRequest =>
      case PrepLineCall(increments, dirs, dur, ticks, ticksX) =>
      case PrepNullCall =>
    }
  }

  lemma {:induction false} RunKeepsSafe(cfg: Config, m: Machine, t: seq<Event>)
    requires ValidConfig(cfg) && Safe(m) && TraceOk(t)
    requires forall k :: 0 <= k < |t| ==> PositiveTicks(t[k])
    ensures Safe(Run(cfg, m, t))
    decreases |t|
  {
    if t != [] {
      StepKeepsSafe(cfg, m, t[0]);
      assert forall k :: 0 <= k < |t[1..]| ==> t[1..][k] == t[k + 1];
      RunKeepsSafe(cfg, Step(cfg, m, t[0]), t[1..]);
    }
  }

  /** In a safe state `st_isbusy` reports exactly whether the DDA timer runs,
      and a load request or a load arriving meanwhile changes nothing of the
      move in progress. */
  lemma BusyWhileRunning(m: Machine)
    requires Safe(m)
    ensures IsBusy(m) <==> m.timers.dda
    ensures m.timers.dda ==> LoadMove(m) == m && RequestLoadMove(m) == m
  {
  }

  // ------------------------------------------------------ a zero-tick move

  const ZeroCfg := Config(4, [0, 0])

  /** `st_prep_line` accepts a duration that converts to zero ticks: the
      loader then starts the DDA timer with the down-counter at zero, the
      next interrupt wraps it to -1 instead of ending the move. */
  lemma ZeroTickMove()
    ensures var m3 := ZeroTickLoaded(); m3.timers.dda && m3.st.downcount == 0
    ensures var m4 := Step(ZeroCfg, ZeroTickLoaded(), DdaInterrupt);
      m4.timers.dda && m4.st.downcount == -1
  {
    var m3 := ZeroTickLoaded();
    assert m3.timers.dda && m3.st.downcount == 0;
    var m := TickMotors(m3);
    assert m.st.downcount == -1;
  }

  /** The state after staging a zero-tick move from the initial state,
      requesting exec, handing the buffer over and taking the load interrupt. */
  function ZeroTickLoaded(): (r: Machine)
    ensures Shaped(r)
  {
    var m0 := Init([false, false], false);
    var m1 := Step(ZeroCfg, m0, PrepLineCall([0, 0], [0, 0], AtLeastEpsilon, 0, 0));
    var m2 := Step(ZeroCfg, Step(ZeroCfg, m1, ExecRequest), ExecInterrupt(true));
    Step(ZeroCfg, m2, LoadInterrupt)
  }
}

/** The stepper pipeline of stepper.c as values: the run record `st`, the
    prep (staging) record `sps`, the abstract outputs (step counters, the
    direction pins, the controller's motion-complete flag) and the enable
    bits of the three timers, with one function per handler. The class in
    module Stepper performs the same handlers in place and is proved to
    agree with these functions. */
module StepperSpec {
  import opened FixedWidth

  /** The source handles two motors, unrolled: Z first, then R. */
  const AXES: nat := 2
  const Z_AXIS: nat := 0
  const R_AXIS: nat := 1

  /** `exec_state`: the two-state ownership flag of the staging buffer. */
  datatype Owner = OwnedByLoader | OwnedByExec

  /** `move_type` as far as this file distinguishes it: the loader
      performs the transfer only for an ALINE move. */
  datatype MoveType = MoveNull | MoveAline

  /** The status codes `st_prep_line` returns. */
  datatype Status = StatOk | StatInternalError | StatMinimumLengthMoveError | StatMinimumTimeMoveError

  /** How `st_prep_line` classifies the float duration `microseconds`:
      not finite (infinite or NaN), finite but below EPSILON, or usable. */
  datatype Duration = NotFinite | BelowEpsilon | AtLeastEpsilon

  /** Compile-time constants of the firmware: ACCUMULATOR_RESET_FACTOR
      and the per-motor polarity constants XORed into a direction. */
  datatype Config = Config(resetFactor: nat, polarity: seq<bv8>)

  predicate ValidConfig(cfg: Config) { IsUint32(cfg.resetFactor) && |cfg.polarity| == AXES }

  /** One entry of `st.m`: both fields are int32_t. */
  datatype RunMotor = RunMotor(increment: int, accumulator: int)

  /** The run record `st`. */
  datatype RunRecord = RunRecord(downcount: int, ticksXSubsteps: int, m: seq<RunMotor>)

  /** One entry of `sps.m`: a uint32_t phase increment and an int8_t direction. */
  datatype PrepMotor = PrepMotor(increment: nat, dir: bv8)

  /** The prep record `sps`. */
  datatype PrepRecord = PrepRecord(
    moveType: MoveType,
    prepState: bool,
    execState: Owner,
    resetFlag: bool,
    prevTicks: nat,
    ddaTicks: nat,
    ticksXSubsteps: nat,
    m: seq<PrepMotor>)

  /** The abstract hardware and caller-visible outputs: `stepCount[]`,
      the level of each direction pin, and `mcState->motionComplete`. */
  datatype Outputs = Outputs(stepCount: seq<nat>, dir: seq<bool>, motionComplete: bool)

  /** Enable bits: the DDA timer (its clock select), and the timers used
      as software interrupts for the load and the exec stage. */
  datatype Timers = Timers(dda: bool, load: bool, exec: bool)

  datatype Machine = Machine(st: RunRecord, sps: PrepRecord, out: Outputs, timers: Timers)

  predicate RunMotorOk(mo: RunMotor) { IsInt32(mo.increment) && IsInt32(mo.accumulator) }

  predicate PrepMotorOk(mo: PrepMotor) { IsUint32(mo.increment) }

  /** Every per-motor table has one entry per motor. */
  predicate Shaped(m: Machine) {
    && |m.st.m| == AXES && |m.sps.m| == AXES
    && |m.out.stepCount| == AXES && |m.out.dir| == AXES
  }

  /** Shaped, and every field fits its C type. */
  predicate WellFormed(m: Machine) {
    && Shaped(m)
    && IsInt32(m.st.downcount) && IsInt32(m.st.ticksXSubsteps)
    && (forall i :: 0 <= i < AXES ==> RunMotorOk(m.st.m[i]))
    && IsUint32(m.sps.prevTicks) && IsUint32(m.sps.ddaTicks) && IsUint32(m.sps.ticksXSubsteps)
    && (forall i :: 0 <= i < AXES ==> PrepMotorOk(m.sps.m[i]))
    && (forall i :: 0 <= i < AXES ==> IsUint32(m.out.stepCount[i]))
  }

  /** The static records are zero-initialised; `st_init` then hands the
      staging buffer to the exec stage. `stepCount` starts at zero; the
      direction pins and the controller's flag are whatever they were. */
  function Init(dir: seq<bool>, motionComplete: bool): (r: Machine)
    requires |dir| == AXES
    ensures WellFormed(r)
    ensures r.sps.execState == OwnedByExec && r.st.downcount == 0
    ensures !r.timers.dda && !r.timers.load && !r.timers.exec
    ensures r.out == Outputs([0, 0], dir, motionComplete)
  {
    Machine(
      RunRecord(0, 0, [RunMotor(0, 0), RunMotor(0, 0)]),
      PrepRecord(MoveNull, false, OwnedByExec, false, 0, 0, 0, [PrepMotor(0, 0), PrepMotor(0, 0)]),
      Outputs([0, 0], dir, motionComplete),
      Timers(false, false, false))
  }

  /** `st_isbusy`. */
  function IsBusy(m: Machine): (busy: bool)
    ensures busy <==> m.st.downcount != 0
  {
    if m.st.downcount == 0 then false else true
  }

  // ---------------------------------------------------------------- run stage

  /** The accumulator after `phase_accumulator += phase_increment` in int32_t. */
  function Accumulated(mo: RunMotor): int { Int32(mo.accumulator + mo.increment) }

  /** The tick emits a pulse on this motor when the sum is positive. */
  predicate Pulses(mo: RunMotor) { Accumulated(mo) > 0 }

  /** One motor's share of a tick: accumulate, and on a pulse subtract the span. */
  function MotorTick(mo: RunMotor, ticksXSubsteps: int): RunMotor
  {
    var sum := Accumulated(mo);
    RunMotor(mo.increment, if sum > 0 then Int32(sum - ticksXSubsteps) else sum)
  }

  /** A pulse bumps the uint32_t step counter. */
  function CountPulse(mo: RunMotor, count: nat): nat
  {
    if Pulses(mo) then Uint32(count + 1) else count
  }

  /** What one motor's tick does: the increment is kept, the accumulator
      stays an int32_t, it only accumulates when no pulse is emitted, and on
      a pulse the span comes off the sum (exactly, when that fits 32 bits);
      the step counter moves exactly when a pulse is emitted and stays a
      uint32_t. Stated apart from the definitions so that the inductions
      over many ticks do not carry it. */
  lemma MotorTickEffect(mo: RunMotor, ticksXSubsteps: int, count: nat)
    ensures MotorTick(mo, ticksXSubsteps).increment == mo.increment
    ensures IsInt32(MotorTick(mo, ticksXSubsteps).accumulator)
    ensures !Pulses(mo) ==> MotorTick(mo, ticksXSubsteps).accumulator == Accumulated(mo)
    ensures Pulses(mo) && IsInt32(Accumulated(mo) - ticksXSubsteps) ==>
      MotorTick(mo, ticksXSubsteps).accumulator == Accumulated(mo) - ticksXSubsteps
    ensures CountPulse(mo, count) != count <==> Pulses(mo)
    ensures IsUint32(count) ==> IsUint32(CountPulse(mo, count))
  {
  }

  /** The run record and the step counters after one pass over the motors
      and the decrement of the down-counter. */
  function RunTick(st: RunRecord, counts: seq<nat>): (r: (RunRecord, seq<nat>))
    requires |st.m| == AXES && |counts| == AXES
    ensures |r.0.m| == AXES && |r.1| == AXES
    ensures r.0.downcount == Int32(st.downcount - 1) && r.0.ticksXSubsteps == st.ticksXSubsteps
  {
    var x := st.ticksXSubsteps;
    (st.(m := [MotorTick(st.m[Z_AXIS], x), MotorTick(st.m[R_AXIS], x)],
         downcount := Int32(st.downcount - 1)),
     [CountPulse(st.m[Z_AXIS], counts[Z_AXIS]), CountPulse(st.m[R_AXIS], counts[R_AXIS])])
  }

  /** The body of the DDA interrupt up to the test on the down-counter:
      both motors accumulate (pulsing when the sum is positive) and the
      down-counter drops by one. */
  function TickMotors(m: Machine): (r: Machine)
    requires Shaped(m)
    ensures Shaped(r) && (WellFormed(m) ==> WellFormed(r))
    ensures r.sps == m.sps && r.timers == m.timers
    ensures r.out.dir == m.out.dir && r.out.motionComplete == m.out.motionComplete
    ensures r.st.ticksXSubsteps == m.st.ticksXSubsteps
    ensures r.st.downcount == Int32(m.st.downcount - 1)
    ensures INT32_MIN < m.st.downcount <= INT32_MAX ==> r.st.downcount == m.st.downcount - 1
  {
    var r := RunTick(m.st, m.out.stepCount);
    m.(st := r.0, out := m.out.(stepCount := r.1))
  }

  /** Each motor's share of a tick, as the interrupt spells it out: the sum
      is formed in int32_t; when it is positive the span is subtracted and the
      uint32_t counter goes up by one, otherwise the sum is kept and the
      counter is left alone. The increment never changes. */
  lemma TickPerMotor(m: Machine, i: nat)
    requires Shaped(m) && i < AXES
    ensures var before, after := m.st.m[i], TickMotors(m).st.m[i];
      && after.increment == before.increment
      && (Int32(before.accumulator + before.increment) > 0 ==>
            && after.accumulator == Int32(Int32(before.accumulator + before.increment) - m.st.ticksXSubsteps)
            && TickMotors(m).out.stepCount[i] == Uint32(m.out.stepCount[i] + 1))
      && (Int32(before.accumulator + before.increment) <= 0 ==>
            && after.accumulator == Int32(before.accumulator + before.increment)
            && TickMotors(m).out.stepCount[i] == m.out.stepCount[i])
  {
  }

  /** The end of a move inside the DDA interrupt: the timer is switched off
      and the loader runs directly. */
  function EndMove(m: Machine): (r: Machine)
    requires Shaped(m)
    ensures Shaped(r) && (WellFormed(m) ==> WellFormed(r))
    ensures r.out.stepCount == m.out.stepCount
  {
    LoadMove(m.(timers := m.timers.(dda := false)))
  }

  /** `ISR(DDA_TIMER_ISR_vect)`: the motor updates, then, when the
      down-counter reaches zero, the end of the move. */
  function Tick(m: Machine): (r: Machine)
    requires Shaped(m)
    ensures Shaped(r) && (WellFormed(m) ==> WellFormed(r))
    ensures r.out.stepCount == TickMotors(m).out.stepCount
  {
    var m1 := TickMotors(m);
    if m1.st.downcount == 0 then EndMove(m1) else m1
  }

  /** The interrupt that brings the down-counter to zero ends the move: it
      is the loader run on the state the motor updates leave, with the DDA
      timer switched off, so the whole contract of `LoadMove` applies to it.
      In particular the staging buffer is back with the exec stage, the DDA
      timer runs on only if an ALINE move was waiting for the loader, the
      controller is told motion is complete when no move was waiting at all,
      and the counters take this interrupt's pulses as usual. */
  lemma TickEndsMove(m: Machine)
    requires Shaped(m) && Int32(m.st.downcount - 1) == 0
    ensures Tick(m).sps.execState == OwnedByExec
    ensures Tick(m).timers.dda <==> m.sps.execState == OwnedByLoader && m.sps.moveType == MoveAline
    ensures Tick(m).timers.exec <==> m.timers.exec || m.sps.execState == OwnedByLoader
    ensures Tick(m).out.motionComplete <==> m.out.motionComplete || m.sps.execState != OwnedByLoader
    ensures Tick(m).out.stepCount == TickMotors(m).out.stepCount
    ensures Tick(m) == LoadMove(TickMotors(m).(timers := TickMotors(m).timers.(dda := false)))
  {
  }

  // --------------------------------------------------------------- load stage

  /** `_request_load_move`: the load software interrupt is enabled only
      when the run stage is idle. */
  function RequestLoadMove(m: Machine): (r: Machine)
    ensures r.timers.load <==> m.timers.load || m.st.downcount == 0
    ensures r.(timers := m.timers) == m
    ensures r.timers.dda == m.timers.dda && r.timers.exec == m.timers.exec
  {
    if m.st.downcount == 0 then m.(timers := m.timers.(load := true)) else m
  }

  /** One motor's transfer: the increment is copied; with the reset flag the
      accumulator is re-centred at minus the new down-count. */
  function LoadMotor(run: RunMotor, prep: PrepMotor, resetFlag: bool, downcount: int): RunMotor
  {
    RunMotor(Int32(prep.increment), if resetFlag then Int32(-downcount) else run.accumulator)
  }

  /** The direction pin is written only for a motor whose new increment is nonzero. */
  function LoadDir(pin: bool, newIncrement: int, prep: PrepMotor): bool
  {
    if newIncrement != 0 then prep.dir != 0 else pin
  }

  /** What loading one motor does: the staged uint32_t increment becomes an
      int32_t and is zero exactly when the staged one is; the accumulator is
      kept, or with the reset flag set to minus the new down-counter; the
      direction pin is kept for an idle motor and otherwise follows the
      staged direction. */
  lemma LoadMotorEffect(run: RunMotor, prep: PrepMotor, resetFlag: bool, downcount: int, pin: bool)
    ensures IsInt32(LoadMotor(run, prep, resetFlag, downcount).increment)
    ensures PrepMotorOk(prep) ==>
      (LoadMotor(run, prep, resetFlag, downcount).increment == 0 <==> prep.increment == 0)
    ensures !resetFlag ==> LoadMotor(run, prep, resetFlag, downcount).accumulator == run.accumulator
    ensures resetFlag && IsInt32(-downcount) ==>
      LoadMotor(run, prep, resetFlag, downcount).accumulator == -downcount
    ensures LoadDir(pin, LoadMotor(run, prep, resetFlag, downcount).increment, prep) ==
      if prep.increment % TWO32 == 0 then pin else prep.dir != 0
  {
  }

  /** The ALINE branch of `_load_move`: arm the down-counter and the span,
      transfer both motors, and start the DDA timer. */
  function LoadAline(m: Machine): (r: Machine)
    requires Shaped(m)
    ensures Shaped(r) && r.sps == m.sps && r.timers == m.timers.(dda := true)
    ensures r.out.stepCount == m.out.stepCount && r.out.motionComplete == m.out.motionComplete
    ensures r.st.downcount == Int32(m.sps.ddaTicks) && r.st.ticksXSubsteps == Int32(m.sps.ticksXSubsteps)
    ensures forall i :: 0 <= i < AXES ==>
      && r.st.m[i] == LoadMotor(m.st.m[i], m.sps.m[i], m.sps.resetFlag, r.st.downcount)
      && r.out.dir[i] == LoadDir(m.out.dir[i], r.st.m[i].increment, m.sps.m[i])
  {
    var d := Int32(m.sps.ddaTicks);
    var z := LoadMotor(m.st.m[Z_AXIS], m.sps.m[Z_AXIS], m.sps.resetFlag, d);
    var rr := LoadMotor(m.st.m[R_AXIS], m.sps.m[R_AXIS], m.sps.resetFlag, d);
    m.(st := RunRecord(d, Int32(m.sps.ticksXSubsteps), [z, rr]),
       out := m.out.(dir := [LoadDir(m.out.dir[Z_AXIS], z.increment, m.sps.m[Z_AXIS]),
                             LoadDir(m.out.dir[R_AXIS], rr.increment, m.sps.m[R_AXIS])]),
       timers := m.timers.(dda := true))
  }

  /** `_load_move`. */
  function LoadMove(m: Machine): (r: Machine)
    requires Shaped(m)
    ensures Shaped(r) && (WellFormed(m) ==> WellFormed(r))
    // guard 1: the run stage is still busy
    ensures m.st.downcount != 0 ==> r == m
    // guard 2: no prepared move; only the controller is told
    ensures m.st.downcount == 0 && m.sps.execState != OwnedByLoader ==>
      r == m.(out := m.out.(motionComplete := true))
    // past both guards: the buffer goes back to exec and exec is requested
    ensures m.st.downcount == 0 && m.sps.execState == OwnedByLoader ==>
      && r.sps == m.sps.(execState := OwnedByExec, prepState := false)
      && r.timers.exec && r.timers.load == m.timers.load
      && r.out.stepCount == m.out.stepCount && r.out.motionComplete == m.out.motionComplete
    // a NULL move changes nothing of the run stage
    ensures m.st.downcount == 0 && m.sps.execState == OwnedByLoader && m.sps.moveType == MoveNull ==>
      r.st == m.st && r.out == m.out && r.timers.dda == m.timers.dda
    // an ALINE move is transferred and the DDA timer started
    ensures m.st.downcount == 0 && m.sps.execState == OwnedByLoader && m.sps.moveType == MoveAline ==>
      && r.timers.dda
      && r.st.downcount == Int32(m.sps.ddaTicks)
      && r.st.ticksXSubsteps == Int32(m.sps.ticksXSubsteps)
      && forall i :: 0 <= i < AXES ==>
           && r.st.m[i].increment == Int32(m.sps.m[i].increment)
           && r.st.m[i].accumulator ==
                (if m.sps.resetFlag then Int32(-r.st.downcount) else m.st.m[i].accumulator)
           && r.out.dir[i] == (if r.st.m[i].increment != 0 then m.sps.m[i].dir != 0 else m.out.dir[i])
  {
    if m.st.downcount != 0 then m
    else if m.sps.execState != OwnedByLoader then m.(out := m.out.(motionComplete := true))
    else
      var m1 := if m.sps.moveType == MoveAline then LoadAline(m) else m;
      RequestExecMove(m1.(sps := m1.sps.(execState := OwnedByExec, prepState := false)))
  }

  /** `ISR(LOAD_TIMER_ISR_vect)`: disable the software interrupt, then load. */
  function LoadIsr(m: Machine): (r: Machine)
    requires Shaped(m)
    ensures Shaped(r) && (WellFormed(m) ==> WellFormed(r))
    ensures !r.timers.load
    ensures r.(timers := r.timers.(load := m.timers.load)) == LoadMove(m)
  {
    LoadMove(m.(timers := m.timers.(load := false)))
  }

  // --------------------------------------------------------------- exec stage

  /** `st_request_exec_move`: the exec software interrupt is enabled only
      while the exec stage owns the staging buffer. */
  function RequestExecMove(m: Machine): (r: Machine)
    ensures r.timers.exec <==> m.timers.exec || m.sps.execState == OwnedByExec
    ensures r.(timers := m.timers) == m
    ensures r.timers.dda == m.timers.dda && r.timers.load == m.timers.load
  {
    if m.sps.execState == OwnedByExec then m.(timers := m.timers.(exec := true)) else m
  }

  /** `_exec_move`, with the planner's answer as `produced`
      (`mp_exec_move() != STAT_NOOP`). */
  function ExecMove(m: Machine, produced: bool): (r: Machine)
    ensures m.sps.execState != OwnedByExec || !produced ==> r == m
    ensures m.sps.execState == OwnedByExec && produced ==>
      && r.sps == m.sps.(execState := OwnedByLoader)
      && r.st == m.st && r.out == m.out
      && r.timers == m.timers.(load := m.timers.load || m.st.downcount == 0)
  {
    if m.sps.execState == OwnedByExec && produced then
      RequestLoadMove(m.(sps := m.sps.(execState := OwnedByLoader)))
    else m
  }

  /** `ISR(EXEC_TIMER_ISR_vect)`: disable the software interrupt, then exec. */
  function ExecIsr(m: Machine, produced: bool): (r: Machine)
    ensures !r.timers.exec
    ensures r.(timers := r.timers.(exec := m.timers.exec)) == ExecMove(m, produced)
  {
    ExecMove(m.(timers := m.timers.(exec := false)), produced)
  }

  // --------------------------------------------------------------------- prep

  /** The arguments of `st_prep_line` after its float conversions: per-motor
      `(uint32_t)fabs(steps[i] * dda_substeps)`, the direction bytes, the
      classification of `microseconds`, `dda_ticks` and
      `dda_ticks_X_substeps` as the float expressions leave them. */
  predicate PrepArgsOk(increments: seq<nat>, dirs: seq<bv8>, ticks: nat, ticksX: nat) {
    && |increments| == AXES && |dirs| == AXES
    && (forall i :: 0 <= i < AXES ==> IsUint32(increments[i]))
    && IsUint32(ticks) && IsUint32(ticksX)
  }

  /** The anti-stall test, evaluated in uint32_t. */
  predicate ResetNeeded(cfg: Config, ticks: nat, prevTicks: nat): (r: bool)
    ensures IsUint32(ticks * cfg.resetFactor) ==> (r <==> ticks * cfg.resetFactor < prevTicks)
    ensures prevTicks == 0 ==> !r
  {
    Uint32(ticks * cfg.resetFactor) < prevTicks
  }

  /** `directions[i] ^ POLARITY`: the direction byte the loader tests against zero. */
  function MotorDir(direction: bv8, polarity: bv8): (r: bv8)
    ensures r ^ polarity == direction
    ensures polarity == 0 ==> r == direction
  {
    direction ^ polarity
  }

  /** The staging buffer as a successful `st_prep_line` leaves it. */
  function StagedLine(sps: PrepRecord, cfg: Config, increments: seq<nat>, dirs: seq<bv8>,
                      ticks: nat, ticksX: nat): (r: PrepRecord)
    requires ValidConfig(cfg) && PrepArgsOk(increments, dirs, ticks, ticksX)
    ensures |r.m| == AXES && forall i :: 0 <= i < AXES ==> PrepMotorOk(r.m[i])
    ensures r.resetFlag <==> Uint32(ticks * cfg.resetFactor) < sps.prevTicks
    ensures r.prevTicks == ticks && r.ddaTicks == ticks && r.ticksXSubsteps == ticksX
    ensures forall i :: 0 <= i < AXES ==> r.m[i] == PrepMotor(increments[i], MotorDir(dirs[i], cfg.polarity[i]))
    ensures r.moveType == MoveAline && r.prepState && r.execState == sps.execState
  {
    var motors := [PrepMotor(increments[Z_AXIS], MotorDir(dirs[Z_AXIS], cfg.polarity[Z_AXIS])),
                   PrepMotor(increments[R_AXIS], MotorDir(dirs[R_AXIS], cfg.polarity[R_AXIS]))];
    sps.(resetFlag := ResetNeeded(cfg, ticks, sps.prevTicks),
         m := motors, ddaTicks := ticks, ticksXSubsteps := ticksX,
         prevTicks := ticks, moveType := MoveAline, prepState := true)
  }

  /** `st_prep_line`. */
  function PrepLine(m: Machine, cfg: Config, increments: seq<nat>, dirs: seq<bv8>,
                    dur: Duration, ticks: nat, ticksX: nat): (r: (Machine, Status))
    requires Shaped(m) && ValidConfig(cfg) && PrepArgsOk(increments, dirs, ticks, ticksX)
    ensures Shaped(r.0) && (WellFormed(m) ==> WellFormed(r.0))
    ensures r.0.st == m.st && r.0.out == m.out && r.0.timers == m.timers
    // the three rejections leave the staging buffer untouched
    ensures m.sps.execState != OwnedByExec ==> r == (m, StatInternalError)
    ensures m.sps.execState == OwnedByExec && dur == NotFinite ==> r == (m, StatMinimumLengthMoveError)
    ensures m.sps.execState == OwnedByExec && dur == BelowEpsilon ==> r == (m, StatMinimumTimeMoveError)
    ensures r.1 == StatOk <==> m.sps.execState == OwnedByExec && dur == AtLeastEpsilon
    ensures r.1 == StatOk ==>
      && (r.0.sps.resetFlag <==> Uint32(ticks * cfg.resetFactor) < m.sps.prevTicks)
      && r.0.sps.prevTicks == ticks && r.0.sps.ddaTicks == ticks
      && r.0.sps.ticksXSubsteps == ticksX
      && (forall i :: 0 <= i < AXES ==> r.0.sps.m[i] == PrepMotor(increments[i], MotorDir(dirs[i], cfg.polarity[i])))
      && r.0.sps.moveType == MoveAline && r.0.sps.prepState
      && r.0.sps.execState == OwnedByExec
  {
    if m.sps.execState != OwnedByExec then (m, StatInternalError)
    else if dur == NotFinite then (m, StatMinimumLengthMoveError)
    else if dur == BelowEpsilon then (m, StatMinimumTimeMoveError)
    else
      assert dur == AtLeastEpsilon;
      (m.(sps := StagedLine(m.sps, cfg, increments, dirs, ticks, ticksX)), StatOk)
  }

  /** `st_prep_null`: marks a NULL move ready, whoever owns the buffer. */
  function PrepNull(m: Machine): (r: Machine)
    ensures r.sps == m.sps.(moveType := MoveNull, prepState := true)
    ensures r.st == m.st && r.out == m.out && r.timers == m.timers
  {
    m.(sps := m.sps.(moveType := MoveNull, prepState := true))
  }
}

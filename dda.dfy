/** The rate accumulator of one motor over many DDA ticks. Between loads a
    motor's increment and the span `dda_ticks_X_substeps` are fixed, so the
    run stage is the same per-motor step repeated once per tick. */
module Dda {
  import opened FixedWidth
  import opened StepperSpec

  /** One motor after `n` ticks with span `x`, and the number of pulses it emitted. */
  function RepeatTicks(mo: RunMotor, x: int, n: nat): (r: (RunMotor, nat))
    ensures r.0.increment == mo.increment
    ensures r.1 <= n
    decreases n
  {
    if n == 0 then (mo, 0)
    else
      var before := RepeatTicks(mo, x, n - 1);
      (MotorTick(before.0, x), before.1 + (if Pulses(before.0) then 1 else 0))
  }

  /** The accumulator stays in (-x, 0] when increments never exceed the span. */
  predicate InBand(mo: RunMotor, x: int) {
    0 <= mo.increment <= x <= INT32_MAX && -x < mo.accumulator <= 0
  }

  /** Inside the band one tick never wraps: the sum pulses exactly when it is
      positive, and the span brings it back into the band. */
  lemma StepInBand(mo: RunMotor, x: int)
    requires InBand(mo, x)
    ensures Pulses(mo) <==> mo.accumulator + mo.increment > 0
    ensures InBand(MotorTick(mo, x), x)
    ensures MotorTick(mo, x).accumulator ==
      mo.accumulator + mo.increment - (if Pulses(mo) then x else 0)
  {
    assert Accumulated(mo) == mo.accumulator + mo.increment;
  }

  /** Over `n` ticks in the band, the pulses times the span account exactly
      for the phase that was added: every pulse removes one span, and what is
      left stays in (-x, 0]. */
  lemma {:induction false} RepeatInBand(mo: RunMotor, x: int, n: nat)
    requires InBand(mo, x)
    ensures var r := RepeatTicks(mo, x, n);
      && InBand(r.0, x)
      && r.1 * x == mo.accumulator + n * mo.increment - r.0.accumulator
    decreases n
  {
    if n > 0 {
      RepeatInBand(mo, x, n - 1);
      var before := RepeatTicks(mo, x, n - 1);
      StepInBand(before.0, x);
      AccountStep(before.1, x, mo.accumulator, mo.increment, before.0.accumulator, n,
                  MotorTick(before.0, x).accumulator, Pulses(before.0));
    }
  }

  /** The bookkeeping of one more tick after `n - 1` others. */
  lemma AccountStep(p: int, x: int, a0: int, inc: int, a1: int, n: nat, a2: int, pulse: bool)
    requires n >= 1 && p * x == a0 + (n - 1) * inc - a1
    requires a2 == a1 + inc - (if pulse then x else 0)
    ensures (p + (if pulse then 1 else 0)) * x == a0 + n * inc - a2
  {
    assert n * inc == (n - 1) * inc + inc;
    if pulse {
      assert (p + 1) * x == p * x + x;
    }
  }

  /** The pulse count over `n` ticks in the band is the whole number of spans
      the added phase covers, rounded up. */
  lemma PulsesAreCeiling(mo: RunMotor, x: int, n: nat)
    requires InBand(mo, x) && x > 0
    ensures RepeatTicks(mo, x, n).1 == (mo.accumulator + n * mo.increment + x - 1) / x
  {
    var r := RepeatTicks(mo, x, n);
    RepeatInBand(mo, x, n);
    CeilingOfBand(mo.accumulator + n * mo.increment, x, r.1, r.0.accumulator);
  }

  lemma CeilingOfBand(total: int, x: int, p: int, acc: int)
    requires x > 0 && -x < acc <= 0 && p * x == total - acc
    ensures p == (total + x - 1) / x
  {
    DivUnique(total + x - 1, x, p, x - 1 + acc);
  }

  lemma {:induction false} MulAtLeast(k: int, x: int)
    requires k >= 1 && x >= 0
    ensures k * x >= x
    decreases k
  {
    if k > 1 {
      MulAtLeast(k - 1, x);
      assert k * x == (k - 1) * x + x;
    }
  }

  /** The only multiple of a positive `x` strictly between `-x` and `x` is zero. */
  lemma MultipleInBand(k: int, x: int)
    requires x > 0 && -x < k * x < x
    ensures k == 0
  {
    if k >= 1 {
      MulAtLeast(k, x);
    } else if k <= -1 {
      MulAtLeast(-k, x);
    }
  }

  lemma DivUnique(a: int, b: int, q: int, rem: int)
    requires b > 0 && a == q * b + rem && 0 <= rem < b
    ensures a / b == q
  {
    var q', rem' := a / b, a % b;
    assert a == q' * b + rem' && 0 <= rem' < b;
    assert (q - q') * b == q * b - q' * b;
    MultipleInBand(q - q', b);
  }

  /** Products the reset lemma needs, kept away from the recursion. */
  lemma ResetArith(steps: nat, ticks: nat, substeps: nat, x: int, inc: int)
    requires 1 <= ticks && 2 <= substeps && steps <= ticks
    requires x == ticks * substeps && inc == steps * substeps
    ensures 0 <= inc <= x && -x < -(ticks as int)
    ensures ticks * inc == steps * x
  {
    assert x - inc == (ticks - steps) * substeps;
    assert x - ticks == ticks * (substeps - 1);
    MulAtLeast(substeps - 1, ticks);
  }

  /** `p * x == steps * x - ticks - acc` with `acc` in (-x, 0] and `ticks`
      in [1, x) leaves `p == steps`. */
  lemma PulsesOfReset(steps: nat, ticks: nat, x: int, inc: int, p: int, acc: int)
    requires 1 <= ticks < x && -x < acc <= 0
    requires ticks * inc == steps * x
    requires p * x == -(ticks as int) + ticks * inc - acc
    ensures p == steps
  {
    assert (p - steps) * x == p * x - steps * x;
    MultipleInBand(p - steps, x);
  }

  /** A move loaded with the reset flag: the down-counter is `ticks`, the
      accumulator starts at `-ticks`, the increment is `steps * substeps` and
      the span is `ticks * substeps`. With at least two substeps and no more
      steps than ticks, the motor emits exactly `steps` pulses by the time the
      down-counter reaches zero. */
  lemma ResetMoveEmitsSteps(steps: nat, ticks: nat, substeps: nat)
    requires 1 <= ticks && 2 <= substeps && steps <= ticks
    requires ticks * substeps <= INT32_MAX
    ensures RepeatTicks(RunMotor(steps * substeps, -(ticks as int)), ticks * substeps, ticks).1 == steps
  {
    var x := ticks * substeps;
    var inc := steps * substeps;
    ResetArith(steps, ticks, substeps, x, inc);
    var mo := RunMotor(inc, -(ticks as int));
    RepeatInBand(mo, x, ticks);
    var r := RepeatTicks(mo, x, ticks);
    PulsesOfReset(steps, ticks, x, inc, r.1, r.0.accumulator);
  }

  // ------------------------------------------------- the run stage of a machine

  /** `n` DDA interrupts in a row. */
  function TickN(m: Machine, n: nat): (r: Machine)
    requires Shaped(m)
    ensures Shaped(r)
    decreases n
  {
    if n == 0 then m else Tick(TickN(m, n - 1))
  }

  /** The run record and the counters after `n` passes, ignoring the end of the move. */
  function RunTicks(st: RunRecord, counts: seq<nat>, n: nat): (r: (RunRecord, seq<nat>))
    requires |st.m| == AXES && |counts| == AXES
    ensures |r.0.m| == AXES && |r.1| == AXES
    decreases n
  {
    if n == 0 then (st, counts)
    else
      var before := RunTicks(st, counts, n - 1);
      RunTick(before.0, before.1)
  }

  lemma ModUnique(a: int, b: int, q: int, rem: int)
    requires b > 0 && a == q * b + rem && 0 <= rem < b
    ensures a % b == rem
  {
    DivUnique(a, b, q, rem);
  }

  /** Adding to a uint32_t in two steps wraps like adding at once. */
  lemma Uint32Add(a: int, b: int)
    ensures Uint32(Uint32(a) + b) == Uint32(a + b)
  {
    var q, y := a / TWO32, a + b;
    assert Uint32(a) + b == (y / TWO32 - q) * TWO32 + y % TWO32;
    ModUnique(Uint32(a) + b, TWO32, y / TWO32 - q, y % TWO32);
  }

  /** One pass seen from one motor: its state ticks once and its counter
      takes the pulse, if any, modulo 2^32. */
  lemma PassOnMotor(b: (RunRecord, seq<nat>), i: nat, mo: RunMotor, c: nat, p: nat)
    requires |b.0.m| == AXES && |b.1| == AXES && i < AXES
    requires b.0.m[i] == mo && b.1[i] == Uint32(c + p)
    ensures RunTick(b.0, b.1).0.ticksXSubsteps == b.0.ticksXSubsteps
    ensures RunTick(b.0, b.1).0.m[i] == MotorTick(mo, b.0.ticksXSubsteps)
    ensures RunTick(b.0, b.1).1[i] == Uint32(c + p + (if Pulses(mo) then 1 else 0))
  {
    if Pulses(mo) {
      Uint32Add(c + p, 1);
    }
  }

  /** Over `n` passes each motor is `n` repetitions of its own tick, and its
      counter grows (modulo 2^32) by the pulses those repetitions emit. */
  lemma {:induction false} RunTicksPerMotor(st: RunRecord, counts: seq<nat>, n: nat, i: nat)
    requires |st.m| == AXES && |counts| == AXES && i < AXES && IsUint32(counts[i])
    ensures RunTicks(st, counts, n).0.ticksXSubsteps == st.ticksXSubsteps
    ensures RunTicks(st, counts, n).0.m[i] == RepeatTicks(st.m[i], st.ticksXSubsteps, n).0
    ensures RunTicks(st, counts, n).1[i] == Uint32(counts[i] + RepeatTicks(st.m[i], st.ticksXSubsteps, n).1)
    decreases n
  {
    if n > 0 {
      var x := st.ticksXSubsteps;
      var rep := RepeatTicks(st.m[i], x, n - 1);
      RunTicksPerMotor(st, counts, n - 1, i);
      PassOnMotor(RunTicks(st, counts, n - 1), i, rep.0, counts[i], rep.1);
      RunTicksStep(st, counts, n);
      RepeatTicksStep(st.m[i], x, n);
    }
  }

  /** While the down-counter stays positive, each pass takes exactly one off it. */
  lemma {:induction false} RunTicksCountDown(st: RunRecord, counts: seq<nat>, n: nat)
    requires |st.m| == AXES && |counts| == AXES && n <= st.downcount <= INT32_MAX
    ensures RunTicks(st, counts, n).0.downcount == st.downcount - n
    decreases n
  {
    if n > 0 {
      RunTicksCountDown(st, counts, n - 1);
    }
  }

  /** An interrupt that does not end the move is one pass over the run
      record and the counters, whatever the down-counter held before
      (including a counter that has wrapped below zero). */
  lemma TickPass(m: Machine)
    requires Shaped(m) && Int32(m.st.downcount - 1) != 0
    ensures Tick(m).st == RunTick(m.st, m.out.stepCount).0
    ensures Tick(m).out.stepCount == RunTick(m.st, m.out.stepCount).1
    ensures Tick(m).sps == m.sps && Tick(m).timers == m.timers
    ensures Tick(m).out.dir == m.out.dir && Tick(m).out.motionComplete == m.out.motionComplete
  {
    assert Tick(m) == TickMotors(m);
  }

  /** Every interrupt, the one that ends the move included, counts its
      pulses as one pass does: the loader it may run leaves the counters alone. */
  lemma TickCounts(m: Machine)
    requires Shaped(m)
    ensures Tick(m).out.stepCount == RunTick(m.st, m.out.stepCount).1
  {
    assert TickMotors(m).out.stepCount == RunTick(m.st, m.out.stepCount).1;
  }

  /** After `n` interrupts of a move that has not ended, the machine is what
      the passes make of it: the run record and the counters follow the
      passes, and the staging buffer and the timers are left alone. */
  ghost predicate PassesAgree(m: Machine, n: nat)
    requires Shaped(m)
  {
    && TickN(m, n).st == RunTicks(m.st, m.out.stepCount, n).0
    && TickN(m, n).out.stepCount == RunTicks(m.st, m.out.stepCount, n).1
    && TickN(m, n).sps == m.sps && TickN(m, n).timers == m.timers
  }

  /** Before the down-counter reaches zero the interrupts only run the passes. */
  lemma TicksWithinMove(m: Machine, n: nat)
    requires Shaped(m) && n < m.st.downcount <= INT32_MAX
    ensures TickN(m, n).st == RunTicks(m.st, m.out.stepCount, n).0
    ensures TickN(m, n).out.stepCount == RunTicks(m.st, m.out.stepCount, n).1
    ensures TickN(m, n).sps == m.sps && TickN(m, n).timers == m.timers
  {
    PassesAgreeWithinMove(m, n);
  }

  /** `TicksWithinMove` by induction on the number of interrupts. */
  lemma {:induction false} PassesAgreeWithinMove(m: Machine, n: nat)
    requires Shaped(m) && n < m.st.downcount <= INT32_MAX
    ensures PassesAgree(m, n)
    decreases n
  {
    if n > 0 {
      PassesAgreeWithinMove(m, n - 1);
      RunTicksCountDown(m.st, m.out.stepCount, n - 1);
      ExtendWithinMove(m, n);
    }
  }

  /** The induction step: one more interrupt that does not end the move is
      one more pass. */
  lemma ExtendWithinMove(m: Machine, n: nat)
    requires Shaped(m) && 1 <= n && PassesAgree(m, n - 1)
    requires 1 < RunTicks(m.st, m.out.stepCount, n - 1).0.downcount <= INT32_MAX
    ensures PassesAgree(m, n)
  {
    var prev, run := TickN(m, n - 1), RunTicks(m.st, m.out.stepCount, n - 1);
    TickPass(prev);
    ChainPass(m, n, prev, run);
  }

  /** One more interrupt on both sides of the equations of `TicksWithinMove`. */
  lemma ChainPass(m: Machine, n: nat, prev: Machine, run: (RunRecord, seq<nat>))
    requires Shaped(m) && 1 <= n
    requires prev == TickN(m, n - 1) && run == RunTicks(m.st, m.out.stepCount, n - 1)
    requires Tick(prev).st == RunTick(run.0, run.1).0
    requires Tick(prev).out.stepCount == RunTick(run.0, run.1).1
    requires Tick(prev).sps == m.sps && Tick(prev).timers == m.timers
    ensures TickN(m, n).st == RunTicks(m.st, m.out.stepCount, n).0
    ensures TickN(m, n).out.stepCount == RunTicks(m.st, m.out.stepCount, n).1
    ensures TickN(m, n).sps == m.sps && TickN(m, n).timers == m.timers
  {
    TickNStep(m, n);
    RunTicksStep(m.st, m.out.stepCount, n);
  }

  /** Up to and including the interrupt that ends the move and runs the
      loader, the counters are what the passes make of them. */
  lemma MoveCounts(m: Machine, n: nat)
    requires Shaped(m) && 1 <= n <= m.st.downcount <= INT32_MAX
    ensures TickN(m, n).out.stepCount == RunTicks(m.st, m.out.stepCount, n).1
  {
    var prev, run := TickN(m, n - 1), RunTicks(m.st, m.out.stepCount, n - 1);
    assert prev.st == run.0 && prev.out.stepCount == run.1 by {
      TicksWithinMove(m, n - 1);
    }
    TickCounts(prev);
    ChainLast(m, n, prev, run);
  }

  /** One more interrupt on both sides of an equation between the counters. */
  lemma ChainLast(m: Machine, d: nat, prev: Machine, run: (RunRecord, seq<nat>))
    requires Shaped(m) && 1 <= d
    requires prev == TickN(m, d - 1) && run == RunTicks(m.st, m.out.stepCount, d - 1)
    requires Tick(prev).out.stepCount == RunTick(run.0, run.1).1
    ensures TickN(m, d).out.stepCount == RunTicks(m.st, m.out.stepCount, d).1
  {
    TickNStep(m, d);
    RunTicksStep(m.st, m.out.stepCount, d);
  }

  /** Unfolding `TickN` once, stated apart from any knowledge of the down-counter. */
  lemma TickNStep(m: Machine, n: nat)
    requires Shaped(m) && 1 <= n
    ensures TickN(m, n) == Tick(TickN(m, n - 1))
  {
  }

  /** Unfolding `RepeatTicks` once. */
  lemma RepeatTicksStep(mo: RunMotor, x: int, n: nat)
    requires 1 <= n
    ensures RepeatTicks(mo, x, n).0 == MotorTick(RepeatTicks(mo, x, n - 1).0, x)
    ensures RepeatTicks(mo, x, n).1 ==
      RepeatTicks(mo, x, n - 1).1 + (if Pulses(RepeatTicks(mo, x, n - 1).0) then 1 else 0)
  {
  }

  /** Unfolding `RunTicks` once. */
  lemma RunTicksStep(st: RunRecord, counts: seq<nat>, n: nat)
    requires |st.m| == AXES && |counts| == AXES && 1 <= n
    ensures RunTicks(st, counts, n) == RunTick(RunTicks(st, counts, n - 1).0, RunTicks(st, counts, n - 1).1)
  {
  }

  /** A move loaded with the reset flag, run to its end: a motor whose
      increment is `steps * substeps` over a span of `ticks * substeps`
      gains exactly `steps` counted pulses (modulo 2^32). */
  lemma ResetMoveCounts(m: Machine, steps: seq<nat>, ticks: nat, substeps: nat)
    requires WellFormed(m) && |steps| == AXES
    requires 1 <= ticks && 2 <= substeps && ticks * substeps <= INT32_MAX
    requires m.st.downcount == ticks && m.st.ticksXSubsteps == ticks * substeps
    requires forall i :: 0 <= i < AXES ==>
      steps[i] <= ticks && m.st.m[i] == RunMotor(steps[i] * substeps, -(ticks as int))
    ensures forall i :: 0 <= i < AXES ==>
      TickN(m, ticks).out.stepCount[i] == Uint32(m.out.stepCount[i] + steps[i])
  {
    MoveCounts(m, ticks);
    forall i | 0 <= i < AXES
      ensures TickN(m, ticks).out.stepCount[i] == Uint32(m.out.stepCount[i] + steps[i])
    {
      ResetMoveEmitsSteps(steps[i], ticks, substeps);
      RunTicksPerMotor(m.st, m.out.stepCount, ticks, i);
    }
  }

  /** The increment and the span of a reset move fit an int32_t. */
  lemma FitsSpan(steps: nat, ticks: nat, substeps: nat)
    requires steps <= ticks && 2 <= substeps && ticks * substeps <= INT32_MAX
    ensures steps * substeps <= ticks * substeps && ticks <= INT32_MAX
  {
    assert ticks * substeps - steps * substeps == (ticks - steps) * substeps;
    MulAtLeast(substeps, ticks);
  }

  /** A reset load of such a move arms exactly the run record the reset
      lemma starts from. */
  lemma ResetLoad(m: Machine, steps: seq<nat>, substeps: nat)
    requires WellFormed(m) && |steps| == AXES
    requires m.st.downcount == 0 && m.sps.execState == OwnedByLoader
    requires m.sps.moveType == MoveAline && m.sps.resetFlag
    requires 1 <= m.sps.ddaTicks && 2 <= substeps && m.sps.ddaTicks * substeps <= INT32_MAX
    requires m.sps.ticksXSubsteps == m.sps.ddaTicks * substeps
    requires forall i :: 0 <= i < AXES ==>
      steps[i] <= m.sps.ddaTicks && m.sps.m[i].increment == steps[i] * substeps
    ensures WellFormed(LoadMove(m)) && LoadMove(m).out.stepCount == m.out.stepCount
    ensures LoadMove(m).st.downcount == m.sps.ddaTicks
    ensures LoadMove(m).st.ticksXSubsteps == m.sps.ddaTicks * substeps
    ensures forall i :: 0 <= i < AXES ==>
      LoadMove(m).st.m[i] == RunMotor(steps[i] * substeps, -(m.sps.ddaTicks as int))
  {
    forall i | 0 <= i < AXES
      ensures LoadMove(m).st.m[i] == RunMotor(steps[i] * substeps, -(m.sps.ddaTicks as int))
    {
      FitsSpan(steps[i], m.sps.ddaTicks, substeps);
    }
  }

  /** From the staging buffer to the step counters: an ALINE move staged with
      the reset flag, `ticks` ticks, the span `ticks * substeps` and per-motor
      increments `steps[i] * substeps`, once loaded and run for its `ticks`
      interrupts, has added exactly `steps[i]` to each motor's counter. */
  lemma LoadedResetMoveCounts(m: Machine, steps: seq<nat>, substeps: nat)
    requires WellFormed(m) && |steps| == AXES
    requires m.st.downcount == 0 && m.sps.execState == OwnedByLoader
    requires m.sps.moveType == MoveAline && m.sps.resetFlag
    requires 1 <= m.sps.ddaTicks && 2 <= substeps && m.sps.ddaTicks * substeps <= INT32_MAX
    requires m.sps.ticksXSubsteps == m.sps.ddaTicks * substeps
    requires forall i :: 0 <= i < AXES ==>
      steps[i] <= m.sps.ddaTicks && m.sps.m[i].increment == steps[i] * substeps
    ensures forall i :: 0 <= i < AXES ==>
      TickN(LoadMove(m), m.sps.ddaTicks).out.stepCount[i] == Uint32(m.out.stepCount[i] + steps[i])
  {
    ResetLoad(m, steps, substeps);
    ResetMoveCounts(LoadMove(m), steps, m.sps.ddaTicks, substeps);
  }
}

/** The static state of stepper.c and its handlers, updated in place.
    The object's fields are the two static records `st` and `sps`, the
    abstract outputs and the timer enable bits; each handler is one atomic
    step that updates them, and its postcondition ties the new state to the
    handler's function in StepperSpec applied to the old state. */
module Stepper {
  import opened FixedWidth
  import opened StepperSpec

  class Stepper {
    /** ACCUMULATOR_RESET_FACTOR and the motor polarities. */
    const cfg: Config

    /** The run record `st`, used by the DDA interrupt and the loader. */
    var st: RunRecord
    /** The prep record `sps`, shared by the exec stage and the loader. */
    var sps: PrepRecord

    /** `stepCount[]`, the level of each direction pin, and the
        controller's `motionComplete` flag. */
    var stepCount: seq<nat>
    var dirPort: seq<bool>
    var motionComplete: bool

    /** Enable bits of the DDA timer and of the load and exec software interrupts. */
    var ddaTimerOn: bool
    var loadTimerOn: bool
    var execTimerOn: bool

    /** The whole state as a value of StepperSpec. */
    ghost function Snapshot(): Machine
      reads this
    {
      Machine(st, sps, Outputs(stepCount, dirPort, motionComplete),
              Timers(ddaTimerOn, loadTimerOn, execTimerOn))
    }

    /** The configuration is complete, every per-motor table has one entry
        per motor and every field fits its C type. */
    ghost predicate Valid()
      reads this
    {
      ValidConfig(cfg) && WellFormed(Snapshot())
    }

    /** The zero-initialised statics followed by `st_init`, which hands the
        staging buffer to the exec stage. */
    constructor (cfg: Config, dir: seq<bool>, motionComplete: bool)
      requires ValidConfig(cfg) && |dir| == AXES
      ensures Valid() && this.cfg == cfg
      ensures Snapshot() == Init(dir, motionComplete)
    {
      this.cfg := cfg;
      st := RunRecord(0, 0, [RunMotor(0, 0), RunMotor(0, 0)]);
      sps := PrepRecord(MoveNull, false, OwnedByExec, false, 0, 0, 0, [PrepMotor(0, 0), PrepMotor(0, 0)]);
      stepCount := [0, 0];
      dirPort := dir;
      this.motionComplete := motionComplete;
      ddaTimerOn, loadTimerOn, execTimerOn := false, false, false;
    }

    /** `st_isbusy`: reads the down-counter and changes nothing. */
    method IsBusy() returns (busy: bool)
      requires Valid()
      ensures busy <==> st.downcount != 0
      ensures busy == StepperSpec.IsBusy(Snapshot())
    {
      if st.downcount == 0 {
        return false;
      }
      return true;
    }

    /** `ISR(DDA_TIMER_ISR_vect)`. */
    method Tick()
      requires Valid()
      modifies this
      ensures Valid() && Snapshot() == StepperSpec.Tick(old(Snapshot()))
    {
      StepMotor(Z_AXIS);
      StepMotor(R_AXIS);
      st := st.(downcount := Int32(st.downcount - 1));
      assert Snapshot() == TickMotors(old(Snapshot()));
      if st.downcount == 0 {
        ddaTimerOn := false;
        LoadMove();
      }
    }

    /** One motor's block of the DDA interrupt: accumulate; when the sum is
        positive, pulse the step pin, subtract the span and count the step. */
    method StepMotor(i: nat)
      requires Valid() && i < AXES
      modifies this
      ensures Valid()
      ensures st == old(st.(m := st.m[i := MotorTick(st.m[i], st.ticksXSubsteps)]))
      ensures stepCount == old(stepCount[i := CountPulse(st.m[i], stepCount[i])])
      ensures sps == old(sps) && dirPort == old(dirPort) && motionComplete == old(motionComplete)
      ensures ddaTimerOn == old(ddaTimerOn) && loadTimerOn == old(loadTimerOn) && execTimerOn == old(execTimerOn)
    {
      var sum := Int32(st.m[i].accumulator + st.m[i].increment);
      st := st.(m := st.m[i := st.m[i].(accumulator := sum)]);
      if sum > 0 {
        st := st.(m := st.m[i := st.m[i].(accumulator := Int32(sum - st.ticksXSubsteps))]);
        stepCount := stepCount[i := Uint32(stepCount[i] + 1)];
      }
    }

    /** `_request_load_move`. */
    method RequestLoadMove()
      requires Valid()
      modifies this
      ensures Valid() && Snapshot() == StepperSpec.RequestLoadMove(old(Snapshot()))
    {
      if st.downcount == 0 {
        loadTimerOn := true;
      }
    }

    /** `ISR(LOAD_TIMER_ISR_vect)`. */
    method LoadIsr()
      requires Valid()
      modifies this
      ensures Valid() && Snapshot() == StepperSpec.LoadIsr(old(Snapshot()))
    {
      loadTimerOn := false;
      LoadMove();
    }

    /** `_load_move`. */
    method LoadMove()
      requires Valid()
      modifies this
      ensures Valid() && Snapshot() == StepperSpec.LoadMove(old(Snapshot()))
    {
      if st.downcount != 0 {
        return;
      }
      if sps.execState != OwnedByLoader {
        motionComplete := true;
        return;
      }
      if sps.moveType == MoveAline {
        LoadAlineMove();
      }
      sps := sps.(execState := OwnedByExec, prepState := false);
      RequestExecMove();
    }

    /** The ALINE branch of `_load_move`: arm the down-counter and the span,
        transfer each motor, and start the DDA timer (after clearing its
        pending flag and count, which are not modelled). */
    method LoadAlineMove()
      requires Valid()
      modifies this
      ensures Valid() && Snapshot() == LoadAline(old(Snapshot()))
    {
      st := st.(downcount := Int32(sps.ddaTicks), ticksXSubsteps := Int32(sps.ticksXSubsteps));
      assert Valid();
      TransferMotor(Z_AXIS);
      TransferMotor(R_AXIS);
      ghost var loaded := Snapshot();
      ddaTimerOn := true;
      assert Snapshot() == loaded.(timers := loaded.timers.(dda := true));
    }

    /** One motor's block of the ALINE load: copy the increment, re-centre the
        accumulator when the reset flag is set, and drive the direction pin
        only when the new increment is nonzero. */
    method TransferMotor(i: nat)
      requires Valid() && i < AXES
      modifies this
      ensures Valid()
      ensures st == old(st.(m := st.m[i := LoadMotor(st.m[i], sps.m[i], sps.resetFlag, st.downcount)]))
      ensures dirPort == old(dirPort[i := LoadDir(dirPort[i], Int32(sps.m[i].increment), sps.m[i])])
      ensures sps == old(sps) && stepCount == old(stepCount) && motionComplete == old(motionComplete)
      ensures ddaTimerOn == old(ddaTimerOn) && loadTimerOn == old(loadTimerOn) && execTimerOn == old(execTimerOn)
    {
      st := st.(m := st.m[i := st.m[i].(increment := Int32(sps.m[i].increment))]);
      if sps.resetFlag {
        st := st.(m := st.m[i := st.m[i].(accumulator := Int32(-st.downcount))]);
      }
      if st.m[i].increment != 0 {
        dirPort := dirPort[i := sps.m[i].dir != 0];
      }
    }

    /** `st_request_exec_move`. */
    method RequestExecMove()
      requires Valid()
      modifies this
      ensures Valid() && Snapshot() == StepperSpec.RequestExecMove(old(Snapshot()))
    {
      if sps.execState == OwnedByExec {
        execTimerOn := true;
      }
    }

    /** `ISR(EXEC_TIMER_ISR_vect)`; `produced` is the planner's answer. */
    method ExecIsr(produced: bool)
      requires Valid()
      modifies this
      ensures Valid() && Snapshot() == StepperSpec.ExecIsr(old(Snapshot()), produced)
    {
      execTimerOn := false;
      ExecMove(produced);
    }

    /** `_exec_move`; `produced` is `mp_exec_move() != STAT_NOOP`. */
    method ExecMove(produced: bool)
      requires Valid()
      modifies this
      ensures Valid() && Snapshot() == StepperSpec.ExecMove(old(Snapshot()), produced)
    {
      if sps.execState == OwnedByExec {
        if produced {
          sps := sps.(execState := OwnedByLoader);
          RequestLoadMove();
        }
      }
    }

    /** `st_prep_line`, with its float results given as integers. */
    method PrepLine(increments: seq<nat>, dirs: seq<bv8>, dur: Duration, ticks: nat, ticksX: nat)
      returns (status: Status)
      requires Valid() && PrepArgsOk(increments, dirs, ticks, ticksX)
      modifies this
      ensures Valid()
      ensures (Snapshot(), status) == StepperSpec.PrepLine(old(Snapshot()), cfg, increments, dirs, dur, ticks, ticksX)
    {
      if sps.execState != OwnedByExec {
        return StatInternalError;
      } else if dur == NotFinite {
        return StatMinimumLengthMoveError;
      } else if dur == BelowEpsilon {
        return StatMinimumTimeMoveError;
      }
      sps := sps.(resetFlag := false);
      sps := sps.(m := sps.m[Z_AXIS := PrepMotor(increments[Z_AXIS], MotorDir(dirs[Z_AXIS], cfg.polarity[Z_AXIS]))]);
      sps := sps.(m := sps.m[R_AXIS := PrepMotor(increments[R_AXIS], MotorDir(dirs[R_AXIS], cfg.polarity[R_AXIS]))]);
      sps := sps.(ddaTicks := ticks, ticksXSubsteps := ticksX);
      if Uint32(sps.ddaTicks * cfg.resetFactor) < sps.prevTicks {
        sps := sps.(resetFlag := true);
      }
      sps := sps.(prevTicks := sps.ddaTicks);
      sps := sps.(moveType := MoveAline, prepState := true);
      assert sps.m == StagedLine(old(sps), cfg, increments, dirs, ticks, ticksX).m;
      return StatOk;
    }

    /** `st_prep_null`. */
    method PrepNull()
      requires Valid()
      modifies this
      ensures Valid() && Snapshot() == StepperSpec.PrepNull(old(Snapshot()))
    {
      sps := sps.(moveType := MoveNull, prepState := true);
    }
  }
}

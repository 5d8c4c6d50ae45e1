# Stepper pipeline of the AVR motor controller

This project models the step-generation pipeline of `AVR/MotorController/stepper.c`. The pipeline has three stages that share two static records:

- **Exec stage.** The exec software interrupt asks the planner for the next segment. The planner answers through `st_prep_line` (or `st_prep_null`), which stages the segment in the prep record `sps`. The exec stage then hands `sps` to the loader.
- **Load stage.** `_load_move` runs from the load software interrupt, or directly from the DDA interrupt at the end of a move. When the run stage is idle and the loader owns `sps`, it copies an ALINE move into the run record `st`, re-centres the accumulators if the anti-stall flag is set, sets the direction pins and starts the DDA timer. It then hands `sps` back to the exec stage.
- **Run stage.** The DDA timer interrupt adds each motor's phase increment to its accumulator. When the sum is positive it emits a step pulse, subtracts the span `dda_ticks_X_substeps` and counts the step. It then decrements the down-counter, and at zero it stops the timer and calls the loader.

The model has four modules:

- `FixedWidth` (`fixed_width.dfy`) writes out what an `int32_t` and a `uint32_t` keep of an exact result.
- `StepperSpec` (`stepper_spec.dfy`) holds the state as a value (`Machine`: `st`, `sps`, the step counters, the direction pins, the controller's `motionComplete` flag and the enable bits of the three timers). Each handler is a function on it, with its branches, guards and error codes.
- `Stepper` (`stepper.dfy`) is a class whose fields are that state. Its methods update the fields in place, handler by handler and motor by motor, as the C code does. Each method is proved to leave exactly the state the matching `StepperSpec` function describes.
- `Dda` (`dda.dfy`) and `Pipeline` (`pipeline.dfy`) prove properties across many steps:
  - the phase-accumulator arithmetic over a whole move, including the exact step count of a move loaded with the reset flag;
  - the hand-over of the staging buffer between exec and loader;
  - an invariant tying the DDA timer to the down-counter, kept over any interleaving of handlers whenever every staged move has at least one tick.

The interrupts become atomic steps. `Pipeline.Step` lets any handler whose interrupt is enabled run next, interleaved with calls from the planner.

## Model

| member | source | states |
|---|---|---|
| StepperSpec.Init | AVR/MotorController/stepper.c:238-248 | The statics start at zero. The staging buffer belongs to the exec stage. No timer runs and the counters are zero. |
| StepperSpec.IsBusy | AVR/MotorController/stepper.c:253-259 | Busy exactly when the down-counter is nonzero. |
| StepperSpec.RunTick | AVR/MotorController/stepper.c:84-98 | One pass keeps the table shapes and the span. The down-counter drops by one with int32_t wrap-around. |
| StepperSpec.TickMotors | AVR/MotorController/stepper.c:84-98 | The motor part of the interrupt changes only the run record and the counters. The down-counter becomes `downcount - 1` (exactly so when no wrap occurs). Fields stay within their C types. |
| StepperSpec.MotorTickEffect | AVR/MotorController/stepper.c:84-96 | States `MotorTick` and `CountPulse`, one motor's block of the interrupt. The increment is kept and the accumulator stays an int32_t. Without a pulse the accumulator is just the sum. With a pulse the span comes off the sum, exactly when that fits 32 bits. The counter changes exactly when a pulse is emitted and stays a uint32_t. |
| StepperSpec.TickPerMotor | AVR/MotorController/stepper.c:84-96 | For each motor the increment is kept. With a positive int32_t sum, the accumulator becomes sum minus span and the counter goes up by one mod 2^32. Otherwise the accumulator becomes the sum and the counter is unchanged. |
| StepperSpec.EndMove | AVR/MotorController/stepper.c:98-101 | Ending a move (timer off, then the loader) leaves the counters alone and keeps fields within their C types. |
| StepperSpec.Tick | AVR/MotorController/stepper.c:81-103 | The whole DDA interrupt counts pulses exactly as the motor part does and keeps fields within their C types. |
| StepperSpec.TickEndsMove | AVR/MotorController/stepper.c:98-101 | When the counter reaches zero, the interrupt is exactly the loader run on the state after the motor updates, with the DDA timer off, so all of LoadMove's contract applies. In particular: the buffer returns to exec; the DDA timer runs on iff an ALINE move was waiting for the loader; exec is requested iff a move was loaded; motion-complete is raised if no move was waiting. |
| StepperSpec.RequestLoadMove | AVR/MotorController/stepper.c:109-115 | The load interrupt becomes enabled iff the down-counter is zero; nothing else changes. |
| StepperSpec.LoadMove | AVR/MotorController/stepper.c:132-191 | Busy: nothing changes. No move for the loader: only motion-complete is set. Otherwise the buffer goes back to exec and exec is requested. For ALINE, the counter, span and increments are copied; the accumulator is reset to minus the counter when the flag is set; the direction pin is driven only for a nonzero increment; the timer is started. A NULL move leaves the run stage alone. |
| StepperSpec.LoadAline | AVR/MotorController/stepper.c:143-185 | The ALINE branch copies the tick count (as int32_t) and the span into the run record and loads each motor as LoadMotorEffect describes, including its direction pin. It starts the DDA timer. The staging buffer, the counters and motion-complete are unchanged. |
| StepperSpec.LoadMotorEffect | AVR/MotorController/stepper.c:153-177 | States `LoadMotor` and `LoadDir`, one motor's transfer. The uint32_t increment becomes an int32_t that is zero exactly when the staged one is. The accumulator is kept, or set to minus the new down-counter when the reset flag is set. The direction pin is kept when the increment is zero mod 2^32, and otherwise follows whether the staged direction is nonzero. |
| StepperSpec.LoadIsr | AVR/MotorController/stepper.c:118-122 | The load interrupt leaves itself disabled and otherwise does exactly what the loader does. |
| StepperSpec.RequestExecMove | AVR/MotorController/stepper.c:197-202 | The exec interrupt becomes enabled iff the exec stage owns the buffer; nothing else changes. |
| StepperSpec.ExecMove | AVR/MotorController/stepper.c:212-221 | Only when exec owns the buffer and the planner produced a move does the buffer pass to the loader, with a load requested iff the run stage is idle. Otherwise nothing changes. |
| StepperSpec.ExecIsr | AVR/MotorController/stepper.c:205-209 | The exec interrupt leaves itself disabled and otherwise does exactly what the exec handler does. |
| StepperSpec.MotorDir | AVR/MotorController/stepper.c:289-291 | The staged direction XOR the polarity gives back the caller's direction, so the polarity flips it. A zero polarity leaves it as given. |
| StepperSpec.ResetNeeded | AVR/MotorController/stepper.c:298 | When `ticks * ACCUMULATOR_RESET_FACTOR` fits a uint32_t, the anti-stall reset is needed iff that product is below the previous tick count. It is never needed after a zero previous tick count. |
| StepperSpec.StagedLine | AVR/MotorController/stepper.c:286-303 | A staged line has each motor's increment and direction XOR polarity, and the given tick count and span. The reset flag is set iff `ticks * ACCUMULATOR_RESET_FACTOR` (mod 2^32) is below the previous tick count. The previous count becomes the new one. The move is a prepared ALINE. |
| StepperSpec.PrepLine | AVR/MotorController/stepper.c:275-305 | Checked in the source's order: not owned by exec gives INTERNAL_ERROR; a non-finite duration gives MINIMUM_LENGTH_MOVE_ERROR; a duration below EPSILON gives MINIMUM_TIME_MOVE_ERROR. Each rejection leaves the state unchanged. STAT_OK exactly otherwise, with the buffer staged as StagedLine describes. Only the buffer changes. |
| StepperSpec.PrepNull | AVR/MotorController/stepper.c:313-317 | Marks a prepared NULL move whoever owns the buffer; nothing else changes. |
| Stepper.Stepper.constructor | AVR/MotorController/stepper.c:238-248 | The object starts in `StepperSpec.Init`. |
| Stepper.Stepper.IsBusy | AVR/MotorController/stepper.c:253-259 | Returns whether the down-counter is nonzero and changes nothing. |
| Stepper.Stepper.Tick | AVR/MotorController/stepper.c:81-103 | The in-place interrupt leaves the state `StepperSpec.Tick` gives. |
| Stepper.Stepper.StepMotor | AVR/MotorController/stepper.c:84-96 | Updates one motor's accumulator and counter in place; every other field is unchanged. |
| Stepper.Stepper.RequestLoadMove | AVR/MotorController/stepper.c:109-115 | Leaves the state `StepperSpec.RequestLoadMove` gives. |
| Stepper.Stepper.LoadIsr | AVR/MotorController/stepper.c:118-122 | Leaves the state `StepperSpec.LoadIsr` gives. |
| Stepper.Stepper.LoadMove | AVR/MotorController/stepper.c:132-191 | Leaves the state `StepperSpec.LoadMove` gives. |
| Stepper.Stepper.LoadAlineMove | AVR/MotorController/stepper.c:143-185 | Leaves the state of the ALINE branch (`StepperSpec.LoadAline`). |
| Stepper.Stepper.TransferMotor | AVR/MotorController/stepper.c:153-177 | Transfers one motor and its direction pin in place; every other field is unchanged. |
| Stepper.Stepper.RequestExecMove | AVR/MotorController/stepper.c:197-202 | Leaves the state `StepperSpec.RequestExecMove` gives. |
| Stepper.Stepper.ExecIsr | AVR/MotorController/stepper.c:205-209 | Leaves the state `StepperSpec.ExecIsr` gives. |
| Stepper.Stepper.ExecMove | AVR/MotorController/stepper.c:212-221 | Leaves the state `StepperSpec.ExecMove` gives. |
| Stepper.Stepper.PrepLine | AVR/MotorController/stepper.c:275-305 | Returns the status and leaves the state `StepperSpec.PrepLine` gives. |
| Stepper.Stepper.PrepNull | AVR/MotorController/stepper.c:313-317 | Leaves the state `StepperSpec.PrepNull` gives. |
| Dda.RepeatTicks | AVR/MotorController/stepper.c:84-96 | `n` ticks of one motor keep its increment and emit at most `n` pulses. |
| Dda.StepInBand | AVR/MotorController/stepper.c:84-89 | With the accumulator in (-span, 0] and an increment at most the span, one tick never wraps, pulses iff the exact sum is positive, and returns to the band. |
| Dda.RepeatInBand | AVR/MotorController/stepper.c:84-89 | Over `n` ticks in the band: pulses times span equals the phase added minus the change in the accumulator. |
| Dda.PulsesAreCeiling | AVR/MotorController/stepper.c:84-89 | The pulses over `n` ticks are the ceiling of (accumulator + n * increment) / span. |
| Dda.ResetMoveEmitsSteps | AVR/MotorController/stepper.c:154-156 | Setup: accumulator reset to `-ticks`, increment `steps * substeps`, span `ticks * substeps`, at least 2 substeps, `steps <= ticks`. Such a motor emits exactly `steps` pulses in `ticks` ticks. |
| Dda.RunTicksPerMotor | AVR/MotorController/stepper.c:84-96 | Over `n` passes each motor evolves on its own, as `n` repetitions of its tick. Its counter grows by its pulses mod 2^32. |
| Dda.RunTicksCountDown | AVR/MotorController/stepper.c:98 | While it stays positive, each pass takes one off the down-counter. |
| Dda.TickPass | AVR/MotorController/stepper.c:81-103 | An interrupt whose decremented int32_t counter is not zero is exactly one pass over the run record and the counters. This holds for any counter, including one that has wrapped below zero. The buffer, the timers, the direction pins and motion-complete are unchanged. |
| Dda.TickCounts | AVR/MotorController/stepper.c:81-103 | Every interrupt, including the last of a move, adds to the counters exactly what one pass does. |
| Dda.TicksWithinMove | AVR/MotorController/stepper.c:81-103 | Before the down-counter reaches zero, `n` interrupts are `n` passes and leave the buffer and timers alone. |
| Dda.MoveCounts | AVR/MotorController/stepper.c:81-103 | Up to and including the interrupt that ends the move, the counters are what the passes make of them. |
| Dda.ResetMoveCounts | AVR/MotorController/stepper.c:81-103 | A reset move run to its end adds exactly `steps[i]` (mod 2^32) to each motor's counter. |
| Dda.ResetLoad | AVR/MotorController/stepper.c:143-156 | Loading a staged ALINE move with the reset flag arms exactly the run record that ResetMoveCounts starts from, and leaves the counters alone. |
| Dda.LoadedResetMoveCounts | AVR/MotorController/stepper.c:132-191 | From staging buffer to counters: load such a move, run its `dda_ticks` interrupts, and each counter has gained exactly `steps[i]`. |
| Pipeline.Step | AVR/MotorController/stepper.c:81-317 | A handler whose interrupt is disabled does nothing. Every step keeps fields within their C types. |
| Pipeline.Run | AVR/MotorController/stepper.c:81-317 | Any trace of events keeps fields within their C types. |
| Pipeline.OwnerChanges | AVR/MotorController/stepper.c:187-221 | The buffer passes to the loader iff the exec interrupt runs with exec owning it and the planner produces a move. It returns to exec only through the load interrupt or through the DDA interrupt while its timer runs. |
| Pipeline.FrozenWhileLoading | AVR/MotorController/stepper.c:282-317 | While the loader owns the buffer and keeps it, no event except `st_prep_null` changes the buffer. |
| Pipeline.FrozenAlongTrace | AVR/MotorController/stepper.c:282-317 | A trace free of `st_prep_null` that keeps the buffer with the loader leaves the staged move exactly as it was. |
| Pipeline.InitSafe | AVR/MotorController/stepper.c:238-248 | The initial state is safe: fields fit their C types, the DDA timer runs iff the down-counter is nonzero, and a staged ALINE has ticks. |
| Pipeline.LoadKeepsSafe | AVR/MotorController/stepper.c:143-185 | An idle loader preserves safety. |
| Pipeline.TickKeepsSafe | AVR/MotorController/stepper.c:98-101 | The DDA interrupt preserves safety. |
| Pipeline.StepKeepsSafe | AVR/MotorController/stepper.c:81-317 | Every enabled handler and every call preserves safety, provided `st_prep_line` stages a positive tick count. |
| Pipeline.RunKeepsSafe | AVR/MotorController/stepper.c:81-317 | Safety holds along every trace whose staged lines have positive tick counts. |
| Pipeline.BusyWhileRunning | AVR/MotorController/stepper.c:253-259 | In a safe state `st_isbusy` reports whether the DDA timer runs. While it runs, the loader and the load request change nothing. |
| Pipeline.ZeroTickMove | AVR/MotorController/stepper.c:294 | A line staged with zero ticks is accepted. It loads with the down-counter at zero and the DDA timer on, and the next interrupt wraps the counter to -1 instead of ending the move. |

## Left out

- Floating point: `st_prep_line` takes its float results as inputs. These are each motor's `(uint32_t)fabs(steps * dda_substeps)`, `dda_ticks`, `dda_ticks_X_substeps` (a float product), and the duration reduced to not finite, below EPSILON, or usable. `isfinite`, the float comparisons and the conversions are not modelled.
- F_DDA, DDA_SUBSTEPS, EPSILON, ACCUMULATOR_RESET_FACTOR and the motor polarities are defined in headers that are not part of this model. The reset factor and the polarities are a `Config` parameter. The other three enter only through the float inputs above.
- Hardware registers are abstract. The step pulse is the counter increment. Each direction port bit is a boolean. Each timer's clock select is an enable bit. Clearing the DDA timer's count and pending flag before it starts is not modelled.
- Interrupt priorities and preemption: handlers are atomic and interleave freely within `Pipeline`. The planner's `st_prep_line`/`st_prep_null` calls are separate events and are not nested inside `_exec_move`.
- `mp_exec_move` is not part of this model. Its answer becomes the boolean `produced`.
- `st.magic_start` and `sps.magic_start` (set by `st_init`), the `mcState` pointer and the commented-out period code carry no behaviour here.
- Signed overflow is undefined in C. `FixedWidth.Int32` assumes the two's-complement wrap-around the AVR compiler produces.
- stepper.c does not check that `dda_ticks` is positive. `Pipeline.ZeroTickMove` shows what a zero-tick line does. The safety invariant is proved only for traces whose staged lines have positive tick counts.
- StepperSpec.Tick: its own ensures state only shapes, C-type bounds and the counters. `Dda.TickPass` states the whole new state of an interrupt whose decremented counter is nonzero. `TickEndsMove` states the whole new state when the decremented counter is zero, as LoadMove's result.
- StepperSpec.EndMove: its own ensures state only shapes, C-type bounds and the counters. `TickEndsMove` equates the last interrupt of a move with LoadMove on the state after the motor updates, so LoadMove's contract states what ending a move does.
- Pipeline.Run: its own ensures keep only shapes and C-type bounds. Ownership and safety along a trace are stated by `FrozenAlongTrace` and `RunKeepsSafe`.

# VNPU: a verified model of the device, its driver, the HAL and the command-line parser

The repository builds a small dot-product accelerator in four layers: a QEMU device, a Linux driver, a C++
hardware abstraction layer with an in-process mock, and a command-line tool with a hand-written parser. This
project models all four in Dafny and proves what they are meant to guarantee together.

`dafny verify dfyconfig.toml` checks the whole project.

## How the model is built

| module | what it holds |
|---|---|
| `Words`, `Lanes` | 32-bit words and the bitwise idioms of the C code, signed lanes, packing, dot products |
| `Device` | the registers as a value, the effect of each access and of the timer, and the class `VnpuDevice` whose methods update the registers in place and are proved equal to those effects |
| `RegisterMap` | an independent reference for the bus: a register file of numbers at literal offsets, equal to the device over every trace |
| `DeviceInvariant`, `DeviceFacts`, `DeviceTraces` | what single accesses and whole traces keep |
| `Machine` | the driver as a transition system: any number of clients at program points of `vnpu_ioctl`, interleaved with the timer, the interrupt handler and time |
| `Protocol`, `Accounting`, `Outcome`, `Solo`, `Resetting` | invariants, counters, answers, single-caller effects, RESET from anywhere |
| `Driver` | the class `VnpuDriver`, the C functions statement by statement over a `VnpuDevice`, proved to be runs of `Machine` |
| `Runs`, `Returns` | schedules put together piece by piece: every call can return |
| `Patience` | what follows when every caller waits at least as long as the device takes |
| `AsWritten`, `Races` | where the code falls short, and the exact conditions under which it does not |
| `Hal`, `Refinement` | the mock, the Linux backend, and the refinement between the mock and the whole stack |
| `Parser`, `Documents` | the text parser and the round trip of whole documents |

Registers are unsigned 32-bit words modelled as bounded integers; results are signed 32-bit values. Bitwise
operations are defined on the integers, and the forms the C code uses for flags, masks, lanes, fault bits and the
result are proved equal to the forms the model uses. Time is in milliseconds. Every register access and every update
of a driver field is a step of its own, so any interleaving at that granularity is covered.

## Decisions

- **The repair.** RUN_DOT declares `vec_len = 0` and the assignment to it is commented out
  (linux-driver/src/vnpu_drv.c:292, 303). `AsWritten` proves what that means: nothing is ever submitted, and the
  first validated request returns with the mutex held. Everywhere else `vec_len` is the validated
  `vector_length` of the request, the value that is also programmed at line 352; the flag `repaired` of the model
  chooses.
- **The handler is one step** (243-263), runs start after probe has finished, and memory is sequentially
  consistent.
- **Serial schedules** (`Accounting.Serial`): a RUN_DOT takes the mutex only when no other RUN_DOT is between
  taking the mutex and clearing the error flag. The driver clears the flag after the unlock (372-373), so the
  mutex alone does not ensure this; `Races.OverlapLosesError` shows what goes wrong without it.
- **Timely schedules** (`Outcome.Timely`): a wait is given up only when a timer that is due has fired and a raised
  interrupt has been handled.
- **Determined verdicts** (`Outcome.Determined`): `Races.OutcomeIff` gives the exact condition for a call to get its
  verdict: enough time for an operation that will answer, and no old error flag. The flag cannot be seen by a
  caller, so `Patience` derives the same from conditions a caller controls: serial calls that all wait at least
  100 ms. `Races.PatienceIff` shows that 100 ms is the least patience that will do, `Races.SerialIff` that patience
  alone will not do for more than one client.
- **One merged step.** After the unlock of a failed call the driver reads `device_error` (95) and clears the flag
  later (98-118); the transition system does both in one step (`AtErrorReturn`).
- **The refinement** compares answers by class: value, argument error, timeout, device failure. The HAL reports a
  forced device error as `system_error` and the mock as `device_error`; both are the class `DeviceFailed`. The exact
  discipline is `Refinement.Disciplined`: a run waits at least 100 ms unless it is to time out or to be refused;
  after a timeout no run before a reset or a new fault; after a forced error no run before a reset except one that is
  to be forced to fail again.

## Where code and documentation disagree

The model follows the code.

- docs/register_map.md promises "ERROR until RESET". A rejected VECTOR_LENGTH during an operation sets ERROR and
  leaves the timer running, and its expiry turns ERROR into DONE: `DeviceTraces.ErrorUntilResetIff`.
- docs/register_map.md lets revision A read CAPABILITIES as 0; the code reports 0x7B. docs/uapi.md lets revision A
  ignore JOB_ID; the code stores it on both revisions.
- An -EINVAL or -EBUSY from RUN_DOT has no matching branch in the HAL (cpp-hal/src/vnpu-hal.cpp:80-116), because the
  driver returns before it copies `driver_status` back or sets another status; the call then returns normally
  with result 0. `Hal.InterpretRun` keeps this.
- The parser accepts one comma after the last element and text around the fields, which RFC 8259 does not, and does
  not treat a carriage return as white space, which RFC 8259, section 2, does. A field without a list takes the next
  field's list: `Documents.MisfitAccepted`.

## Model

| member | source | states |
|---|---|---|
| `Words.BitIsAnd` | qemu-device/src/vnpu.c:200-210 | testing bit k of a word is the C test of the word and-ed with `1 << k` |
| `Words.FlagsBitwise` | qemu-device/src/vnpu.c:231-235 | clearing (`&= ~val`), masking to the two defined bits and testing overlap, on the pair of interrupt flags, are the bitwise operations on their words |
| `Words.LowestBitIsAnd` | qemu-device/src/vnpu.c:290-291 | `val & 0x0F` followed by `val & (0U - val)` isolates the lowest of the low four bits, for every 32-bit word |
| `Words.FlipLowBitIsXor` | qemu-device/src/vnpu.c:374-376 | flipping the parity of a signed result is `^= 1` on its 32-bit image |
| `Words.LowNibbleIsAnd` | linux-driver/src/vnpu_drv.c:417 | the low four bits of a word are its conjunction with 0xF |
| `Words.AndMask` | qemu-device/src/vnpu.c:318-322 | and-ing with 2^n - 1 is the remainder by 2^n, for every word and n |
| `Words.AndPredecessor` | linux-driver/src/vnpu_drv.c:403-404 | `x & (x - 1)` clears the lowest set bit, for every nonzero x |
| `Lanes.UnpackBitwise` | qemu-device/src/vnpu.c:318-322 | the lane is what the C code extracts: shift by whole bytes, mask with 0xFF, test bit 0x80, subtract 0x100 |
| `Lanes.PackInt8Input` | cpp-hal/src/vnpu-hal.cpp:182-202 | the nested packing loops, merging shifted bytes with a bitwise or, leave the four words the packing function defines; no stale word survives |
| `Lanes.MergeByte` | cpp-hal/src/vnpu-hal.cpp:195-198 | or-ing one more shifted byte extends the word by exactly that byte |
| `Lanes.UnpackPack` | qemu-device/src/vnpu.c:318-322 | unpacking lane k of a packed vector gives element k back, sign included, and zero past the end, for every vector of at most 16 elements |
| `Lanes.PackedByte` | cpp-hal/src/vnpu-hal.cpp:190-201 | byte k % 4 of word k / 4, low byte first, is the two's complement byte of element k, and zero past the end |
| `Lanes.PackUnpack` | cpp-hal/src/vnpu-hal.cpp:182-202 | packing the 16 lanes of any four words restores the words |
| `Lanes.LaneDotBound` | qemu-device/src/vnpu.c:324-350 | every partial sum of the accumulation stays within 16 products of two bytes, so no 32-bit sum overflows |
| `Lanes.PackedDot` | cpp-hal/src/vnpu-hal.cpp:299-308 | the device sum over any number of lanes that covers two packed vectors is their dot product, so the 8-lane and the 16-lane arm agree on packed 8-element vectors |
| `Lanes.SumOfEight` | cpp-hal/src/vnpu-hal.cpp:303-306 | the dot product of eight elements is the sum of their eight products, written out |
| `Lanes.DotSplit` | cpp-hal/src/vnpu-hal.cpp:303-306 | the dot product of joined vectors is the sum of the dot products of the parts |
| `Lanes.LowWordsOnly` | qemu-device/src/vnpu.c:331-341 | the 8-lane sum reads only words 0 and 1 of each bank |
| `Device.VnpuDevice.constructor` | qemu-device/src/vnpu.c:385-417 | a realized device holds the documented reset values of its revision |
| `Device.VnpuDevice.RegisterInit` | qemu-device/src/vnpu.c:385-417 | writes every register for revisions A and B and nothing for any other |
| `Device.VnpuDevice.MmioRead` | qemu-device/src/vnpu.c:115-187 | the word each offset delivers; reading RESULT turns DONE into IDLE and no other read changes a register; other access sizes read zero |
| `Device.VnpuDevice.MmioWrite` | qemu-device/src/vnpu.c:189-295 | the complete new register state for every offset, value and time; other access sizes are ignored |
| `Device.VnpuDevice.WriteControlRegister` | qemu-device/src/vnpu.c:199-229 | RESET wins over START; START arms the timer only when IDLE, and otherwise raises an error, with code BUSY unless the device is already in ERROR |
| `Device.VnpuDevice.WriteVectorLength` | qemu-device/src/vnpu.c:241-264 | a length the revision does not support puts the device in ERROR and leaves length and timer alone |
| `Device.VnpuDevice.DotProduct` | qemu-device/src/vnpu.c:324-360 | both accumulation loops compute the dot product of the signed lanes, within 32-bit range at every step |
| `Device.VnpuDevice.DotTimer` | qemu-device/src/vnpu.c:362-383 | the registers after an expiry: the computed result, then at most one fault applied in priority order |
| `Device.VnpuDevice.UpdateIrqLine` | qemu-device/src/vnpu.c:296-301 | the line is high exactly when an enabled interrupt is pending |
| `RegisterMap.DeviceIsRegisterFile` | qemu-device/src/vnpu.c:115-417 | from power-on, on either revision and over every trace of reads, writes and expiries, every offset reads the number a register file written in literal offsets and values holds, the timer is armed alike, and the line is high exactly when a pending interrupt is enabled |
| `RegisterMap.NextAgrees` | qemu-device/src/vnpu.c:115-383 | one access or expiry from any reachable state keeps that agreement |
| `RegisterMap.ExpiryReads` | qemu-device/src/vnpu.c:324-383 | after an expiry, per number in FAULT_CONTROL: STATUS, IRQ_STATUS and ERROR_CODE in numbers, and RESULT as the dot product of exactly as many lanes as VECTOR_LENGTH reads, xor 1 for fault 4 |
| `RegisterMap.StartRefused` | qemu-device/src/vnpu.c:211-221 | START while STATUS does not read 0, an operation running or not: status, timer, inputs and result stay, the error bit joins the pending ones, an enabled line goes up, ERROR_CODE reads 2, or the earlier code from 3 |
| `RegisterMap.StartAccepted` | qemu-device/src/vnpu.c:222-227 | START while STATUS reads 0: it reads 1, nothing is pending, the operation ends 100 ms later |
| `RegisterMap.ResetReads` | qemu-device/src/vnpu.c:200-209 | RESET: STATUS, IRQ_STATUS, ERROR_CODE and FAULT_CONTROL read 0, the timer is stopped, the line is low, everything else stays |
| `RegisterMap.BadLengthReads` | qemu-device/src/vnpu.c:241-263 | a length the revision does not support: STATUS reads 3, ERROR_CODE 1, IRQ_STATUS 2; length and timer stay |
| `RegisterMap.ClearReads` | qemu-device/src/vnpu.c:230-233 | an interrupt bit goes down exactly when it is written as one |
| `RegisterMap.StatusNumbers` | qemu-device/src/vnpu.c:51-54 | the number read at 0x010 after any trace from power-on and a reset, a START, an expiry, a rejected length or a read of RESULT |
| `RegisterMap.StatusWhileRunning` | qemu-device/src/vnpu.c:199-264 | STATUS reads 1 for as long as the operation runs, whatever else is read or written |
| `DeviceInvariant.ResultBound` | qemu-device/src/vnpu.c:324-360 | a computed result lies in -260096..262144 |
| `DeviceInvariant.WriteReachable` | qemu-device/src/vnpu.c:189-295 | every write keeps the invariant: supported length, one fault bit, a running timer means BUSY or ERROR with no completion pending, ERROR carries code 1 or 3, no code above 3, line agreement, result range |
| `DeviceInvariant.ReadReachable` | qemu-device/src/vnpu.c:115-187 | so does every read |
| `DeviceInvariant.FireReachable` | qemu-device/src/vnpu.c:362-383 | and every expiry, which also never takes the default arm of the dot product |
| `DeviceInvariant.ComputedDone` | qemu-device/src/vnpu.c:331-358 | with a supported length the default arm is dead: a finished operation is DONE before fault injection |
| `DeviceInvariant.FreshReachable` | qemu-device/src/vnpu.c:385-417 | the invariant holds at power-on |
| `DeviceTraces.TraceReachable` | qemu-device/src/vnpu.c:115-383 | the invariant holds in every state of every trace of reads, writes and expiries |
| `DeviceTraces.StepTimer` | qemu-device/src/vnpu.c:199-264 | only an accepted START arms the timer, only expiry and RESET stop it |
| `DeviceTraces.DeadlineStable` | qemu-device/src/vnpu.c:210-228 | while an operation runs, no trace without RESET changes its deadline; later STARTs do not extend it |
| `DeviceTraces.OneExpiryPerStart` | qemu-device/src/vnpu.c:199-228 | conservation: expiries never exceed accepted STARTs, and without RESETs every accepted START has expired once or is still running |
| `DeviceTraces.ErrorUntilResetIff` | qemu-device/src/vnpu.c:241-263 | the documented "ERROR until RESET" holds over all traces if and only if the timer is stopped |
| `DeviceTraces.RunningErrorReachable` | qemu-device/src/vnpu.c:241-263 | on either revision a trace from power-on to ERROR with the timer still running, so the documented claim fails there |
| `DeviceTraces.BusyUntilResetIff` | qemu-device/src/vnpu.c:370-373 | BUSY lasts until RESET or a rejected length, over all traces, if and only if the timer is stopped |
| `DeviceTraces.ExpiryEnds` | qemu-device/src/vnpu.c:362-383 | from any running operation there is a trace without RESET that ends in DONE |
| `DeviceTraces.RevisionBRefinesA` | qemu-device/src/vnpu.c:241-264 | after VECTOR_LENGTH is set to 8, both revisions show the same reads and the same line over every trace that never writes 16, outside the two identity registers |
| `DeviceTraces.Write16Distinguishes` | qemu-device/src/vnpu.c:253-255 | the first write of 16 makes the two revisions distinguishable |
| `DeviceTraces.UpperWordsIgnored` | qemu-device/src/vnpu.c:331-341 | with length 8 the outcome of an operation does not depend on words 2 and 3 |
| `DeviceFacts.FireEnds` | qemu-device/src/vnpu.c:362-383 | how an operation ends per fault, for a driver that listens to both interrupts |
| `DeviceFacts.StartWrite` | qemu-device/src/vnpu.c:210-228 | START on a quiet device begins an operation when IDLE and raises an error at once otherwise |
| `Protocol.RaisedHandler` | linux-driver/src/vnpu_drv.c:243-263 | the handler acknowledges, books an error if there is one, and signals exactly one completion |
| `Protocol.StepKeeps` | linux-driver/src/vnpu_drv.c:265-442 | every step of every client, of the timer, of the handler and of time keeps the global and per-client invariant, for any number of clients |
| `Protocol.RunKeeps` | linux-driver/src/vnpu_drv.c:265-442 | so does every run |
| `Protocol.Quiescence` | linux-driver/src/vnpu_drv.c:326-396 | in every run from probe: whenever the mutex is free the timer is stopped, the device is not BUSY, nothing is pending and the line is low; two clients are never in the critical section |
| `Protocol.NoLostWakeup` | linux-driver/src/vnpu_drv.c:327-356 | while a client waits, the timer runs, or the line is high, or the completion is there, or the operation has ended in silence: DONE under irq-drop or BUSY under stuck-busy |
| `Protocol.NoStaleCompletion` | linux-driver/src/vnpu_drv.c:327-353 | when START is about to be written no completion is left over, nothing is pending and both interrupts are enabled |
| `Protocol.SnapshotsConsistent` | linux-driver/src/vnpu_drv.c:426-434 | every GET_STAT snapshot, read without the mutex, has completed + timed_out <= submitted and device_error <= submitted + 1 |
| `Protocol.ResetSucceeds` | linux-driver/src/vnpu_drv.c:125-151 | in every run a RESET that reads the registers back finds IDLE, nothing pending and no error, and never returns an error |
| `Resetting.ResetFromAnywhere` | linux-driver/src/vnpu_drv.c:125-151 | from every reachable device state, the timer free to fire and the handler free to run between any two register accesses, RESET returns 0 and leaves the device idle, fault free, disarmed, silent, with no completion pending |
| `AsWritten.NeverSubmits` | linux-driver/src/vnpu_drv.c:292-350 | with `vec_len` left at 0 no run submits or completes a dot product |
| `AsWritten.RequestAbandonsMutex` | linux-driver/src/vnpu_drv.c:345-350 | a validated request returns -EINVAL with the mutex held |
| `AsWritten.MutexNeverFree` | linux-driver/src/vnpu_drv.c:345-350 | once a call has returned with the mutex, no run lets any client into the critical section again |
| `AsWritten.FirstRequestIsTheLast` | linux-driver/src/vnpu_drv.c:292-350 | from probe, for every client and accepted request: five steps to a call that has returned -EINVAL holding the mutex, after which no schedule lets anyone into the critical section |
| `Accounting.CountersBalance` | linux-driver/src/vnpu_drv.c:354-384 | under serial schedules, whenever the mutex is free and no failing call is on its way out: completed + timed_out <= submitted <= completed + timed_out + device_error and device_error <= submitted, with equality if no error interrupt arrived between a wait expiry and its RESET |
| `Accounting.StepBooks` | linux-driver/src/vnpu_drv.c:253-258 | every step keeps the ledger in which each submitted operation is covered by exactly one counter |
| `Outcome.RunDotOutcome` | linux-driver/src/vnpu_drv.c:326-387 | for every serial and timely schedule of any number of clients, a RUN_DOT whose verdict is determined when it takes the mutex returns exactly that verdict |
| `Machine.RequestAcceptedIff` | linux-driver/src/vnpu_drv.c:297-323 | a request is taken exactly if the ABI version is 1, the timeout lies in 1..1000 and the length is 8, or 16 on revision 2 |
| `Machine.RefusedRequest` | linux-driver/src/vnpu_drv.c:297-323 | any other comes back at once with -22 and has changed nothing shared |
| `Machine.ErrorCodes` | linux-driver/src/vnpu_drv.c:93-123 | the return codes of the device errors, in numbers |
| `Driver.SubmitsOnce` | linux-driver/src/vnpu_drv.c:352-354 | a call that gets past the checks counts exactly one submission, whatever its ending |
| `Races.OutcomeIff` | linux-driver/src/vnpu_drv.c:326-387 | in every state of the invariant with no other RUN_DOT active, a RUN_DOT that has taken the mutex returns its verdict on every serial and timely schedule if and only if it is determined: an operation that will answer is given 100 ms, and no old error flag is up when the verdict is a value |
| `Patience.FlagDown` | linux-driver/src/vnpu_drv.c:356-378 | when every RUN_DOT waits at least 100 ms, on every serial and timely run from probe no error interrupt is late and the flag is down whenever the mutex has been taken |
| `Patience.PatientOutcome` | linux-driver/src/vnpu_drv.c:326-387 | on such runs every RUN_DOT gets its verdict; the conditions are on requests and schedule alone |
| `Patience.IdleReply` | linux-driver/src/vnpu_drv.c:326-387 | on such runs, where STATUS reads 0, the reply is the dot product of exactly the requested number of lanes; -110 for FAULT_CONTROL 1 and 2, -5 for 8, and the result xor 1 for 4 |
| `Patience.PackedReply` | linux-driver/src/vnpu_drv.c:326-387 | without a fault, a request packed from two vectors of 8 or 16 elements is answered with their dot product |
| `Patience.RefusedReply` | linux-driver/src/vnpu_drv.c:371-378 | where STATUS reads 2 the reply is -16; where it reads 3 it is -22 for ERROR_CODE 1 and -5 otherwise |
| `Patience.PatientBalance` | linux-driver/src/vnpu_drv.c:354-384 | on such runs submitted equals completed + timed_out + device_error whenever the mutex is free and no failing call is on its way out |
| `Races.PatienceIff` | linux-driver/src/vnpu_drv.c:356-378 | 100 ms is the exact patience: when all calls wait at least p, no error is ever late, and the counters always balance, if and only if p >= 100 |
| `Races.SerialIff` | linux-driver/src/vnpu_drv.c:371-378 | patience alone gives every call its own verdict on every timely run if and only if there is at most one client |
| `Outcome.LoadedDot` | linux-driver/src/vnpu_drv.c:333-344 | the device computes on exactly the lanes the copy loop wrote, whatever the other words hold |
| `Outcome.TrackTimeout` | linux-driver/src/vnpu_drv.c:356-369 | an expiry with nothing due means that the operation ends without an interrupt |
| `Solo.WholeRun` | linux-driver/src/vnpu_drv.c:290-387 | a complete RUN_DOT of a single caller with the flag down and a determined verdict (by Races.OutcomeIff no other has a certain reply): reply, all five counters, device status, error code and fault register afterwards |
| `Solo.WholeCalm` | linux-driver/src/vnpu_drv.c:388-438 | the same for RESET, SET_FAULT, GET_STAT and GET_INFO, on every schedule |
| `Solo.AcceptedMasks` | linux-driver/src/vnpu_drv.c:403-418 | SET_FAULT accepts exactly 0, 1, 2, 4 and 8, and each of them reaches the fault register as it is |
| `Runs.Answers` | linux-driver/src/vnpu_drv.c:326-387 | every call that has taken the mutex can be carried to its return, from every state of the invariant, for any client, within any of the schedule rules |
| `Returns.CallReturns` | linux-driver/src/vnpu_drv.c:265-442 | every command of a single caller can be carried out from every state between calls and leads to another such state |
| `Races.OverlapLosesError` | linux-driver/src/vnpu_drv.c:371-378 | for every two accepted and patient requests of two out of any number of clients there is a run in which the flag of the second failed call is cleared by the first, already unlocked one: a refused request returns success with an old result, and the counters exceed the submissions |
| `Races.LateErrorPoisonsNext` | linux-driver/src/vnpu_drv.c:371-378 | after an impatient call that was counted twice and left the flag up, the next call of the same client, on an idle fault-free device, fails with the old error |
| `Driver.VnpuDriver.IrqHandler` | linux-driver/src/vnpu_drv.c:243-263 | the handler has exactly the effect of the atomic handler step; it reports handled exactly when something was pending, and notes the status of an error |
| `Driver.VnpuDriver.HwReset` | linux-driver/src/vnpu_drv.c:125-151 | the register sequence with anything happening in between follows the transition system; the return value is 0 or the error of the failed check |
| `Driver.VnpuDriver.IoctlReset` | linux-driver/src/vnpu_drv.c:388-396 | the RESET ioctl is a run of the transition system and, from every reachable device state, succeeds, cleans the device and counts one reset |
| `Driver.VnpuDriver.CopyWords` | linux-driver/src/vnpu_drv.c:333-344 | the copy loop writes both operands word by word and arrives at the VECTOR_LENGTH write |
| `Driver.VnpuDriver.WaitForCompletion` | linux-driver/src/vnpu_drv.c:356-358 | the wait ends with the completion taken if there is one, and only otherwise with a timeout at or after its expiry |
| `Driver.VnpuDriver.DeviceErrorHandler` | linux-driver/src/vnpu_drv.c:93-123 | -22, -16, -5, -95 or -5 per device error; the flag is cleared in every branch |
| `Driver.VnpuDriver.IoctlRunDot` | linux-driver/src/vnpu_drv.c:290-387 | a request of another ABI version, an unsupported length or a timeout outside 1..1000 is answered -22 with nothing touched, every other one is submitted once; the ioctl, with timer, handler and time interleaved between any two statements, is a run of the transition system, and when its verdict is determined gives it, with the aftermath, on every timely schedule |
| `Driver.VnpuDriver.IoctlSetFault` | linux-driver/src/vnpu_drv.c:397-425 | the masks 0, 1, 2, 4 and 8 become the fault register; every other mask is rejected and changes nothing |
| `Driver.VnpuDriver.IoctlGetStat` | linux-driver/src/vnpu_drv.c:426-438 | the five counters are read one by one without the mutex; with one caller they are the current ones |
| `Driver.VnpuDriver.IoctlGetInfo` | linux-driver/src/vnpu_drv.c:277-289 | GET_INFO is a run of the transition system and reports 1 and 0x564E5055 |
| `Driver.VnpuDriver.Preempt` | linux-driver/src/vnpu_drv.c:243-263 | whatever the timer, the handler and time do between two statements is itself a run, and moves neither the mutex nor the program point |
| `Hal.MockVnpuDevice.RunDot` | cpp-hal/src/vnpu-hal.cpp:221-276 | refused, with nothing counted, exactly if a vector does not have eight elements or the timeout is outside 1..1000; otherwise answer and statistics as the fault mask decides |
| `Hal.MockRunTable` | cpp-hal/src/vnpu-hal.cpp:246-275 | those answers and statistics per mask, in numbers |
| `Hal.AcceptedAlike` | cpp-hal/src/vnpu-hal.cpp:57-80 | for vectors of eight elements and every 32-bit timeout, the HAL lets a run through exactly if the driver takes the packed request |
| `Hal.CodesReported` | cpp-hal/src/vnpu-hal.cpp:80-118 | -110 is reported as a timeout and -5 as a device failure; every other failing code passes for a result of zero |
| `Hal.MockVnpuDevice.DotProduct` | cpp-hal/src/vnpu-hal.cpp:299-308 | the accumulation loop computes the dot product, for all lengths whose sums cannot leave 32 bits |
| `Hal.MockVnpuDevice.Reset` | cpp-hal/src/vnpu-hal.cpp:278-281 | counts one reset and clears the fault |
| `Hal.MockVnpuDevice.SetFault` | cpp-hal/src/vnpu-hal.cpp:283-285 | replaces the fault, whatever it was |
| `Hal.StatsReport` | cpp-hal/src/vnpu-hal.cpp:287-296 | after any calls the mock reports exactly how often each kind of answer was given and how often it was reset, and every accepted run is in one of the three endings |
| `Hal.BuildRequest` | cpp-hal/src/vnpu-hal.cpp:74-78 | the ioctl argument: ABI version 1, length 8, the timeout, and each vector in the lanes of its own bank with zeros above |
| `Refinement.RunTurn` | cpp-hal/src/vnpu-hal.cpp:50-123 | one run of the stack against one run of the mock, in every mode: same answer and statistics when predictable; a different answer otherwise, if the run waits 100 ms or the device holds an error |
| `Refinement.CalmTurn` | cpp-hal/src/vnpu-hal.cpp:125-180 | every other call gives the same answer in every mode |
| `Refinement.AgreeIff` | cpp-hal/src/vnpu-hal.cpp:211-308 | from any simulated state stack and mock answer a sequence of calls alike on every timely schedule if and only if the sequence is disciplined |
| `Refinement.TranscriptFor` | cpp-hal/src/vnpu-hal.cpp:50-180 | whatever is called, from every state between calls, the stack has a schedule on which it answers |
| `Refinement.PatientDiffer` | cpp-hal/src/vnpu-hal.cpp:211-308 | an undisciplined sequence in which every accepted run waits 100 ms is answered otherwise on every schedule, not only on some |
| `Refinement.MockRefinement` | cpp-hal/src/vnpu-hal.cpp:211-308 | both from a freshly probed device with one caller and a new mock, for every sequence of calls: it can be answered, and the answers agree on all timely schedules exactly when it is disciplined |
| `Refinement.ResettingIsDisciplined` | cpp-hal/src/vnpu-hal.cpp:278-285 | resetting after every failed run before the next run is enough, when accepted runs wait at least 100 ms |
| `Parser.Trim` | cpp-hal/src/vnpuctl.cpp:80-90 | the two loops remove what the trimming function removes |
| `Parser.TrimPadded` | cpp-hal/src/vnpuctl.cpp:80-90 | trimming removes exactly the surrounding spaces, tabs and newlines |
| `Parser.FromCharsWhole` | cpp-hal/src/vnpuctl.cpp:96-105 | the conversion consumes a whole token exactly when it is a decimal numeral that fits an int, and then yields its value |
| `Parser.NumeralIff` | cpp-hal/src/vnpuctl.cpp:96-105 | a numeral is at most one minus sign followed by nothing but digits 0 to 9, at least one |
| `Parser.NumeralStep` | cpp-hal/src/vnpuctl.cpp:96-105 | each further digit multiplies by ten and adds, or subtracts behind a minus sign |
| `Parser.LeadingCharacter` | cpp-hal/src/vnpuctl.cpp:82-84 | in front of an element exactly a space, a newline and a tab are passed over |
| `Parser.TrailingCharacter` | cpp-hal/src/vnpuctl.cpp:85-87 | and behind it |
| `Parser.ListErrorIff` | cpp-hal/src/vnpuctl.cpp:103-119 | which error a list reports: the first piece that is no int numeral or no byte decides, and only a list without one is measured |
| `Parser.ArrayErrorIff` | cpp-hal/src/vnpuctl.cpp:127-135 | a missing name is reported exactly if the quoted name occurs nowhere, an invalid array exactly if it occurs without brackets behind it |
| `Parser.IntErrorIff` | cpp-hal/src/vnpuctl.cpp:144-168 | the same for the integer field, where everything else is an invalid integer |
| `Parser.Terminated` | cpp-hal/src/vnpuctl.cpp:153-168 | an integer value ends at a comma, a closing brace, a newline, a tab or a space, and at nothing else |
| `Parser.ParseInt8List` | cpp-hal/src/vnpuctl.cpp:92-121 | the loop terminates and returns what the recursive scanner defines, errors included |
| `Parser.ListAccepts` | cpp-hal/src/vnpuctl.cpp:92-121 | a list parses if and only if it has exactly eight comma-separated pieces that trim to int8 numerals; the values come back in order |
| `Parser.ListGrammar` | cpp-hal/src/vnpuctl.cpp:92-121 | equivalently: it is eight comma-free pieces joined by commas, each an int8 numeral between blanks, with at most one comma after the last |
| `Parser.PiecesOfList` | cpp-hal/src/vnpuctl.cpp:92-121 | such a text parses to the values of the pieces it was made of |
| `Parser.PiecesJoin` | cpp-hal/src/vnpuctl.cpp:95-115 | every text is the joining of its pieces, up to one final comma |
| `Parser.ArrayFieldIff` | cpp-hal/src/vnpuctl.cpp:123-138 | for every text: an array field reads v if and only if v are the values of an int8 list between the first opening bracket behind the first occurrence of the quoted name and the first closing bracket after it, whosever list that is |
| `Parser.IntFieldIff` | cpp-hal/src/vnpuctl.cpp:140-171 | for every text: the integer field reads n if and only if the stretch behind the first colon after the first occurrence of the quoted name, blanks skipped, up to a terminator or the end, is a numeral for n that fits an int |
| `Parser.InputIff` | cpp-hal/src/vnpuctl.cpp:184-198 | for every text: a document is read if and only if its three fields are and the timeout is positive; no fourth condition ever refuses it |
| `Parser.InputErrorIff` | cpp-hal/src/vnpuctl.cpp:184-195 | which error a document reports: the fields are read in order and the first that fails decides |
| `Parser.MismatchImpossible` | cpp-hal/src/vnpuctl.cpp:188-190 | no document is ever refused for vectors of different lengths |
| `Documents.DecimalBack` | cpp-hal/src/vnpuctl.cpp:96-105 | the decimal rendering of any integer is a numeral with its value |
| `Documents.LabelAbsentBefore` | cpp-hal/src/vnpuctl.cpp:125-127 | the quoted label of a field does not occur before the field, whatever fields precede it |
| `Documents.ReadArray` | cpp-hal/src/vnpuctl.cpp:123-138 | an array field behind any text without its label is read back exactly |
| `Documents.ReadInt` | cpp-hal/src/vnpuctl.cpp:140-171 | so is the integer field |
| `Documents.RoundTrip` | cpp-hal/src/vnpuctl.cpp:173-199 | every document of the three fields, in any order, with any spaces, tabs and newlines between tokens, parses to exactly its two vectors and its timeout |
| `Documents.MisfitAccepted` | cpp-hal/src/vnpuctl.cpp:131-132 | a document whose first field holds no list is not refused: the list of the second field is taken for both vectors |

## Left out

- PCI and QEMU plumbing, class initialisation, memory regions, module and misc-device registration: library calls.
- Probe: the model starts after it, with the device just reset; that `device_revision` is read after the node is registered is not modelled.
- `copy_from_user` and `copy_to_user` failures: the copies are total.
- The return codes pass through an unsigned 32-bit local (linux-driver/src/vnpu_drv.c:269); they are modelled as signed integers.
- Timeouts in jiffies: time is in milliseconds, and a wait may expire at any moment from its expiry on.
- Wrap-around of the 64-bit counters: they are unbounded.
- Weak memory ordering, interleavings inside the interrupt handler, and between reading `device_error` and clearing the flag.
- The fields `driver_status`, `device_error` and `job_id` of a request and `last_irq` of the driver: nothing modelled depends on them.
- The `control` field of the device, which is set to zero and never read.
- `errno` texts and the exception classes beyond the ones compared.
- The texts of the parser's error messages; which error is reported is modelled.
- The mock's path check, the CLI arguments, JSON output, fault-name strings and file reading: easy members.
- Shell scripts, smoke tests, Buildroot configuration and the patch copy of the device.
- Driver.VnpuDriver.IoctlRunDot: one thread inside the driver, and the mutex free at entry, because a Dafny method cannot block; any number of clients and the wait for the mutex are in `Machine`.
- Driver.VnpuDriver.IoctlReset: one thread inside the driver, for the same reason.
- Lanes.PackInt8Input: at most 16 elements, because the source writes past its four words beyond that and its callers pass 8.
- Protocol.SnapshotsConsistent: bounds device_error by submitted + 1 only, because the handler may count the error of an operation before line 354 counts its submission.
- Hal.MockVnpuDevice.DotProduct: vectors of equal length up to 131071 elements, the most whose sums are certain to stay within 32 bits; beyond that the C++ sum may overflow, and its only caller admits 8.
- Documents.RoundTrip: documents with exactly the three fields; any other text is covered by `Parser.ArrayFieldIff`, `Parser.IntFieldIff` and `Parser.InputIff`.

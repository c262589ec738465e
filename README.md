# Serial-to-LoRa bridge sketch, modelled in Dafny

The sketch runs on a microcontroller with an SX1262 LoRa module. Whatever
arrives on the serial port is sent over the radio, and the packets the radio
receives are meant to be printed back on the serial port (not every one is;
see below). The radio reports that an
operation has finished through its DIO1 interrupt. The interrupt handler
`setFlag` only raises the flag `operationDone`. The main `loop()` polls that
flag and uses `transmitFlag` to decide whether the operation that finished was
a transmit or a receive.

This project models that state machine:

- the globals `operationDone`, `transmitFlag`, `inputString`,
  `stringComplete` and `transmissionState`;
- `setFlag`;
- `sendMessage`;
- one pass of `loop()`: serial ingestion, then the send, then completion
  dispatch;
- what `setup()` leaves behind, in the listening configuration, including its
  three halts.

The sketch defines `ACTION`, so every `#ifndef ACTION` block is compiled out.
The model covers only the code that remains.

Files:

- `radio.dfy` (module `Radio`): the driver's status codes and the calls made
  on the radio and the serial port, recorded as traces.
- `bridge_spec.dfy` (module `BridgeSpec`): the globals as a value, one pass of
  `loop()` as the function `Iterate`, `setup()` as the function `Startup`, and
  lemmas about one pass.
- `bridge_runs.dfy` (module `BridgeRuns`): runs in which passes of `loop()`
  are interleaved with any number of interrupts, and lemmas about whole runs.
- `bridge.dfy` (module `Bridge`): the class `Sketch`. Its fields are the
  globals. Its methods update them in place and are proved against
  `BridgeSpec`. The ingestion loop is a `while` loop, as in the sketch.

The driver and the serial port are not modelled; their answers are
parameters. Each pass receives an `Iteration` value holding four things:

- the characters the serial port has waiting;
- the status `startTransmit` returns;
- the status `readData` returns;
- the payload `readData` returns.

`setup()` receives the statuses of `begin`, `setFrequency` and
`startReceive`. The calls made on the radio and the serial port are appended
to the ghost traces `radioLog` and `serialLog`. `RADIOLIB_ERR_NONE` is 0 and
`RADIOLIB_ERR_INVALID_FREQUENCY` is -12, as RadioLib defines them. RadioLib is
not part of this model.

The model follows the code. A half-duplex serial-to-radio bridge is usually
expected to do several things that this sketch does not do. The model keeps
the code's behaviour:

- Such a bridge usually transmits only while the radio is idle. The code sends
  whatever arrived, whatever operation is in progress (`IterateRadio`,
  `SendInSamePassTakesTransmitBranch`).
- Such a bridge usually bounds its serial buffer. The code does not bound
  `inputString`.
- Such a bridge usually listens again after every receive. The code calls
  `startReceive` only after a transmit completion (`RunReArmsOnlyAfterTransmit`).
- Such a bridge usually reports a malformed packet or a failed read. The code
  prints nothing when `readData` fails.
- Such a bridge usually keeps a frame until the radio has accepted it. The code
  empties `inputString` right after `sendMessage`, whatever `startTransmit`
  returns. A refused frame is never sent again (`RefusedFrameDropped`,
  `RunForwardsSerialInput`). Its status is printed at the next completion,
  unless a later send has overwritten `transmissionState` first; then the
  refusal is never reported.
- Such a bridge usually prints every packet it receives. The code decides what
  a completion means from `transmitFlag` alone. A receive completion is taken
  for a transmit completion, and the packet is never read, in two cases. The
  first is when a frame is sent in the same pass
  (`SendInSamePassTakesTransmitBranch`). The second is when the last
  `startTransmit` was refused, because `transmitFlag` stays set until some
  completion is handled (`IterateState`).

## Model

| member | source | states |
|---|---|---|
| `Bridge.Sketch.Setup` | src/main.cpp:45-119 | The globals start as statically initialised: no completion pending, no transmit in progress, empty accumulator, status `RADIOLIB_ERR_NONE`. `setup()` leaves them so. The radio calls, the serial writes and whether setup halts are those of `Startup`. |
| `Bridge.Sketch.SetFlag` | src/main.cpp:64-67 | The interrupt handler sets `operationDone` to true. Its frame allows it to change nothing else. |
| `Bridge.Sketch.SendMessage` | src/main.cpp:206-213 | Issues exactly one `startTransmit` with the given string. Stores its status in `transmissionState` and sets `transmitFlag`. This happens unconditionally, whatever the previous flag or pending operation. |
| `Bridge.Sketch.Loop` | src/main.cpp:121-200 | One pass of `loop()`. A `while` loop reads the waiting characters one at a time. The new globals and the calls appended to both traces are exactly those of `Iterate` on the old globals. |
| `BridgeSpec.Startup` | src/main.cpp:69-119 | Setup halts if and only if one of three things happens: `begin` fails, `setFrequency` returns the invalid-frequency code, or `startReceive` fails. Any other `setFrequency` error is ignored. The radio calls are an in-order prefix of begin, setFrequency(868), setDio1Action, startReceive; they stop at the halt. A successful start makes all four calls and prints nothing. For each halt, the calls made and the whole output are stated. A failing `begin` makes only that call and prints "failed, code " and its status. A refused frequency makes two calls and prints only its message line. A failing `startReceive` makes all four calls and prints "failed, code " and its status. |
| `BridgeSpec.SetupArmsReceptionOnce` | src/main.cpp:96-117 | For any statuses with which `Startup` does not halt, setup has issued `startReceive` exactly once and no transmit. |
| `BridgeSpec.IterateState` | src/main.cpp:125-159 | After a pass, the globals satisfy four things. (1) `operationDone` and `stringComplete` are false. (2) `inputString` is empty exactly when a frame was sent; otherwise it is unchanged. (3) `transmissionState` is the new `startTransmit` status exactly when a frame was sent. (4) `transmitFlag` is true exactly when a transmit was started or in progress and no completion was pending. |
| `BridgeSpec.IterateRadio` | src/main.cpp:125-165 | A pass issues one `startTransmit` exactly when characters arrived (or `stringComplete` was already set). It carries the whole accumulated string followed by this pass's characters. It is issued first, before the dispatch, and there is no idle check. Exactly one `startReceive` is issued if a completion was pending and a transmit was in progress (including one just sent). Exactly one `readData` is issued if a completion was pending and no transmit was in progress. No other radio call is made. |
| `BridgeSpec.IterateSerial` | src/main.cpp:144-191 | Nothing is written unless a completion was pending. On a transmit completion, "failed, code " and the status are printed exactly when the status is not `RADIOLIB_ERR_NONE`. On a receive completion, the payload is printed verbatim, with no framing, exactly when `readData` succeeded; otherwise nothing is printed. |
| `BridgeSpec.RefusedFrameDropped` | src/main.cpp:131-137 | Take a pass that sends a frame which `startTransmit` refuses. The frame is handed over once, the accumulator is emptied anyway, and only the failing status is kept. |
| `BridgeSpec.SendInSamePassTakesTransmitBranch` | src/main.cpp:123-159 | Take a pass that finds a receive completion pending and also receives serial input. It sends the frame and then `startReceive`, and makes no `readData`. `transmitFlag` ends false, so the completion is taken for the end of the transmit just started. |
| `BridgeRuns.StepForwardsSerialInput` | src/main.cpp:125-137 | From a drained accumulator, one event hands exactly that event's non-empty serial input to `startTransmit`, whatever status it returns, and the accumulator is drained again. |
| `BridgeRuns.RunForwardsSerialInput` | src/main.cpp:125-137 | Over any interleaving of passes and interrupts, the transmitted payloads are exactly the non-empty serial inputs of the passes, one frame per pass, in arrival order. Each input is handed to `startTransmit` exactly once, never split or merged with another, and the accumulator is empty after every step. Whether the driver accepts a frame is not part of this claim. |
| `BridgeRuns.StepFacts` | src/main.cpp:64-165 | One event changes the flags in three ways. A pass handles a pending completion exactly once and clears the flag. An interrupt only raises it. A `startReceive` is issued only by clearing a transmit in progress or by a transmit in the same step. |
| `BridgeRuns.RunDispatchesAtMostInterrupts` | src/main.cpp:140-142 | Over any run, the completions handled (`startReceive` or `readData` calls), plus one still pending at the end, are never more than the interrupts fired, plus one pending at the start. There are no spurious dispatches. |
| `BridgeRuns.RunHandlesEveryRaise` | src/main.cpp:140-142 | Over any run, count the completions handled (`startReceive` or `readData` calls) plus one still pending at the end. That count equals the interrupts that found the flag down plus one pending at the start. So no raised completion is lost and none is handled twice. An interrupt that finds the flag already up is absorbed. |
| `BridgeRuns.RunReArmsOnlyAfterTransmit` | src/main.cpp:144-196 | Over any run, the number of `startReceive` calls is at most the number of transmits issued, plus one if a transmit was in progress at the start. A receive completion never re-arms reception. |
| `BridgeRuns.InterruptsCoalesce` | src/main.cpp:64-67 | From any state, two interrupts with no pass between them have the same effect as one, whatever follows. |

## Left out

- Serial and SPI transport, `Serial.begin`, `SPI.begin` and `delay`: these are I/O. Serial input is the string of characters waiting at each pass. Output is a trace of `print`/`println` calls. The decimal formatting of an `int` by `println` is not modelled.
- The `while (true) { delay(10); }` halts in `setup()`: modelled as the ghost field `halted`, which `Loop` requires to be false.
- RadioLib and SX1262 internals (`begin`, `setFrequency`, `setDio1Action`, `startTransmit`, `startReceive`, `readData`, and what the chip does between calls): only their returned statuses and payloads are modelled.
- The `volatile`, asynchronous nature of `operationDone`: the interrupt is an event between passes (`SetFlag`, `Interrupt`), never in the middle of a pass.
- `somethingAvailableLORA` has an empty body and has no effect.
- The `INITIATING_NODE` branch of `setup()` is not compiled in this configuration.
- RSSI/SNR printing and every other `#ifndef ACTION` diagnostic are compiled out.
- The relative order of serial writes and radio calls: they go to two separate traces. Each trace keeps its own order. For example, that "failed, code " is printed before `startReceive` (src/main.cpp:153-158) is not captured.
- Arduino `String` byte-level behaviour, such as NUL characters, allocation failure or the `(char)` cast of `Serial.read()`: `inputString` is a plain sequence of characters.

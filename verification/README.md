# Instrumenter tracer model

A Dafny model of a per-instruction tracer for go-ethereum's EVM, adapted from go-ethereum's `StructLogger`, in
`src/src/instrumentation_measurement/geth/instrumenter/instrumenter.go`, with its two trace writers.

The tracer (`InstrumenterLogger`) is attached to the EVM interpreter. The interpreter calls it at four
points: `CaptureStart` once, `CaptureState` before each executed instruction, `CaptureFault` on a
fault, and `CaptureEnd` once. For every `CaptureState` the tracer appends one `InstrumenterLog {Pc, Op,
TimeNs}`. `TimeNs` is the first clock reading of that callback minus the stamp left by the previous
callback. The callback then takes a second reading and keeps it as the new stamp, so the time spent
appending is never measured. `WriteTrace` prints the records in a human-readable form, and
`WriteCSVTrace` prints them as CSV lines `runId,index,TimeNs,`.

Modules:

- `Options`: the `Option` datatype, standing for a nil pointer or a nil error, and for text a reader cannot parse.
- `Machine`: Go's `int64`, `uint64` and `byte`, plus the wrap-around of `int64` subtraction.
- `Decimal`: Go's `%d`/`%v` decimal rendering and a reader for it.
- `Padding`: Go's `%-16s` (spaces on the right) and `%08d` (zeros on the left) padding.
- `Text`: newline-terminated lines, splitting at a separator, and reading a list of lines back.
- `Instrumenter`: the tracer state, the four callbacks, `NewInstrumenterLogger`, `InstrumenterLogs`,
  and `Run`, which delivers a sequence of callbacks to the tracer.
- `TraceWriters`: `WriteTrace` and `WriteCSVTrace` as loops over a sink, the text they produce, and
  readers that parse that text back.

The state is an immutable record, and each callback is a pure function that returns the new state and
the callback's error (always nil). The monotonic clock is injected. A single callback receives its
readings as parameters: `now` for `CaptureStart`, and `t1`, `t2` for `CaptureState`. `Run` consumes a
sequence of readings in order: one for a start, two for a state step, none for a fault or an end. An
output sink is the text written so far, and a writer returns it with the trace appended.

Each human-readable line has a space before `time_ns=` (instrumenter.go:77).

## Model

| member | source | states |
|---|---|---|
| Machine.Sub64 | src/src/instrumentation_measurement/geth/instrumenter/instrumenter.go:53 | `t1 - lastCaptureTime` on int64 gives the value congruent to the true difference modulo 2^64; when both readings are non-negative the result is exactly the true difference |
| Decimal.NatToDecimal | src/src/instrumentation_measurement/geth/instrumenter/instrumenter.go:77 | the decimal of a natural number has at least one digit, only digits, and starts with '0' exactly when the number is 0 |
| Decimal.IntToDecimal | src/src/instrumentation_measurement/geth/instrumenter/instrumenter.go:86 | `%v` of an integer starts with '-' exactly when it is negative and is otherwise all digits |
| Decimal.NatToDecimalValue | src/src/instrumentation_measurement/geth/instrumenter/instrumenter.go:77 | reading the rendered digits of n gives back n |
| Decimal.DecimalOfValue | src/src/instrumentation_measurement/geth/instrumenter/instrumenter.go:77 | conversely, a digit string without a leading zero is the rendering of its value, so rendering is a bijection onto canonical digit strings |
| Decimal.ParseIntOfDecimal | src/src/instrumentation_measurement/geth/instrumenter/instrumenter.go:86 | reading `%v` of any integer, sign included, gives back that integer |
| Padding.PadRight | src/src/instrumentation_measurement/geth/instrumenter/instrumenter.go:77 | `%-16s`: the result is the original text followed only by fill characters, its length is the larger of the text's length and the width, and text already at least that wide is kept intact |
| Padding.PadLeft | src/src/instrumentation_measurement/geth/instrumenter/instrumenter.go:77 | `%08d`: fill characters followed by the original text, with the same length rule, and text already at least that wide is kept intact |
| Padding.ZeroPadValue | src/src/instrumentation_measurement/geth/instrumenter/instrumenter.go:77 | zero-padding the pc's digits keeps them all digits and does not change their value |
| Text.LinesSnoc | src/src/instrumentation_measurement/geth/instrumenter/instrumenter.go:76-79 | writing one more formatted record and then a newline (`Fprintf` then `Fprintln`) extends the text by exactly that line |
| Text.SplitLines | src/src/instrumentation_measurement/geth/instrumenter/instrumenter.go:84-88 | rows without newlines, each written with a trailing newline, split back at newlines into exactly those rows plus an empty remainder |
| Instrumenter.NewInstrumenterLogger | src/src/instrumentation_measurement/geth/instrumenter/instrumenter.go:37-43 | a new tracer has no records and a zero stamp, and a non-nil configuration is copied in |
| Instrumenter.NilConfigIsZeroConfig | src/src/instrumentation_measurement/geth/instrumenter/instrumenter.go:15-16 | since `LogConfig` has no fields, a nil configuration and a zero configuration build the same tracer |
| Instrumenter.CaptureStart | src/src/instrumentation_measurement/geth/instrumenter/instrumenter.go:46-49 | the stamp becomes the current reading, the records and configuration are unchanged, and the error is nil |
| Instrumenter.CaptureState | src/src/instrumentation_measurement/geth/instrumenter/instrumenter.go:52-58 | exactly one record is added and earlier records are unchanged; the new record holds the pc, the op and the first reading minus the old stamp (non-negative when 0 ≤ old stamp ≤ first reading); the new stamp is the second reading, not the first; the error is nil |
| Instrumenter.CaptureFault | src/src/instrumentation_measurement/geth/instrumenter/instrumenter.go:62-64 | whatever its arguments, the tracer is unchanged and the error is nil |
| Instrumenter.CaptureEnd | src/src/instrumentation_measurement/geth/instrumenter/instrumenter.go:67-69 | whatever its arguments, the tracer is unchanged and the error is nil |
| Instrumenter.Observed | src/src/instrumentation_measurement/geth/instrumenter/instrumenter.go:62-69 | removing faults and ends leaves no fault or end and keeps the clock demand and the sequence of state calls |
| Instrumenter.RunIgnoresFaultsAndEnds | src/src/instrumentation_measurement/geth/instrumenter/instrumenter.go:62-69 | for any interleaving of callbacks, the final tracer state is the same as if every fault and end were dropped |
| Instrumenter.RunAppendsInCallOrder | src/src/instrumentation_measurement/geth/instrumenter/instrumenter.go:52-57 | the log is append-only: existing records stay, one record is added per `CaptureState`, the new records carry the calls' (pc, op) in call order, and the configuration is unchanged |
| Instrumenter.DemandWithoutRestart | src/src/instrumentation_measurement/geth/instrumenter/instrumenter.go:53-56 | without a restart the clock is read exactly twice per `CaptureState` and never otherwise |
| Instrumenter.RunFinalStamp | src/src/instrumentation_measurement/geth/instrumenter/instrumenter.go:56 | without a restart the final stamp is the last reading taken, or the old stamp if no reading was taken |
| Instrumenter.RunDeltas | src/src/instrumentation_measurement/geth/instrumenter/instrumenter.go:53-56 | without a restart and with non-negative readings, the i-th new record's delta is its first reading minus the previous call's second reading (the old stamp for the first record) |
| Instrumenter.RunTimeAccounting | src/src/instrumentation_measurement/geth/instrumenter/instrumenter.go:53-56 | with non-negative readings under a non-decreasing clock, every new delta is non-negative; the deltas plus the unmeasured append times equal the final stamp minus the initial stamp exactly, so the deltas never exceed it |
| Instrumenter.StartFirst | src/src/instrumentation_measurement/geth/instrumenter/instrumenter.go:46-49 | a session's `CaptureStart` consumes one reading and leaves an empty log stamped with it |
| Instrumenter.SessionRecords | src/src/instrumentation_measurement/geth/instrumenter/instrumenter.go:46-72 | after a start and any mix of N state calls, faults and ends, with non-negative readings, `InstrumenterLogs` holds exactly N records with the (pc, op) pairs in call order; record i is reading 2i+1 minus reading 2i; the final stamp is the last reading |
| Instrumenter.SessionTiming | src/src/instrumentation_measurement/geth/instrumenter/instrumenter.go:46-57 | after a start and any mix of state calls, faults and ends (no second start), with non-negative readings under a non-decreasing clock, every delta is non-negative and the deltas sum to at most the final stamp minus the start stamp |
| TraceWriters.WriteTrace | src/src/instrumentation_measurement/geth/instrumenter/instrumenter.go:75-80 | the sink gains, in record order, one line per record: padded op name, `pc=`, at least 8 pc digits, ` time_ns=`, the delta, and a newline |
| TraceWriters.WriteCSVTrace | src/src/instrumentation_measurement/geth/instrumenter/instrumenter.go:82-89 | the sink gains, in record order, one line `runId,i,TimeNs,` plus a newline for each record i, counting from 0 |
| TraceWriters.CsvRecordRoundTrip | src/src/instrumentation_measurement/geth/instrumenter/instrumenter.go:86 | one CSV line reads back as exactly its run id, index and delta |
| TraceWriters.CsvLineStructure | src/src/instrumentation_measurement/geth/instrumenter/instrumenter.go:84-88 | the CSV output splits at newlines into exactly one line per record, line i being record i, with nothing after the last newline |
| TraceWriters.CsvRoundTrip | src/src/instrumentation_measurement/geth/instrumenter/instrumenter.go:82-89 | the whole CSV output reads back as (run id, position, delta) for every record, in order |
| TraceWriters.CsvIgnoresPcAndOp | src/src/instrumentation_measurement/geth/instrumenter/instrumenter.go:86 | two record sequences with the same deltas give the same CSV output, whatever their pc and op |
| TraceWriters.ParseTraceFields | src/src/instrumentation_measurement/geth/instrumenter/instrumenter.go:77 | a line read from the right gives back the name column whatever it contains, together with the pc and the delta |
| TraceWriters.TraceRecordRoundTrip | src/src/instrumentation_measurement/geth/instrumenter/instrumenter.go:77 | one human-readable line reads back as its padded name, pc and delta |
| TraceWriters.TraceLineStructure | src/src/instrumentation_measurement/geth/instrumenter/instrumenter.go:76-79 | when no op name contains a newline, the output splits at newlines into exactly one line per record, in order |
| TraceWriters.TraceRoundTrip | src/src/instrumentation_measurement/geth/instrumenter/instrumenter.go:75-80 | when no op name contains a newline, the whole output reads back as (padded op name, pc, delta) for every record, in order |
| TraceWriters.CsvExample | src/src/instrumentation_measurement/geth/instrumenter/instrumenter.go:82-89 | run id 3 with deltas 10 and 20 is written as `3,0,10,\n3,1,20,\n` |
| TraceWriters.TraceExample | src/src/instrumentation_measurement/geth/instrumenter/instrumenter.go:75-80 | ADD at pc 5 with delta 120 is written as `ADD` padded to 16 columns, then `pc=00000005 time_ns=120\n` |

## Left out

- `runtimeNano`, the runtime's monotonic clock, is a foreign call that is not defined in this file. Its readings are parameters of the callbacks and a sequence consumed by `Run`.
- The interpreter objects passed to the callbacks (`*vm.EVM`, `*vm.Memory`, `*vm.Stack`, `*vm.ReturnStack`, `*vm.Contract`) are dropped because no callback reads them. Addresses are byte sequences, `*big.Int` is an unbounded integer (nil is not distinguished), and `time.Duration` is an int64. Every kept argument is ignored, as in the source.
- `vm.OpCode.String()` is the go-ethereum opcode name table, which is not part of this model. The writers take it as a parameter `opName`.
- `io.Writer` errors: the source discards what `fmt.Fprintf` and `fmt.Fprintln` return, so the sink is infallible text append.
- The gencodec JSON marshalling named at instrumenter.go:18 is generated code that is not part of this model.
- `LogConfig` has no fields, so `cfg` carries no information.
- InstrumenterLogs: has no contract of its own. It is a pure read of the state, so repeated calls return the same sequence by construction, and its content is stated by `SessionRecords`. Go returns the tracer's own slice, so a caller's writes into it reach the tracer's records; the model returns a value and does not model that aliasing.
- RunDeltas: covers runs without a second `CaptureStart`, for the reason given for `RunTimeAccounting` (after a restart a record's delta is measured from the restart's reading). It assumes non-negative clock readings (runtimeNano never returns a negative value). Int64 wrap-around of the delta is modelled in `Sub64` but not traced through a run.
- RunTimeAccounting: covers runs without a second `CaptureStart`. The host calls `CaptureStart` once per traced execution, and a restart resets the stamp. It also assumes non-negative readings, for the reason given for `RunDeltas`.
- SessionRecords: covers sessions without a second `CaptureStart`, for the reason given for `RunTimeAccounting`. It assumes non-negative readings, for the reason given for `RunDeltas`.
- SessionTiming: covers sessions without a second `CaptureStart`, for the reason given for `RunTimeAccounting`. It assumes non-negative readings, for the reason given for `RunDeltas`. A non-decreasing pair of readings that starts below zero can make the int64 subtraction wrap and record a negative delta.
- TraceRoundTrip: recovers the padded op name rather than the opcode, because the name table is a parameter that need not be injective.
- Go's `fmt` counts padding widths in runes. A Dafny `char` is one Unicode scalar value, which is the same count.

/**
 The per-instruction EVM tracer: an `InstrumenterLogger` that the interpreter
 drives through four callbacks (start, one state per executed instruction,
 fault, end) and that keeps one `InstrumenterLog` per instruction with the
 nanoseconds elapsed since the previous callback.

 The tracer state is an immutable record and every callback a pure transition.
 The runtime's monotonic clock is injected: a callback receives the readings it
 takes as parameters, and `Run` consumes a sequence of readings in order.
 Interpreter objects the callbacks never look at (the EVM, memory, stack,
 return stack, contract) are dropped; plain-valued arguments are kept so that
 "whatever the arguments" can be stated.
 */
module Instrumenter {
  import opened Options
  import opened Machine

  /** Options of the tracer; the source declares no fields. */
  datatype LogConfig = LogConfig

  /** One executed instruction: program counter, opcode, and nanoseconds since the previous callback. */
  datatype InstrumenterLog = InstrumenterLog(pc: Uint64, op: OpCode, timeNs: Int64)

  datatype InstrumenterLogger = InstrumenterLogger(
    cfg: LogConfig,
    logs: seq<InstrumenterLog>,
    lastCaptureTime: Int64)

  /** A Go `error` value. */
  datatype Error = Error(message: string)

  /** What a callback leaves behind: the new tracer state and the error it returns (None for nil). */
  datatype Reply = Reply(logger: InstrumenterLogger, err: Option<Error>)

  /** `NewInstrumenterLogger(cfg)`; `None` stands for a nil configuration pointer. */
  function NewInstrumenterLogger(cfg: Option<LogConfig>): (l: InstrumenterLogger)
    ensures l.logs == []
    ensures l.lastCaptureTime == 0
    ensures cfg.Some? ==> l.cfg == cfg.value
  {
    var zero := InstrumenterLogger(LogConfig, [], 0);
    if cfg.Some? then zero.(cfg := cfg.value) else zero
  }

  /** A nil configuration and a zero configuration build the same tracer. */
  lemma NilConfigIsZeroConfig()
    ensures NewInstrumenterLogger(None) == NewInstrumenterLogger(Some(LogConfig))
  {
  }

  /** `CaptureStart`: stamps the clock reading `now`. */
  function CaptureStart(l: InstrumenterLogger, from: seq<Byte>, to: seq<Byte>, create: bool,
                        input: seq<Byte>, gas: Uint64, value: int, now: Int64): (r: Reply)
    ensures r.logger.logs == l.logs && r.logger.cfg == l.cfg
    ensures r.logger.lastCaptureTime == now
    ensures r.err == None
  {
    Reply(l.(lastCaptureTime := now), None)
  }

  /**
   `CaptureState`: `t1` is the reading used for the delta, `t2` the reading taken
   after the append, which becomes the stamp for the next step.
   */
  function CaptureState(l: InstrumenterLogger, pc: Uint64, op: OpCode, gas: Uint64, cost: Uint64,
                        rData: seq<Byte>, depth: int, err: Option<Error>, t1: Int64, t2: Int64): (r: Reply)
    ensures |r.logger.logs| == |l.logs| + 1
    ensures r.logger.logs[..|l.logs|] == l.logs
    ensures r.logger.logs[|l.logs|].pc == pc && r.logger.logs[|l.logs|].op == op
    ensures r.logger.logs[|l.logs|].timeNs == Sub64(t1, l.lastCaptureTime)
    ensures 0 <= l.lastCaptureTime <= t1 ==> r.logger.logs[|l.logs|].timeNs == t1 - l.lastCaptureTime >= 0
    ensures r.logger.lastCaptureTime == t2 && r.logger.cfg == l.cfg
    ensures r.err == None
  {
    var timeSincePrevious := Sub64(t1, l.lastCaptureTime);
    var log := InstrumenterLog(pc, op, timeSincePrevious);
    var appended := l.(logs := l.logs + [log]);
    Reply(appended.(lastCaptureTime := t2), None)
  }

  /** `CaptureFault`: changes nothing and returns nil. */
  function CaptureFault(l: InstrumenterLogger, pc: Uint64, op: OpCode, gas: Uint64, cost: Uint64,
                        depth: int, err: Option<Error>): (r: Reply)
    ensures r.logger == l && r.err == None
  {
    Reply(l, None)
  }

  /** `CaptureEnd`: changes nothing and returns nil. */
  function CaptureEnd(l: InstrumenterLogger, output: seq<Byte>, gasUsed: Uint64, duration: Int64,
                      err: Option<Error>): (r: Reply)
    ensures r.logger == l && r.err == None
  {
    Reply(l, None)
  }

  /** `InstrumenterLogs`: the captured records; reading them does not change the tracer. */
  function InstrumenterLogs(l: InstrumenterLogger): seq<InstrumenterLog> {
    l.logs
  }

  /** One callback from the interpreter, with the arguments the model keeps. */
  datatype Event =
    | Start(from: seq<Byte>, to: seq<Byte>, create: bool, input: seq<Byte>, gas: Uint64, value: int)
    | State(pc: Uint64, op: OpCode, gas: Uint64, cost: Uint64, rData: seq<Byte>, depth: int, err: Option<Error>)
    | Fault(pc: Uint64, op: OpCode, gas: Uint64, cost: Uint64, depth: int, err: Option<Error>)
    | End(output: seq<Byte>, gasUsed: Uint64, duration: Int64, err: Option<Error>)

  /** Clock readings one callback takes: one in `CaptureStart`, two in `CaptureState`. */
  function Reads(e: Event): nat {
    match e
    case Start(_, _, _, _, _, _) => 1
    case State(_, _, _, _, _, _, _) => 2
    case _ => 0
  }

  /** Clock readings a whole sequence of callbacks takes. */
  function Demand(es: seq<Event>): nat
    decreases |es|
  {
    if es == [] then 0 else Reads(es[0]) + Demand(es[1..])
  }

  /** Delivers one callback, reading the clock from the front of `clock`. */
  function Apply(l: InstrumenterLogger, e: Event, clock: seq<Int64>): Reply
    requires Reads(e) <= |clock|
  {
    match e
    case Start(from, to, create, input, gas, value) =>
      CaptureStart(l, from, to, create, input, gas, value, clock[0])
    case State(pc, op, gas, cost, rData, depth, err) =>
      CaptureState(l, pc, op, gas, cost, rData, depth, err, clock[0], clock[1])
    case Fault(pc, op, gas, cost, depth, err) =>
      CaptureFault(l, pc, op, gas, cost, depth, err)
    case End(output, gasUsed, duration, err) =>
      CaptureEnd(l, output, gasUsed, duration, err)
  }

  /** Delivers the callbacks in order; the clock's readings are consumed in order. */
  function Run(l: InstrumenterLogger, es: seq<Event>, clock: seq<Int64>): InstrumenterLogger
    requires Demand(es) <= |clock|
    decreases |es|
  {
    if es == [] then l
    else Run(Apply(l, es[0], clock).logger, es[1..], clock[Reads(es[0])..])
  }

  /** The (pc, op) pairs of the `CaptureState` callbacks, in call order. */
  function Calls(es: seq<Event>): seq<(Uint64, OpCode)>
    decreases |es|
  {
    if es == [] then []
    else (if es[0].State? then [(es[0].pc, es[0].op)] else []) + Calls(es[1..])
  }

  /** The callbacks with every fault and end removed. */
  function Observed(es: seq<Event>): (r: seq<Event>)
    ensures Demand(r) == Demand(es)
    ensures Calls(r) == Calls(es)
    ensures forall i :: 0 <= i < |r| ==> !r[i].Fault? && !r[i].End?
    decreases |es|
  {
    if es == [] then []
    else if es[0].Fault? || es[0].End? then Observed(es[1..])
    else [es[0]] + Observed(es[1..])
  }

  predicate StartFree(es: seq<Event>) {
    forall i :: 0 <= i < |es| ==> !es[i].Start?
  }

  predicate NonDecreasing(clock: seq<Int64>) {
    forall i, j :: 0 <= i <= j < |clock| ==> clock[i] <= clock[j]
  }

  function SumTimes(logs: seq<InstrumenterLog>): int
    decreases |logs|
  {
    if logs == [] then 0 else logs[0].timeNs + SumTimes(logs[1..])
  }

  /** Time between the two readings of each `CaptureState`: the append, which no record measures. */
  function Gaps(es: seq<Event>, clock: seq<Int64>): int
    requires Demand(es) <= |clock|
    decreases |es|
  {
    if es == [] then 0
    else (if es[0].State? then clock[1] - clock[0] else 0) + Gaps(es[1..], clock[Reads(es[0])..])
  }

  /** Faults and ends are invisible: dropping them leaves the final tracer state unchanged. */
  lemma {:induction false} RunIgnoresFaultsAndEnds(l: InstrumenterLogger, es: seq<Event>, clock: seq<Int64>)
    requires Demand(es) <= |clock|
    ensures Run(l, Observed(es), clock) == Run(l, es, clock)
    decreases |es|
  {
    if es != [] {
      RunIgnoresFaultsAndEnds(Apply(l, es[0], clock).logger, es[1..], clock[Reads(es[0])..]);
      if es[0].Fault? || es[0].End? {
        assert clock[Reads(es[0])..] == clock;
        RunIgnoresFaultsAndEnds(l, es[1..], clock);
      } else {
        assert Observed(es)[1..] == Observed(es[1..]);
      }
    }
  }

  /**
   The log is append-only: earlier records stay as they are, one record is
   added per `CaptureState`, and the new records carry the calls' (pc, op) in call order.
   */
  lemma {:induction false} RunAppendsInCallOrder(l: InstrumenterLogger, es: seq<Event>, clock: seq<Int64>)
    requires Demand(es) <= |clock|
    ensures var l' := Run(l, es, clock);
      && l'.cfg == l.cfg
      && |l'.logs| == |l.logs| + |Calls(es)|
      && l'.logs[..|l.logs|] == l.logs
      && var added := l'.logs[|l.logs|..];
         forall i :: 0 <= i < |added| ==> (added[i].pc, added[i].op) == Calls(es)[i]
    decreases |es|
  {
    if es != [] {
      var l1 := Apply(l, es[0], clock).logger;
      var rest := clock[Reads(es[0])..];
      RunAppendsInCallOrder(l1, es[1..], rest);
      var l' := Run(l, es, clock);
      assert l' == Run(l1, es[1..], rest);
      if es[0].State? {
        assert Calls(es) == [(es[0].pc, es[0].op)] + Calls(es[1..]);
        assert l'.logs[..|l1.logs|][..|l.logs|] == l'.logs[..|l.logs|];
        var added := l'.logs[|l.logs|..];
        var added1 := l'.logs[|l1.logs|..];
        assert added == [l1.logs[|l.logs|]] + added1;
      } else {
        assert Calls(es) == Calls(es[1..]);
      }
    }
  }

  /** Without a restart, every `CaptureState` takes two readings and nothing else takes any. */
  lemma {:induction false} DemandWithoutRestart(es: seq<Event>)
    requires StartFree(es)
    ensures Demand(es) == 2 * |Calls(es)|
    decreases |es|
  {
    if es != [] {
      DemandWithoutRestart(es[1..]);
    }
  }

  /** Without a restart, the final stamp is the last reading consumed (or the old stamp if none was). */
  lemma {:induction false} RunFinalStamp(l: InstrumenterLogger, es: seq<Event>, clock: seq<Int64>)
    requires Demand(es) <= |clock| && StartFree(es)
    ensures Run(l, es, clock).lastCaptureTime ==
      if Demand(es) == 0 then l.lastCaptureTime else clock[Demand(es) - 1]
    decreases |es|
  {
    if es != [] {
      var l1 := Apply(l, es[0], clock).logger;
      var rest := clock[Reads(es[0])..];
      RunFinalStamp(l1, es[1..], rest);
      if !es[0].State? {
        assert l1 == l && rest == clock;
      }
    }
  }

  /**
   Without a restart, with non-negative readings, the i-th new record's delta is
   its first reading minus the stamp before it: the previous call's second
   reading, or the tracer's stamp for the first record.
   */
  lemma {:induction false} RunDeltas(l: InstrumenterLogger, es: seq<Event>, clock: seq<Int64>)
    requires Demand(es) <= |clock| && StartFree(es)
    requires 0 <= l.lastCaptureTime
    requires forall i :: 0 <= i < |clock| ==> 0 <= clock[i]
    ensures var l' := Run(l, es, clock);
      && |l'.logs| == |l.logs| + |Calls(es)|
      && 2 * |Calls(es)| <= |clock|
      && var added := l'.logs[|l.logs|..];
         forall i :: 0 <= i < |added| ==>
           added[i].timeNs == clock[2 * i] - (if i == 0 then l.lastCaptureTime else clock[2 * i - 1])
    decreases |es|
  {
    RunAppendsInCallOrder(l, es, clock);
    DemandWithoutRestart(es);
    if es != [] {
      var l1 := Apply(l, es[0], clock).logger;
      var rest := clock[Reads(es[0])..];
      RunDeltas(l1, es[1..], rest);
      RunAppendsInCallOrder(l1, es[1..], rest);
      var l' := Run(l, es, clock);
      assert l' == Run(l1, es[1..], rest);
      if es[0].State? {
        DeltasAfterState(l, l1, l', clock, rest);
      } else {
        assert l1 == l && rest == clock;
      }
    }
  }

  /** The inductive step of `RunDeltas` for a leading `CaptureState`. */
  lemma DeltasAfterState(l: InstrumenterLogger, l1: InstrumenterLogger, l': InstrumenterLogger,
                         clock: seq<Int64>, rest: seq<Int64>)
    requires 2 <= |clock| && rest == clock[2..]
    requires |l1.logs| == |l.logs| + 1 && l1.logs[..|l.logs|] == l.logs && l1.lastCaptureTime == clock[1]
    requires l1.logs[|l.logs|].timeNs == clock[0] - l.lastCaptureTime
    requires |l'.logs| >= |l1.logs| && l'.logs[..|l1.logs|] == l1.logs
    requires 2 * (|l'.logs| - |l1.logs|) <= |rest|
    requires var added1 := l'.logs[|l1.logs|..];
      forall i :: 0 <= i < |added1| ==>
        added1[i].timeNs == rest[2 * i] - (if i == 0 then l1.lastCaptureTime else rest[2 * i - 1])
    ensures var added := l'.logs[|l.logs|..];
      forall i :: 0 <= i < |added| ==>
        added[i].timeNs == clock[2 * i] - (if i == 0 then l.lastCaptureTime else clock[2 * i - 1])
  {
    var added := l'.logs[|l.logs|..];
    var added1 := l'.logs[|l1.logs|..];
    assert added[0] == l1.logs[|l.logs|];
    forall i | 1 <= i < |added|
      ensures added[i].timeNs == clock[2 * i] - clock[2 * i - 1]
    {
      assert added[i] == added1[i - 1];
      assert rest[2 * (i - 1)] == clock[2 * i];
      if i > 1 {
        assert rest[2 * (i - 1) - 1] == clock[2 * i - 1];
      }
    }
  }

  /**
   Without a restart, under a non-decreasing clock that starts no earlier than
   the stamp: every new delta is non-negative, and the deltas plus the excluded
   append times add up to exactly the time between the first and final stamps,
   so the deltas never add up to more than that time.
   */
  lemma {:induction false} RunTimeAccounting(l: InstrumenterLogger, es: seq<Event>, clock: seq<Int64>)
    requires Demand(es) <= |clock| && StartFree(es)
    requires NonDecreasing(clock)
    requires 0 <= l.lastCaptureTime
    requires 0 < |clock| ==> l.lastCaptureTime <= clock[0]
    ensures var l' := Run(l, es, clock);
      && |l'.logs| >= |l.logs|
      && (var added := l'.logs[|l.logs|..];
          && (forall i :: 0 <= i < |added| ==> 0 <= added[i].timeNs)
          && 0 <= Gaps(es, clock)
          && SumTimes(added) + Gaps(es, clock) == l'.lastCaptureTime - l.lastCaptureTime
          && SumTimes(added) <= l'.lastCaptureTime - l.lastCaptureTime)
    decreases |es|
  {
    RunAppendsInCallOrder(l, es, clock);
    if es != [] {
      var l1 := Apply(l, es[0], clock).logger;
      var rest := clock[Reads(es[0])..];
      RunTimeAccounting(l1, es[1..], rest);
      RunAppendsInCallOrder(l1, es[1..], rest);
      var l' := Run(l, es, clock);
      assert l' == Run(l1, es[1..], rest);
      if es[0].State? {
        AccountingAfterState(l, l1, l', clock[0] - l.lastCaptureTime);
      } else {
        assert l1 == l && rest == clock;
      }
    }
  }

  /** The inductive step of `RunTimeAccounting` for a leading `CaptureState` with delta `d`. */
  lemma AccountingAfterState(l: InstrumenterLogger, l1: InstrumenterLogger, l': InstrumenterLogger, d: int)
    requires |l1.logs| == |l.logs| + 1 && l1.logs[..|l.logs|] == l.logs
    requires l1.logs[|l.logs|].timeNs == d
    requires |l'.logs| >= |l1.logs| && l'.logs[..|l1.logs|] == l1.logs
    ensures var added := l'.logs[|l.logs|..];
      && added[0].timeNs == d
      && added[1..] == l'.logs[|l1.logs|..]
      && SumTimes(added) == d + SumTimes(l'.logs[|l1.logs|..])
  {
  }

  /** Delivering `CaptureStart` first leaves a fresh log stamped with the first reading. */
  lemma StartFirst(cfg: Option<LogConfig>, start: Event, es: seq<Event>, clock: seq<Int64>)
    requires start.Start? && 1 + Demand(es) <= |clock|
    ensures Demand([start] + es) == 1 + Demand(es)
    ensures var l1 := NewInstrumenterLogger(cfg).(lastCaptureTime := clock[0]);
      Run(NewInstrumenterLogger(cfg), [start] + es, clock) == Run(l1, es, clock[1..])
  {
  }

  /**
   One traced execution: a fresh tracer, one `CaptureStart`, then any mix of
   `CaptureState`, `CaptureFault` and `CaptureEnd`. The logs hold one record
   per `CaptureState`, in call order; with non-negative readings, record i is
   reading 2i+1 (its first reading) minus reading 2i (the stamp before it),
   and the final stamp is the last reading taken.
   */
  lemma SessionRecords(cfg: Option<LogConfig>, start: Event, es: seq<Event>, clock: seq<Int64>)
    requires start.Start? && StartFree(es)
    requires 1 + Demand(es) <= |clock|
    requires forall i :: 0 <= i < |clock| ==> 0 <= clock[i]
    ensures var l := Run(NewInstrumenterLogger(cfg), [start] + es, clock);
      var logs := InstrumenterLogs(l);
      && |logs| == |Calls(es)|
      && Demand(es) == 2 * |logs|
      && (forall i :: 0 <= i < |logs| ==> (logs[i].pc, logs[i].op) == Calls(es)[i])
      && (forall i :: 0 <= i < |logs| ==> logs[i].timeNs == clock[2 * i + 1] - clock[2 * i])
      && l.lastCaptureTime == clock[Demand(es)]
  {
    var l1 := NewInstrumenterLogger(cfg).(lastCaptureTime := clock[0]);
    var rest := clock[1..];
    StartFirst(cfg, start, es, clock);
    RunAppendsInCallOrder(l1, es, rest);
    DemandWithoutRestart(es);
    RunFinalStamp(l1, es, rest);
    RunDeltas(l1, es, rest);
    var logs := Run(l1, es, rest).logs;
    assert logs[|l1.logs|..] == logs;
  }

  /**
   One traced execution under a non-decreasing, non-negative clock: every
   delta is non-negative and the deltas add up to at most the time from the
   start stamp to the final stamp.
   */
  lemma SessionTiming(cfg: Option<LogConfig>, start: Event, es: seq<Event>, clock: seq<Int64>)
    requires start.Start? && StartFree(es)
    requires 1 + Demand(es) <= |clock|
    requires NonDecreasing(clock) && 0 <= clock[0]
    ensures var l := Run(NewInstrumenterLogger(cfg), [start] + es, clock);
      var logs := InstrumenterLogs(l);
      && (forall i :: 0 <= i < |logs| ==> 0 <= logs[i].timeNs)
      && SumTimes(logs) <= l.lastCaptureTime - clock[0]
  {
    var l1 := NewInstrumenterLogger(cfg).(lastCaptureTime := clock[0]);
    var rest := clock[1..];
    StartFirst(cfg, start, es, clock);
    RunTimeAccounting(l1, es, rest);
    var logs := Run(l1, es, rest).logs;
    assert logs[|l1.logs|..] == logs;
  }
}

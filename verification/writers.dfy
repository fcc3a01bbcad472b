/**
 The two trace writers. Both write one line per record, in order: one
 formatted write followed by a newline. The sink is modelled as the text
 written so far; the methods return it with the trace appended, and write
 errors, which the source discards, are not modelled.
 */
module TraceWriters {
  import opened Options
  import opened Machine
  import opened Decimal
  import opened Padding
  import opened Text
  import opened Instrumenter

  /** Minimum width of the opcode name column (`%-16s`). */
  const NameWidth: nat := 16
  /** Minimum number of digits of the program counter (`%08d`). */
  const PcWidth: nat := 8

  /** One `WriteTrace` line without its newline: `%-16spc=%08d time_ns=%v` of op name, pc and delta. */
  function TraceRecord(opName: OpCode -> string, log: InstrumenterLog): string {
    PadRight(opName(log.op), NameWidth, ' ') + "pc=" + PadLeft(NatToDecimal(log.pc), PcWidth, '0')
      + " time_ns=" + IntToDecimal(log.timeNs)
  }

  function TraceRecords(opName: OpCode -> string, logs: seq<InstrumenterLog>): (rows: seq<string>)
    ensures |rows| == |logs|
  {
    seq(|logs|, i requires 0 <= i < |logs| => TraceRecord(opName, logs[i]))
  }

  /** Everything `WriteTrace` writes for `logs`. */
  function TraceText(opName: OpCode -> string, logs: seq<InstrumenterLog>): string {
    Lines(TraceRecords(opName, logs))
  }

  /** One `WriteCSVTrace` line without its newline: `%v,%v,%v,` of run id, 0-based index and delta. */
  function CsvRecord(runId: Int64, index: nat, timeNs: Int64): string {
    IntToDecimal(runId) + "," + IntToDecimal(index) + "," + IntToDecimal(timeNs) + ","
  }

  function CsvRecords(logs: seq<InstrumenterLog>, runId: Int64): (rows: seq<string>)
    ensures |rows| == |logs|
  {
    seq(|logs|, i requires 0 <= i < |logs| => CsvRecord(runId, i, logs[i].timeNs))
  }

  /** Everything `WriteCSVTrace` writes for `logs`. */
  function CsvText(logs: seq<InstrumenterLog>, runId: Int64): string {
    Lines(CsvRecords(logs, runId))
  }

  /** `WriteTrace(writer, logs)`, with `opName` standing for `vm.OpCode.String`. */
  method WriteTrace(sink: string, logs: seq<InstrumenterLog>, opName: OpCode -> string)
    returns (out: string)
    ensures out == sink + TraceText(opName, logs)
  {
    out := sink;
    ghost var rows := TraceRecords(opName, logs);
    var i := 0;
    while i < |logs|
      invariant 0 <= i <= |logs|
      invariant out == sink + Lines(rows[..i])
    {
      var line := TraceRecord(opName, logs[i]);
      assert line == rows[i];
      AppendLine(sink, out, rows, i);
      out := out + line;
      out := out + "\n";
      i := i + 1;
    }
    assert rows[..i] == rows;
  }

  /** `WriteCSVTrace(writer, logs, runId)`. */
  method WriteCSVTrace(sink: string, logs: seq<InstrumenterLog>, runId: Int64) returns (out: string)
    ensures out == sink + CsvText(logs, runId)
  {
    out := sink;
    ghost var rows := CsvRecords(logs, runId);
    var instructionId := 0;
    while instructionId < |logs|
      invariant 0 <= instructionId <= |logs|
      invariant out == sink + Lines(rows[..instructionId])
    {
      var line := CsvRecord(runId, instructionId, logs[instructionId].timeNs);
      assert line == rows[instructionId];
      AppendLine(sink, out, rows, instructionId);
      out := out + line;
      out := out + "\n";
      instructionId := instructionId + 1;
    }
    assert rows[..instructionId] == rows;
  }

  /** A CSV line read back into its three fields. */
  datatype CsvRow = CsvRow(runId: int, index: int, timeNs: int)

  function ParseCsvRecord(line: string): Option<CsvRow> {
    var fields := Split(line, ',');
    if |fields| != 4 || fields[3] != [] then None
    else
      match (ParseInt(fields[0]), ParseInt(fields[1]), ParseInt(fields[2]))
      case (Some(runId), Some(index), Some(timeNs)) => Some(CsvRow(runId, index, timeNs))
      case _ => None
  }

  /** Reads a CSV trace: newline-terminated lines, each one `ParseCsvRecord` accepts. */
  function ParseCsv(text: string): Option<seq<CsvRow>> {
    var lines := Split(text, '\n');
    if lines[|lines| - 1] != [] then None else ParseAll(ParseCsvRecord, lines[..|lines| - 1])
  }

  /** A `WriteTrace` line read back: the padded name column, the pc and the delta. */
  datatype TraceRow = TraceRow(name: string, pc: int, timeNs: int)

  /**
   Reads a `WriteTrace` line from the right, so the name column may hold any
   character: the delta follows the last '=', which must end " time_ns"; the
   pc follows the '=' before that, which must end "pc".
   */
  function ParseTraceRecord(line: string): Option<TraceRow> {
    match LastIndexOf(line, '=')
    case None => None
    case Some(j) =>
      var head := line[..j];
      if !HasSuffix(head, " time_ns") then None
      else
        var head2 := head[..|head| - 8];
        match LastIndexOf(head2, '=')
        case None => None
        case Some(k) =>
          var head3 := head2[..k];
          if !HasSuffix(head3, "pc") then None
          else
            match (ParseNat(head2[k + 1..]), ParseInt(line[j + 1..]))
            case (Some(pc), Some(timeNs)) => Some(TraceRow(head3[..|head3| - 2], pc, timeNs))
            case _ => None
  }

  /** Reads a human-readable trace: newline-terminated lines, each one `ParseTraceRecord` accepts. */
  function ParseTrace(text: string): Option<seq<TraceRow>> {
    var lines := Split(text, '\n');
    if lines[|lines| - 1] != [] then None else ParseAll(ParseTraceRecord, lines[..|lines| - 1])
  }

  lemma DecimalHasNoSeparator(x: int, c: char)
    requires c == ',' || c == '=' || c == '\n'
    ensures c !in IntToDecimal(x)
  {
  }

  /** A separator-free field followed by a comma adds exactly that field in front of the pieces of the rest. */
  lemma SplitField(a: string, rest: string)
    requires ',' !in a
    ensures Split(a + [','] + rest, ',') == [a] + Split(rest, ',')
  {
    SplitAppend(a, rest, ',');
    SplitFree(a, ',');
  }

  /** A separator-free field followed by the final comma splits into that field and an empty rest. */
  lemma SplitLastField(t: string)
    requires ',' !in t
    ensures Split(t + [','], ',') == [t, []]
  {
    SplitField(t, []);
    assert t + [','] + [] == t + [','];
  }

  lemma SplitTwoFields(b: string, t: string)
    requires ',' !in b && ',' !in t
    ensures Split(b + [','] + (t + [',']), ',') == [b, t, []]
  {
    SplitLastField(t);
    SplitField(b, t + [',']);
  }

  /** Three separator-free fields, each followed by a comma, split back into those fields and an empty rest. */
  lemma SplitCsvFields(a: string, b: string, t: string)
    requires ',' !in a && ',' !in b && ',' !in t
    ensures Split(a + [','] + (b + [','] + (t + [','])), ',') == [a, b, t, []]
  {
    var rest := b + [','] + (t + [',']);
    var tail := Split(rest, ',');
    SplitTwoFields(b, t);
    assert tail == [b, t, []];
    SplitField(a, rest);
    assert Split(a + [','] + rest, ',') == [a] + tail;
    assert [a] + tail == [a, b, t, []];
  }

  lemma CsvRecordShape(runId: Int64, index: nat, timeNs: Int64)
    ensures var a, b, t := IntToDecimal(runId), IntToDecimal(index), IntToDecimal(timeNs);
      CsvRecord(runId, index, timeNs) == a + [','] + (b + [','] + (t + [',']))
  {
  }

  /** One CSV line reads back as its run id, index and delta. */
  lemma CsvRecordRoundTrip(runId: Int64, index: nat, timeNs: Int64)
    ensures ParseCsvRecord(CsvRecord(runId, index, timeNs)) == Some(CsvRow(runId, index, timeNs))
  {
    DecimalHasNoSeparator(runId, ',');
    DecimalHasNoSeparator(index, ',');
    DecimalHasNoSeparator(timeNs, ',');
    CsvRecordShape(runId, index, timeNs);
    SplitCsvFields(IntToDecimal(runId), IntToDecimal(index), IntToDecimal(timeNs));
    ParseIntOfDecimal(runId);
    ParseIntOfDecimal(index);
    ParseIntOfDecimal(timeNs);
  }

  /** `WriteCSVTrace` writes exactly one newline-terminated line per record, line i being record i. */
  lemma CsvLineStructure(logs: seq<InstrumenterLog>, runId: Int64)
    ensures Split(CsvText(logs, runId), '\n') == CsvRecords(logs, runId) + [[]]
  {
    var rows := CsvRecords(logs, runId);
    forall i | 0 <= i < |rows|
      ensures '\n' !in rows[i]
    {
      DecimalHasNoSeparator(runId, '\n');
      DecimalHasNoSeparator(i, '\n');
      DecimalHasNoSeparator(logs[i].timeNs, '\n');
    }
    SplitLines(rows);
  }

  /** A CSV trace reads back as (run id, position, delta) for every record, in order. */
  lemma CsvRoundTrip(logs: seq<InstrumenterLog>, runId: Int64)
    ensures ParseCsv(CsvText(logs, runId))
      == Some(seq(|logs|, i requires 0 <= i < |logs| => CsvRow(runId, i, logs[i].timeNs)))
  {
    var rows := CsvRecords(logs, runId);
    var vals := seq(|logs|, i requires 0 <= i < |logs| => CsvRow(runId, i, logs[i].timeNs));
    CsvLineStructure(logs, runId);
    assert (rows + [[]])[..|rows|] == rows;
    forall i | 0 <= i < |rows|
      ensures ParseCsvRecord(rows[i]) == Some(vals[i])
    {
      CsvRecordRoundTrip(runId, i, logs[i].timeNs);
    }
    ParseAllOf(ParseCsvRecord, rows, vals);
  }

  /** The CSV form depends on the deltas only: pc and opcode never reach it. */
  lemma CsvIgnoresPcAndOp(a: seq<InstrumenterLog>, b: seq<InstrumenterLog>, runId: Int64)
    requires |a| == |b|
    requires forall i :: 0 <= i < |a| ==> a[i].timeNs == b[i].timeNs
    ensures CsvText(a, runId) == CsvText(b, runId)
  {
    assert CsvRecords(a, runId) == CsvRecords(b, runId);
  }

  /** The text after the last '=' of `head + "=" + t`, when `t` holds no '='. */
  lemma LastField(head: string, t: string)
    requires '=' !in t
    ensures var line := head + ['='] + t;
      && LastIndexOf(line, '=') == Some(|head|)
      && line[..|head|] == head && line[|head| + 1..] == t
  {
    LastIndexOfAppend(head, t, '=');
    var line := head + ['='] + t;
    assert line[..|head|] == head;
    assert line[|head| + 1..] == t;
  }

  /** Reading a line from the right recovers the name column whatever it holds. */
  lemma ParseTraceFields(name: string, z: string, t: string, pc: nat, timeNs: int)
    requires '=' !in z && '=' !in t
    requires ParseNat(z) == Some(pc) && ParseInt(t) == Some(timeNs)
    ensures ParseTraceRecord(name + "pc=" + z + " time_ns=" + t) == Some(TraceRow(name, pc, timeNs))
  {
    var head3 := name + "pc";
    var head2 := head3 + ['='] + z;
    var head := head2 + " time_ns";
    var line := head + ['='] + t;
    assert name + "pc=" + z + " time_ns=" + t == line;
    LastField(head, t);
    assert HasSuffix(head, " time_ns") && head[..|head| - 8] == head2;
    LastField(head3, z);
    assert HasSuffix(head3, "pc") && head3[..|head3| - 2] == name;
  }

  /** One human-readable line reads back as its padded name column, pc and delta. */
  lemma TraceRecordRoundTrip(opName: OpCode -> string, log: InstrumenterLog)
    ensures ParseTraceRecord(TraceRecord(opName, log))
      == Some(TraceRow(PadRight(opName(log.op), NameWidth, ' '), log.pc, log.timeNs))
  {
    var digits := NatToDecimal(log.pc);
    var z := PadLeft(digits, PcWidth, '0');
    ZeroPadValue(digits, PcWidth);
    NatToDecimalValue(log.pc);
    ParseIntOfDecimal(log.timeNs);
    DecimalHasNoSeparator(log.timeNs, '=');
    assert '=' !in z by {
      assert forall i :: 0 <= i < |z| ==> IsDigit(z[i]);
    }
    ParseTraceFields(PadRight(opName(log.op), NameWidth, ' '), z, IntToDecimal(log.timeNs), log.pc, log.timeNs);
  }

  /** `WriteTrace` writes exactly one newline-terminated line per record when no op name holds a newline. */
  lemma TraceLineStructure(opName: OpCode -> string, logs: seq<InstrumenterLog>)
    requires forall op :: '\n' !in opName(op)
    ensures Split(TraceText(opName, logs), '\n') == TraceRecords(opName, logs) + [[]]
  {
    var rows := TraceRecords(opName, logs);
    forall i | 0 <= i < |rows|
      ensures '\n' !in rows[i]
    {
      var log := logs[i];
      var name := opName(log.op);
      var padded := PadRight(name, NameWidth, ' ');
      assert '\n' !in padded by {
        assert forall j :: 0 <= j < |padded| ==> padded[j] == ' ' || padded[j] == padded[..|name|][j];
      }
      var z := PadLeft(NatToDecimal(log.pc), PcWidth, '0');
      ZeroPadValue(NatToDecimal(log.pc), PcWidth);
      assert '\n' !in z by {
        assert forall j :: 0 <= j < |z| ==> IsDigit(z[j]);
      }
      DecimalHasNoSeparator(log.timeNs, '\n');
    }
    SplitLines(rows);
  }

  /**
   A human-readable trace reads back as (padded name, pc, delta) for every
   record, in order, provided no op name holds a newline.
   */
  lemma TraceRoundTrip(opName: OpCode -> string, logs: seq<InstrumenterLog>)
    requires forall op :: '\n' !in opName(op)
    ensures ParseTrace(TraceText(opName, logs))
      == Some(seq(|logs|, i requires 0 <= i < |logs| =>
                TraceRow(PadRight(opName(logs[i].op), NameWidth, ' '), logs[i].pc, logs[i].timeNs)))
  {
    var rows := TraceRecords(opName, logs);
    var vals := seq(|logs|, i requires 0 <= i < |logs| =>
                  TraceRow(PadRight(opName(logs[i].op), NameWidth, ' '), logs[i].pc, logs[i].timeNs));
    TraceLineStructure(opName, logs);
    assert (rows + [[]])[..|rows|] == rows;
    forall i | 0 <= i < |rows|
      ensures ParseTraceRecord(rows[i]) == Some(vals[i])
    {
      TraceRecordRoundTrip(opName, logs[i]);
    }
    ParseAllOf(ParseTraceRecord, rows, vals);
  }

  /** The CSV form of a run id 3 trace with deltas 10 and 20. */
  lemma CsvExample()
    ensures CsvText([InstrumenterLog(0, 0, 10), InstrumenterLog(0, 0, 20)], 3) == "3,0,10,\n3,1,20,\n"
  {
  }

  /** An ADD (opcode 0x01) at pc 5 with delta 120, in the human-readable form. */
  lemma TraceExample()
    ensures TraceText(op => if op == 1 then "ADD" else "", [InstrumenterLog(5, 1, 120)])
      == "ADD             pc=00000005 time_ns=120\n"
  {
  }
}

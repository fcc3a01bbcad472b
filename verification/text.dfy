/**
 Text structure shared by both trace writers: newline-terminated lines
 (one `Fprintf` followed by one `Fprintln` per record), splitting a text at
 a separator character, and reading a list of lines back.
 */
module Text {
  import opened Options

  /** Every row followed by a newline, in order. */
  function Lines(rows: seq<string>): string {
    if rows == [] then [] else rows[0] + "\n" + Lines(rows[1..])
  }

  /** Appending one more row appends exactly that row and its newline. */
  lemma {:induction false} LinesSnoc(rows: seq<string>, row: string)
    ensures Lines(rows + [row]) == Lines(rows) + row + "\n"
    decreases |rows|
  {
    if rows != [] {
      assert (rows + [row])[1..] == rows[1..] + [row];
      LinesSnoc(rows[1..], row);
    }
  }

  /** The text of the first i+1 rows extends the text of the first i rows by row i. */
  lemma LinesPrefix(rows: seq<string>, i: nat)
    requires i < |rows|
    ensures Lines(rows[..i + 1]) == Lines(rows[..i]) + rows[i] + "\n"
  {
    assert rows[..i + 1] == rows[..i] + [rows[i]];
    LinesSnoc(rows[..i], rows[i]);
  }

  /** Writing row i and a newline after the text of the first i rows gives the text of the first i+1. */
  lemma AppendLine(sink: string, acc: string, rows: seq<string>, i: nat)
    requires i < |rows| && acc == sink + Lines(rows[..i])
    ensures acc + rows[i] + "\n" == sink + Lines(rows[..i + 1])
  {
    LinesPrefix(rows, i);
  }

  /** Index of the first `c` in `s`, or `|s|` when there is none. */
  function FindChar(s: string, c: char): (k: nat)
    ensures k <= |s|
    decreases |s|
  {
    if s == [] then 0 else if s[0] == c then 0 else 1 + FindChar(s[1..], c)
  }

  /** Text free of `c` is scanned to its end; the first separator after it is found there. */
  lemma {:induction false} FindCharAfterFree(a: string, rest: string, c: char)
    requires c !in a
    ensures FindChar(a + rest, c) == |a| + FindChar(rest, c)
    decreases |a|
  {
    if a != [] {
      assert (a + rest)[1..] == a[1..] + rest;
      FindCharAfterFree(a[1..], rest, c);
    } else {
      assert a + rest == rest;
    }
  }

  /** A separator found inside `a` is still the first one once more text follows. */
  lemma {:induction false} FindCharExtend(a: string, rest: string, c: char)
    requires FindChar(a, c) < |a|
    ensures FindChar(a + rest, c) == FindChar(a, c)
    decreases |a|
  {
    if a[0] != c {
      assert (a + rest)[1..] == a[1..] + rest;
      FindCharExtend(a[1..], rest, c);
    }
  }

  lemma {:induction false} FindCharFinds(s: string, c: char)
    ensures FindChar(s, c) < |s| ==> s[FindChar(s, c)] == c
    ensures FindChar(s, c) == |s| ==> c !in s
    decreases |s|
  {
    if s != [] && s[0] != c {
      FindCharFinds(s[1..], c);
      assert s == [s[0]] + s[1..];
    }
  }

  /** The pieces of `s` between occurrences of `c`; there is always one more piece than separators. */
  function Split(s: string, c: char): (parts: seq<string>)
    ensures 1 <= |parts|
    decreases |s|
  {
    var k := FindChar(s, c);
    if k == |s| then [s] else [s[..k]] + Split(s[k + 1..], c)
  }

  lemma SplitFree(a: string, c: char)
    requires c !in a
    ensures Split(a, c) == [a]
  {
    FindCharAfterFree(a, [], c);
    assert a + [] == a;
  }

  /** A separator between two texts separates their pieces. */
  lemma {:induction false} SplitAppend(a: string, b: string, c: char)
    ensures Split(a + [c] + b, c) == Split(a, c) + Split(b, c)
    decreases |a|
  {
    var s := a + [c] + b;
    var k := FindChar(a, c);
    FindCharFinds(a, c);
    if k == |a| {
      FindCharAfterFree(a, [c] + b, c);
      assert s == a + ([c] + b);
      assert FindChar(s, c) == |a|;
      assert s[..|a|] == a && s[|a| + 1..] == b;
    } else {
      FindCharExtend(a, [c] + b, c);
      assert s == a + ([c] + b);
      assert FindChar(s, c) == k;
      assert s[..k] == a[..k];
      assert s[k + 1..] == a[k + 1..] + [c] + b;
      SplitAppend(a[k + 1..], b, c);
    }
  }

  /** Newline-terminated rows that hold no newline split back into those rows, plus the empty rest after the last newline. */
  lemma {:induction false} SplitLines(rows: seq<string>)
    requires forall i :: 0 <= i < |rows| ==> '\n' !in rows[i]
    ensures Split(Lines(rows), '\n') == rows + [[]]
    decreases |rows|
  {
    if rows != [] {
      SplitLines(rows[1..]);
      assert Lines(rows) == rows[0] + ['\n'] + Lines(rows[1..]);
      SplitAppend(rows[0], Lines(rows[1..]), '\n');
      SplitFree(rows[0], '\n');
      assert rows == [rows[0]] + rows[1..];
    }
  }

  /** Index of the last `c` in `s`. */
  function LastIndexOf(s: string, c: char): (r: Option<nat>)
    ensures r.None? ==> c !in s
    ensures r.Some? ==> r.value < |s| && s[r.value] == c
    ensures r.Some? ==> forall i :: r.value < i < |s| ==> s[i] != c
    decreases |s|
  {
    if s == [] then None
    else if s[|s| - 1] == c then Some(|s| - 1)
    else LastIndexOf(s[..|s| - 1], c)
  }

  /** The last `c` of a text is the one after which no `c` follows. */
  lemma {:induction false} LastIndexOfAppend(a: string, b: string, c: char)
    requires c !in b
    ensures LastIndexOf(a + [c] + b, c) == Some(|a|)
    decreases |b|
  {
    var s := a + [c] + b;
    if b != [] {
      assert s[|s| - 1] == b[|b| - 1];
      assert s[..|s| - 1] == a + [c] + b[..|b| - 1];
      LastIndexOfAppend(a, b[..|b| - 1], c);
    }
  }

  predicate HasSuffix(s: string, suffix: string) {
    |suffix| <= |s| && s[|s| - |suffix|..] == suffix
  }

  /** Reads every row with `f`; fails if any row fails. */
  function ParseAll<T>(f: string -> Option<T>, rows: seq<string>): (r: Option<seq<T>>)
    ensures r.Some? ==> |r.value| == |rows|
    decreases |rows|
  {
    if rows == [] then Some([])
    else
      match (f(rows[0]), ParseAll(f, rows[1..]))
      case (Some(v), Some(vs)) => Some([v] + vs)
      case _ => None
  }

  lemma {:induction false} ParseAllOf<T>(f: string -> Option<T>, rows: seq<string>, vals: seq<T>)
    requires |rows| == |vals|
    requires forall i :: 0 <= i < |rows| ==> f(rows[i]) == Some(vals[i])
    ensures ParseAll(f, rows) == Some(vals)
    decreases |rows|
  {
    if rows != [] {
      ParseAllOf(f, rows[1..], vals[1..]);
      assert vals == [vals[0]] + vals[1..];
    }
  }
}

/**
 Width padding as Go's `fmt` applies it: `%-Ns` fills with spaces on the right,
 `%0Nd` fills with zeros on the left. Widths count characters (Go counts runes).
 Padding never truncates.
 */
module Padding {
  import opened Decimal

  function Repeat(c: char, n: nat): (r: string)
    ensures |r| == n
    ensures forall i :: 0 <= i < n ==> r[i] == c
  {
    seq(n, _ => c)
  }

  /** `s` followed by enough `fill` characters to reach `width`. */
  function PadRight(s: string, width: nat, fill: char): (r: string)
    ensures |r| == if |s| < width then width else |s|
    ensures r[..|s|] == s
    ensures forall i :: |s| <= i < |r| ==> r[i] == fill
    ensures width <= |s| ==> r == s
  {
    if |s| < width then s + Repeat(fill, width - |s|) else s
  }

  /** Enough `fill` characters to reach `width`, followed by `s`. */
  function PadLeft(s: string, width: nat, fill: char): (r: string)
    ensures |r| == if |s| < width then width else |s|
    ensures r[|r| - |s|..] == s
    ensures forall i :: 0 <= i < |r| - |s| ==> r[i] == fill
    ensures width <= |s| ==> r == s
  {
    if |s| < width then Repeat(fill, width - |s|) + s else s
  }

  /** Zero-padding a digit string (Go's `%08d`) keeps its value. */
  lemma ZeroPadValue(s: string, width: nat)
    requires AllDigits(s)
    ensures AllDigits(PadLeft(s, width, '0'))
    ensures DigitsValue(PadLeft(s, width, '0')) == DigitsValue(s)
  {
    var r := PadLeft(s, width, '0');
    var z := r[..|r| - |s|];
    assert r == z + s;
    LeadingZerosValue(z, s);
  }
}

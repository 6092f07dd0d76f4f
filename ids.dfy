/**
 Node identifiers. The visualizer names the node for neuron `n` of step `idx`
 with the template literal `${n}-${idx}`: the neuron label, a dash, and the step index
 written in decimal. This module models that rendering and gives it an inverse,
 which shows that two identifiers coincide only when both the neuron label and the
 step coincide.
 */
module Ids {
  import opened Wrappers

  predicate IsDigit(c: char) {
    '0' <= c <= '9'
  }

  predicate AllDigits(s: string) {
    forall k :: 0 <= k < |s| ==> IsDigit(s[k])
  }

  function DigitChar(d: nat): (c: char)
    requires d < 10
    ensures IsDigit(c)
  {
    ('0' as int + d) as char
  }

  function DigitValue(c: char): (d: nat)
    requires IsDigit(c)
    ensures d < 10
  {
    c as int - '0' as int
  }

  /** How JavaScript renders a non-negative integer index: decimal digits, no leading zero. */
  function Decimal(n: nat): (s: string)
    ensures |s| >= 1 && AllDigits(s)
    ensures |s| > 1 ==> s[0] != '0'
    ensures n < 10 <==> |s| == 1
  {
    if n < 10 then [DigitChar(n)] else Decimal(n / 10) + [DigitChar(n % 10)]
  }

  /** Reads a string of decimal digits back as a number (most significant digit first). */
  function ParseDecimal(s: string): nat
    requires AllDigits(s)
  {
    if s == [] then 0 else 10 * ParseDecimal(s[..|s| - 1]) + DigitValue(s[|s| - 1])
  }

  /** Rendering an index and reading it back gives the index. */
  lemma {:induction false} ParseDecimalOfDecimal(n: nat)
    ensures ParseDecimal(Decimal(n)) == n
  {
    var s := Decimal(n);
    if n >= 10 {
      assert s[..|s| - 1] == Decimal(n / 10);
      ParseDecimalOfDecimal(n / 10);
    } else {
      assert s[..|s| - 1] == [];
    }
  }

  /** The identifier `${n}-${idx}` of the node for the neuron labelled `neuron` in step `idx`. */
  function NodeId(neuron: string, idx: nat): string {
    neuron + "-" + Decimal(idx)
  }

  /** The position of the last '-' in `s`, if there is one. */
  function LastDash(s: string): (r: Option<nat>)
    ensures r.Some? ==> r.value < |s| && s[r.value] == '-'
    ensures r.Some? ==> forall k :: r.value < k < |s| ==> s[k] != '-'
    ensures r.None? ==> forall k :: 0 <= k < |s| ==> s[k] != '-'
  {
    if s == [] then None
    else if s[|s| - 1] == '-' then Some(|s| - 1)
    else LastDash(s[..|s| - 1])
  }

  /**
   Splits an identifier at its last dash into a neuron label and a decimal step index;
   `None` when there is no dash or the text after the last one is not a number.
   */
  function SplitId(id: string): Option<(string, nat)> {
    match LastDash(id)
    case None => None
    case Some(p) =>
      var digits := id[p + 1..];
      if digits != [] && AllDigits(digits) then Some((id[..p], ParseDecimal(digits))) else None
  }

  /** SplitId inverts NodeId, whatever dashes or digits the neuron label itself contains. */
  lemma SplitIdOfNodeId(neuron: string, idx: nat)
    ensures SplitId(NodeId(neuron, idx)) == Some((neuron, idx))
  {
    var id := NodeId(neuron, idx);
    var d := Decimal(idx);
    assert id == neuron + ['-'] + d;
    assert id[|neuron|] == '-';
    forall k | |neuron| < k < |id| ensures id[k] != '-' {
      assert id[k] == d[k - |neuron| - 1];
    }
    var p := LastDash(id);
    assert p == Some(|neuron|);
    assert id[|neuron| + 1..] == d;
    assert id[..|neuron|] == neuron;
    ParseDecimalOfDecimal(idx);
  }

  /** Two node identifiers are equal exactly when their labels and their steps are. */
  lemma NodeIdInjective(a: string, i: nat, b: string, j: nat)
    ensures NodeId(a, i) == NodeId(b, j) <==> a == b && i == j
  {
    if NodeId(a, i) == NodeId(b, j) {
      SplitIdOfNodeId(a, i);
      SplitIdOfNodeId(b, j);
    }
  }
}

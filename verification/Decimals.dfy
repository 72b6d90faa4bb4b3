/** The texts that the evaluators of the order chain exchange: four-decimal numbers and severity labels. */
module Decimals {
  import opened Text

  /** A multiple of 0.0001. */
  function Grid(n: int): real {
    n as real / 10000.0
  }

  /**
   What is asked of formatting a number with four decimals and parsing it back: the order is kept,
   and numbers with four decimals stay what they are.
   */
  ghost predicate IsRounding(round: real -> real) {
    && (forall x: real, y: real | x <= y :: round(x) <= round(y))
    && (forall n: int :: round(Grid(n)) == Grid(n))
  }

  /** Rounding half up to four decimals. */
  function Round4(x: real): real {
    Grid((x * 10000.0 + 0.5).Floor)
  }

  /** There are such functions. */
  lemma Round4IsRounding()
    ensures IsRounding(Round4)
  {
    forall x: real, y: real | x <= y
      ensures Round4(x) <= Round4(y)
    {
      GridMonotone((x * 10000.0 + 0.5).Floor, (y * 10000.0 + 0.5).Floor);
    }
    forall n: int
      ensures Round4(Grid(n)) == Grid(n)
    {
      assert Grid(n) * 10000.0 == n as real;
      assert (n as real + 0.5).Floor == n;
    }
  }

  lemma GridMonotone(m: int, n: int)
    requires m <= n
    ensures Grid(m) <= Grid(n)
  {
  }

  function LowerChar(c: char): char {
    if 'A' <= c <= 'Z' then c - 'A' + 'a' else c
  }

  /** Trimmed and in lower case, which is how labels are looked up. */
  function Normalized(s: string): string {
    var t := TrimSpace(s);
    seq(|t|, i requires 0 <= i < |t| => LowerChar(t[i]))
  }

  /** White space around a label and the case of its letters do not matter. */
  lemma LabelsAreRecognised(left: string, written: string, right: string, name: string)
    requires AllSpace(left) && AllSpace(right) && |written| == |name|
    requires Trimmed(name) && forall i | 0 <= i < |name| :: !('A' <= name[i] <= 'Z')
    requires forall i | 0 <= i < |name| ::
               written[i] == name[i] || ('a' <= name[i] <= 'z' && written[i] == name[i] - 'a' + 'A')
    ensures Normalized(left + written + right) == name
  {
    TrimSpaceOfPadded(left, written, right);
  }

  /** A label in lower case without blanks around it is looked up as it is. */
  lemma NormalizedLabel(s: string)
    requires Trimmed(s) && forall i | 0 <= i < |s| :: !('A' <= s[i] <= 'Z')
    ensures Normalized(s) == s
  {
    assert TrimLeft(s) == s;
  }
}

/** Texts as sequences of runes, with the white-space trimming of Go's `strings` package. */
module Text {

  /** `unicode.IsSpace`: the Latin-1 blanks and every other rune with the White_Space property. */
  predicate IsSpace(c: char) {
    || c in "\t\n\r \U{000B}\U{000C}\U{0085}\U{00A0}\U{1680}"
    || '\U{2000}' <= c <= '\U{200A}'
    || c in "\U{2028}\U{2029}\U{202F}\U{205F}\U{3000}"
  }

  /** The twenty-five code points with that property. */
  lemma SpacesAreWhiteSpace(c: char)
    ensures IsSpace(c) <==>
              || 9 <= c as int <= 13 || c as int in {32, 133, 160, 5760} || 8192 <= c as int <= 8202
              || c as int in {8232, 8233, 8239, 8287, 12288}
  {
  }

  predicate AllSpace(s: string) {
    forall i | 0 <= i < |s| :: IsSpace(s[i])
  }

  function TrimLeft(s: string): string {
    if s != "" && IsSpace(s[0]) then TrimLeft(s[1..]) else s
  }

  function TrimRight(s: string): string {
    if s != "" && IsSpace(s[|s| - 1]) then TrimRight(s[..|s| - 1]) else s
  }

  /** `strings.TrimSpace`. */
  function TrimSpace(s: string): string {
    TrimRight(TrimLeft(s))
  }

  /** No white space at either end. */
  predicate Trimmed(s: string) {
    s != "" ==> !IsSpace(s[0]) && !IsSpace(s[|s| - 1])
  }

  lemma {:induction false} TrimLeftSplits(s: string) returns (left: string)
    ensures AllSpace(left) && s == left + TrimLeft(s)
    ensures TrimLeft(s) != "" ==> !IsSpace(TrimLeft(s)[0])
  {
    hide IsSpace;
    if s != "" && IsSpace(s[0]) {
      var l := TrimLeftSplits(s[1..]);
      left := [s[0]] + l;
    } else {
      left := "";
    }
  }

  lemma {:induction false} TrimRightSplits(s: string) returns (right: string)
    ensures AllSpace(right) && s == TrimRight(s) + right
    ensures TrimRight(s) != "" ==> !IsSpace(TrimRight(s)[|TrimRight(s)| - 1])
  {
    hide IsSpace;
    if s != "" && IsSpace(s[|s| - 1]) {
      var init, last := s[..|s| - 1], s[|s| - 1];
      var r := TrimRightSplits(init);
      right := r + [last];
      assert s == init + [last] == (TrimRight(init) + r) + [last];
    } else {
      right := "";
    }
  }

  /** Trimming takes white space off both ends, all of it, and nothing else. */
  lemma TrimSpaceSplits(s: string) returns (left: string, right: string)
    ensures AllSpace(left) && AllSpace(right)
    ensures s == left + TrimSpace(s) + right
    ensures Trimmed(TrimSpace(s))
  {
    left := TrimLeftSplits(s);
    right := TrimRightSplits(TrimLeft(s));
    if TrimSpace(s) != "" {
      assert TrimSpace(s)[0] == TrimLeft(s)[0];
    }
  }

  lemma {:induction false} TrimLeftOfSpace(left: string, s: string)
    requires AllSpace(left)
    ensures TrimLeft(left + s) == TrimLeft(s)
  {
    hide IsSpace;
    if left == "" {
      assert left + s == s;
    } else {
      assert (left + s)[1..] == left[1..] + s;
      TrimLeftOfSpace(left[1..], s);
    }
  }

  lemma {:induction false} TrimRightOfSpace(s: string, right: string)
    requires AllSpace(right)
    ensures TrimRight(s + right) == TrimRight(s)
  {
    hide IsSpace;
    if right == "" {
      assert s + right == s;
    } else {
      assert (s + right)[..|s + right| - 1] == s + right[..|right| - 1];
      TrimRightOfSpace(s, right[..|right| - 1]);
    }
  }

  /** White space around an already trimmed text is exactly what trimming removes. */
  lemma TrimSpaceOfPadded(left: string, s: string, right: string)
    requires AllSpace(left) && AllSpace(right) && Trimmed(s)
    ensures TrimSpace(left + s + right) == s
  {
    hide IsSpace;
    assert left + s + right == left + (s + right);
    TrimLeftOfSpace(left, s + right);
    if s == "" {
      assert s + right == right + "";
      TrimLeftOfSpace(right, "");
    } else {
      assert (s + right)[0] == s[0];
      TrimRightOfSpace(s, right);
    }
  }

  lemma TrimSpaceOfLeftPadded(left: string, s: string)
    requires AllSpace(left)
    ensures TrimSpace(left + s) == TrimSpace(s)
  {
    TrimLeftOfSpace(left, s);
  }

  /** `strings.Join`. */
  function Join(parts: seq<string>, sep: string): string {
    if parts == [] then ""
    else if |parts| == 1 then parts[0]
    else parts[0] + sep + Join(parts[1..], sep)
  }
}

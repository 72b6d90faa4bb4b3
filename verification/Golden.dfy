/** The golden snapshot comparison of codegen/compare.go, without the reading of the file. */
module Golden {
  import opened Text

  datatype LineDiff = LineDiff(line: nat, expected: string, got: string)

  datatype CompareResult = CompareResult(pass: bool, diffs: seq<LineDiff>)

  // ---------------------------------------------------------------- lines

  /** `strings.Split` at line feeds: one line more than there are line feeds. */
  function Lines(s: string): (lines: seq<string>)
    ensures |lines| >= 1
  {
    if s == "" then [""]
    else
      var rest := Lines(s[1..]);
      if s[0] == '\n' then [""] + rest else [[s[0]] + rest[0]] + rest[1..]
  }

  lemma {:induction false} LinesHaveNoLineFeeds(s: string)
    ensures forall i | 0 <= i < |Lines(s)| :: '\n' !in Lines(s)[i]
  {
    if s != "" {
      LinesHaveNoLineFeeds(s[1..]);
    }
  }

  lemma {:induction false} OneLine(s: string)
    requires '\n' !in s
    ensures Lines(s) == [s]
  {
    if s != "" {
      OneLine(s[1..]);
      assert s == [s[0]] + s[1..];
    }
  }

  /** A line feed separates the lines before it from those after it. */
  lemma {:induction false} LinesOfParts(a: string, b: string)
    ensures Lines(a + "\n" + b) == Lines(a) + Lines(b)
  {
    var s := a + "\n" + b;
    if a == "" {
      assert s[1..] == b;
    } else {
      assert s[1..] == a[1..] + "\n" + b;
      LinesOfParts(a[1..], b);
    }
  }

  /** Splitting undoes joining. */
  lemma {:induction false} LinesOfJoin(lines: seq<string>)
    requires lines != [] && forall i | 0 <= i < |lines| :: '\n' !in lines[i]
    ensures Lines(Join(lines, "\n")) == lines
  {
    OneLine(lines[0]);
    if |lines| > 1 {
      LinesOfJoin(lines[1..]);
      LinesOfParts(lines[0], Join(lines[1..], "\n"));
      assert lines == [lines[0]] + lines[1..];
    }
  }

  // ---------------------------------------------------------------- the normal form

  predicate SlashesAt(s: string, i: int) {
    0 <= i && i + 1 < |s| && s[i] == '/' && s[i + 1] == '/'
  }

  /** `strings.Index` for two slashes: the first place they are at, or -1. */
  function Index(s: string): (i: int)
    ensures i == -1 || SlashesAt(s, i)
    ensures forall j | 0 <= j < |s| && SlashesAt(s, j) :: 0 <= i <= j
  {
    if s == "" then -1
    else if SlashesAt(s, 0) then 0
    else
      var i := Index(s[1..]);
      assert forall j | 0 < j < |s| && SlashesAt(s, j) :: SlashesAt(s[1..], j - 1);
      if i < 0 then -1 else i + 1
  }

  /** `strings.ReplaceAll` of tabs by spaces. */
  function Spaced(s: string): (t: string)
    ensures |t| == |s| && forall i | 0 <= i < |s| :: t[i] == if s[i] == '\t' then ' ' else s[i]
  {
    if s == "" then "" else Spaced(s[..|s| - 1]) + [if s[|s| - 1] == '\t' then ' ' else s[|s| - 1]]
  }

  function Uncommented(line: string): string {
    if Index(line) >= 0 then line[..Index(line)] else line
  }

  function Clean(line: string): string {
    TrimSpace(Spaced(Uncommented(line)))
  }

  /** A line that normalisation would keep as it is. */
  predicate Normal(line: string) {
    line != "" && Trimmed(line) && '\t' !in line && '\n' !in line && forall i | 0 <= i < |line| :: !SlashesAt(line, i)
  }

  function CleanAll(lines: seq<string>): seq<string> {
    if lines == [] then []
    else
      var line := Clean(lines[|lines| - 1]);
      CleanAll(lines[..|lines| - 1]) + if line == "" then [] else [line]
  }

  lemma CleanOneMore(lines: seq<string>, i: nat)
    requires i < |lines|
    ensures CleanAll(lines[..i + 1]) == CleanAll(lines[..i]) + if Clean(lines[i]) == "" then [] else [Clean(lines[i])]
    ensures Clean(lines[i]) == "" ==> CleanAll(lines[..i + 1]) == CleanAll(lines[..i])
  {
    assert lines[..i + 1][..i] == lines[..i];
  }

  function NormalLines(s: string): seq<string> {
    CleanAll(Lines(s))
  }

  function NormalForm(s: string): string {
    Join(NormalLines(s), "\n")
  }

  /** No line feed, no tab and no comment. */
  predicate Plain(s: string) {
    '\n' !in s && '\t' !in s && forall i | 0 <= i < |s| :: !SlashesAt(s, i)
  }

  lemma PlainBeforeTrim(line: string)
    requires '\n' !in line
    ensures Plain(Spaced(Uncommented(line)))
  {
    var u := Uncommented(line);
    var t := Spaced(u);
    forall i | 0 <= i < |t|
      ensures t[i] != '\n' && t[i] != '\t' && !SlashesAt(t, i)
    {
      assert u[i] == line[i];
      assert SlashesAt(t, i) ==> SlashesAt(u, i) && SlashesAt(line, i);
    }
  }

  lemma PlainPart(left: string, s: string, right: string)
    requires Plain(left + s + right)
    ensures Plain(s)
  {
    var all := left + s + right;
    assert forall i | 0 <= i < |s| :: s[i] == all[|left| + i];
    forall i | 0 <= i < |s|
      ensures !SlashesAt(s, i)
    {
      assert SlashesAt(s, i) ==> SlashesAt(all, |left| + i);
    }
  }

  lemma CleanIsNormal(line: string)
    requires '\n' !in line
    ensures Clean(line) != "" ==> Normal(Clean(line))
  {
    hide IsSpace, TrimSpace, Uncommented;
    PlainBeforeTrim(line);
    var left, right := TrimSpaceSplits(Spaced(Uncommented(line)));
    PlainPart(left, Clean(line), right);
  }

  lemma NormalStaysClean(line: string)
    requires Normal(line)
    ensures Clean(line) == line
  {
    assert Index(line) == -1;
    assert Spaced(line) == line;
    TrimSpaceOfPadded("", line, "");
    assert "" + line + "" == line;
  }

  lemma {:induction false} CleanAllIsNormal(lines: seq<string>)
    requires forall i | 0 <= i < |lines| :: '\n' !in lines[i]
    ensures forall i | 0 <= i < |CleanAll(lines)| :: Normal(CleanAll(lines)[i])
  {
    hide Clean, Normal;
    if lines != [] {
      CleanAllIsNormal(lines[..|lines| - 1]);
      CleanIsNormal(lines[|lines| - 1]);
    }
  }

  lemma {:induction false} NormalStaysCleanAll(lines: seq<string>)
    requires forall i | 0 <= i < |lines| :: Normal(lines[i])
    ensures CleanAll(lines) == lines
  {
    hide Clean;
    if lines != [] {
      var init, last := lines[..|lines| - 1], lines[|lines| - 1];
      NormalStaysCleanAll(init);
      NormalStaysClean(last);
      assert lines == init + [last];
    }
  }

  /** No line of a normal form is blank, untrimmed, commented or tabbed. */
  lemma NormalFormIsNormal(s: string)
    ensures forall i | 0 <= i < |NormalLines(s)| :: Normal(NormalLines(s)[i])
    ensures Lines(NormalForm(s)) == if NormalLines(s) == [] then [""] else NormalLines(s)
  {
    hide Normal;
    LinesHaveNoLineFeeds(s);
    CleanAllIsNormal(Lines(s));
    if NormalLines(s) != [] {
      forall i | 0 <= i < |NormalLines(s)|
        ensures '\n' !in NormalLines(s)[i]
      {
        NoLineFeed(NormalLines(s)[i]);
      }
      LinesOfJoin(NormalLines(s));
    }
  }

  lemma NoLineFeed(line: string)
    requires Normal(line)
    ensures '\n' !in line && line != ""
  {
  }

  /** Normalisation is idempotent. */
  lemma Idempotent(s: string)
    ensures NormalForm(NormalForm(s)) == NormalForm(s)
    ensures NormalLines(NormalForm(s)) == NormalLines(s)
  {
    hide Normal;
    NormalFormIsNormal(s);
    if NormalLines(s) == [] {
      assert Clean("") == "";
      BlankLine("");
    } else {
      NormalStaysCleanAll(NormalLines(s));
    }
  }

  lemma BlankLine(line: string)
    requires Clean(line) == ""
    ensures CleanAll([line]) == []
  {
    assert [line][..0] == [];
  }

  // ---------------------------------------------------------------- what the comparison cannot see

  lemma {:induction false} CleanAllOfParts(a: seq<string>, b: seq<string>)
    ensures CleanAll(a + b) == CleanAll(a) + CleanAll(b)
  {
    hide Clean;
    if b == [] {
      assert a + b == a;
    } else {
      assert (a + b)[..|a + b| - 1] == a + b[..|b| - 1];
      CleanAllOfParts(a, b[..|b| - 1]);
    }
  }

  /** Normalisation works line by line. */
  lemma NormalLinesOfParts(a: string, b: string)
    ensures NormalLines(a + "\n" + b) == NormalLines(a) + NormalLines(b)
  {
    LinesOfParts(a, b);
    CleanAllOfParts(Lines(a), Lines(b));
  }

  /** A line of nothing but blanks and a comment can be put in anywhere, or taken out. */
  lemma CommentLinesAreInvisible(a: string, blanks: string, comment: string, b: string)
    requires AllSpace(blanks) && '\n' !in blanks && '\n' !in comment
    ensures NormalForm(a + "\n" + (blanks + "//" + comment) + "\n" + b) == NormalForm(a + "\n" + b)
  {
    var line := blanks + "//" + comment;
    CommentLine(blanks, comment);
    OneLine(line);
    BlankLine(line);
    NormalLinesOfParts(a, line);
    NormalLinesOfParts(a + "\n" + line, b);
    NormalLinesOfParts(a, b);
    assert NormalLines(a) + [] == NormalLines(a);
  }

  lemma CommentLine(blanks: string, comment: string)
    requires AllSpace(blanks)
    ensures Clean(blanks + "//" + comment) == ""
  {
    var line := blanks + "//" + comment;
    assert SlashesAt(line, |blanks|);
    assert forall i | 0 <= i < |blanks| :: line[i] == blanks[i] && line[i] != '/';
    assert Index(line) == |blanks|;
    assert Uncommented(line) == blanks;
    var t := Spaced(blanks);
    assert AllSpace(t);
    TrimSpaceOfPadded(t, "", "");
    assert t + "" + "" == t;
  }

  /** Before a comment that does not touch a slash the code survives as if the comment were not there. */
  lemma CodeBeforeComment(code: string, comment: string)
    requires forall i :: !SlashesAt(code + "/", i)
    ensures Clean(code + "//" + comment) == Clean(code)
    ensures '\t' !in code ==> Clean(code) == TrimSpace(code)
  {
    hide TrimSpace;
    var line := code + "//" + comment;
    assert SlashesAt(line, |code|);
    forall i | 0 <= i < |code|
      ensures !SlashesAt(line, i) && !SlashesAt(code, i)
    {
      var j := i + 1;
      assert line[i] == (code + "/")[i] && line[j] == (code + "/")[j] && !SlashesAt(code + "/", i);
    }
    assert Index(line) == |code| && Index(code) == -1;
    assert Uncommented(line) == code == Uncommented(code);
    if '\t' !in code {
      assert Spaced(code) == code;
    }
  }

  /** What normalisation keeps of a line of code with a comment after it: the code, trimmed. */
  lemma TrailingCommentsAreInvisible(a: string, code: string, comment: string, b: string)
    requires '\n' !in code && '\n' !in comment && forall i :: !SlashesAt(code + "/", i)
    ensures NormalForm(a + "\n" + (code + "//" + comment) + "\n" + b) == NormalForm(a + "\n" + code + "\n" + b)
    ensures '\t' !in code ==> NormalLines(code) == if TrimSpace(code) == "" then [] else [TrimSpace(code)]
  {
    hide Clean, TrimSpace, SlashesAt;
    var line := code + "//" + comment;
    CodeBeforeComment(code, comment);
    OneLine(line);
    OneLine(code);
    CleanOne(line);
    CleanOne(code);
    NormalLinesOfParts(a, line);
    NormalLinesOfParts(a + "\n" + line, b);
    NormalLinesOfParts(a, code);
    NormalLinesOfParts(a + "\n" + code, b);
  }

  lemma CleanOne(line: string)
    ensures CleanAll([line]) == if Clean(line) == "" then [] else [Clean(line)]
  {
    hide Clean;
    assert [line][..0] == [];
  }

  // ---------------------------------------------------------------- the comparison

  /** The line of that index, or the empty line past the end. */
  function Padded(lines: seq<string>, i: nat): string {
    if i < |lines| then lines[i] else ""
  }

  /** The differences among the first n lines. */
  function Diffs(golden: seq<string>, generated: seq<string>, n: nat): seq<LineDiff> {
    if n == 0 then []
    else
      var gl, genl := Padded(golden, n - 1), Padded(generated, n - 1);
      Diffs(golden, generated, n - 1) + if gl != genl then [LineDiff(n, gl, genl)] else []
  }

  lemma {:induction false} NoDiffsMeansEqual(golden: seq<string>, generated: seq<string>, n: nat)
    ensures Diffs(golden, generated, n) == [] <==> forall i | 0 <= i < n :: Padded(golden, i) == Padded(generated, i)
  {
    if n > 0 {
      NoDiffsMeansEqual(golden, generated, n - 1);
      assert Padded(golden, n - 1) == Padded(generated, n - 1) ==>
          Diffs(golden, generated, n) == Diffs(golden, generated, n - 1);
    }
  }

  /** A difference has the number of its line and both sides, which are not the same. */
  predicate Tells(d: LineDiff, golden: seq<string>, generated: seq<string>) {
    && d.line >= 1
    && d.expected == Padded(golden, d.line - 1) && d.got == Padded(generated, d.line - 1) && d.expected != d.got
  }

  predicate Lists(diffs: seq<LineDiff>, line: nat) {
    exists j | 0 <= j < |diffs| :: diffs[j].line == line
  }

  /** The differences are listed in the order of the lines, each one truly and none left out. */
  lemma {:induction false} DiffsAreListed(golden: seq<string>, generated: seq<string>, n: nat)
    ensures var diffs := Diffs(golden, generated, n);
            && (forall d | d in diffs :: Tells(d, golden, generated) && d.line <= n)
            && (forall j, k | 0 <= j < k < |diffs| :: diffs[j].line < diffs[k].line)
            && (forall i | 1 <= i <= n :: Lists(diffs, i) <==> Padded(golden, i - 1) != Padded(generated, i - 1))
  {
    hide Padded, Lists;
    if n > 0 {
      DiffsAreListed(golden, generated, n - 1);
      var before, diffs := Diffs(golden, generated, n - 1), Diffs(golden, generated, n);
      var differs := Padded(golden, n - 1) != Padded(generated, n - 1);
      var last := LineDiff(n, Padded(golden, n - 1), Padded(generated, n - 1));
      assert diffs == if differs then before + [last] else before;
      assert forall d :: d in diffs <==> d in before || (differs && d == last);
      forall i | 1 <= i <= n
        ensures Lists(diffs, i) <==> Padded(golden, i - 1) != Padded(generated, i - 1)
      {
        ListsGrow(before, last, i);
        if i == n {
          NotListed(before, n);
        }
      }
    } else {
      assert Diffs(golden, generated, 0) == [];
    }
  }

  lemma ListsGrow(diffs: seq<LineDiff>, d: LineDiff, line: nat)
    ensures Lists(diffs + [d], line) <==> Lists(diffs, line) || d.line == line
  {
    if j :| 0 <= j < |diffs| && diffs[j].line == line {
      assert (diffs + [d])[j].line == line;
    }
    if d.line == line {
      assert (diffs + [d])[|diffs|].line == line;
    }
  }

  lemma NotListed(diffs: seq<LineDiff>, line: nat)
    requires forall d | d in diffs :: d.line < line
    ensures !Lists(diffs, line)
  {
  }

  function Max(a: nat, b: nat): nat {
    if b > a then b else a
  }

  /** What the comparison of two texts finds. */
  function Compare(generated: string, golden: string): seq<LineDiff> {
    var g, h := Lines(NormalForm(golden)), Lines(NormalForm(generated));
    Diffs(g, h, Max(|g|, |h|))
  }

  lemma LongerDiffers(g: seq<string>, h: seq<string>)
    requires forall i | 0 <= i < |h| :: h[i] != ""
    ensures |g| < |h| ==> exists i | 0 <= i < |h| :: Padded(g, i) != Padded(h, i)
  {
    if |g| < |h| {
      assert Padded(g, |g|) != Padded(h, |g|);
    }
  }

  /** Padding is harmless between lists of lines none of which is blank, and only then. */
  lemma PaddingDecides(g: seq<string>, h: seq<string>)
    requires forall i | 0 <= i < |g| :: g[i] != ""
    requires forall i | 0 <= i < |h| :: h[i] != ""
    requires forall i | 0 <= i < Max(|g|, |h|) :: Padded(g, i) == Padded(h, i)
    ensures g == h
  {
    LongerDiffers(g, h);
    LongerDiffers(h, g);
    forall i | 0 <= i < |g|
      ensures g[i] == h[i]
    {
      assert Padded(g, i) == Padded(h, i);
    }
  }

  /** Two texts pass exactly when their normal forms are equal, although missing lines are padded. */
  lemma PassesIffSameNormalForm(generated: string, golden: string)
    ensures Compare(generated, golden) == [] <==> NormalForm(generated) == NormalForm(golden)
  {
    hide NormalForm, NormalLines, Lines, Diffs, Padded;
    var g, h := Lines(NormalForm(golden)), Lines(NormalForm(generated));
    NoDiffsMeansEqual(g, h, Max(|g|, |h|));
    if Compare(generated, golden) == [] {
      var a, b := NormalLines(golden), NormalLines(generated);
      PaddedLines(golden);
      PaddedLines(generated);
      forall i | 0 <= i < Max(|a|, |b|)
        ensures Padded(a, i) == Padded(b, i)
      {
        assert Padded(g, i) == Padded(h, i);
      }
      PaddingDecides(a, b);
      SameLines(golden, generated);
    }
  }

  /** The lines of a normal form, but for the one empty line of an empty form: padding does not tell them apart. */
  lemma PaddedLines(s: string)
    ensures var lines, normal := Lines(NormalForm(s)), NormalLines(s);
            && |normal| <= |lines|
            && (forall i: nat :: Padded(lines, i) == Padded(normal, i))
            && (forall i | 0 <= i < |normal| :: normal[i] != "")
  {
    hide NormalForm, NormalLines, Lines, Normal;
    NormalFormIsNormal(s);
    forall i | 0 <= i < |NormalLines(s)|
      ensures NormalLines(s)[i] != ""
    {
      NoLineFeed(NormalLines(s)[i]);
    }
  }

  lemma SameLines(a: string, b: string)
    requires NormalLines(a) == NormalLines(b)
    ensures NormalForm(a) == NormalForm(b)
  {
  }

  /** So passing is an equivalence on texts, and a text passes against its own normal form. */
  lemma PassingIsAnEquivalence(a: string, b: string, c: string)
    ensures Compare(a, a) == [] && Compare(NormalForm(a), a) == []
    ensures Compare(a, b) == [] ==> Compare(b, a) == []
    ensures Compare(a, b) == [] && Compare(b, c) == [] ==> Compare(a, c) == []
  {
    hide Compare, NormalForm;
    PassesIffSameNormalForm(a, a);
    PassesIffSameNormalForm(NormalForm(a), a);
    Idempotent(a);
    PassesIffSameNormalForm(a, b);
    PassesIffSameNormalForm(b, a);
    PassesIffSameNormalForm(b, c);
    PassesIffSameNormalForm(a, c);
  }

  /** Without normalisation the padding would let texts of different lengths pass. */
  lemma PaddingAloneWouldNotDo()
    ensures Diffs(["a"], ["a", ""], 2) == [] && ["a"] != ["a", ""]
  {
    NoDiffsMeansEqual(["a"], ["a", ""], 2);
  }

  method NormalizeForComparison(s: string) returns (normal: string)
    ensures normal == NormalForm(s)
  {
    var lines := Lines(s);
    var normalized: seq<string> := [];
    hide TrimSpace, Index, Spaced, Join, Lines;
    for i := 0 to |lines|
      invariant normalized == CleanAll(lines[..i])
    {
      CleanOneMore(lines, i);
      var line := lines[i];
      var idx := Index(line);
      if idx >= 0 {
        line := line[..idx];
      }
      line := Spaced(line);
      line := TrimSpace(line);
      assert line == Clean(lines[i]);
      if line == "" {
        continue;
      }
      normalized := normalized + [line];
    }
    assert lines[..|lines|] == lines;
    normal := Join(normalized, "\n");
  }

  method CompareWithGolden(generated: string, golden: string) returns (r: CompareResult)
    ensures r.pass <==> NormalForm(generated) == NormalForm(golden)
    ensures r.pass <==> r.diffs == []
    ensures r.diffs == Compare(generated, golden)
  {
    PassesIffSameNormalForm(generated, golden);
    hide NormalForm, Lines;
    var goldenNorm := NormalizeForComparison(golden);
    var generatedNorm := NormalizeForComparison(generated);
    var goldenLines := Lines(goldenNorm);
    var generatedLines := Lines(generatedNorm);
    var diffs := [];
    var maxLen := |goldenLines|;
    if |generatedLines| > maxLen {
      maxLen := |generatedLines|;
    }
    for i := 0 to maxLen
      invariant diffs == Diffs(goldenLines, generatedLines, i)
    {
      var gl, genl := "", "";
      if i < |goldenLines| {
        gl := goldenLines[i];
      }
      if i < |generatedLines| {
        genl := generatedLines[i];
      }
      if gl != genl {
        diffs := diffs + [LineDiff(i + 1, gl, genl)];
      }
    }
    r := CompareResult(|diffs| == 0, diffs);
  }
}

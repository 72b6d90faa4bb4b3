/** What the statement splitter guarantees about every migration text. */
module SplitterLaws {
  import opened Text
  import opened Splitter

  // ---------------------------------------------------------------- nothing is lost

  /** The untrimmed segments, joined by the separator again, are the text. */
  lemma {:induction false} SegmentsJoinToText(st: State, s: string)
    ensures Join(Segments(st, s), ";") == s
    decreases |s|
  {
    hide Advance;
    if s == "" {
    } else if Cuts(st, s) {
      var tail := Segments(Code, s[1..]);
      SegmentsJoinToText(Code, s[1..]);
      assert s[0] == ';' && s == "" + ";" + s[1..];
      JoinSeparated(tail, ";");
    } else {
      var m := Advance(st, s);
      var tail := Segments(m.next, s[m.width..]);
      SegmentsJoinToText(m.next, s[m.width..]);
      JoinPrepend(s[..m.width], tail, ";");
      assert s == s[..m.width] + s[m.width..];
    }
  }

  lemma JoinSeparated(segments: seq<string>, sep: string)
    requires segments != []
    ensures Join([""] + segments, sep) == "" + sep + Join(segments, sep)
  {
    assert ([""] + segments)[1..] == segments;
  }

  lemma JoinPrepend(a: string, segments: seq<string>, sep: string)
    requires segments != []
    ensures Join(Prepend(a, segments), sep) == a + Join(segments, sep)
  {
    var r := Prepend(a, segments);
    assert r[1..] == segments[1..];
    if |segments| > 1 {
      assert (a + segments[0]) + sep + Join(segments[1..], sep) == a + (segments[0] + sep + Join(segments[1..], sep));
    }
  }

  // ---------------------------------------------------------------- agreement with the reference lexer

  function Inside(n: nat): seq<bool> {
    seq(n, _ => false)
  }

  /** For each position of `s` and its end: is the scanner, started in `st`, in state `Code` there? */
  function ScannerMarks(st: State, s: string): (r: seq<bool>)
    ensures |r| == |s| + 1
    decreases |s|
  {
    if s == "" then [st.Code?]
    else
      var m := Advance(st, s);
      [st.Code?] + Inside(m.width - 1) + ScannerMarks(m.next, s[m.width..])
  }

  /** For each position of `s` and its end: is it outside every quotation and comment of the reference lexer? */
  function LexerMarks(s: string): (r: seq<bool>)
    ensures |r| == |s| + 1
    decreases |s|
  {
    if s == "" then [true]
    else
      var l := LexemeAt(s);
      if l.closed then [true] + Inside(l.width - 1) + LexerMarks(s[l.width..])
      else LexemeEnds(s); [true] + Inside(|s|)
  }

  lemma {:induction false} TailEnds(s: string)
    ensures !LiteralTail(s).closed ==> LiteralTail(s).width == |s|
    decreases |s|
  {
    if s != "" && s[0] != '\'' {
      TailEnds(s[if s[0] == '\\' && |s| > 1 then 2 else 1..]);
    }
  }

  lemma LexemeEnds(s: string)
    requires s != ""
    ensures !LexemeAt(s).closed ==> LexemeAt(s).width == |s|
  {
    TailEnds(s[1..]);
  }

  /** Some block comment of the reference lexer starts with slash, star, slash. */
  predicate HasTightComment(s: string)
    decreases |s|
  {
    s != "" &&
    var l := LexemeAt(s);
    || (Opens(s, '/', '*') && |s| > 2 && s[2] == '/')
    || (l.closed && HasTightComment(s[l.width..]))
  }

  /** The closing rune of the states that end with a single rune. */
  function Closer(st: State): char
    requires st in {LineComment, DoubleQuote, Backtick}
  {
    if st.LineComment? then '\n' else if st.DoubleQuote? then '"' else '`'
  }

  lemma MarksStep(st: State, s: string)
    requires s != ""
    ensures var m := Advance(st, s);
            ScannerMarks(st, s) == [st.Code?] + Inside(m.width - 1) + ScannerMarks(m.next, s[m.width..])
    ensures Advance(st, s).width == 1 ==>
              ScannerMarks(st, s) == [st.Code?] + ScannerMarks(Advance(st, s).next, s[1..])
  {}

  /** The marks from inside a quotation or comment of `n` more runes, its closing delimiter included. */
  ghost predicate EndsAfter(st: State, s: string, n: nat, closed: bool)
    requires n <= |s|
  {
    ScannerMarks(st, s) == if closed then Inside(n) + ScannerMarks(Code, s[n..]) else Inside(|s| + 1)
  }

  lemma EndsLater(st: State, s: string, n: nat, closed: bool)
    requires s != "" && !st.Code?
    requires var m := Advance(st, s); m.width + n <= |s| && EndsAfter(m.next, s[m.width..], n, closed)
    ensures EndsAfter(st, s, Advance(st, s).width + n, closed)
  {
    hide Advance, ScannerMarks, Inside;
    var m := Advance(st, s);
    var w, rest := m.width, ScannerMarks(m.next, s[m.width..]);
    MarksStep(st, s);
    InsideMore(w - 1);
    assert s[w..][n..] == s[w + n..];
    if closed {
      var tail := ScannerMarks(Code, s[w + n..]);
      InsideSum(w, n);
      assert Inside(w) + (Inside(n) + tail) == (Inside(w) + Inside(n)) + tail;
    } else {
      InsideSum(w, |s| - w + 1);
    }
  }

  lemma InsideSum(m: nat, n: nat)
    ensures Inside(m) + Inside(n) == Inside(m + n)
  {
  }

  lemma InsideMore(n: nat)
    ensures [false] + Inside(n) == Inside(n + 1)
  {
  }

  lemma MarksOfClosed(st: State, s: string)
    requires st in {LineComment, DoubleQuote, Backtick}
    ensures s == "" ==> EndsAfter(st, s, 0, false)
    ensures s != "" && s[0] == Closer(st) ==> EndsAfter(st, s, 1, true)
  {
    if s == "" {
      assert Inside(1) == [false];
    } else {
      MarksStep(st, s);
      assert Inside(1) == [false];
    }
  }

  lemma {:induction false} InsideRune(st: State, s: string)
    requires st in {LineComment, DoubleQuote, Backtick}
    ensures var i := FindRune(Closer(st), s);
            EndsAfter(st, s, if i < |s| then i + 1 else |s|, i < |s|)
  {
    hide EndsAfter, ScannerMarks;
    MarksOfClosed(st, s);
    if s != "" && s[0] != Closer(st) {
      InsideRune(st, s[1..]);
      var i := FindRune(Closer(st), s[1..]);
      EndsLater(st, s, if i < |s[1..]| then i + 1 else |s[1..]|, i < |s[1..]|);
    }
  }

  lemma {:induction false} InsideBlock(s: string)
    ensures var i := FindPair('*', '/', s);
            EndsAfter(BlockComment, s, if i < |s| then i + 2 else |s|, i < |s|)
  {
    if s == "" {
      assert Inside(1) == [false];
    } else if Opens(s, '*', '/') {
      BlockEnds(s);
    } else {
      hide EndsAfter, ScannerMarks;
      InsideBlock(s[1..]);
      var i := FindPair('*', '/', s[1..]);
      EndsLater(BlockComment, s, if i < |s[1..]| then i + 2 else |s[1..]|, i < |s[1..]|);
    }
  }

  lemma BlockEnds(s: string)
    requires Opens(s, '*', '/')
    ensures EndsAfter(BlockComment, s, 2, true)
  {
    MarksStep(BlockComment, s);
    assert [false] + Inside(1) == Inside(2);
  }

  lemma {:induction false} InsideLiteral(s: string)
    ensures EndsAfter(SingleQuote, s, LiteralTail(s).width, LiteralTail(s).closed)
    decreases |s|
  {
    if s == "" {
      assert Inside(1) == [false];
    } else if s[0] == '\'' {
      MarksStep(SingleQuote, s);
      assert Inside(1) == [false];
    } else {
      hide EndsAfter, ScannerMarks;
      var skip := if s[0] == '\\' && |s| > 1 then 2 else 1;
      var l := LiteralTail(s[skip..]);
      InsideLiteral(s[skip..]);
      EndsLater(SingleQuote, s, l.width, l.closed);
    }
  }

  /** A lexeme as the scanner sees it: in state `Code` where it starts, and not until it has ended. */
  ghost predicate OneLexeme(s: string, l: Lexeme)
    requires 1 <= l.width <= |s|
  {
    ScannerMarks(Code, s) ==
      if l.closed then [true] + Inside(l.width - 1) + ScannerMarks(Code, s[l.width..]) else [true] + Inside(|s|)
  }

  lemma OpensLexeme(s: string, st: State, kind: Kind, n: nat, closed: bool)
    requires s != "" && Advance(Code, s) == Move(st, 1) && n < |s|
    requires EndsAfter(st, s[1..], n, closed)
    ensures OneLexeme(s, Lexeme(kind, 1 + n, closed))
  {
    MarksStep(Code, s);
    assert s[1..][n..] == s[1 + n..];
    if closed {
      assert [true] + (Inside(n) + ScannerMarks(Code, s[1 + n..])) ==
          [true] + Inside(n) + ScannerMarks(Code, s[1 + n..]);
    }
  }

  lemma LineMarks(s: string)
    requires Opens(s, '-', '-')
    ensures OneLexeme(s, Delimited(Comment, 2, '\n', s))
  {
    hide ScannerMarks, EndsAfter, OneLexeme, FindRune;
    var l := Delimited(Comment, 2, '\n', s);
    assert s[1..][1..] == s[2..];
    InsideRune(LineComment, s[2..]);
    EndsLater(LineComment, s[1..], l.width - 2, l.closed);
    OpensLexeme(s, LineComment, Comment, l.width - 1, l.closed);
  }

  lemma BlockMarks(s: string)
    requires Opens(s, '/', '*') && !(|s| > 2 && s[2] == '/')
    ensures OneLexeme(s, Block(s))
  {
    hide ScannerMarks, EndsAfter, OneLexeme, FindPair;
    var l := Block(s);
    assert s[1..][1..] == s[2..];
    InsideBlock(s[2..]);
    EndsLater(BlockComment, s[1..], l.width - 2, l.closed);
    OpensLexeme(s, BlockComment, Comment, l.width - 1, l.closed);
  }

  lemma LiteralMarks(s: string)
    requires s != "" && s[0] == '\''
    ensures OneLexeme(s, Literal(s))
  {
    hide ScannerMarks, EndsAfter, OneLexeme, LiteralTail;
    InsideLiteral(s[1..]);
    OpensLexeme(s, SingleQuote, Quoted, Literal(s).width - 1, Literal(s).closed);
  }

  lemma QuoteMarks(s: string)
    requires s != "" && s[0] in {'"', '`'}
    ensures OneLexeme(s, Delimited(Quoted, 1, s[0], s))
  {
    hide ScannerMarks, EndsAfter, OneLexeme, FindRune;
    var l, st := Delimited(Quoted, 1, s[0], s), if s[0] == '"' then DoubleQuote else Backtick;
    InsideRune(st, s[1..]);
    OpensLexeme(s, st, Quoted, l.width - 1, l.closed);
  }

  lemma LexemeMarks(s: string)
    requires s != "" && !(Opens(s, '/', '*') && |s| > 2 && s[2] == '/')
    ensures OneLexeme(s, LexemeAt(s))
  {
    hide OneLexeme, Delimited, Block, Literal;
    if Opens(s, '-', '-') {
      LineMarks(s);
    } else if Opens(s, '/', '*') {
      BlockMarks(s);
    } else if s[0] == '\'' {
      LiteralMarks(s);
    } else if s[0] == '"' || s[0] == '`' {
      QuoteMarks(s);
    } else {
      PlainLexeme(s, LexemeAt(s));
    }
  }

  lemma PlainLexeme(s: string, l: Lexeme)
    requires s != "" && Advance(Code, s) == Move(Code, 1) && l.width == 1 && l.closed
    ensures OneLexeme(s, l)
  {
    MarksStep(Code, s);
    assert [true] + Inside(0) == [true];
  }

  /**
   The scanner and the reference lexer classify every position alike exactly when no comment is
   opened by slash, star, slash (which the scanner takes for a complete comment).
   */
  lemma {:induction false} ScannerIsExact(s: string)
    ensures ScannerMarks(Code, s) == LexerMarks(s) <==> !HasTightComment(s)
    decreases |s|
  {
    if s == "" {
    } else if Opens(s, '/', '*') && |s| > 2 && s[2] == '/' {
      TightCommentDiffers(s);
    } else {
      var l := LexemeAt(s);
      LexemeMarks(s);
      if l.closed {
        ScannerIsExact(s[l.width..]);
        var head := [true] + Inside(l.width - 1);
        assert (head + ScannerMarks(Code, s[l.width..]))[l.width..] == ScannerMarks(Code, s[l.width..]);
        assert (head + LexerMarks(s[l.width..]))[l.width..] == LexerMarks(s[l.width..]);
      }
    }
  }

  lemma TightCommentDiffers(s: string)
    requires Opens(s, '/', '*') && |s| > 2 && s[2] == '/'
    ensures ScannerMarks(Code, s)[3] && !LexerMarks(s)[3]
  {
    assert s[1..][2..] == s[3..];
    assert ScannerMarks(Code, s) == [true] + ScannerMarks(BlockComment, s[1..]);
    assert ScannerMarks(BlockComment, s[1..]) == [false, false] + ScannerMarks(Code, s[3..]);
    var i := FindPair('*', '/', s[2..]);
    assert i > 0;
  }

  /** A text without the three runes in a row has no such comment. */
  lemma {:induction false} NoTightComment(s: string)
    requires forall i | 0 <= i && i + 2 < |s| :: !(s[i] == '/' && s[i + 1] == '*' && s[i + 2] == '/')
    ensures !HasTightComment(s)
    decreases |s|
  {
    if s != "" {
      NoTightComment(s[LexemeAt(s).width..]);
    }
  }

  /** The text cut at those semicolons that are marked as being outside quotations and comments. */
  function CutAt(s: string, marks: seq<bool>): (r: seq<string>)
    requires |marks| == |s| + 1
    ensures r != []
  {
    if s == "" then [""]
    else if marks[0] && s[0] == ';' then [""] + CutAt(s[1..], marks[1..])
    else Prepend(s[..1], CutAt(s[1..], marks[1..]))
  }

  /** Marks that are off inside a stretch make no cut there. */
  lemma {:induction false} CutAfter(s: string, marks: seq<bool>, n: nat)
    requires 1 <= n <= |s| && |marks| == |s| + 1 && !(marks[0] && s[0] == ';')
    requires forall i | 0 < i < n :: !marks[i]
    ensures CutAt(s, marks) == Prepend(s[..n], CutAt(s[n..], marks[n..]))
    decreases n
  {
    if n > 1 {
      assert forall i | 0 < i < n - 1 :: !marks[1..][i] by {
        assert forall i | 0 < i < n - 1 :: marks[1..][i] == marks[i + 1];
      }
      CutAfter(s[1..], marks[1..], n - 1);
      assert s[1..][n - 1..] == s[n..] && marks[1..][n - 1..] == marks[n..];
      PrependTwice(s[..1], s[1..][..n - 1], CutAt(s[n..], marks[n..]));
      assert s[..1] + s[1..][..n - 1] == s[..n];
    }
  }

  lemma MarksOfMove(st: State, s: string)
    requires s != ""
    ensures var w, marks := Advance(st, s).width, ScannerMarks(st, s);
            && marks[0] == st.Code?
            && marks[w..] == ScannerMarks(Advance(st, s).next, s[w..])
            && forall i | 0 < i < w :: !marks[i]
  {
    hide Advance;
  }

  lemma CutOfMove(s: string)
    requires s != "" && Cuts(Code, s)
    ensures Advance(Code, s) == Move(Code, 1)
  {
  }

  lemma {:induction false} SegmentsAreCuts(st: State, s: string)
    ensures Segments(st, s) == CutAt(s, ScannerMarks(st, s))
    decreases |s|
  {
    hide Advance, ScannerMarks, Prepend;
    if s != "" {
      var m, marks := Advance(st, s), ScannerMarks(st, s);
      SegmentsAreCuts(m.next, s[m.width..]);
      MarksOfMove(st, s);
      if Cuts(st, s) {
        CutOfMove(s);
      } else {
        CutAfter(s, marks, m.width);
      }
    }
  }

  /**
   The whole of `SplitStatements` in terms of the reference lexer alone: cut at the semicolons
   outside quotations and comments, trim, and keep what has more than blanks and comments.
   */
  lemma StatementsFollowLexer(content: string)
    requires !HasTightComment(content)
    ensures Segments(Code, content) == CutAt(content, LexerMarks(content))
    ensures Statements(content) == KeptAll(CutAt(content, LexerMarks(content)))
  {
    ScannerIsExact(content);
    SegmentsAreCuts(Code, content);
  }

  /** With such a comment the two can differ: the scanner sees a separator that is commented out. */
  lemma TightCommentSplitsDifferently()
    ensures Segments(Code, "/*/;") == ["/*/", ""]
    ensures CutAt("/*/;", LexerMarks("/*/;")) == ["/*/;"]
  {
    ScannerClosesTightComment();
    LexerKeepsTightComment();
  }

  lemma ScannerClosesTightComment()
    ensures Segments(Code, "/*/;") == ["/*/", ""]
  {
    var s := "/*/;";
    assert s[1..] == "*/;" && s[1..][2..] == ";" && s[2..] == "/;" && s[3..] == ";";
    assert Segments(Code, ";") == ["", ""] by { assert ";"[1..] == ""; }
    assert Segments(BlockComment, "*/;") == Prepend("*/", ["", ""]) by {
      assert "*/;"[..2] == "*/" && "*/;"[2..] == ";" && "*/" + "" == "*/";
    }
    assert "*/" + "" == "*/" && "/" + "*/" == "/*/";
    PrependIs("*/", ["", ""], ["*/", ""]);
    PrependIs("/", ["*/", ""], ["/*/", ""]);
    assert Advance(Code, s) == Move(BlockComment, 1);
    assert Segments(Code, s) == Prepend(s[..1], ["*/", ""]) && s[..1] == "/" && "/" + "*/" == "/*/";
  }

  lemma PrependIs(a: string, before: seq<string>, after: seq<string>)
    requires before != [] && |after| == |before| && after[0] == a + before[0]
    requires forall i | 0 < i < |before| :: after[i] == before[i]
    ensures Prepend(a, before) == after
  {
  }

  lemma LexerKeepsTightComment()
    ensures CutAt("/*/;", LexerMarks("/*/;")) == ["/*/;"]
  {
    var s := "/*/;";
    assert FindPair('*', '/', s[2..]) == 2 by { assert s[2..][1..] == ";" && ";"[1..] == ""; }
    assert LexemeAt(s) == Lexeme(Comment, 4, false);
    var marks := LexerMarks(s);
    assert forall i | 0 < i < 4 :: !marks[i];
    CutAfter(s, marks, 4);
    assert s[4..] == "" && s[..4] + "" == s;
    PrependIs(s[..4], [""], [s]);
  }

  // ---------------------------------------------------------------- printing and splitting again

  /** The state of the scanner after all of `s`, separators included. */
  function Final(st: State, s: string): State
    decreases |s|
  {
    if s == "" then st else var m := Advance(st, s); Final(m.next, s[m.width..])
  }

  /** No rune of `s` is a separator. */
  predicate Unbroken(st: State, s: string)
    decreases |s|
  {
    s != "" ==> !Cuts(st, s) && var m := Advance(st, s); Unbroken(m.next, s[m.width..])
  }

  /** The runes that no move of the scanner looks ahead for. */
  predicate Inert(c: char) {
    c != '-' && c != '*' && c != '/'
  }

  lemma {:induction false} WholeSegment(st: State, s: string)
    requires Unbroken(st, s)
    ensures Segments(st, s) == [s]
    decreases |s|
  {
    if s != "" {
      var m := Advance(st, s);
      WholeSegment(m.next, s[m.width..]);
      assert s[..m.width] + s[m.width..] == s;
    }
  }

  /** The scanner moves on `a + b` as on `a` alone, when `b` starts with an inert rune. */
  lemma AdvanceBefore(st: State, a: string, b: string)
    requires a != "" && (b != "" ==> Inert(b[0]))
    requires Advance(st, a) == Advance(st, a + b) || Final(st, a) in {Code, LineComment} || b == ""
    ensures Advance(st, a + b) == Advance(st, a)
  {
    assert a + b == a || (a + b)[0] == a[0];
    if b == "" {
      assert a + b == a;
    } else if |a| == 1 {
      assert (a + b)[1] == b[0];
      assert a[1..] == "";
    } else {
      assert (a + b)[1] == a[1];
    }
  }

  /** A piece without separators that ends outside quotations glues to what follows. */
  lemma {:induction false} Glue(st: State, a: string, b: string)
    requires Unbroken(st, a) && Final(st, a) in {Code, LineComment} && (b != "" ==> Inert(b[0]))
    ensures Segments(st, a + b) == Prepend(a, Segments(Final(st, a), b))
    decreases |a|
  {
    hide Advance;
    if a == "" {
      assert a + b == b;
      PrependNothing(Segments(st, b));
    } else {
      var m := Advance(st, a);
      AdvanceBefore(st, a, b);
      assert (a + b)[m.width..] == a[m.width..] + b && (a + b)[..m.width] == a[..m.width];
      Glue(m.next, a[m.width..], b);
      PrependTwice(a[..m.width], a[m.width..], Segments(Final(st, a), b));
      assert a[..m.width] + a[m.width..] == a;
    }
  }

  /** `s` continues `first`, either to its end or with a separator. */
  predicate StartsSegment(s: string, first: string) {
    first <= s && (|first| < |s| ==> s[|first|] == ';')
  }

  lemma AdvanceWithin(st: State, s: string, first: string)
    requires s != "" && StartsSegment(s, first) && Advance(st, s).width <= |first|
    ensures Advance(st, first) == Advance(st, s)
  {
    assert first[0] == s[0];
    assert |first| > 1 ==> first[1] == s[1];
  }

  /** The scanner read the first segment without a cut, and was in state `Code` if one followed. */
  lemma {:induction false} FirstSegment(st: State, s: string)
    ensures var r := Segments(st, s);
            StartsSegment(s, r[0]) && Unbroken(st, r[0]) && (|r| > 1 ==> Final(st, r[0]).Code?)
    decreases |s|
  {
    hide Advance;
    if s == "" || Cuts(st, s) {
    } else {
      var m := Advance(st, s);
      var rest := s[m.width..];
      FirstSegment(m.next, rest);
      var r := Segments(m.next, rest);
      var first := s[..m.width] + r[0];
      assert s == s[..m.width] + rest;
      assert Segments(st, s)[0] == first;
      assert first[m.width..] == r[0] && first[0] == s[0];
      AdvanceWithin(st, s, first);
    }
  }

  /** Every segment but the first one starts in state `Code`, and so does the list of the others. */
  lemma {:induction false} OtherSegments(st: State, s: string) returns (rest: string)
    requires |Segments(st, s)| > 1
    ensures |rest| < |s| && Segments(st, s)[1..] == Segments(Code, rest)
    decreases |s|
  {
    if Cuts(st, s) {
      rest := s[1..];
    } else {
      var m := Advance(st, s);
      rest := OtherSegments(m.next, s[m.width..]);
    }
  }

  // White space is invisible to the scanner before a statement, and after it up to the end of a
  // line comment.

  lemma AdvanceOverSpace(st: State, s: string)
    requires s != "" && IsSpace(s[0])
    ensures Advance(st, s) == Move(if st.LineComment? && s[0] == '\n' then Code else st, 1)
    ensures !Cuts(st, s)
  {}

  lemma {:induction false} SpaceBefore(left: string, s: string)
    requires AllSpace(left)
    ensures Unbroken(Code, left + s) == Unbroken(Code, s)
    ensures Final(Code, left + s) == Final(Code, s)
  {
    if left == "" {
      assert left + s == s;
    } else {
      AdvanceOverSpace(Code, left + s);
      assert (left + s)[1..] == left[1..] + s;
      SpaceBefore(left[1..], s);
    }
  }

  lemma {:induction false} SpaceOnly(st: State, right: string)
    requires AllSpace(right)
    ensures Final(st, right) == st || (st.LineComment? && Final(st, right).Code?)
    decreases |right|
  {
    if right != "" {
      AdvanceOverSpace(st, right);
      SpaceOnly(Advance(st, right).next, right[1..]);
    }
  }

  lemma {:induction false} SpaceAfter(st: State, s: string, right: string)
    requires AllSpace(right) && Unbroken(st, s + right)
    ensures Unbroken(st, s)
    ensures Final(st, s + right).Code? ==> Final(st, s) in {Code, LineComment}
    decreases |s|
  {
    hide Advance, IsSpace;
    if s == "" {
      assert s + right == right;
      SpaceOnly(st, right);
    } else if right == "" {
      assert s + right == s;
    } else {
      var m := Advance(st, s + right);
      assert (s + right)[0] == s[0];
      if m.width <= |s| {
        AdvanceBeforeSpace(st, s, right);
        assert (s + right)[m.width..] == s[m.width..] + right;
        SpaceAfter(m.next, s[m.width..], right);
      } else {
        EscapedSpace(st, s, right);
      }
    }
  }

  lemma AdvanceBeforeSpace(st: State, s: string, right: string)
    requires s != "" && right != "" && AllSpace(right) && Advance(st, s + right).width <= |s|
    ensures Advance(st, s) == Advance(st, s + right)
  {
    assert (s + right)[0] == s[0];
    if |s| == 1 {
      assert (s + right)[1] == right[0];
      assert !(s[0] == '\\' && st.SingleQuote?);
    } else {
      assert (s + right)[1] == s[1];
    }
  }

  /** A backslash before the white space: the scanner is in a string literal and stays in it. */
  lemma EscapedSpace(st: State, s: string, right: string)
    requires s != "" && right != "" && AllSpace(right) && Advance(st, s + right).width > |s|
    ensures Unbroken(st, s) && !Final(st, s + right).Code?
  {
    var t := s + right;
    assert t[0] == s[0] && t[1] == right[0];
    assert st.SingleQuote?;
    assert s[1..] == "" && t[2..] == right[1..];
    SpaceOnly(SingleQuote, right[1..]);
  }

  /** A list that `SplitStatements` can have returned. */
  predicate Printable(statements: seq<string>) {
    forall i | 0 <= i < |statements| ::
      && Unbroken(Code, statements[i])
      && Kept(statements[i]) == [statements[i]]
      && (i + 1 < |statements| ==> Final(Code, statements[i]) in {Code, LineComment})
  }

  lemma TrimmedSegment(segment: string)
    requires Unbroken(Code, segment)
    ensures var t := TrimSpace(segment);
            && Unbroken(Code, t)
            && (Final(Code, segment).Code? ==> Final(Code, t) in {Code, LineComment})
            && TrimSpace(t) == t
  {
    hide IsSpace, TrimSpace, Final, Unbroken;
    var left, right := TrimSpaceSplits(segment);
    var t := TrimSpace(segment);
    assert segment == left + (t + right);
    SpaceBefore(left, t + right);
    SpaceAfter(Code, t, right);
    TrimSpaceOfPadded("", t, "");
    assert "" + t + "" == t;
  }

  lemma {:induction false} StatementsArePrintable(s: string)
    ensures Printable(KeptAll(Segments(Code, s)))
    decreases |s|
  {
    hide Segments, Final, Unbroken, TrimSpace, Significant;
    var r := Segments(Code, s);
    FirstSegment(Code, s);
    TrimmedSegment(r[0]);
    if |r| == 1 {
      assert KeptAll(r) == Kept(r[0]) + KeptAll([]);
    } else {
      var rest := OtherSegments(Code, s);
      StatementsArePrintable(rest);
      var others := KeptAll(Segments(Code, rest));
      var all := Kept(r[0]) + others;
      forall i | 0 <= i < |all|
        ensures Unbroken(Code, all[i]) && Kept(all[i]) == [all[i]]
        ensures i + 1 < |all| ==> Final(Code, all[i]) in {Code, LineComment}
      {
        if i >= |Kept(r[0])| {
          assert all[i] == others[i - |Kept(r[0])|];
        }
      }
    }
  }

  /** What separates the statements when they are printed. */
  const SEPARATOR := "\n;\n"

  lemma {:induction false} SplitPrinted(statements: seq<string>)
    requires Printable(statements)
    ensures Statements(Join(statements, SEPARATOR)) == statements
  {
    hide Final, Unbroken, TrimSpace, Significant, Segments;
    if statements == [] {
      NothingToSplit();
    } else if |statements| == 1 {
      WholeSegment(Code, statements[0]);
      KeptSingle(statements[0]);
    } else {
      var s, rest := statements[0], Join(statements[1..], SEPARATOR);
      assert forall i | 0 <= i < |statements[1..]| :: statements[1..][i] == statements[i + 1];
      SplitPrinted(statements[1..]);
      SplitAtSeparator(s, rest);
      assert s + SEPARATOR + rest == s + ("\n;\n" + rest);
    }
  }

  lemma NothingToSplit()
    ensures Statements("") == []
  {
    assert KeptAll([""]) == Kept("") + KeptAll([""][1..]);
  }

  lemma KeptSingle(s: string)
    ensures KeptAll([s]) == Kept(s)
  {
    assert KeptAll([s]) == Kept(s) + KeptAll([s][1..]) == Kept(s) + [];
  }

  lemma SplitAtSeparator(s: string, rest: string)
    requires Unbroken(Code, s) && Final(Code, s) in {Code, LineComment} && Kept(s) == [s]
    ensures Statements(s + ("\n;\n" + rest)) == [s] + Statements(rest)
  {
    var tail := "\n;\n" + rest;
    Glue(Code, s, tail);
    AfterStatement(Final(Code, s), rest);
    var others := Prepend("\n", Segments(Code, rest));
    var r := Segments(Code, s + tail);
    assert r == [s + "\n"] + others;
    assert r[1..] == others;
    assert AllSpace("\n");
    TrimSpaceSplitsKept(s);
    LeadingSpace("\n", Segments(Code, rest));
  }

  lemma TrimSpaceSplitsKept(s: string)
    requires Kept(s) == [s]
    ensures Kept(s + "\n") == [s]
  {
    var left, right := TrimSpaceSplits(s);
    assert TrimSpace(s) == s;
    assert AllSpace("\n");
    TrimSpaceOfPadded("", s, "\n");
    assert "" + s + "\n" == s + "\n";
  }

  lemma AfterStatement(st: State, rest: string)
    requires st in {Code, LineComment}
    ensures Segments(st, "\n;\n" + rest) == ["\n"] + Prepend("\n", Segments(Code, rest))
  {
    var tail := "\n;\n" + rest;
    assert tail[1..] == ";\n" + rest && tail[1..][1..] == "\n" + rest && tail[..1] == "\n";
    AdvanceOverSpace(st, tail);
    var after := "\n" + rest;
    assert after[1..] == rest && after[..1] == "\n";
    AdvanceOverSpace(Code, after);
    assert Segments(Code, after) == Prepend("\n", Segments(Code, rest));
    assert Segments(Code, tail[1..]) == [""] + Segments(Code, after);
    assert "\n" + "" == "\n";
  }

  lemma LeadingSpace(left: string, segments: seq<string>)
    requires AllSpace(left) && segments != []
    ensures KeptAll(Prepend(left, segments)) == KeptAll(segments)
  {
    TrimSpaceOfLeftPadded(left, segments[0]);
    assert Prepend(left, segments)[1..] == segments[1..];
  }

  /**
   Print and split again: for every text, the statements joined by a separator on a line of its
   own split into the same statements.
   */
  lemma SplitPrintRoundTrip(content: string)
    ensures Statements(Join(Statements(content), SEPARATOR)) == Statements(content)
  {
    StatementsArePrintable(content);
    SplitPrinted(Statements(content));
  }

  /** Each statement is a fixed point of splitting. */
  lemma StatementSplitsToItself(content: string, i: nat)
    requires i < |Statements(content)|
    ensures Statements(Statements(content)[i]) == [Statements(content)[i]]
  {
    StatementsArePrintable(content);
    var s := Statements(content)[i];
    WholeSegment(Code, s);
    KeptSingle(s);
  }

  /** A bare semicolon would not do: trimming can remove the newline that ended a line comment. */
  lemma BareSemicolonDoesNotSeparate()
    ensures Statements("a--\n;b") == ["a--", "b"]
    ensures Join(["a--", "b"], ";") == "a--;b"
    ensures Statements("a--;b") == ["a--;b"]
  {
    hide Segments, Final, Unbroken, Kept, TrimSpace;
    ABareStatement("b");
    ABareStatement("a--");
    ABareStatement("a--;b");
    ACommentedStatement("a--");
    ACommentedStatement("a--;b");
    SplitAtLineEnd();
    WholeSegment(Code, "a--;b");
    KeptSingle("a--;b");
    assert ["a--", "b"][1..] == ["b"] && "a--" + ";" + "b" == "a--;b";
  }

  lemma {:induction false} InLineComment(s: string)
    requires '\n' !in s
    ensures Unbroken(LineComment, s) && Final(LineComment, s) == LineComment
  {
    if s != "" {
      InLineComment(s[1..]);
    }
  }

  lemma ACommentedStatement(s: string)
    requires |s| >= 3 && s[0] == 'a' && s[1] == s[2] == '-' && '\n' !in s
    ensures Unbroken(Code, s) && Final(Code, s) == LineComment
  {
    assert Advance(Code, s) == Move(Code, 1);
    assert Advance(Code, s[1..]) == Move(LineComment, 1);
    assert s[1..][1..] == s[2..];
    InLineComment(s[2..]);
  }

  lemma ABareStatement(s: string)
    requires s != "" && 'a' <= s[0] <= 'z' && !IsSpace(s[|s| - 1])
    ensures Kept(s) == [s]
  {
    TrimSpaceOfPadded("", s, "");
    assert "" + s + "" == s;
    assert LexemeAt(s).kind == Symbol;
  }

  lemma InertLineFeed(s: string)
    requires s != "" && s[0] == '\n'
    ensures Inert(s[0])
  {
  }

  lemma TailSegments()
    ensures Segments(LineComment, "\n;b") == ["\n", "b"]
  {
    var tail := "\n;b";
    assert tail[1..] == ";b" && tail[..1] == "\n" && ";b"[1..] == "b" && "b"[1..] == "";
    WholeSegment(Code, "b") by { assert Unbroken(Code, "b"); }
    assert Segments(Code, ";b") == [""] + ["b"];
    PrependIs("\n", [""] + ["b"], ["\n", "b"]) by { assert "\n" + "" == "\n"; }
  }

  lemma SplitAtLineEnd()
    requires Unbroken(Code, "a--") && Final(Code, "a--") == LineComment && Kept("a--") == ["a--"] && Kept("b") == ["b"]
    ensures Statements("a--\n;b") == ["a--", "b"]
  {
    hide Advance, LexemeAt, TrimSpace, Significant, IsSpace;
    var tail := "\n;b";
    Glue(Code, "a--", tail) by { InertLineFeed(tail); }
    TailSegments();
    assert "a--" + tail == "a--\n;b";
    assert "a--" + "\n" == "a--\n";
    PrependIs("a--", ["\n", "b"], ["a--\n", "b"]);
    TrimSpaceSplitsKept("a--");
    assert ["a--\n", "b"][1..] == ["b"];
    KeptSingle("b");
  }
}

/** Which segments the splitter keeps, told by the lexemes of the whole text. */
module LexemeLaws {
  import opened Text
  import opened Splitter
  import opened SplitterLaws

  /** A stretch of a text between separators, and whether one of its lexemes is more than a blank or a comment. */
  datatype Piece = Piece(text: string, significant: bool)

  predicate IsContent(l: Lexeme) {
    l.kind == Quoted || l.kind == Symbol
  }

  /** The text as its lexemes, in one pass from its start, cut at those that are semicolons. */
  function Pieces(s: string): (r: seq<Piece>)
    ensures r != []
    decreases |s|
  {
    if s == "" then [Piece("", false)]
    else if s[0] == ';' then [Piece("", false)] + Pieces(s[1..])
    else
      var l := LexemeAt(s);
      var tail := Pieces(s[l.width..]);
      [Piece(s[..l.width] + tail[0].text, IsContent(l) || tail[0].significant)] + tail[1..]
  }

  function Texts(pieces: seq<Piece>): seq<string> {
    seq(|pieces|, i requires 0 <= i < |pieces| => pieces[i].text)
  }

  // ---------------------------------------------------------------- the pieces are the segments

  lemma TextsOfMore(first: Piece, rest: seq<Piece>)
    ensures Texts([first] + rest) == [first.text] + Texts(rest)
  {
  }

  /** The marks of the first lexeme: only where it starts. */
  lemma LexemeMarked(s: string)
    requires s != ""
    ensures var n, marks := LexemeAt(s).width, LexerMarks(s);
            && (forall i | 0 < i < n :: !marks[i])
            && CutAt(s[n..], marks[n..]) == CutAt(s[n..], LexerMarks(s[n..]))
            && (LexemeAt(s).closed ==> marks == [true] + Inside(n - 1) + LexerMarks(s[n..]))
  {
    hide LexemeAt, CutAt;
    var n, marks := LexemeAt(s).width, LexerMarks(s);
    LexemeEnds(s);
    if LexemeAt(s).closed {
      assert marks[n..] == LexerMarks(s[n..]);
    } else {
      assert s[n..] == "";
      NoCut(marks[n..]);
      NoCut(LexerMarks(s[n..]));
    }
  }

  lemma NoCut(marks: seq<bool>)
    requires |marks| == 1
    ensures CutAt("", marks) == [""]
  {
  }

  lemma {:induction false} TextsAreCuts(s: string)
    ensures Texts(Pieces(s)) == CutAt(s, LexerMarks(s))
    decreases |s|
  {
    hide LexemeAt, LexerMarks, Texts;
    if s == "" {
      NoCut(LexerMarks(s));
      TextsOfMore(Piece("", false), []);
      assert [Piece("", false)] + [] == [Piece("", false)] && Texts([]) == [] by { NoTexts(); }
    } else {
      var n, marks := LexemeAt(s).width, LexerMarks(s);
      var tail := Pieces(s[n..]);
      TextsAreCuts(s[n..]);
      LexemeMarked(s);
      if s[0] == ';' {
        Semicolon(s);
        assert marks[0] && marks[1..] == LexerMarks(s[1..]);
        TextsOfMore(Piece("", false), tail);
      } else {
        CutAfter(s, marks, n);
        TextsOfMore(Pieces(s)[0], tail[1..]);
        TextsOfMore(tail[0], tail[1..]);
        assert tail == [tail[0]] + tail[1..];
      }
    }
  }

  lemma NoTexts()
    ensures Texts([]) == []
  {
  }

  lemma Semicolon(s: string)
    requires s != "" && s[0] == ';'
    ensures LexemeAt(s) == Lexeme(Symbol, 1, true)
  {
  }

  // ---------------------------------------------------------------- lexing a piece afresh

  lemma {:induction false} TailPrefix(s: string, n: nat)
    requires LiteralTail(s).closed && LiteralTail(s).width <= n <= |s|
    ensures LiteralTail(s[..n]) == LiteralTail(s)
    decreases |s|
  {
    if s[0] != '\'' {
      var skip := if s[0] == '\\' && |s| > 1 then 2 else 1;
      TailPrefix(s[skip..], n - skip);
      assert s[..n][skip..] == s[skip..][..n - skip];
    }
  }

  lemma RuneInPrefix(c: char, s: string, n: nat)
    requires FindRune(c, s) < n <= |s|
    ensures FindRune(c, s[..n]) == FindRune(c, s)
  {
    var i, j := FindRune(c, s), FindRune(c, s[..n]);
    assert s[..n][i] == c;
    assert j <= i;
    assert s[..n][j] == s[j];
  }

  lemma PairInPrefix(a: char, b: char, s: string, n: nat)
    requires FindPair(a, b, s) + 1 < n <= |s|
    ensures FindPair(a, b, s[..n]) == FindPair(a, b, s)
  {
    var i, j, t := FindPair(a, b, s), FindPair(a, b, s[..n]), s[..n];
    assert t[i] == a && t[i + 1] == b;
    assert j <= i;
    assert s[j] == t[j] && s[j + 1] == t[j + 1];
  }

  /** A lexeme that is complete is found as well in any beginning of the text that it fits in. */
  lemma LexemePrefix(s: string, n: nat)
    requires s != "" && LexemeAt(s).closed && LexemeAt(s).width <= n <= |s|
    ensures LexemeAt(s[..n]) == LexemeAt(s)
  {
    hide FindRune, FindPair, LiteralTail;
    var t := s[..n];
    if Opens(s, '-', '-') {
      assert s[2..][..n - 2] == t[2..];
      RuneInPrefix('\n', s[2..], n - 2);
    } else if Opens(s, '/', '*') {
      assert s[2..][..n - 2] == t[2..];
      PairInPrefix('*', '/', s[2..], n - 2);
    } else if s[0] == '\'' {
      assert s[1..][..n - 1] == t[1..];
      TailPrefix(s[1..], n - 1);
    } else if s[0] == '"' || s[0] == '`' {
      assert s[1..][..n - 1] == t[1..];
      RuneInPrefix(s[0], s[1..], n - 1);
    }
  }

  /** The first piece is a beginning of the text. */
  lemma {:induction false} FirstPiece(s: string)
    ensures |Pieces(s)[0].text| <= |s| && Pieces(s)[0].text == s[..|Pieces(s)[0].text|]
    decreases |s|
  {
    hide LexemeAt;
    if s != "" && s[0] != ';' {
      FirstPiece(s[LexemeAt(s).width..]);
    }
  }

  /** Lexing a piece afresh finds in it what lexing the whole text finds there. */
  lemma {:induction false} PiecesLexAlike(s: string)
    ensures forall i | 0 <= i < |Pieces(s)| :: Significant(Pieces(s)[i].text) == Pieces(s)[i].significant
    decreases |s|
  {
    hide LexemeAt;
    if s != "" {
      if s[0] == ';' {
        PiecesLexAlike(s[1..]);
      } else {
        var n := LexemeAt(s).width;
        var tail, first := Pieces(s[n..])[0].text, Pieces(s)[0].text;
        PiecesLexAlike(s[n..]);
        LexemeEnds(s);
        FirstPiece(s);
        FirstPiece(s[n..]);
        assert first[n..] == tail;
        if LexemeAt(s).closed {
          LexemePrefix(s, |first|);
        } else {
          assert first == s;
        }
        assert Significant(first) == (IsContent(LexemeAt(s)) || Significant(tail));
        forall i | 0 <= i < |Pieces(s)|
          ensures Significant(Pieces(s)[i].text) == Pieces(s)[i].significant
        {
          assert i > 0 ==> Pieces(s)[i] == Pieces(s[n..])[i];
        }
      }
    }
  }

  // ---------------------------------------------------------------- trimming

  predicate AllBlank(s: string) {
    forall i | 0 <= i < |s| :: IsBlank(s[i])
  }

  lemma {:induction false} SpaceBeforeText(left: string, s: string)
    requires AllSpace(left)
    ensures Significant(s) ==> Significant(left + s)
    ensures AllBlank(left) ==> Significant(left + s) == Significant(s)
  {
    hide LexemeAt, IsSpace, IsBlank;
    if left == "" {
      assert left + s == s;
    } else {
      var t := left + s;
      assert t[1..] == left[1..] + s;
      SpaceBeforeText(left[1..], s);
      SpaceLexeme(t);
    }
  }

  /** A white-space rune is a lexeme of its own. */
  lemma SpaceLexeme(s: string)
    requires s != "" && IsSpace(s[0])
    ensures LexemeAt(s) == Lexeme(if IsBlank(s[0]) then Blank else Symbol, 1, true)
  {
  }

  lemma {:induction false} TailExtends(s: string, right: string)
    requires LiteralTail(s).closed
    ensures LiteralTail(s + right) == LiteralTail(s)
    decreases |s|
  {
    if s[0] != '\'' {
      var skip := if s[0] == '\\' && |s| > 1 then 2 else 1;
      TailExtends(s[skip..], right);
      assert (s + right)[skip..] == s[skip..] + right;
    }
  }

  lemma RuneExtends(c: char, s: string, right: string)
    ensures FindRune(c, s) < |s| ==> FindRune(c, s + right) == FindRune(c, s)
    ensures FindRune(c, s) == |s| ==> FindRune(c, s + right) >= |s|
  {
    var i, j, t := FindRune(c, s), FindRune(c, s + right), s + right;
    assert i < |s| ==> t[i] == c;
    assert j < |s| ==> s[j] == t[j];
  }

  lemma PairExtends(s: string, right: string)
    requires '/' !in right
    ensures FindPair('*', '/', s) < |s| ==> FindPair('*', '/', s + right) == FindPair('*', '/', s)
    ensures FindPair('*', '/', s) == |s| ==> FindPair('*', '/', s + right) >= |s|
  {
    hide FindPair;
    var i, j, t := FindPair('*', '/', s), FindPair('*', '/', s + right), s + right;
    assert i < |s| ==> t[i] == s[i] && t[i + 1] == s[i + 1];
    assert |t| > |s| ==> t[|s|] in right;
    if j < |s| {
      assert s[j] == t[j] && j + 1 < |s|;
      assert s[j + 1] == t[j + 1];
    }
  }

  /** How a lexeme changes when text is added: a complete one not at all, an unfinished one grows. */
  predicate Extends(l: Lexeme, l': Lexeme, length: nat) {
    && l'.kind == l.kind
    && (l.closed ==> l' == l)
    && (!l.closed ==> l.kind in {Comment, Quoted} && l.width == length <= l'.width)
  }

  lemma DelimitedExtends(kind: Kind, open: nat, close: char, s: string, right: string)
    requires open <= |s| && kind in {Comment, Quoted}
    ensures Extends(Delimited(kind, open, close, s), Delimited(kind, open, close, s + right), |s|)
  {
    hide FindRune;
    assert (s + right)[open..] == s[open..] + right;
    RuneExtends(close, s[open..], right);
  }

  lemma BlockExtends(s: string, right: string)
    requires 2 <= |s| && AllSpace(right)
    ensures Extends(Block(s), Block(s + right), |s|)
  {
    hide FindPair;
    assert (s + right)[2..] == s[2..] + right;
    assert '/' !in right;
    PairExtends(s[2..], right);
  }

  lemma {:induction false} LiteralExtends(s: string, right: string)
    ensures var l, l' := LiteralTail(s), LiteralTail(s + right);
            (l.closed ==> l' == l) && (!l.closed ==> l.width == |s| <= l'.width)
  {
    TailEnds(s);
    if LiteralTail(s).closed {
      TailExtends(s, right);
    } else {
      UnfinishedTail(s, right);
    }
  }

  lemma {:induction false} UnfinishedTail(s: string, right: string)
    requires !LiteralTail(s).closed
    ensures LiteralTail(s + right).width >= |s|
    decreases |s|
  {
    var t := s + right;
    if s != "" {
      var skip := if s[0] == '\\' && |s| > 1 then 2 else 1;
      UnfinishedTail(s[skip..], right);
      assert t[skip..] == s[skip..] + right;
      if s == "\\" && right != "" {
        assert LiteralTail(t).width >= 2;
      }
    }
  }

  lemma LexemeBeforeSpace(s: string, right: string)
    requires s != "" && AllSpace(right)
    ensures Extends(LexemeAt(s), LexemeAt(s + right), |s|)
  {
    hide Delimited, Block, LiteralTail;
    var t := s + right;
    assert t[0] == s[0] && (|s| > 1 ==> t[1] == s[1]);
    assert |s| == 1 && right != "" ==> t[1] == right[0] && IsSpace(t[1]);
    if Opens(s, '-', '-') {
      DelimitedExtends(Comment, 2, '\n', s, right);
    } else if Opens(s, '/', '*') {
      BlockExtends(s, right);
    } else if s[0] == '\'' {
      assert t[1..] == s[1..] + right;
      LiteralExtends(s[1..], right);
    } else if s[0] == '"' || s[0] == '`' {
      DelimitedExtends(Quoted, 1, s[0], s, right);
    }
  }

  lemma {:induction false} SpaceAfterText(s: string, right: string)
    requires AllSpace(right)
    ensures Significant(s) ==> Significant(s + right)
    ensures AllBlank(right) ==> Significant(s + right) == Significant(s)
    decreases |s|
  {
    hide LexemeAt, IsSpace;
    if s == "" {
      assert s + right == right;
      BlanksAreNothing(right);
    } else {
      var t, n, n' := s + right, LexemeAt(s).width, LexemeAt(s + right).width;
      LexemeBeforeSpace(s, right);
      LexemeEnds(s);
      if LexemeAt(s).closed {
        assert t[n..] == s[n..] + right;
        SpaceAfterText(s[n..], right);
      } else if LexemeAt(s).kind == Comment {
        assert s[n..] == "" && t[n'..] == right[n' - |s|..];
        BlanksAreNothing(s[n..]);
        BlanksAreNothing(right[n' - |s|..]);
      }
    }
  }

  lemma {:induction false} BlanksAreNothing(s: string)
    ensures AllBlank(s) ==> !Significant(s)
  {
    if s != "" && AllBlank(s) {
      BlanksAreNothing(s[1..]);
    }
  }

  /** Trimming can take content away from a segment only by taking away white space that is no blank of the lexer. */
  lemma TrimKeepsContent(segment: string)
    ensures Significant(TrimSpace(segment)) ==> Significant(segment)
    ensures (forall i | 0 <= i < |segment| && IsSpace(segment[i]) :: IsBlank(segment[i])) ==>
              Significant(TrimSpace(segment)) == Significant(segment)
  {
    hide TrimSpace, Significant, IsSpace, IsBlank;
    var t := TrimSpace(segment);
    var left, right := TrimSpaceSplits(segment);
    SpaceAfterText(t, right);
    SpaceBeforeText(left, t + right);
    assert segment == left + (t + right);
    assert forall i | 0 <= i < |left| :: segment[i] == left[i];
    assert forall i | 0 <= i < |right| :: segment[|left| + |t| + i] == right[i];
  }

  /**
   What the splitter keeps, in terms of one pass of the reference lexer over the whole text: the
   segments are its pieces; a segment without a lexeme other than blanks and comments is dropped, and
   if its only white space is spaces, tabs and line ends, no other is.
   */
  lemma DroppedIffNoContent(content: string, i: nat)
    requires !HasTightComment(content) && i < |Segments(Code, content)|
    ensures i < |Pieces(content)|
    ensures var segment, piece := Segments(Code, content)[i], Pieces(content)[i];
            && piece.text == segment
            && (!piece.significant ==> Kept(segment) == [])
            && ((forall k | 0 <= k < |segment| && IsSpace(segment[k]) :: IsBlank(segment[k])) ==>
                  (Kept(segment) == [] <==> !piece.significant))
  {
    hide Pieces, Segments, TrimSpace, IsSpace, IsBlank, HasTightComment;
    StatementsFollowLexer(content);
    TextsAreCuts(content);
    PiecesLexAlike(content);
    assert Texts(Pieces(content))[i] == Pieces(content)[i].text;
    TrimKeepsContent(Segments(Code, content)[i]);
    BlanksAreNothing("");
  }

  // ---------------------------------------------------------------- what content is

  /**
   Executable content without a lexer: nothing has none; a blank, a line comment and a block comment
   in front of a text add none; everything else in front of it is content, quotes included.
   */
  lemma ContentByRules(s: string, comment: string, c: char)
    ensures !Significant("")
    ensures c in " \t\r\n" ==> Significant([c] + s) == Significant(s)
    ensures c !in " \t\r\n" && !Opens([c] + s, '-', '-') && !Opens([c] + s, '/', '*') ==> Significant([c] + s)
    ensures '\n' !in comment ==> Significant("--" + comment + "\n" + s) == Significant(s)
    ensures '\n' !in comment ==> !Significant("--" + comment)
    ensures (forall j | 0 <= j < |comment| - 1 :: !(comment[j] == '*' && comment[j + 1] == '/')) ==>
              Significant("/*" + comment + "*/" + s) == Significant(s)
  {
    FirstRune(s, c);
    if '\n' !in comment {
      LineInFront(s, comment);
    }
    if forall j | 0 <= j < |comment| - 1 :: !(comment[j] == '*' && comment[j + 1] == '/') {
      BlockInFront(s, comment);
    }
  }

  lemma FirstRune(s: string, c: char)
    ensures c in " \t\r\n" ==> Significant([c] + s) == Significant(s)
    ensures c !in " \t\r\n" && !Opens([c] + s, '-', '-') && !Opens([c] + s, '/', '*') ==> Significant([c] + s)
  {
    hide Significant, LexemeAt;
    var t := [c] + s;
    assert t[0..] == t && t[1..] == s;
    SkipNothing(s);
    if c in " \t\r\n" {
      SkipBlank(t, 0);
    } else if !Opens(t, '-', '-') && !Opens(t, '/', '*') {
      StopAtContent(t, 0);
    }
  }

  lemma LineInFront(s: string, comment: string)
    requires '\n' !in comment
    ensures Significant("--" + comment + "\n" + s) == Significant(s) && !Significant("--" + comment)
  {
    hide Significant, LexemeAt;
    var n, open := |comment| + 2, "--" + comment;
    var t := open + "\n" + s;
    assert t[0..] == t && t[n + 1..] == s && open[0..] == open;
    assert forall j | 0 <= j < n :: t[j] == open[j] && open[j] != '\n';
    SkipNothing(s);
    SkipLine(t, 0, n);
    SkipLine(open, 0, n);
  }

  lemma BlockInFront(s: string, comment: string)
    requires forall j | 0 <= j < |comment| - 1 :: !(comment[j] == '*' && comment[j + 1] == '/')
    ensures Significant("/*" + comment + "*/" + s) == Significant(s)
  {
    hide Significant, LexemeAt;
    var n, open := |comment| + 2, "/*" + comment;
    var t := open + "*/" + s;
    assert t[0..] == t && t[n + 2..] == s;
    assert t[n] == '*' && t[n + 1] == '/';
    forall j | 2 <= j < n && j + 1 < |t|
      ensures !(t[j] == '*' && t[j + 1] == '/')
    {
      assert t[j] == comment[j - 2];
      assert j + 1 < n ==> t[j + 1] == comment[j - 2 + 1];
    }
    SkipNothing(s);
    SkipBlock(t, 0, n);
  }
}

/**
 The migration statement splitter of cmd/migrate/engine/splitter.go.

 `SplitStatements` and `HasExecutableContent` are the two loops of that file.  The first is
 proved against `Statements`, the meaning of its six-state scanner on whole texts; the second
 against an independently defined lexer, `LexemeAt`, which the scanner is compared with as well.
 */
module Splitter {
  import opened Text

  // ---------------------------------------------------------------- the six-state scanner

  /** `s` starts with the two runes `a` and `b`. */
  predicate Opens(s: string, a: char, b: char) {
    |s| > 1 && s[0] == a && s[1] == b
  }

  datatype State = Code | LineComment | BlockComment | SingleQuote | DoubleQuote | Backtick

  /** What one turn of the scanning loop does: the state it goes to and the runes it consumes. */
  datatype Move = Move(next: State, width: nat)

  function Advance(st: State, s: string): (m: Move)
    requires s != ""
    ensures 1 <= m.width <= |s|
  {
    var ch := s[0];
    match st
    case Code =>
      if Opens(s, '-', '-') then Move(LineComment, 1)
      else if Opens(s, '/', '*') then Move(BlockComment, 1)
      else if ch == '\'' then Move(SingleQuote, 1)
      else if ch == '"' then Move(DoubleQuote, 1)
      else if ch == '`' then Move(Backtick, 1)
      else Move(Code, 1)
    case LineComment => Move(if ch == '\n' then Code else LineComment, 1)
    case BlockComment =>
      if Opens(s, '*', '/') then Move(Code, 2) else Move(BlockComment, 1)
    case SingleQuote =>
      if ch == '\\' then Move(SingleQuote, if |s| > 1 then 2 else 1)
      else Move(if ch == '\'' then Code else SingleQuote, 1)
    case DoubleQuote => Move(if ch == '"' then Code else DoubleQuote, 1)
    case Backtick => Move(if ch == '`' then Code else Backtick, 1)
  }

  predicate Cuts(st: State, s: string)
    requires s != ""
  {
    st.Code? && s[0] == ';'
  }

  function Prepend(a: string, segments: seq<string>): (r: seq<string>)
    requires segments != []
    ensures |r| == |segments|
  {
    [a + segments[0]] + segments[1..]
  }

  /** The untrimmed pieces between separators, when the scanner is in state `st` before `s`. */
  function Segments(st: State, s: string): (r: seq<string>)
    ensures r != []
    decreases |s|
  {
    if s == "" then [""]
    else if Cuts(st, s) then [""] + Segments(Code, s[1..])
    else
      var m := Advance(st, s);
      Prepend(s[..m.width], Segments(m.next, s[m.width..]))
  }

  /** The contribution of one segment: its trimmed text, or nothing. */
  function Kept(segment: string): seq<string> {
    var t := TrimSpace(segment);
    if t == "" || !Significant(t) then [] else [t]
  }

  function KeptAll(segments: seq<string>): seq<string> {
    if segments == [] then [] else Kept(segments[0]) + KeptAll(segments[1..])
  }

  function Statements(content: string): seq<string> {
    KeptAll(Segments(Code, content))
  }

  // ---------------------------------------------------------------- the reference lexer

  datatype Kind = Blank | Comment | Quoted | Symbol

  /** A lexeme: its kind, its length, and whether its closing delimiter is present. */
  datatype Lexeme = Lexeme(kind: Kind, width: nat, closed: bool)

  /** The first position of the rune `c` in `s`, or `|s|`. */
  function FindRune(c: char, s: string): (i: nat)
    ensures i <= |s|
    ensures i < |s| ==> s[i] == c
    ensures forall j | 0 <= j < i :: s[j] != c
  {
    if s == "" || s[0] == c then 0 else 1 + FindRune(c, s[1..])
  }

  /** The first position in `s` of the rune `a` followed by the rune `b`, or `|s|`. */
  function FindPair(a: char, b: char, s: string): (i: nat)
    ensures i <= |s|
    ensures i < |s| ==> i + 1 < |s| && s[i] == a && s[i + 1] == b
    ensures forall j | 0 <= j < i && j + 1 < |s| :: !(s[j] == a && s[j + 1] == b)
  {
    if s == "" || Opens(s, a, b) then 0 else 1 + FindPair(a, b, s[1..])
  }

  /** A lexeme that opens with `open` runes and ends with the first rune `close` after them. */
  function Delimited(kind: Kind, open: nat, close: char, s: string): (l: Lexeme)
    requires open <= |s|
    ensures open <= l.width <= |s| && l.kind == kind
  {
    var i := open + FindRune(close, s[open..]);
    if i < |s| then Lexeme(kind, i + 1, true) else Lexeme(kind, |s|, false)
  }

  /** A block comment ends with the first star and slash after its opening two runes. */
  function Block(s: string): (l: Lexeme)
    requires 2 <= |s|
    ensures 2 <= l.width <= |s| && l.kind == Comment
  {
    var i := 2 + FindPair('*', '/', s[2..]);
    if i < |s| then Lexeme(Comment, i + 2, true) else Lexeme(Comment, |s|, false)
  }

  /** The rest of a string literal, after its opening quote: a backslash hides the next rune. */
  function LiteralTail(s: string): (l: Lexeme)
    ensures l.width <= |s| && l.kind == Quoted
    decreases |s|
  {
    if s == "" then Lexeme(Quoted, 0, false)
    else if s[0] == '\'' then Lexeme(Quoted, 1, true)
    else
      var skip := if s[0] == '\\' && |s| > 1 then 2 else 1;
      var l := LiteralTail(s[skip..]);
      Lexeme(Quoted, skip + l.width, l.closed)
  }

  function Literal(s: string): (l: Lexeme)
    requires s != ""
    ensures 1 <= l.width <= |s| && l.kind == Quoted
  {
    var l := LiteralTail(s[1..]);
    Lexeme(Quoted, 1 + l.width, l.closed)
  }

  predicate IsBlank(c: char) {
    c == ' ' || c == '\t' || c == '\r' || c == '\n'
  }

  /** The lexeme at the start of `s`. */
  function LexemeAt(s: string): (l: Lexeme)
    requires s != ""
    ensures 1 <= l.width <= |s|
  {
    if Opens(s, '-', '-') then Delimited(Comment, 2, '\n', s)
    else if Opens(s, '/', '*') then Block(s)
    else if s[0] == '\'' then Literal(s)
    else if s[0] == '"' then Delimited(Quoted, 1, '"', s)
    else if s[0] == '`' then Delimited(Quoted, 1, '`', s)
    else Lexeme(if IsBlank(s[0]) then Blank else Symbol, 1, true)
  }

  /** The reference lexer finds something other than blanks and comments. */
  predicate Significant(s: string)
    decreases |s|
  {
    s != "" &&
    var l := LexemeAt(s);
    l.kind == Quoted || l.kind == Symbol || Significant(s[l.width..])
  }

  // ---------------------------------------------------------------- the loops of the source

  method HasExecutableContent(s: string) returns (found: bool)
    ensures found == Significant(s)
  {
    hide Significant, LexemeAt;
    var i := 0;
    assert s[0..] == s;
    SkipNothing(s);
    while i < |s|
      invariant 0 <= i <= |s| + 2
      invariant Significant(s) == (i < |s| && Significant(s[i..]))
      decreases |s| + 2 - i
    {
      var ch := s[i];
      var next := if i + 1 < |s| then s[i + 1] else '\0';
      ghost var start := i;
      if ch == ' ' || ch == '\t' || ch == '\r' || ch == '\n' {
        SkipBlank(s, start);
      } else if ch == '-' && next == '-' {
        while i < |s| && s[i] != '\n'
          invariant start <= i <= |s|
          invariant forall j | start <= j < i :: s[j] != '\n'
        {
          i := i + 1;
        }
        SkipLine(s, start, i);
      } else if ch == '/' && next == '*' {
        i := i + 2;
        while i + 1 < |s| && (s[i] != '*' || s[i + 1] != '/')
          invariant start + 2 <= i <= |s|
          invariant forall j | start + 2 <= j < i && j + 1 < |s| :: !(s[j] == '*' && s[j + 1] == '/')
        {
          i := i + 1;
        }
        SkipBlock(s, start, i);
        i := i + 1;
      } else {
        StopAtContent(s, start);
        return true;
      }
      i := i + 1;
    }
    found := false;
  }

  lemma SkipNothing(s: string)
    ensures Significant(s) == (s != "" && Significant(s))
  {}

  lemma SkipBlank(s: string, start: nat)
    requires start < |s| && IsBlank(s[start])
    ensures Significant(s[start..]) == (start + 1 < |s| && Significant(s[start + 1..]))
  {
    assert s[start..][1..] == s[start + 1..];
  }

  lemma StopAtContent(s: string, start: nat)
    requires start < |s| && !IsBlank(s[start])
    requires !Opens(s[start..], '-', '-') && !Opens(s[start..], '/', '*')
    ensures Significant(s[start..])
  {}

  /** The scan for the end of a line comment stops where the reference lexeme ends. */
  lemma SkipLine(s: string, start: nat, stop: nat)
    requires start <= stop <= |s| && Opens(s[start..], '-', '-')
    requires forall j | start <= j < stop :: s[j] != '\n'
    requires stop < |s| ==> s[stop] == '\n'
    ensures Significant(s[start..]) == (stop + 1 < |s| && Significant(s[stop + 1..]))
  {
    var rest := s[start..];
    assert s[start] == '-' && s[start + 1] == '-';
    var i := FindRune('\n', rest[2..]);
    assert i < |rest[2..]| ==> s[start + 2 + i] == '\n';
    assert stop < |s| ==> rest[2..][stop - start - 2] == '\n';
    assert LexemeAt(rest).width == if stop < |s| then stop + 1 - start else |rest|;
    assert stop < |s| ==> rest[stop + 1 - start..] == s[stop + 1..];
  }

  /** The same for block comments. */
  lemma SkipBlock(s: string, start: nat, stop: nat)
    requires start + 2 <= stop <= |s| && Opens(s[start..], '/', '*')
    requires forall j | start + 2 <= j < stop && j + 1 < |s| :: !(s[j] == '*' && s[j + 1] == '/')
    requires stop + 1 < |s| ==> s[stop] == '*' && s[stop + 1] == '/'
    ensures Significant(s[start..]) == (stop + 2 < |s| && Significant(s[stop + 2..]))
  {
    var rest := s[start..];
    var i := FindPair('*', '/', rest[2..]);
    assert i < |rest[2..]| ==> s[start + 2 + i] == '*' && s[start + 2 + i + 1] == '/';
    assert stop + 1 < |s| ==> rest[2..][stop - start - 2] == '*' && rest[2..][stop - start - 1] == '/';
    assert LexemeAt(rest).width == if stop + 1 < |s| then stop + 2 - start else |rest|;
    assert stop + 1 < |s| ==> rest[stop + 2 - start..] == s[stop + 2..];
  }

  /** Appends the trimmed statement when it holds more than white space and comments. */
  method AppendExecutable(statements: seq<string>, stmt: string) returns (r: seq<string>)
    ensures r == statements + Kept(stmt)
  {
    var trimmed := TrimSpace(stmt);
    if trimmed == "" {
      return statements;
    }
    var executable := HasExecutableContent(trimmed);
    if !executable {
      return statements;
    }
    return statements + [trimmed];
  }

  /** What is still to be kept when `current` has been read and `s` has not. */
  ghost function Remaining(current: string, st: State, s: string): seq<string> {
    KeptAll(Prepend(current, Segments(st, s)))
  }

  lemma RemainingStart(content: string)
    ensures Remaining("", Code, content) == Statements(content)
  {
    PrependNothing(Segments(Code, content));
  }

  lemma RemainingMove(current: string, st: State, s: string)
    requires s != "" && !Cuts(st, s)
    ensures var m := Advance(st, s);
            Remaining(current, st, s) == Remaining(current + s[..m.width], m.next, s[m.width..])
  {
    var m := Advance(st, s);
    PrependTwice(current, s[..m.width], Segments(m.next, s[m.width..]));
  }

  lemma RemainingCut(current: string, s: string)
    requires s != "" && Cuts(Code, s)
    ensures Remaining(current, Code, s) == Kept(current) + Remaining("", Code, s[1..])
  {
    PrependNothing(Segments(Code, s[1..]));
    assert current + "" == current;
  }

  lemma RemainingEnd(current: string, st: State)
    ensures Remaining(current, st, "") == Kept(current)
  {
    assert current + "" == current;
    assert Prepend(current, Segments(st, "")) == [current];
    assert KeptAll([current]) == Kept(current) + KeptAll([current][1..]) == Kept(current) + [];
  }

  lemma PrependNothing(segments: seq<string>)
    requires segments != []
    ensures Prepend("", segments) == segments
  {
    assert "" + segments[0] == segments[0];
  }

  lemma PrependTwice(a: string, b: string, segments: seq<string>)
    requires segments != []
    ensures Prepend(a, Prepend(b, segments)) == Prepend(a + b, segments)
  {
    assert a + (b + segments[0]) == (a + b) + segments[0];
  }

  method SplitStatements(content: string) returns (statements: seq<string>)
    ensures statements == Statements(content)
  {
    hide Statements, Remaining, Kept;
    statements := [];
    var current := "";
    var state := Code;
    var i := 0;
    RemainingStart(content);
    assert content[0..] == content;
    while i < |content|
      invariant 0 <= i <= |content|
      invariant statements + Remaining(current, state, content[i..]) == Statements(content)
    {
      ghost var rest := content[i..];
      ghost var start, before, entered := i, current, state;
      var ch := content[i];
      var next := if i + 1 < |content| then content[i + 1] else '\0';
      match state {
        case Code =>
          if ch == '-' && next == '-' {
            state := LineComment;
          } else if ch == '/' && next == '*' {
            state := BlockComment;
          } else if ch == '\'' {
            state := SingleQuote;
          } else if ch == '"' {
            state := DoubleQuote;
          } else if ch == '`' {
            state := Backtick;
          } else if ch == ';' {
            RemainingCut(current, rest);
            assert rest[1..] == content[i + 1..];
            statements := AppendExecutable(statements, current);
            current := "";
            i := i + 1;
            continue;
          }
        case LineComment =>
          if ch == '\n' {
            state := Code;
          }
        case BlockComment =>
          if ch == '*' && next == '/' {
            current := current + [ch];
            i := i + 1;
            ch := content[i];
            state := Code;
          }
        case SingleQuote =>
          if ch == '\\' {
            if i + 1 < |content| {
              current := current + [ch];
              i := i + 1;
              ch := content[i];
            }
          } else if ch == '\'' {
            state := Code;
          }
        case DoubleQuote =>
          if ch == '"' {
            state := Code;
          }
        case Backtick =>
          if ch == '`' {
            state := Code;
          }
      }
      current := current + [ch];
      i := i + 1;
      assert Advance(entered, rest) == Move(state, i - start);
      RemainingMove(before, entered, rest);
      assert current == before + rest[..i - start];
      assert content[i..] == rest[i - start..];
    }
    assert content[i..] == "";
    RemainingEnd(current, state);
    statements := AppendExecutable(statements, current);
  }
}

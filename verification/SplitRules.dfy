/** Splitting by rules on texts, without states: what in front of a text is passed over, and what separates. */
module SplitRules {
  import opened Splitter

  /** The scanner stays where it is for one rune. */
  predicate Stays(st: State, s: string) {
    s != "" && Advance(st, s) == Move(st, 1)
  }

  /** One move of the scanner that is no cut. */
  lemma OneMove(st: State, next: State, moved: string, s: string)
    requires moved != "" && !Cuts(st, moved + s) && Advance(st, moved + s) == Move(next, |moved|)
    ensures Segments(st, moved + s) == Prepend(moved, Segments(next, s))
  {
    hide Advance;
    assert (moved + s)[..|moved|] == moved && (moved + s)[|moved|..] == s;
  }

  /** Runes for which the scanner stays inside a quotation or a comment. */
  lemma {:induction false} Inside(st: State, inside: string, s: string)
    requires !st.Code? && forall i | 0 <= i < |inside| :: Stays(st, inside[i..] + s)
    ensures Segments(st, inside + s) == Prepend(inside, Segments(st, s))
  {
    hide Advance, Segments;
    if inside == "" {
      assert inside + s == s;
      PrependNothing(Segments(st, s));
    } else {
      var c, rest := inside[..1], inside[1..];
      assert inside[0..] == inside && inside + s == c + (rest + s) && inside == c + rest;
      OneMove(st, st, c, rest + s);
      forall i | 0 <= i < |rest|
        ensures Stays(st, rest[i..] + s)
      {
        assert rest[i..] == inside[i + 1..];
      }
      Inside(st, rest, s);
      PrependTwice(c, rest, Segments(st, s));
    }
  }

  /** An opening, what is inside, and a closing. */
  lemma Enclosed(st: State, open: string, inside: string, close: string, s: string)
    requires !st.Code? && |open| == 1 && close != ""
    requires open[0] != ';' && Advance(Code, open + (inside + (close + s))) == Move(st, 1)
    requires forall i | 0 <= i < |inside| :: Stays(st, inside[i..] + (close + s))
    requires Advance(st, close + s) == Move(Code, |close|)
    ensures Segments(Code, open + inside + close + s) == Prepend(open + inside + close, Segments(Code, s))
  {
    hide Advance, Segments;
    var segments := Segments(Code, s);
    OneMove(Code, st, open, inside + (close + s));
    Inside(st, inside, close + s);
    OneMove(st, Code, close, s);
    PrependTwice(inside, close, segments);
    PrependTwice(open, inside + close, segments);
    assert open + (inside + (close + s)) == open + inside + close + s;
    assert open + (inside + close) == open + inside + close;
  }

  lemma Quoted(st: State, quote: char, inside: string, s: string)
    requires
      || (st == SingleQuote && quote == '\'')
      || (st == DoubleQuote && quote == '"')
      || (st == Backtick && quote == '`')
    requires quote !in inside && (st == SingleQuote ==> '\\' !in inside)
    ensures Segments(Code, [quote] + inside + [quote] + s) == Prepend([quote] + inside + [quote], Segments(Code, s))
  {
    hide Segments;
    forall i | 0 <= i < |inside|
      ensures Stays(st, inside[i..] + ([quote] + s))
    {
      assert (inside[i..] + ([quote] + s))[0] == inside[i];
    }
    Enclosed(st, [quote], inside, [quote], s);
  }

  lemma LineCommented(inside: string, s: string)
    requires '\n' !in inside
    ensures Segments(Code, "--" + inside + "\n" + s) == Prepend("--" + inside + "\n", Segments(Code, s))
  {
    hide Segments;
    var dashed := "-" + inside;
    forall i | 0 <= i < |dashed|
      ensures Stays(LineComment, dashed[i..] + ("\n" + s))
    {
      assert (dashed[i..] + ("\n" + s))[0] == dashed[i];
    }
    Enclosed(LineComment, "-", dashed, "\n", s);
    assert "-" + dashed == "--" + inside;
  }

  lemma BlockCommented(inside: string, s: string)
    requires forall j | 0 <= j < |inside| - 1 :: !(inside[j] == '*' && inside[j + 1] == '/')
    requires inside != "" ==> inside[0] != '/'
    ensures Segments(Code, "/*" + inside + "*/" + s) == Prepend("/*" + inside + "*/", Segments(Code, s))
  {
    hide Segments;
    var starred := "*" + inside;
    forall i | 0 <= i < |starred|
      ensures Stays(BlockComment, starred[i..] + ("*/" + s))
    {
      var t := starred[i..] + ("*/" + s);
      assert t[0] == starred[i];
      assert i + 1 < |starred| ==> t[1] == starred[i + 1];
      assert i + 1 == |starred| ==> t[1] == '*';
      assert i > 0 && i + 1 < |starred| ==> starred[i] == inside[i - 1] && starred[i + 1] == inside[i];
    }
    Enclosed(BlockComment, "/", starred, "*/", s);
    assert "/" + starred == "/*" + inside;
  }

  /** Inside a string literal a backslash hides the next rune, a quote included. */
  lemma Escaped(c: char, s: string)
    ensures Segments(SingleQuote, ['\\', c] + s) == Prepend(['\\', c], Segments(SingleQuote, s))
    ensures Segments(Code, "'" + s) == Prepend("'", Segments(SingleQuote, s))
  {
    OneMove(SingleQuote, SingleQuote, ['\\', c], s);
    OneMove(Code, SingleQuote, "'", s);
  }

  /**
   The cutting of a text without its states.  Only a semicolon separates; a quotation of any of the
   three kinds and a comment of either kind are passed over whole, with the semicolons in them; and so
   is every other rune that does not open one.
   */
  lemma SplitByRules(inside: string, c: char, s: string)
    ensures Segments(Code, "") == [""] && Segments(Code, ";" + s) == [""] + Segments(Code, s)
    ensures '\'' !in inside && '\\' !in inside ==>
              Segments(Code, "'" + inside + "'" + s) == Prepend("'" + inside + "'", Segments(Code, s))
    ensures '"' !in inside ==>
              Segments(Code, "\"" + inside + "\"" + s) == Prepend("\"" + inside + "\"", Segments(Code, s))
    ensures '`' !in inside ==>
              Segments(Code, "`" + inside + "`" + s) == Prepend("`" + inside + "`", Segments(Code, s))
    ensures '\n' !in inside ==>
              Segments(Code, "--" + inside + "\n" + s) == Prepend("--" + inside + "\n", Segments(Code, s))
    ensures (forall j | 0 <= j < |inside| - 1 :: !(inside[j] == '*' && inside[j + 1] == '/'))
            && (inside != "" ==> inside[0] != '/') ==>
              Segments(Code, "/*" + inside + "*/" + s) == Prepend("/*" + inside + "*/", Segments(Code, s))
    ensures c !in ";'\"`" && !Opens([c] + s, '-', '-') && !Opens([c] + s, '/', '*') ==>
              Segments(Code, [c] + s) == Prepend([c], Segments(Code, s))
  {
    Semicolons(s);
    hide Segments;
    if '\'' !in inside && '\\' !in inside {
      Quoted(SingleQuote, '\'', inside, s);
    }
    if '"' !in inside {
      Quoted(DoubleQuote, '"', inside, s);
    }
    if '`' !in inside {
      Quoted(Backtick, '`', inside, s);
    }
    if '\n' !in inside {
      LineCommented(inside, s);
    }
    if (forall j | 0 <= j < |inside| - 1 :: !(inside[j] == '*' && inside[j + 1] == '/'))
       && (inside != "" ==> inside[0] != '/') {
      BlockCommented(inside, s);
    }
    if c !in ";'\"`" && !Opens([c] + s, '-', '-') && !Opens([c] + s, '/', '*') {
      OneMove(Code, Code, [c], s);
    }
  }

  lemma Semicolons(s: string)
    ensures Segments(Code, "") == [""] && Segments(Code, ";" + s) == [""] + Segments(Code, s)
  {
    assert (";" + s)[1..] == s;
  }
}

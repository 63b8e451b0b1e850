/** What makes no difference in a line for the shell of project3/sh.c: which white space
    stands between tokens, and whether a redirection is written `>` or `>>`; and what the
    tokens of a line are. */
module ShellLaws {
  import opened ShellGrammar

  // ---- tokens ----

  lemma {:induction false} SpacesSkipped(a: string, b: string)
    requires SpaceLen(a) == |a|
    ensures SpaceLen(a + b) == |a| + SpaceLen(b)
  {
    if a == "" {
      assert a + b == b;
    } else {
      assert (a + b)[1..] == a[1..] + b;
      SpacesSkipped(a[1..], b);
    }
  }

  lemma {:induction false} SpacesEnd(a: string, b: string)
    requires SpaceLen(a) < |a|
    ensures SpaceLen(a + b) == SpaceLen(a)
  {
    if IsSpace(a[0]) {
      assert (a + b)[1..] == a[1..] + b;
      SpacesEnd(a[1..], b);
    }
  }

  lemma {:induction false} WordEnds(a: string, b: string)
    requires b == "" || !IsWordChar(b[0])
    ensures WordLen(a + b) == WordLen(a)
  {
    if a == "" {
      assert a + b == b;
    } else if IsWordChar(a[0]) {
      assert (a + b)[1..] == a[1..] + b;
      WordEnds(a[1..], b);
    }
  }

  /** A token ends before a space, or a symbol that is not `>`. */
  lemma TokenEnds(a: string, tail: string)
    requires a != "" && !IsSpace(a[0]) && tail != "" && !IsWordChar(tail[0]) && tail[0] != '>'
    ensures FirstToken(a + tail) == FirstToken(a)
  {
    if IsWordChar(a[0]) {
      WordEnds(a, tail);
      assert (a + tail)[..WordLen(a)] == a[..WordLen(a)];
    } else {
      assert |a| == 1 ==> (a + tail)[1] == tail[0];
    }
  }

  lemma LexSpaces(s: string, t: string)
    requires s[SpaceLen(s)..] == t[SpaceLen(t)..]
    ensures Lex(s) == Lex(t)
  {
  }

  /** So a line can be cut there. */
  lemma {:induction false} Cut(a: string, tail: string)
    requires tail != "" && !IsWordChar(tail[0]) && tail[0] != '>'
    ensures Lex(a + tail) == Lex(a) + Lex(tail)
    decreases |a|
  {
    hide Lex, FirstToken, IsWordChar, SpaceLen, IsSpace;
    var s := a + tail;
    if SpaceLen(a) == |a| {
      SpacesSkipped(a, tail);
      assert s[SpaceLen(s)..] == tail[SpaceLen(tail)..];
      LexSpaces(s, tail);
      NoTokens(a);
    } else {
      SpacesEnd(a, tail);
      var t := a[SpaceLen(a)..];
      assert s[SpaceLen(s)..] == t + tail;
      TokenEnds(t, tail);
      var (token, n) := FirstToken(t);
      assert (t + tail)[n..] == t[n..] + tail;
      Cut(t[n..], tail);
      LexStep(s, t + tail, token, n);
      LexStep(a, t, token, n);
      assert [token] + Lex(t[n..]) + Lex(tail) == [token] + (Lex(t[n..]) + Lex(tail));
    }
  }

  lemma NoTokens(a: string)
    requires SpaceLen(a) == |a|
    ensures Lex(a) == []
  {
  }

  lemma LexStep(s: string, t: string, token: Token, n: nat)
    requires t == s[SpaceLen(s)..] && t != "" && FirstToken(t) == (token, n)
    ensures Lex(s) == [token] + Lex(t[n..])
  {
  }

  lemma SpaceFirst(c: char, b: string)
    requires IsSpace(c)
    ensures Lex([c] + b) == Lex(b)
  {
    hide Lex, FirstToken;
    var s := [c] + b;
    assert s[1..] == b;
    assert s[SpaceLen(s)..] == b[SpaceLen(b)..];
    LexSpaces(s, b);
  }

  /** A blank, a tab, a carriage return, a line feed and a vertical tab each end the token
      before them and are no part of any token. */
  lemma AnySpaceSeparates(a: string, c: char, b: string)
    requires c in {' ', '\t', '\r', '\n', '\U{0B}'}
    ensures Lex(a + ([c] + b)) == Lex(a) + Lex(b)
  {
    hide Lex, FirstToken;
    Cut(a, [c] + b);
    SpaceFirst(c, b);
  }

  lemma TokenFirst(t: Token, s: string, b: string)
    requires s != "" && !IsSpace(s[0]) && FirstToken(s + b) == (t, |s|)
    ensures Lex(s + b) == [t] + Lex(b)
  {
    hide Lex, FirstToken;
    assert (s + b)[0..] == s + b && (s + b)[|s|..] == b;
    LexStep(s + b, s + b, t, |s|);
  }

  /** A symbol is a token wherever it stands. */
  lemma SymbolStands(a: string, c: char, b: string)
    requires c in {'<', '|', '&', ';', '(', ')'}
    ensures Lex(a + ([c] + b)) == Lex(a) + ([Sym(c)] + Lex(b))
  {
    hide Lex;
    Cut(a, [c] + b);
    TokenFirst(Sym(c), [c], b);
  }

  /** `>` is one too, unless another `>` follows, or stands before it; and two are one token. */
  lemma ArrowsStand(b: string)
    ensures Lex(">>" + b) == [Append] + Lex(b)
    ensures b == "" || b[0] != '>' ==> Lex(">" + b) == [Sym('>')] + Lex(b)
  {
    hide Lex;
    TokenFirst(Append, ">>", b);
    if b == "" || b[0] != '>' {
      TokenFirst(Sym('>'), ">", b);
    }
  }

  /** Any other characters make a word, up to the next space or symbol. */
  lemma WordStands(w: string, b: string)
    requires w != "" && (b == "" || !IsWordChar(b[0]))
    requires forall i :: 0 <= i < |w| ==>
      w[i] !in {' ', '\t', '\r', '\n', '\U{0B}', '<', '|', '>', '&', ';', '(', ')'}
    ensures Lex(w + b) == [Word(w)] + Lex(b)
  {
    hide Lex;
    WordLenIs(w, b);
    assert (w + b)[..|w|] == w;
    TokenFirst(Word(w), w, b);
  }

  // ---- `>` and `>>` ----

  /** `ts` with `>` for `>>`. */
  function Single(ts: seq<Token>): (r: seq<Token>)
    ensures |r| == |ts|
    ensures forall i :: 0 <= i < |ts| ==> r[i] == if ts[i] == Append then Sym('>') else ts[i]
  {
    seq(|ts|, i requires 0 <= i < |ts| => if ts[i] == Append then Sym('>') else ts[i])
  }

  lemma SinglePeeks(ts: seq<Token>, toks: set<char>)
    ensures Peeks(Single(ts), toks) <==> Peeks(ts, toks)
    ensures ts != [] ==> Single(ts)[1..] == Single(ts[1..])
    ensures |ts| >= 2 ==> Single(ts)[2..] == Single(ts[2..])
  {
  }

  function SingleParsed(r: Parsed): Parsed {
    match r
    case Panic => Panic
    case Ok(c, rest) => Ok(c, Single(rest))
  }

  function SingleRedirs(r: Redirected): Redirected {
    match r
    case NoFile => NoFile
    case Redirs(rs, rest) => Redirs(rs, Single(rest))
  }

  lemma {:induction false} SameRedirs(ts: seq<Token>, rs: seq<Target>)
    ensures ParseRedirs(Single(ts), rs) == SingleRedirs(ParseRedirs(ts, rs))
    decreases |ts|
  {
    SinglePeeks(ts, {'<', '>'});
    if Peeks(ts, {'<', '>'}) && |ts| >= 2 && ts[1].Word? {
      SameRedirs(ts[2..], rs + [Target(ts[1].text, if ts[0] == Sym('<') then 0 else 1)]);
    }
  }

  lemma {:induction false} SameArgs(ts: seq<Token>, argv: seq<string>, rs: seq<Target>)
    ensures ParseArgs(Single(ts), argv, rs) == SingleParsed(ParseArgs(ts, argv, rs))
    decreases |ts|
  {
    hide ParseRedirs;
    SinglePeeks(ts, {'|', ')', '&', ';'});
    if !(Peeks(ts, {'|', ')', '&', ';'}) || ts == []) && ts[0].Word? && |argv| + 1 < MAXARGS {
      SameRedirs(ts[1..], rs);
      var r := ParseRedirs(ts[1..], rs);
      if r.Redirs? {
        SameArgs(r.rest, argv + [ts[0].text], r.rs);
      }
    }
  }

  lemma {:induction false} SameBacks(c: Cmd, ts: seq<Token>)
    ensures ParseBacks(c, Single(ts)) == (ParseBacks(c, ts).0, Single(ParseBacks(c, ts).1))
    decreases |ts|
  {
    SinglePeeks(ts, {'&'});
    if Peeks(ts, {'&'}) {
      SameBacks(Back(c), ts[1..]);
    }
  }

  lemma {:induction false} SameExec(ts: seq<Token>)
    ensures ParseExec(Single(ts)) == SingleParsed(ParseExec(ts))
    decreases |ts|, 1
  {
    hide ParseRedirs, ParseArgs, ParseLine;
    SinglePeeks(ts, {'('});
    if Peeks(ts, {'('}) {
      SameLine(ts[1..]);
      var r := ParseLine(ts[1..]);
      if r.Ok? {
        SinglePeeks(r.rest, {')'});
        if Peeks(r.rest, {')'}) {
          SameRedirs(r.rest[1..], []);
        }
      }
    } else {
      SameRedirs(ts, []);
      var r := ParseRedirs(ts, []);
      if r.Redirs? {
        SameArgs(r.rest, [], r.rs);
      }
    }
  }

  lemma {:induction false} SamePipe(ts: seq<Token>)
    ensures ParsePipe(Single(ts)) == SingleParsed(ParsePipe(ts))
    decreases |ts|, 2
  {
    hide ParseExec;
    SameExec(ts);
    var r := ParseExec(ts);
    if r.Ok? {
      SinglePeeks(r.rest, {'|'});
      if Peeks(r.rest, {'|'}) {
        SamePipe(r.rest[1..]);
      }
    }
  }

  lemma {:induction false} SameLine(ts: seq<Token>)
    ensures ParseLine(Single(ts)) == SingleParsed(ParseLine(ts))
    decreases |ts|, 3
  {
    hide ParsePipe, ParseBacks;
    SamePipe(ts);
    var r := ParsePipe(ts);
    if r.Ok? {
      SameBacks(r.cmd, r.rest);
      var after := ParseBacks(r.cmd, r.rest).1;
      SinglePeeks(after, {';'});
      if Peeks(after, {';'}) {
        SameLine(after[1..]);
      }
    }
  }

  /** The shell makes of a line what it makes of the line with `>` for every `>>`: the
      code opens the file the same way. */
  lemma AppendIsWrite(s: string, t: string)
    requires Lex(t) == Single(Lex(s))
    ensures ParseCmd(t) == ParseCmd(s)
  {
    SameLine(Lex(s));
  }
}

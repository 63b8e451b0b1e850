/** project3/sh.c: the parser itself, moving a cursor over the characters of a line. It
    computes the functions of `ShellGrammar`. A method returns false where the shell
    panics. */
module ShellParser {
  import opened Options
  import opened ShellGrammar
  import opened ShellStrings

  lemma LexPast(s: string)
    requires s != "" && IsSpace(s[0])
    ensures Lex(s) == Lex(s[1..])
  {
    assert s[SpaceLen(s)..] == s[1..][SpaceLen(s[1..])..];
  }

  lemma LexEnd(s: string)
    ensures (s == "" ==> Lex(s) == []) && (s != "" && !IsSpace(s[0]) ==> Lex(s) != [])
  {
  }

  /** What `peek` looks at, with the spaces gone. */
  lemma PeeksFirst(s: string, toks: set<char>)
    requires s == "" || !IsSpace(s[0])
    requires forall c :: c in toks ==> IsSymbol(c)
    ensures Peeks(Lex(s), toks) <==> s != "" && s[0] in toks
  {
    if s != "" {
      LexFirst(s);
    }
  }

  lemma {:induction false} WordLenAt(s: string, n: nat)
    requires n <= |s| && (forall i :: 0 <= i < n ==> IsWordChar(s[i])) && (n < |s| ==> !IsWordChar(s[n]))
    ensures WordLen(s) == n
  {
    if n == 0 {
    } else {
      WordLenAt(s[1..], n - 1);
    }
  }

  class Parser {
    const buf: string
    var pos: nat               // `*ps`

    constructor (buf: string)
      ensures this.buf == buf && pos == 0
    {
      this.buf, pos := buf, 0;
    }

    /** The tokens still to come. */
    function Rest(): seq<Token>
      reads this
    {
      if pos <= |buf| then Lex(buf[pos..]) else []
    }

    /** The span has the word in the line. */
    predicate IsSpan(token: Token, s: Span)
      reads this
    {
      token.Word? && Maximal(buf, s) && token.text == TextOf(buf, s)
    }

    method SkipSpaces()
      requires pos <= |buf|
      modifies this`pos
      ensures old(pos) <= pos <= |buf| && Rest() == old(Rest()) && (pos < |buf| ==> !IsSpace(buf[pos]))
    {
      while pos < |buf| && IsSpace(buf[pos])
        invariant old(pos) <= pos <= |buf| && Rest() == old(Rest())
      {
        LexPast(buf[pos..]);
        assert buf[pos..][1..] == buf[pos + 1..];
        pos := pos + 1;
      }
    }

    /** The word of `gettoken` */
    method ScanWord() returns (w: string)
      requires pos < |buf| && IsWordChar(buf[pos])
      modifies this`pos
      ensures old(pos) < pos <= |buf| && w == buf[old(pos)..pos] && WordLen(buf[old(pos)..]) == pos - old(pos)
      ensures Maximal(buf, Span(old(pos), pos))
    {
      var q := pos;
      while pos < |buf| && IsWordChar(buf[pos])
        invariant q <= pos <= |buf| && forall i :: q <= i < pos ==> IsWordChar(buf[i])
        invariant pos == q ==> IsWordChar(buf[q])
      {
        pos := pos + 1;
      }
      WordLenAt(buf[q..], pos - q);
      w := buf[q..pos];
    }

    /** The switch of `gettoken` */
    method TakeToken() returns (token: Token)
      requires pos < |buf| && !IsSpace(buf[pos])
      modifies this`pos
      ensures old(pos) < pos <= |buf| && FirstToken(buf[old(pos)..]) == (token, pos - old(pos))
      ensures token.Word? ==> IsSpan(token, Span(old(pos), pos))
    {
      ghost var s := buf[pos..];
      assert s[0] == buf[pos] && (|s| >= 2 ==> s[1] == buf[pos + 1]);
      match buf[pos] {
        case '|' | '(' | ')' | ';' | '&' | '<' =>
          token := Sym(buf[pos]);
          pos := pos + 1;
        case '>' =>
          pos := pos + 1;
          token := Sym('>');
          if pos < |buf| && buf[pos] == '>' {
            token := Append;
            pos := pos + 1;
          }
        case _ =>
          ghost var q := pos;
          var w := ScanWord();
          assert s[..pos - q] == w;
          token := Word(w);
      }
    }

    /** `gettoken`; None at the end of the line. */
    method GetToken() returns (token: Option<Token>, span: Span)
      requires pos <= |buf|
      modifies this`pos
      ensures pos <= |buf|
      ensures if old(Rest()) == [] then token == None && Rest() == []
              else token == Some(old(Rest())[0]) && Rest() == old(Rest())[1..]
      ensures token.Some? && token.value.Word? ==> IsSpan(token.value, span)
    {
      hide Lex, FirstToken, IsSpace, Maximal;
      SkipSpaces();
      var q := pos;
      span := Span(q, q);
      LexEnd(buf[q..]);
      if pos == |buf| {
        return None, span;
      }
      LexFirst(buf[q..]);
      var t := TakeToken();
      span := Span(q, pos);
      assert buf[q..][pos - q..] == buf[pos..];
      SkipSpaces();
      token := Some(t);
    }

    /** `peek` */
    method Peek(toks: set<char>) returns (found: bool)
      requires pos <= |buf| && forall c :: c in toks ==> IsSymbol(c)
      modifies this`pos
      ensures pos <= |buf| && Rest() == old(Rest()) && (found <==> Peeks(Rest(), toks))
      ensures pos < |buf| ==> !IsSpace(buf[pos])
    {
      SkipSpaces();
      PeeksFirst(buf[pos..], toks);
      found := pos < |buf| && buf[pos] in toks;
    }

    /** `parseredirs`, adding to what is there */
    method Redirections(rs: seq<Spot>) returns (ok: bool, more: seq<Spot>)
      requires pos <= |buf| && AllMaximal(buf, rs)
      modifies this`pos
      ensures pos <= |buf| && AllMaximal(buf, more)
      ensures if ok then ParseRedirs(old(Rest()), TargetsOf(buf, rs)) == Redirs(TargetsOf(buf, more), Rest())
        else ParseRedirs(old(Rest()), TargetsOf(buf, rs)) == NoFile
    {
      hide Lex, TextOf, Maximal;
      more := rs;
      var redir := Peek({'<', '>'});
      while redir
        invariant pos <= |buf| && AllMaximal(buf, more)
        invariant ParseRedirs(Rest(), TargetsOf(buf, more)) == ParseRedirs(old(Rest()), TargetsOf(buf, rs))
        invariant redir <==> Peeks(Rest(), {'<', '>'})
        decreases |Rest()|
      {
        var op, none := GetToken();
        var file, span := GetToken();
        if file == None || !file.value.Word? {
          return false, more;
        }
        var spot := Spot(span, if op == Some(Sym('<')) then 0 else 1);
        TargetsAppend(buf, more, spot);
        more := more + [spot];
        redir := Peek({'<', '>'});
      }
      ok := true;
    }

    /** The loop of `parseexec` */
    method Arguments(rs: seq<Spot>) returns (ok: bool, t: Tree)
      requires pos <= |buf| && AllMaximal(buf, rs)
      modifies this`pos
      ensures pos <= |buf|
      ensures if ok then Spanned(buf, t) && ParseArgs(old(Rest()), [], TargetsOf(buf, rs)) == Ok(Text(buf, t), Rest())
        else ParseArgs(old(Rest()), [], TargetsOf(buf, rs)) == Panic
    {
      hide Lex, Wrap, ParseRedirs, TextOf, Maximal;
      t := ExecNode([]);
      var argv: seq<Span>, around := [], rs;
      assert Texts(buf, argv) == [];
      var done := Peek({'|', ')', '&', ';'});
      while !done
        invariant pos <= |buf| && AllMaximal(buf, around) && forall i :: 0 <= i < |argv| ==> Maximal(buf, argv[i])
        invariant ParseArgs(Rest(), Texts(buf, argv), TargetsOf(buf, around))
               == ParseArgs(old(Rest()), [], TargetsOf(buf, rs))
        invariant done <==> Peeks(Rest(), {'|', ')', '&', ';'})
        decreases |Rest()|
      {
        var token, span := GetToken();
        if token == None {
          break;
        }
        if !token.value.Word? || |argv| + 1 >= MAXARGS {
          return false, t;
        }
        var found, more := Redirections(around);
        if !found {
          return false, t;
        }
        TextsAppend(buf, argv, span);
        argv, around := argv + [span], more;
        done := Peek({'|', ')', '&', ';'});
      }
      WrapText(buf, ExecNode(argv), around);
      ok, t := true, WrapTree(ExecNode(argv), around);
    }

    /** `parseexec` */
    method Command() returns (ok: bool, t: Tree)
      requires pos <= |buf|
      modifies this`pos
      ensures pos <= |buf|
      ensures if ok then Spanned(buf, t) && ParseExec(old(Rest())) == Ok(Text(buf, t), Rest())
        else ParseExec(old(Rest())) == Panic
      decreases |Rest()|, 1
    {
      hide Lex, ParseRedirs, ParseArgs, ParseBlock, Text, Spanned;
      t := ExecNode([]);
      var block := Peek({'('});
      if block {
        ok, t := Block();
        return;
      }
      assert TargetsOf(buf, []) == [];
      var found, rs := Redirections([]);
      if !found {
        return false, t;
      }
      ok, t := Arguments(rs);
    }

    /** `parseblock` */
    method Block() returns (ok: bool, t: Tree)
      requires pos <= |buf| && Peeks(Rest(), {'('})
      modifies this`pos
      ensures pos <= |buf|
      ensures if ok then Spanned(buf, t) && ParseBlock(old(Rest())) == Ok(Text(buf, t), Rest())
        else ParseBlock(old(Rest())) == Panic
      decreases |Rest()|, 0
    {
      hide Lex, ParseLine, ParseRedirs, Wrap, WrapTree, Text, Spanned;
      var open, none := GetToken();
      ok, t := Line();
      if !ok {
        return;
      }
      var closed := Peek({')'});
      if !closed {
        return false, t;
      }
      var close, nil := GetToken();
      assert TargetsOf(buf, []) == [];
      var found, rs := Redirections([]);
      WrapText(buf, t, rs);
      return found, WrapTree(t, rs);
    }

    /** `parsepipe` */
    method Pipeline() returns (ok: bool, t: Tree)
      requires pos <= |buf|
      modifies this`pos
      ensures pos <= |buf|
      ensures if ok then Spanned(buf, t) && ParsePipe(old(Rest())) == Ok(Text(buf, t), Rest())
        else ParsePipe(old(Rest())) == Panic
      decreases |Rest()|, 2
    {
      hide Lex, ParseExec;
      ok, t := Command();
      if !ok {
        return;
      }
      var bar := Peek({'|'});
      if bar {
        var token, none := GetToken();
        var more, d := Pipeline();
        return more, PipeNode(t, d);
      }
    }

    /** `parseline` */
    method Line() returns (ok: bool, t: Tree)
      requires pos <= |buf|
      modifies this`pos
      ensures pos <= |buf|
      ensures if ok then Spanned(buf, t) && ParseLine(old(Rest())) == Ok(Text(buf, t), Rest())
        else ParseLine(old(Rest())) == Panic
      decreases |Rest()|, 3
    {
      hide Lex, ParsePipe;
      ok, t := Pipeline();
      if !ok {
        return;
      }
      ghost var piped, after := t, Rest();
      var amp := Peek({'&'});
      while amp
        invariant pos <= |buf| && |Rest()| <= |after| && Spanned(buf, t)
        invariant ParseBacks(Text(buf, t), Rest()) == ParseBacks(Text(buf, piped), after)
        invariant amp <==> Peeks(Rest(), {'&'})
        decreases |Rest()|
      {
        var token, none := GetToken();
        t := BackNode(t);
        amp := Peek({'&'});
      }
      var semi := Peek({';'});
      if semi {
        var token, none := GetToken();
        var more, d := Line();
        return more, ListNode(t, d);
      }
    }
  }

  /** `parsecmd` on a line in memory, which ends at its NUL: false where the shell panics,
      for leftovers too. Afterwards the pointers of the command are C strings, each of which
      is the word that was parsed. */
  method ParseCommand(mem: array<char>) returns (ok: bool, t: Tree)
    requires mem.Length > 0 && mem[mem.Length - 1] == NUL && NoNul(mem[..mem.Length - 1])
    modifies mem
    ensures if ok then ParseCmd(old(mem[..mem.Length - 1])) == Ok(Read(mem[..], t), [])
      else ParseCmd(old(mem[..mem.Length - 1])) == Panic
    ensures forall i :: 0 <= i < mem.Length && mem[i] != old(mem[i]) ==> ok && mem[i] == NUL && EndsAt(t, i)
  {
    var s := mem[..mem.Length - 1];
    var p := new Parser(s);
    assert s[0..] == s && mem[..] == s + [NUL];
    ok, t := p.Line();
    if !ok {
      return;
    }
    var more := p.Peek({});
    LexEnd(s[p.pos..]);
    AtEnd(s, p.pos, p.Rest());
    ok := p.pos == |s|;
    if ok {
      NulTerminate(mem, t, s);
      ReadsBack(s, mem[..], t);
    }
  }

  lemma AtEnd(s: string, pos: nat, rest: seq<Token>)
    requires pos <= |s| && rest == Lex(s[pos..])
    ensures pos == |s| ==> rest == []
  {
  }
}

/** The grammar of the shell's command language, independently of any parser, and that the
    parser of project3/sh.c accepts exactly the lines of this language, and makes of each
    the one tree it has. */
module ShellLanguage {
  import opened ShellGrammar

  /** `t` redirects to or from a file for descriptor `fd`. */
  predicate IsOp(t: Token, fd: nat) {
    (t == Sym('<') && fd == 0) || (t in {Sym('>'), Append} && fd == 1)
  }

  /** `ts` are the redirections `rs`. */
  predicate IsRedirs(rs: seq<Target>, ts: seq<Token>)
    decreases |ts|
  {
    if rs == [] then ts == []
    else |ts| >= 2 && IsOp(ts[0], rs[0].fd) && ts[1] == Word(rs[0].file) && IsRedirs(rs[1..], ts[2..])
  }

  /** `ts` are the words `argv` and the redirections `rs`, mixed in any way. */
  predicate IsSimple(argv: seq<string>, rs: seq<Target>, ts: seq<Token>)
    decreases |ts|
  {
    if ts == [] then argv == [] && rs == []
    else if ts[0].Word? then argv != [] && argv[0] == ts[0].text && IsSimple(argv[1..], rs, ts[1..])
    else
      |ts| >= 2 && rs != [] && IsOp(ts[0], rs[0].fd) && ts[1] == Word(rs[0].file) && IsSimple(argv, rs[1..], ts[2..])
  }

  /** `ts` is `c` in parentheses, with the redirections `rs`; the parenthesis that closes
      is at `n`. */
  ghost predicate IsBlock(c: Cmd, rs: seq<Target>, ts: seq<Token>, n: nat)
    decreases |ts|, 0
  {
    1 <= n < |ts| && ts[0] == Sym('(') && ts[n] == Sym(')') && IsCommand(c, ts[1..n], 3) && IsRedirs(rs, ts[n + 1..])
  }

  /** `ts` is `l` and `r` with `t` between them, at `n`. */
  ghost predicate IsPair(l: Cmd, k: nat, t: Token, r: Cmd, m: nat, ts: seq<Token>, n: nat)
    decreases |ts|, 0
  {
    n < |ts| && ts[n] == t && IsCommand(l, ts[..n], k) && IsCommand(r, ts[n + 1..], m)
  }

  /** `ts` is the command `c` where the grammar has a line (3), a line without `;` (2), a
      pipe (1), or one command (0). */
  ghost predicate IsCommand(c: Cmd, ts: seq<Token>, k: nat)
    decreases |ts|, k + 1
  {
    if k == 0 then
      || (exists argv, rs :: |argv| < MAXARGS && IsSimple(argv, rs, ts) && c == Wrap(Exec(argv), rs))
      || (exists d, rs, n :: IsBlock(d, rs, ts, n) && c == Wrap(d, rs))
    else
      || IsCommand(c, ts, k - 1)
      || (k == 1 && c.Pipe? && exists n :: IsPair(c.left, 0, Sym('|'), c.right, 1, ts, n))
      || (k == 2 && c.Back? && ts != [] && ts[|ts| - 1] == Sym('&') && IsCommand(c.cmd, ts[..|ts| - 1], 2))
      || (k == 3 && c.List? && exists n :: IsPair(c.left, 2, Sym(';'), c.right, 3, ts, n))
  }

  // ---- what the parser reads is in the language ----

  lemma {:induction false} RedirsRead(ts: seq<Token>, rs: seq<Target>) returns (n: nat, more: seq<Target>)
    requires ParseRedirs(ts, rs).Redirs?
    ensures var r := ParseRedirs(ts, rs);
      n <= |ts| && r.rest == ts[n..] && r.rs == rs + more && IsRedirs(more, ts[..n])
    decreases |ts|
  {
    if Peeks(ts, {'<', '>'}) {
      var t := Target(ts[1].text, if ts[0] == Sym('<') then 0 else 1);
      n, more := RedirsRead(ts[2..], rs + [t]);
      assert ts[..n + 2][2..] == ts[2..][..n] && ([t] + more)[1..] == more;
      assert rs + [t] + more == rs + ([t] + more);
      n, more := n + 2, [t] + more;
    } else {
      n, more := 0, [];
    }
  }

  /** Redirections in front of words and redirections. */
  lemma {:induction false} RedirsFirst(rs: seq<Target>, a: seq<Token>, argv: seq<string>, more: seq<Target>,
      b: seq<Token>)
    requires IsRedirs(rs, a) && IsSimple(argv, more, b)
    ensures IsSimple(argv, rs + more, a + b)
    decreases |a|
  {
    if rs == [] {
      assert rs + more == more && a + b == b;
    } else {
      RedirsFirst(rs[1..], a[2..], argv, more, b);
      assert (a + b)[2..] == a[2..] + b && (rs + more)[1..] == rs[1..] + more;
    }
  }

  lemma WordFirst(w: string, argv: seq<string>, rs: seq<Target>, a: seq<Token>)
    requires IsSimple(argv, rs, a)
    ensures IsSimple([w] + argv, rs, [Word(w)] + a)
  {
    assert ([w] + argv)[1..] == argv && ([Word(w)] + a)[1..] == a;
  }

  lemma ArgsNext(ts: seq<Token>, argv: seq<string>, rs: seq<Target>)
    requires ParseArgs(ts, argv, rs).Ok?
    ensures if Peeks(ts, {'|', ')', '&', ';'}) || ts == [] then ParseArgs(ts, argv, rs) == Ok(Wrap(Exec(argv), rs), ts)
      else
        && ts[0].Word? && |argv| + 1 < MAXARGS && ParseRedirs(ts[1..], rs).Redirs?
        && var r := ParseRedirs(ts[1..], rs); ParseArgs(ts, argv, rs) == ParseArgs(r.rest, argv + [ts[0].text], r.rs)
  {
  }

  lemma {:induction false} ArgsRead(ts: seq<Token>, argv: seq<string>, rs: seq<Target>)
    returns (n: nat, words: seq<string>, more: seq<Target>)
    requires ParseArgs(ts, argv, rs).Ok?
    ensures var r := ParseArgs(ts, argv, rs);
      && n <= |ts| && r.rest == ts[n..] && r.cmd == Wrap(Exec(argv + words), rs + more)
      && IsSimple(words, more, ts[..n]) && (|argv| < MAXARGS ==> |argv + words| < MAXARGS)
    decreases |ts|
  {
    hide ParseArgs, ParseRedirs, Wrap, IsSimple, IsRedirs;
    ArgsNext(ts, argv, rs);
    if Peeks(ts, {'|', ')', '&', ';'}) || ts == [] {
      n, words, more := 0, [], [];
      assert argv + words == argv && rs + more == rs;
      NothingSimple(ts);
    } else {
      var w, tail := ts[0].text, ts[1..];
      var m, first := RedirsRead(tail, rs);
      var rest := tail[m..];
      n, words, more := ArgsRead(rest, argv + [w], rs + first);
      RedirsFirst(first, tail[..m], words, more, rest[..n]);
      WordFirst(w, words, first + more, tail[..m] + rest[..n]);
      WordTail(ts, m, n);
      assert argv + [w] + words == argv + ([w] + words) && rs + first + more == rs + (first + more);
      n, words, more := 1 + m + n, [w] + words, first + more;
    }
  }

  lemma WordTail(ts: seq<Token>, m: nat, n: nat)
    requires ts != [] && 1 + m + n <= |ts|
    ensures [ts[0]] + (ts[1..][..m] + ts[1..][m..][..n]) == ts[..1 + m + n] && ts[1..][m..][n..] == ts[1 + m + n..]
  {
  }

  lemma NothingSimple(ts: seq<Token>)
    ensures IsSimple([], [], ts[..0])
  {
  }

  /** What the parser function for one kind of command has read. */
  ghost predicate HasRead(ts: seq<Token>, k: nat, r: Parsed) {
    r.Ok? ==> |r.rest| <= |ts| && r.rest == ts[|ts| - |r.rest|..] && IsCommand(r.cmd, ts[..|ts| - |r.rest|], k)
  }

  lemma SimpleRead(ts: seq<Token>)
    requires !Peeks(ts, {'('})
    ensures HasRead(ts, 0, ParseExec(ts))
  {
    hide ParseRedirs, ParseArgs, ParseBlock, Wrap, IsSimple;
    if ParseExec(ts).Ok? {
      var m, first := RedirsRead(ts, []);
      var n, words, more := ArgsRead(ts[m..], [], [] + first);
      RedirsFirst(first, ts[..m], words, more, ts[m..][..n]);
      assert ts[..m] + ts[m..][..n] == ts[..m + n] && ts[m..][n..] == ts[m + n..];
      assert [] + words == words && [] + first + more == first + more;
      assert |ts| - |ParseExec(ts).rest| == m + n;
      assert IsSimple(words, first + more, ts[..m + n]);
    }
  }

  lemma BlockNext(ts: seq<Token>)
    requires Peeks(ts, {'('}) && ParseExec(ts).Ok?
    ensures var r := ParseLine(ts[1..]);
      && r.Ok? && |r.rest| < |ts| && Peeks(r.rest, {')'})
      && var q := ParseRedirs(r.rest[1..], []); q.Redirs? && ParseExec(ts) == Ok(Wrap(r.cmd, q.rs), q.rest)
  {
    hide ParseLine, ParseRedirs, Wrap;
  }

  lemma BlockRead(ts: seq<Token>)
    requires Peeks(ts, {'('}) && HasRead(ts[1..], 3, ParseLine(ts[1..]))
    ensures HasRead(ts, 0, ParseExec(ts))
  {
    hide ParseExec, ParseRedirs, ParseLine, Wrap, IsRedirs, IsCommand;
    if ParseExec(ts).Ok? {
      BlockNext(ts);
      var r := ParseLine(ts[1..]);
      var i := |ts| - |r.rest|;
      var n, rs := RedirsRead(r.rest[1..], []);
      assert [] + rs == rs;
      BlockParts(ts, r.cmd, i, rs, n, r.rest);
    }
  }

  lemma BlockParts(ts: seq<Token>, d: Cmd, i: nat, rs: seq<Target>, n: nat, rest: seq<Token>)
    requires 1 <= i < |ts| && ts[0] == Sym('(') && rest == ts[1..][i - 1..] && rest != [] && rest[0] == Sym(')')
    requires IsCommand(d, ts[1..][..i - 1], 3) && n <= |rest[1..]| && IsRedirs(rs, rest[1..][..n])
    ensures i + 1 + n <= |ts| && rest[1..][n..] == ts[i + 1 + n..]
    ensures IsCommand(Wrap(d, rs), ts[..i + 1 + n], 0)
  {
    hide Wrap, IsRedirs;
    var a := ts[..i + 1 + n];
    assert rest[1..] == ts[i + 1..];
    assert a[1..i] == ts[1..][..i - 1] && a[i + 1..] == ts[i + 1..][..n];
    assert IsBlock(d, rs, a, i);
  }

  lemma PairRead(ts: seq<Token>, k: nat, m: nat, t: Token, l: Parsed, r: Parsed) returns (n: nat)
    requires l.Ok? && HasRead(ts, k, l) && l.rest != [] && l.rest[0] == t && r.Ok? && HasRead(l.rest[1..], m, r)
    ensures |r.rest| <= |ts| && r.rest == ts[|ts| - |r.rest|..]
    ensures IsPair(l.cmd, k, t, r.cmd, m, ts[..|ts| - |r.rest|], n)
  {
    hide IsCommand;
    n := |ts| - |l.rest|;
    var j := |ts| - |r.rest|;
    var a := ts[..j];
    assert l.rest[1..] == ts[n + 1..];
    assert a[..n] == ts[..n] && a[n + 1..] == ts[n + 1..][..j - (n + 1)];
  }

  lemma {:induction false} BacksRead(c: Cmd, ts: seq<Token>, a: seq<Token>)
    requires IsCommand(c, a, 2)
    ensures var (b, rest) := ParseBacks(c, ts);
      |rest| <= |ts| && rest == ts[|ts| - |rest|..] && IsCommand(b, a + ts[..|ts| - |rest|], 2)
    decreases |ts|
  {
    if Peeks(ts, {'&'}) {
      var more := a + [Sym('&')];
      assert more[..|more| - 1] == a && more[|more| - 1] == Sym('&');
      assert IsCommand(Back(c), more, 2);
      BacksRead(Back(c), ts[1..], more);
      var rest := ParseBacks(c, ts).1;
      assert more + ts[1..][..|ts| - 1 - |rest|] == a + ts[..|ts| - |rest|];
    } else {
      assert a + ts[..0] == a;
    }
  }

  lemma PipeRead(ts: seq<Token>, l: Parsed)
    requires l == ParseExec(ts) && HasRead(ts, 0, l)
    requires l.Ok? && Peeks(l.rest, {'|'}) ==> HasRead(l.rest[1..], 1, ParsePipe(l.rest[1..]))
    ensures HasRead(ts, 1, ParsePipe(ts))
  {
    hide ParseExec;
    if l.Ok? && Peeks(l.rest, {'|'}) {
      var r := ParsePipe(l.rest[1..]);
      if r.Ok? {
        var n := PairRead(ts, 0, 1, Sym('|'), l, r);
      }
    }
  }

  lemma UnlistedRead(ts: seq<Token>, l: Parsed)
    requires l == ParsePipe(ts) && HasRead(ts, 1, l)
    ensures HasRead(ts, 2, ParseAt(ts, 2))
  {
    hide ParsePipe, ParseBacks;
    if l.Ok? {
      var a := ts[..|ts| - |l.rest|];
      BacksRead(l.cmd, l.rest, a);
      var rest := ParseBacks(l.cmd, l.rest).1;
      assert a + l.rest[..|l.rest| - |rest|] == ts[..|ts| - |rest|];
    }
  }

  lemma LineRead(ts: seq<Token>, l: Parsed)
    requires l == ParseAt(ts, 2) && HasRead(ts, 2, l)
    requires l.Ok? && Peeks(l.rest, {';'}) ==> HasRead(l.rest[1..], 3, ParseLine(l.rest[1..]))
    ensures HasRead(ts, 3, ParseLine(ts))
  {
    hide ParsePipe, ParseBacks;
    if l.Ok? && Peeks(l.rest, {';'}) {
      var r := ParseLine(l.rest[1..]);
      if r.Ok? {
        var n := PairRead(ts, 2, 3, Sym(';'), l, r);
      }
    }
  }

  /** Whatever the parser reads is a command by the grammar. */
  lemma {:induction false} CommandRead(ts: seq<Token>, k: nat)
    requires k <= 3
    ensures HasRead(ts, k, ParseAt(ts, k))
    decreases |ts|, k
  {
    hide ParsePipe, ParseExec, ParseLine, ParseBacks, HasRead, IsCommand;
    if k == 0 {
      if Peeks(ts, {'('}) {
        CommandRead(ts[1..], 3);
        BlockRead(ts);
      } else {
        SimpleRead(ts);
      }
    } else {
      CommandRead(ts, k - 1);
      var l := ParseAt(ts, k - 1);
      if l.Ok? {
        RestRead(ts, k - 1, l);
        if k != 2 && Peeks(l.rest, {if k == 1 then '|' else ';'}) {
          CommandRead(l.rest[1..], k);
        }
      }
      if k == 1 {
        PipeRead(ts, l);
      } else if k == 2 {
        UnlistedRead(ts, l);
      } else {
        LineRead(ts, l);
      }
    }
  }

  lemma RestRead(ts: seq<Token>, k: nat, l: Parsed)
    requires l.Ok? && HasRead(ts, k, l)
    ensures |l.rest| <= |ts|
  {
  }

  // ---- and all of the language is read ----

  /** Words and redirections, as the code takes them: redirections, then a word, and again. */
  lemma {:induction false} SimpleMeant(a: seq<Token>, words: seq<string>, more: seq<Target>, argv: seq<string>,
      rs: seq<Target>, rest: seq<Token>)
    requires IsSimple(words, more, a) && Follows(rest, 0) && |argv| + |words| < MAXARGS
    ensures var r := ParseRedirs(a + rest, rs);
      r.Redirs? && ParseArgs(r.rest, argv, r.rs) == Ok(Wrap(Exec(argv + words), rs + more), rest)
    decreases |a|
  {
    hide Wrap;
    var ts := a + rest;
    if a == [] {
      assert ts == rest && argv + words == argv && rs + more == rs;
    } else if a[0].Word? {
      assert ts[1..] == a[1..] + rest && argv + [words[0]] + words[1..] == argv + words;
      SimpleMeant(a[1..], words[1..], more, argv + [words[0]], rs, rest);
    } else {
      assert ts[2..] == a[2..] + rest && rs + [more[0]] + more[1..] == rs + more;
      SimpleMeant(a[2..], words, more[1..], argv, rs + [more[0]], rest);
    }
  }

  lemma {:induction false} RedirsMeant(rs: seq<Target>, a: seq<Token>, before: seq<Target>, rest: seq<Token>)
    requires IsRedirs(rs, a) && !Peeks(rest, {'<', '>'})
    ensures ParseRedirs(a + rest, before) == Redirs(before + rs, rest)
    decreases |a|
  {
    var ts := a + rest;
    if rs == [] {
      assert ts == rest && before + rs == before;
    } else {
      assert ts[2..] == a[2..] + rest && before + [rs[0]] + rs[1..] == before + rs;
      RedirsMeant(rs[1..], a[2..], before + [rs[0]], rest);
    }
  }

  lemma ExecMeant(argv: seq<string>, rs: seq<Target>, a: seq<Token>, rest: seq<Token>)
    requires |argv| < MAXARGS && IsSimple(argv, rs, a) && Follows(rest, 0)
    ensures ParseExec(a + rest) == Ok(Wrap(Exec(argv), rs), rest)
  {
    hide Wrap, ParseArgs, ParseRedirs;
    SimpleMeant(a, argv, rs, [], [], rest);
    assert [] + argv == argv && [] + rs == rs;
    assert a == [] ==> a + rest == rest;
  }

  lemma BlockMeant(d: Cmd, rs: seq<Target>, a: seq<Token>, n: nat, rest: seq<Token>)
    requires IsBlock(d, rs, a, n) && Follows(rest, 0)
    requires ParseLine(a[1..n] + ([Sym(')')] + (a[n + 1..] + rest))) == Ok(d, [Sym(')')] + (a[n + 1..] + rest))
    ensures ParseExec(a + rest) == Ok(Wrap(d, rs), rest)
  {
    hide Wrap, ParseRedirs, ParseExec, ParseLine, IsCommand, IsRedirs;
    RedirsMeant(rs, a[n + 1..], [], rest);
    assert [] + rs == rs;
    BlockShape(a, n, rest);
    BlockBack(a + rest, d, a[n + 1..] + rest, rs, rest);
  }

  lemma BlockShape(a: seq<Token>, n: nat, rest: seq<Token>)
    requires 1 <= n < |a| && a[0] == Sym('(') && a[n] == Sym(')')
    ensures var ts := a + rest; ts[0] == Sym('(') && ts[1..] == a[1..n] + ([Sym(')')] + (a[n + 1..] + rest))
  {
    assert a == [a[0]] + a[1..n] + [a[n]] + a[n + 1..];
  }

  lemma PairMeant(l: Cmd, k: nat, t: Token, r: Cmd, m: nat, a: seq<Token>, n: nat, rest: seq<Token>)
    requires IsPair(l, k, t, r, m, a, n)
    ensures a + rest == a[..n] + ([t] + (a[n + 1..] + rest)) && ([t] + (a[n + 1..] + rest))[1..] == a[n + 1..] + rest
  {
    assert a == a[..n] + [t] + a[n + 1..];
  }

  /** What stands before the `&`s. */
  lemma {:induction false} BacksSplit(c: Cmd, a: seq<Token>) returns (b: Cmd, n: nat, first: seq<Token>)
    requires IsCommand(c, a, 2)
    ensures IsCommand(b, first, 1) && c == InBackground(b, n) && a == first + Amps(n) && |first| <= |a|
    decreases |a|
  {
    if IsCommand(c, a, 1) {
      b, n, first := c, 0, a;
      assert a + [] == a;
    } else {
      var last := |a| - 1;
      b, n, first := BacksSplit(c.cmd, a[..last]);
      n := n + 1;
      assert a == a[..last] + [Sym('&')] && first + Amps(n - 1) + [Sym('&')] == first + Amps(n);
    }
  }

  lemma UnlistedMeant(c: Cmd, b: Cmd, n: nat, first: seq<Token>, a: seq<Token>, rest: seq<Token>)
    requires c == InBackground(b, n) && a == first + Amps(n) && Follows(rest, 2)
    requires ParsePipe(first + (Amps(n) + rest)) == Ok(b, Amps(n) + rest)
    ensures ParseAt(a + rest, 2) == Ok(c, rest)
  {
    hide ParsePipe, ParseExec, ParseLine, ParseBacks, InBackground, Amps;
    BacksParsed(b, n, rest);
    assert a + rest == first + (Amps(n) + rest);
  }

  lemma AmpsFollow(n: nat, rest: seq<Token>)
    requires Follows(rest, 2)
    ensures Follows(Amps(n) + rest, 1)
  {
    if n == 0 {
      assert Amps(n) + rest == rest;
    } else {
      AmpsShift(n - 1);
    }
  }

  /** Whatever is a command by the grammar, and is followed by what may follow it, is read
      as that command and no further. */
  lemma {:induction false} CommandMeant(c: Cmd, a: seq<Token>, k: nat, rest: seq<Token>)
    requires k <= 3 && IsCommand(c, a, k) && Follows(rest, k)
    ensures ParseAt(a + rest, k) == Ok(c, rest)
    decreases |a|, k
  {
    hide ParsePipe, ParseExec, ParseLine, ParseBacks, Wrap, IsRedirs, IsSimple;
    if k == 0 {
      if argv, rs :| |argv| < MAXARGS && IsSimple(argv, rs, a) && c == Wrap(Exec(argv), rs) {
        ExecMeant(argv, rs, a, rest);
      } else {
        var d, rs, n: nat :| IsBlock(d, rs, a, n) && c == Wrap(d, rs);
        CommandMeant(d, a[1..n], 3, [Sym(')')] + (a[n + 1..] + rest));
        BlockMeant(d, rs, a, n, rest);
      }
    } else if IsCommand(c, a, k - 1) {
      CommandMeant(c, a, k - 1, rest);
      Looser(a + rest, k - 1, c, rest);
    } else if k == 1 {
      var n: nat :| IsPair(c.left, 0, Sym('|'), c.right, 1, a, n);
      var after := [Sym('|')] + (a[n + 1..] + rest);
      PairMeant(c.left, 0, Sym('|'), c.right, 1, a, n, rest);
      CommandMeant(c.left, a[..n], 0, after);
      CommandMeant(c.right, a[n + 1..], 1, rest);
      PipeBack(a + rest, c.left, c.right, after, rest);
    } else if k == 2 {
      var b, n, first := BacksSplit(c, a);
      AmpsFollow(n, rest);
      CommandMeant(b, first, 1, Amps(n) + rest);
      UnlistedMeant(c, b, n, first, a, rest);
    } else {
      var n: nat :| IsPair(c.left, 2, Sym(';'), c.right, 3, a, n);
      var after := [Sym(';')] + (a[n + 1..] + rest);
      PairMeant(c.left, 2, Sym(';'), c.right, 3, a, n, rest);
      CommandMeant(c.left, a[..n], 2, after);
      CommandMeant(c.right, a[n + 1..], 3, rest);
      ListBack(a + rest, c.left, c.right, after, rest);
    }
  }

  lemma ParsesExactly(s: string, c: Cmd)
    ensures ParseCmd(s) == Ok(c, []) <==> IsCommand(c, Lex(s), 3)
  {
    hide IsCommand, Lex, ParseLine;
    var ts := Lex(s);
    if IsCommand(c, ts, 3) {
      CommandMeant(c, ts, 3, []);
      assert ts + [] == ts;
    }
    CommandRead(ts, 3);
    assert ts[..|ts|] == ts;
  }

  /** The shell makes the tree `c` of a line if and only if the line is `c` by the grammar,
      so no line has two trees; all other lines it refuses. */
  lemma ParsesTheLanguage(s: string, c: Cmd)
    ensures ParseCmd(s) == Ok(c, []) <==> IsCommand(c, Lex(s), 3)
    ensures ParseCmd(s) == Panic <==> forall d :: !IsCommand(d, Lex(s), 3)
  {
    hide IsCommand, Lex;
    ParsesExactly(s, c);
    if ParseCmd(s) == Panic {
      forall d
        ensures !IsCommand(d, Lex(s), 3)
      {
        ParsesExactly(s, d);
      }
    } else {
      ParsesExactly(s, ParseCmd(s).cmd);
    }
  }
}

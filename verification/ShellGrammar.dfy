/** project3/sh.c: the shell's command language. What its parser does is given as functions
    on tokens; `ShellParser` shows that the code, on characters, does the same. */
module ShellGrammar {

  const MAXARGS: nat := 10

  /** `struct cmd` and its kinds. A redirection to fd 0 is for reading, to fd 1 for writing;
      the shell opens `>` and `>>` alike. */
  datatype Cmd =
    | Exec(argv: seq<string>)
    | Redir(cmd: Cmd, file: string, fd: nat)
    | Pipe(left: Cmd, right: Cmd)
    | List(left: Cmd, right: Cmd)
    | Back(cmd: Cmd)

  // ---- characters and tokens ----

  predicate IsSpace(c: char) {
    c in {' ', '\t', '\r', '\n', '\U{0B}'}
  }

  predicate IsSymbol(c: char) {
    c in {'<', '|', '>', '&', ';', '(', ')'}
  }

  predicate IsWordChar(c: char) {
    !IsSpace(c) && !IsSymbol(c)
  }

  datatype Token = Word(text: string) | Sym(c: char) | Append

  function SpaceLen(s: string): (n: nat)
    ensures n <= |s|
    ensures forall i :: 0 <= i < n ==> IsSpace(s[i])
    ensures n < |s| ==> !IsSpace(s[n])
  {
    if s == "" || !IsSpace(s[0]) then 0 else 1 + SpaceLen(s[1..])
  }

  function WordLen(s: string): (n: nat)
    ensures n <= |s|
    ensures forall i :: 0 <= i < n ==> IsWordChar(s[i])
    ensures n < |s| ==> !IsWordChar(s[n])
  {
    if s == "" || !IsWordChar(s[0]) then 0 else 1 + WordLen(s[1..])
  }

  /** The token that `s`, which does not start with a space, begins with, and its length. */
  function FirstToken(s: string): (r: (Token, nat))
    requires s != "" && !IsSpace(s[0])
    ensures 1 <= r.1 <= |s|
  {
    if s[0] == '>' then
      if |s| >= 2 && s[1] == '>' then (Append, 2) else (Sym('>'), 1)
    else if IsSymbol(s[0]) then (Sym(s[0]), 1)
    else (Word(s[..WordLen(s)]), WordLen(s))
  }

  /** The tokens that successive calls of `gettoken` find. */
  function Lex(s: string): seq<Token>
    decreases |s|
  {
    var t := s[SpaceLen(s)..];
    if t == "" then []
    else
      var (token, n) := FirstToken(t);
      [token] + Lex(t[n..])
  }

  // ---- the parser on tokens ----

  datatype Parsed = Panic | Ok(cmd: Cmd, rest: seq<Token>)

  /** What `peek` tests: the next character is one of `toks`. */
  predicate Peeks(ts: seq<Token>, toks: set<char>) {
    ts != [] && ((ts[0].Sym? && ts[0].c in toks) || (ts[0] == Append && '>' in toks))
  }

  /** A redirection, as it is put around a command */
  datatype Target = Target(file: string, fd: nat)

  function Wrap(c: Cmd, rs: seq<Target>): Cmd {
    if rs == [] then c else Redir(Wrap(c, rs[..|rs| - 1]), rs[|rs| - 1].file, rs[|rs| - 1].fd)
  }

  datatype Redirected = NoFile | Redirs(rs: seq<Target>, rest: seq<Token>)

  /** `parseredirs`, with `rs` found so far */
  function ParseRedirs(ts: seq<Token>, rs: seq<Target>): (r: Redirected)
    ensures r.Redirs? ==> |r.rest| <= |ts|
    decreases |ts|
  {
    if Peeks(ts, {'<', '>'}) then
      if |ts| < 2 || !ts[1].Word? then NoFile
      else ParseRedirs(ts[2..], rs + [Target(ts[1].text, if ts[0] == Sym('<') then 0 else 1)])
    else Redirs(rs, ts)
  }

  /** The loop of `parseexec` */
  function ParseArgs(ts: seq<Token>, argv: seq<string>, rs: seq<Target>): (r: Parsed)
    ensures r.Ok? ==> |r.rest| <= |ts|
    decreases |ts|
  {
    if Peeks(ts, {'|', ')', '&', ';'}) || ts == [] then Ok(Wrap(Exec(argv), rs), ts)
    else if !ts[0].Word? || |argv| + 1 >= MAXARGS then Panic
    else
      match ParseRedirs(ts[1..], rs)
      case NoFile => Panic
      case Redirs(more, rest) => ParseArgs(rest, argv + [ts[0].text], more)
  }

  function ParseExec(ts: seq<Token>): (r: Parsed)
    ensures r.Ok? ==> |r.rest| <= |ts|
    decreases |ts|, 1
  {
    if Peeks(ts, {'('}) then ParseBlock(ts)
    else
      match ParseRedirs(ts, [])
      case NoFile => Panic
      case Redirs(rs, rest) => ParseArgs(rest, [], rs)
  }

  function ParseBlock(ts: seq<Token>): (r: Parsed)
    requires Peeks(ts, {'('})
    ensures r.Ok? ==> |r.rest| <= |ts|
    decreases |ts|, 0
  {
    match ParseLine(ts[1..])
    case Panic => Panic
    case Ok(c, rest) =>
      if !Peeks(rest, {')'}) then Panic
      else
        match ParseRedirs(rest[1..], [])
        case NoFile => Panic
        case Redirs(rs, after) => Ok(Wrap(c, rs), after)
  }

  function ParsePipe(ts: seq<Token>): (r: Parsed)
    ensures r.Ok? ==> |r.rest| <= |ts|
    decreases |ts|, 2
  {
    match ParseExec(ts)
    case Panic => Panic
    case Ok(c, rest) =>
      if !Peeks(rest, {'|'}) then Ok(c, rest)
      else
        match ParsePipe(rest[1..])
        case Panic => Panic
        case Ok(d, after) => Ok(Pipe(c, d), after)
  }

  /** The loop of `parseline` */
  function ParseBacks(c: Cmd, ts: seq<Token>): (r: (Cmd, seq<Token>))
    ensures |r.1| <= |ts|
    decreases |ts|
  {
    if Peeks(ts, {'&'}) then ParseBacks(Back(c), ts[1..]) else (c, ts)
  }

  function ParseLine(ts: seq<Token>): (r: Parsed)
    ensures r.Ok? ==> |r.rest| <= |ts|
    decreases |ts|, 3
  {
    match ParsePipe(ts)
    case Panic => Panic
    case Ok(c, rest) =>
      var (b, after) := ParseBacks(c, rest);
      if !Peeks(after, {';'}) then Ok(b, after)
      else
        match ParseLine(after[1..])
        case Panic => Panic
        case Ok(d, end) => Ok(List(b, d), end)
  }

  /** `parsecmd`; Panic also for leftovers. */
  function ParseCmd(s: string): Parsed {
    match ParseLine(Lex(s))
    case Panic => Panic
    case Ok(c, rest) => if rest == [] then Ok(c, []) else Panic
  }

  // ---- printing ----

  predicate IsWord(w: string) {
    w != "" && forall i :: 0 <= i < |w| ==> IsWordChar(w[i])
  }

  /** The trees the shell can have: arguments and file names are words, and there are fewer
      than MAXARGS arguments. */
  predicate WellFormed(c: Cmd) {
    match c
    case Exec(argv) => |argv| < MAXARGS && forall i :: 0 <= i < |argv| ==> IsWord(argv[i])
    case Redir(b, file, fd) => WellFormed(b) && IsWord(file) && fd <= 1
    case Pipe(l, r) => WellFormed(l) && WellFormed(r)
    case List(l, r) => WellFormed(l) && WellFormed(r)
    case Back(b) => WellFormed(b)
  }

  function Core(c: Cmd): (r: Cmd)
    ensures !r.Redir? && (c.Redir? ==> r < c) && (!c.Redir? ==> r == c)
    ensures WellFormed(c) ==> WellFormed(r)
  {
    if c.Redir? then Core(c.cmd) else c
  }

  function Targets(c: Cmd): seq<Target> {
    if c.Redir? then Targets(c.cmd) + [Target(c.file, c.fd)] else []
  }

  function Words(argv: seq<string>): seq<Token> {
    if argv == [] then [] else [Word(argv[0])] + Words(argv[1..])
  }

  function TargetTokens(rs: seq<Target>): seq<Token> {
    if rs == [] then []
    else [Sym(if rs[0].fd == 0 then '<' else '>'), Word(rs[0].file)] + TargetTokens(rs[1..])
  }

  /** How loosely a command binds: a line, a line without `;`, a pipe, or one command. */
  function Level(c: Cmd): nat {
    match c
    case List(_, _) => 3
    case Back(_) => 2
    case Pipe(_, _) => 1
    case _ => 0
  }

  /** The tokens of a command where the grammar has one of level `k`, with parentheses
      where they are needed. */
  function Print(c: Cmd, k: nat): seq<Token>
    decreases c, if Level(c) > k then 1 else 0
  {
    if Level(c) > k then [Sym('(')] + Print(c, 3) + [Sym(')')]
    else
      match c
      case List(l, r) => Print(l, 2) + [Sym(';')] + Print(r, 3)
      case Back(b) => Print(b, 2) + [Sym('&')]
      case Pipe(l, r) => Print(l, 0) + [Sym('|')] + Print(r, 1)
      case Exec(argv) => Words(argv)
      case Redir(_, _, _) =>
        var core := Core(c);
        (if core.Exec? then Words(core.argv) else [Sym('(')] + Print(core, 3) + [Sym(')')]) + TargetTokens(Targets(c))
  }

  function Spell(t: Token): string {
    match t
    case Word(w) => w
    case Sym(c) => [c]
    case Append => ">>"
  }

  function Render(ts: seq<Token>): string {
    if ts == [] then "" else Spell(ts[0]) + (" " + Render(ts[1..]))
  }

  // ---- the round trip on tokens ----

  /** What may follow a command of level `k` so that it is not taken for part of it. */
  predicate Follows(ts: seq<Token>, k: nat) {
    ts == []
    || Peeks(ts, if k == 0 then {'|', ')', '&', ';'} else if k == 1 then {')', '&', ';'}
                 else if k == 2 then {')', ';'} else {')'})
  }

  /** The parser function for level `k`. */
  function ParseAt(ts: seq<Token>, k: nat): Parsed {
    if k == 0 then ParseExec(ts)
    else if k == 1 then ParsePipe(ts)
    else if k == 2 then
      match ParsePipe(ts)
      case Panic => Panic
      case Ok(c, rest) =>
        var (b, after) := ParseBacks(c, rest);
        Ok(b, after)
    else ParseLine(ts)
  }

  /** A command that is followed by nothing more of its own kind is one of the next looser
      kind. */
  lemma Looser(ts: seq<Token>, k: nat, c: Cmd, rest: seq<Token>)
    requires k < 3 && ParseAt(ts, k) == Ok(c, rest) && Follows(rest, k + 1)
    ensures ParseAt(ts, k + 1) == Ok(c, rest)
  {
  }

  lemma Loosest(ts: seq<Token>, k: nat, m: nat, c: Cmd, rest: seq<Token>)
    requires k <= m <= 3 && ParseAt(ts, k) == Ok(c, rest) && Follows(rest, m)
    ensures ParseAt(ts, m) == Ok(c, rest)
    decreases m - k
  {
    if k < m {
      Looser(ts, k, c, rest);
      Loosest(ts, k + 1, m, c, rest);
    }
  }

  lemma {:induction false} WrapTargets(c: Cmd)
    ensures Wrap(Core(c), Targets(c)) == c
    ensures WellFormed(c) ==> forall i :: 0 <= i < |Targets(c)| ==> IsWord(Targets(c)[i].file) && Targets(c)[i].fd <= 1
  {
    if !c.Redir? {
    } else {
      WrapTargets(c.cmd);
      var rs := Targets(c);
      assert rs[..|rs| - 1] == Targets(c.cmd);
    }
  }

  lemma {:induction false} RedirsBack(rs: seq<Target>, before: seq<Target>, rest: seq<Token>)
    requires !Peeks(rest, {'<', '>'}) && forall i :: 0 <= i < |rs| ==> rs[i].fd <= 1
    ensures ParseRedirs(TargetTokens(rs) + rest, before) == Redirs(before + rs, rest)
    decreases |rs|
  {
    var ts := TargetTokens(rs) + rest;
    if rs == [] {
      assert ts == rest && before + rs == before;
    } else {
      RedirsBack(rs[1..], before + [rs[0]], rest);
      assert ts[2..] == TargetTokens(rs[1..]) + rest;
      assert ts[0] == Sym(if rs[0].fd == 0 then '<' else '>') && ts[1] == Word(rs[0].file);
      assert before + [rs[0]] + rs[1..] == before + rs;
    }
  }

  lemma Assoc<T>(a: seq<T>, b: seq<T>, c: seq<T>)
    ensures a + b + c == a + (b + c)
  {
  }

  lemma ConsFirst<T>(x: T, a: seq<T>, b: seq<T>)
    ensures ([x] + a + b)[0] == x && ([x] + a + b)[1..] == a + b
    ensures a == [] ==> a + b == b
  {
    assert [x] + a + b == [x] + (a + b);
  }

  lemma WordsFirst(argv: seq<string>, tail: seq<Token>)
    requires argv != []
    ensures var ts := Words(argv) + tail; ts != [] && ts[0] == Word(argv[0]) && ts[1..] == Words(argv[1..]) + tail
    ensures |argv| == 1 ==> Words(argv[1..]) + tail == tail
  {
    ConsFirst(Word(argv[0]), Words(argv[1..]), tail);
  }

  lemma ArgsStep(ts: seq<Token>, before: seq<string>, w: string, rs: seq<Target>, rest: seq<Token>)
    requires ts != [] && ts[0] == Word(w) && |before| + 1 < MAXARGS && ParseRedirs(ts[1..], []) == Redirs(rs, rest)
    ensures ParseArgs(ts, before, []) == ParseArgs(rest, before + [w], rs)
  {
  }

  lemma NoRedirs(ts: seq<Token>, rs: seq<Target>)
    requires ts != [] && ts[0].Word?
    ensures ParseRedirs(ts, rs) == Redirs(rs, ts)
  {
  }

  /** Words, then what `parseredirs` reads as `rs`, as the loop of `parseexec` sees them
      after `before`. */
  lemma {:induction false} ArgsBack(argv: seq<string>, before: seq<string>, tail: seq<Token>, rs: seq<Target>,
      rest: seq<Token>)
    requires |before| + |argv| < MAXARGS && Follows(rest, 0) && argv != [] && ParseRedirs(tail, []) == Redirs(rs, rest)
    ensures ParseArgs(Words(argv) + tail, before, []) == Ok(Wrap(Exec(before + argv), rs), rest)
    decreases |argv|
  {
    hide ParseRedirs, Words, Wrap;
    WordsFirst(argv, tail);
    if |argv| == 1 {
      ArgsStep(Words(argv) + tail, before, argv[0], rs, rest);
      assert before + argv == before + [argv[0]];
    } else {
      var more := Words(argv[1..]) + tail;
      WordsFirst(argv[1..], tail);
      NoRedirs(more, []);
      ArgsStep(Words(argv) + tail, before, argv[0], [], more);
      ArgsBack(argv[1..], before + [argv[0]], tail, rs, rest);
      assert before + [argv[0]] + argv[1..] == before + argv;
    }
  }

  /** A command without parentheses. */
  lemma SimpleBack(argv: seq<string>, tail: seq<Token>, rs: seq<Target>, rest: seq<Token>)
    requires |argv| < MAXARGS && Follows(rest, 0) && ParseRedirs(tail, []) == Redirs(rs, rest) && !Peeks(tail, {'('})
    ensures ParseExec(Words(argv) + tail) == Ok(Wrap(Exec(argv), rs), rest)
  {
    var ts := Words(argv) + tail;
    if argv == [] {
      assert ts == tail;
    } else {
      assert ts[0] == Word(argv[0]);
      assert ParseRedirs(ts, []) == Redirs([], ts);
      ArgsBack(argv, [], tail, rs, rest);
      assert [] + argv == argv;
    }
  }

  /** A command in parentheses. */
  lemma BlockBack(ts: seq<Token>, c: Cmd, tail: seq<Token>, rs: seq<Target>, rest: seq<Token>)
    requires Follows(rest, 0) && ParseRedirs(tail, []) == Redirs(rs, rest)
    requires Peeks(ts, {'('}) && ParseLine(ts[1..]) == Ok(c, [Sym(')')] + tail)
    ensures ParseExec(ts) == Ok(Wrap(c, rs), rest)
  {
    assert ([Sym(')')] + tail)[1..] == tail;
  }

  /** Parentheses around a line. */
  lemma Parens(line: seq<Token>, tail: seq<Token>)
    ensures var ts := [Sym('(')] + line + [Sym(')')] + tail; ts[0] == Sym('(') && ts[1..] == line + ([Sym(')')] + tail)
  {
  }

  lemma TargetsBack(rs: seq<Target>, rest: seq<Token>)
    requires Follows(rest, 0) && forall i :: 0 <= i < |rs| ==> rs[i].fd <= 1
    ensures ParseRedirs(TargetTokens(rs) + rest, []) == Redirs(rs, rest) && !Peeks(TargetTokens(rs) + rest, {'('})
  {
    RedirsBack(rs, [], rest);
    assert [] + rs == rs;
    if rs == [] {
      assert TargetTokens(rs) + rest == rest;
    } else {
      assert (TargetTokens(rs) + rest)[0] == Sym(if rs[0].fd == 0 then '<' else '>');
    }
  }

  // Commands in the background: `&` behind something that is not itself in the background.

  function Base(c: Cmd): (r: Cmd)
    ensures !r.Back? && (c.Back? ==> r < c) && (!c.Back? ==> r == c)
    ensures WellFormed(c) ==> WellFormed(r)
  {
    if c.Back? then Base(c.cmd) else c
  }

  function Depth(c: Cmd): nat {
    if c.Back? then 1 + Depth(c.cmd) else 0
  }

  function Amps(n: nat): seq<Token> {
    if n == 0 then [] else Amps(n - 1) + [Sym('&')]
  }

  function InBackground(c: Cmd, n: nat): Cmd {
    if n == 0 then c else Back(InBackground(c, n - 1))
  }

  lemma {:induction false} BacksPrinted(c: Cmd)
    ensures Print(c, 2) == Print(Base(c), 1) + Amps(Depth(c))
    ensures InBackground(Base(c), Depth(c)) == c
    ensures Depth(c) > 0 ==> Amps(Depth(c))[0] == Sym('&')
  {
    if c.Back? {
      BacksPrinted(c.cmd);
      if Depth(c.cmd) == 0 {
        assert Amps(Depth(c)) == [Sym('&')];
      }
    }
  }

  lemma {:induction false} AmpsShift(n: nat)
    ensures Amps(n + 1) == [Sym('&')] + Amps(n)
  {
    if n == 0 {
    } else {
      AmpsShift(n - 1);
    }
  }

  lemma {:induction false} BackShift(c: Cmd, n: nat)
    ensures InBackground(Back(c), n) == InBackground(c, n + 1)
  {
    if n == 0 {
    } else {
      BackShift(c, n - 1);
    }
  }

  lemma {:induction false} BacksParsed(c: Cmd, n: nat, rest: seq<Token>)
    requires !Peeks(rest, {'&'})
    ensures ParseBacks(c, Amps(n) + rest) == (InBackground(c, n), rest)
    decreases n
  {
    var ts := Amps(n) + rest;
    if n == 0 {
      assert ts == rest;
    } else {
      AmpsShift(n - 1);
      BackShift(c, n - 1);
      BacksParsed(Back(c), n - 1, rest);
      assert ts[0] == Sym('&') && ts[1..] == Amps(n - 1) + rest;
    }
  }

  /** Printed at any level and followed by what may follow it there, a command is parsed
      back, and nothing more. */
  lemma {:induction false} PrintedBack(c: Cmd, k: nat, rest: seq<Token>)
    requires WellFormed(c) && k <= 3 && Follows(rest, k)
    ensures ParseAt(Print(c, k) + rest, k) == Ok(c, rest)
    decreases c, if Level(c) > k then 1 else 0
  {
    hide ParsePipe, ParseLine, ParseBacks;
    var ts := Print(c, k) + rest;
    if Level(c) > k {
      PrintedBack(c, 3, [Sym(')')] + rest);
      Parens(Print(c, 3), rest);
      BlockBack(ts, c, rest, [], rest);
      Loosest(ts, 0, k, c, rest);
    } else {
      match c
      case List(l, r) =>
        var after := [Sym(';')] + (Print(r, 3) + rest);
        PrintedBack(l, 2, after);
        PrintedBack(r, 3, rest);
        Infix(Print(l, 2), Sym(';'), Print(r, 3), rest);
        ListBack(ts, l, r, after, rest);
      case Back(b) =>
        var base, amps := Base(c), Amps(Depth(c));
        BacksPrinted(c);
        PrintedBack(base, 1, amps + rest);
        Assoc(Print(base, 1), amps, rest);
        BacksParsed(base, Depth(c), rest);
        assert ParseAt(ts, 2) == Ok(c, rest);
        Loosest(ts, 2, k, c, rest);
      case Pipe(l, r) =>
        var after := [Sym('|')] + (Print(r, 1) + rest);
        PrintedBack(l, 0, after);
        PrintedBack(r, 1, rest);
        Infix(Print(l, 0), Sym('|'), Print(r, 1), rest);
        PipeBack(ts, l, r, after, rest);
        Loosest(ts, 1, k, c, rest);
      case Exec(argv) =>
        TargetsBack([], rest);
        assert TargetTokens([]) + rest == rest;
        SimpleBack(argv, rest, [], rest);
        Loosest(ts, 0, k, c, rest);
      case Redir(_, _, _) =>
        var core, rs := Core(c), Targets(c);
        var tail := TargetTokens(rs) + rest;
        WrapTargets(c);
        TargetsBack(rs, rest);
        if core.Exec? {
          SimpleBack(core.argv, tail, rs, rest);
          Assoc(Words(core.argv), TargetTokens(rs), rest);
        } else {
          PrintedBack(core, 3, [Sym(')')] + tail);
          Assoc([Sym('(')] + Print(core, 3) + [Sym(')')], TargetTokens(rs), rest);
          Parens(Print(core, 3), tail);
          BlockBack(ts, core, tail, rs, rest);
        }
        Loosest(ts, 0, k, c, rest);
    }
  }

  lemma Infix(a: seq<Token>, t: Token, b: seq<Token>, rest: seq<Token>)
    ensures a + [t] + b + rest == a + ([t] + (b + rest))
    ensures ([t] + (b + rest))[1..] == b + rest
  {
  }

  lemma ListBack(ts: seq<Token>, l: Cmd, r: Cmd, after: seq<Token>, rest: seq<Token>)
    requires ParseAt(ts, 2) == Ok(l, after) && Peeks(after, {';'}) && ParseLine(after[1..]) == Ok(r, rest)
    ensures ParseLine(ts) == Ok(List(l, r), rest)
  {
  }

  lemma PipeBack(ts: seq<Token>, l: Cmd, r: Cmd, after: seq<Token>, rest: seq<Token>)
    requires ParseExec(ts) == Ok(l, after) && Peeks(after, {'|'}) && ParsePipe(after[1..]) == Ok(r, rest)
    ensures ParsePipe(ts) == Ok(Pipe(l, r), rest)
  {
  }

  // ---- the round trip on characters ----

  ghost predicate Valid(ts: seq<Token>) {
    forall i :: 0 <= i < |ts| ==> IsToken(ts[i])
  }

  lemma {:induction false} WordsValid(argv: seq<string>)
    requires forall i :: 0 <= i < |argv| ==> IsWord(argv[i])
    ensures Valid(Words(argv))
  {
    if argv == [] {
    } else {
      WordsValid(argv[1..]);
    }
  }

  lemma {:induction false} TargetsValid(rs: seq<Target>)
    requires forall i :: 0 <= i < |rs| ==> IsWord(rs[i].file)
    ensures Valid(TargetTokens(rs))
  {
    if rs == [] {
    } else {
      TargetsValid(rs[1..]);
    }
  }

  lemma {:induction false} PrintValid(c: Cmd, k: nat)
    requires WellFormed(c)
    ensures Valid(Print(c, k))
    decreases c, if Level(c) > k then 1 else 0
  {
    if Level(c) > k {
      PrintValid(c, 3);
    } else {
      match c
      case List(l, r) =>
        PrintValid(l, 2);
        PrintValid(r, 3);
      case Back(b) => PrintValid(b, 2);
      case Pipe(l, r) =>
        PrintValid(l, 0);
        PrintValid(r, 1);
      case Exec(argv) => WordsValid(argv);
      case Redir(_, _, _) =>
        WrapTargets(c);
        TargetsValid(Targets(c));
        if Core(c).Exec? {
          WordsValid(Core(c).argv);
        } else {
          PrintValid(Core(c), 3);
        }
    }
  }

  lemma {:induction false} WordLenIs(w: string, rest: string)
    requires (forall i :: 0 <= i < |w| ==> IsWordChar(w[i])) && (rest == "" || !IsWordChar(rest[0]))
    ensures WordLen(w + rest) == |w|
    decreases |w|
  {
    if w == "" {
      assert w + rest == rest;
    } else {
      WordLenIs(w[1..], rest);
      assert (w + rest)[1..] == w[1..] + rest;
    }
  }

  /** A space before a token makes no difference. */
  lemma LexSpace(s: string)
    ensures Lex(" " + s) == Lex(s)
  {
    var t := " " + s;
    assert t[1..] == s;
    assert t[SpaceLen(t)..] == s[SpaceLen(s)..];
  }

  ghost predicate IsToken(t: Token) {
    (t.Word? ==> IsWord(t.text)) && (t.Sym? ==> IsSymbol(t.c))
  }

  lemma FirstSpelled(t: Token, rest: string)
    requires IsToken(t)
    ensures var s := Spell(t) + (" " + rest);
      && s != "" && !IsSpace(s[0]) && FirstToken(s) == (t, |Spell(t)|) && s[|Spell(t)|..] == " " + rest
  {
    var s := Spell(t) + (" " + rest);
    if t.Word? {
      WordLenIs(t.text, " " + rest);
      assert s[..|t.text|] == t.text;
    } else if t.Sym? {
      assert s[1] == ' ';
    }
  }

  lemma LexFirst(s: string)
    requires s != "" && !IsSpace(s[0])
    ensures Lex(s) == [FirstToken(s).0] + Lex(s[FirstToken(s).1..])
  {
    assert s[0..] == s;
  }

  /** Tokens written with a space behind each are read back. */
  lemma {:induction false} LexRender(ts: seq<Token>)
    requires Valid(ts)
    ensures Lex(Render(ts)) == ts
  {
    hide Lex, FirstToken, Spell, SpaceLen;
    if ts == [] {
      LexNothing();
    } else {
      assert IsToken(ts[0]);
      LexRender(ts[1..]);
      FirstSpelled(ts[0], Render(ts[1..]));
      LexFirst(Render(ts));
      LexSpace(Render(ts[1..]));
      assert ts == [ts[0]] + ts[1..];
    }
  }

  lemma LexNothing()
    ensures Lex("") == []
  {
  }

  /** The round trip: any well-formed command tree, printed with parentheses where they are
      needed, is what the shell makes of the text. */
  lemma RoundTrip(c: Cmd)
    requires WellFormed(c)
    ensures ParseCmd(Render(Print(c, 3))) == Ok(c, [])
  {
    PrintValid(c, 3);
    LexRender(Print(c, 3));
    PrintedBack(c, 3, []);
    assert Print(c, 3) + [] == Print(c, 3);
  }

  // ---- what the parser makes is well-formed ----

  lemma {:induction false} LexValid(s: string)
    ensures Valid(Lex(s))
    decreases |s|
  {
    var t := s[SpaceLen(s)..];
    if t == "" {
    } else {
      var (token, n) := FirstToken(t);
      LexValid(t[n..]);
      assert IsToken(token);
    }
  }

  ghost predicate GoodTargets(rs: seq<Target>) {
    forall i :: 0 <= i < |rs| ==> IsWord(rs[i].file) && rs[i].fd <= 1
  }

  lemma {:induction false} WrapWellFormed(c: Cmd, rs: seq<Target>)
    requires WellFormed(c) && GoodTargets(rs)
    ensures WellFormed(Wrap(c, rs))
    decreases |rs|
  {
    if rs == [] {
    } else {
      WrapWellFormed(c, rs[..|rs| - 1]);
    }
  }

  lemma {:induction false} RedirsGood(ts: seq<Token>, rs: seq<Target>)
    requires Valid(ts) && GoodTargets(rs) && ParseRedirs(ts, rs).Redirs?
    ensures var r := ParseRedirs(ts, rs); GoodTargets(r.rs) && Valid(r.rest)
    decreases |ts|
  {
    if Peeks(ts, {'<', '>'}) {
      assert IsToken(ts[1]);
      RedirsGood(ts[2..], rs + [Target(ts[1].text, if ts[0] == Sym('<') then 0 else 1)]);
    }
  }

  lemma {:induction false} ArgsGood(ts: seq<Token>, argv: seq<string>, rs: seq<Target>)
    requires Valid(ts) && GoodTargets(rs) && |argv| < MAXARGS && (forall i :: 0 <= i < |argv| ==> IsWord(argv[i]))
    requires ParseArgs(ts, argv, rs).Ok?
    ensures var r := ParseArgs(ts, argv, rs); WellFormed(r.cmd) && Valid(r.rest)
    decreases |ts|
  {
    if Peeks(ts, {'|', ')', '&', ';'}) || ts == [] {
      WrapWellFormed(Exec(argv), rs);
    } else {
      assert IsToken(ts[0]);
      RedirsGood(ts[1..], rs);
      var r := ParseRedirs(ts[1..], rs);
      ArgsGood(r.rest, argv + [ts[0].text], r.rs);
    }
  }

  lemma {:induction false} BacksGood(c: Cmd, ts: seq<Token>)
    requires Valid(ts) && WellFormed(c)
    ensures var r := ParseBacks(c, ts); WellFormed(r.0) && Valid(r.1)
    decreases |ts|
  {
    if Peeks(ts, {'&'}) {
      BacksGood(Back(c), ts[1..]);
    }
  }

  lemma {:induction false} ExecGood(ts: seq<Token>)
    requires Valid(ts) && ParseExec(ts).Ok?
    ensures WellFormed(ParseExec(ts).cmd) && Valid(ParseExec(ts).rest)
    decreases |ts|, 0
  {
    if Peeks(ts, {'('}) {
      LineGood(ts[1..]);
      var r := ParseLine(ts[1..]);
      RedirsGood(r.rest[1..], []);
      WrapWellFormed(r.cmd, ParseRedirs(r.rest[1..], []).rs);
    } else {
      RedirsGood(ts, []);
      var r := ParseRedirs(ts, []);
      ArgsGood(r.rest, [], r.rs);
    }
  }

  lemma {:induction false} PipeGood(ts: seq<Token>)
    requires Valid(ts) && ParsePipe(ts).Ok?
    ensures WellFormed(ParsePipe(ts).cmd) && Valid(ParsePipe(ts).rest)
    decreases |ts|, 1
  {
    ExecGood(ts);
    var r := ParseExec(ts);
    if Peeks(r.rest, {'|'}) {
      PipeGood(r.rest[1..]);
    }
  }

  lemma {:induction false} LineGood(ts: seq<Token>)
    requires Valid(ts) && ParseLine(ts).Ok?
    ensures WellFormed(ParseLine(ts).cmd) && Valid(ParseLine(ts).rest)
    decreases |ts|, 2
  {
    PipeGood(ts);
    var r := ParsePipe(ts);
    BacksGood(r.cmd, r.rest);
    var (b, after) := ParseBacks(r.cmd, r.rest);
    if Peeks(after, {';'}) {
      LineGood(after[1..]);
    }
  }

  /** Whatever text the shell accepts, the tree it makes of it printed out is text that it
      makes the same tree of. */
  lemma NormalForm(s: string)
    requires ParseCmd(s).Ok?
    ensures WellFormed(ParseCmd(s).cmd) && ParseCmd(Render(Print(ParseCmd(s).cmd, 3))) == ParseCmd(s)
  {
    LexValid(s);
    LineGood(Lex(s));
    RoundTrip(ParseCmd(s).cmd);
  }
}

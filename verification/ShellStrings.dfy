/** project3/sh.c: commands as the parser leaves them, with pointers into the line, and
    `nulterminate`, which makes C strings of the words they point to. */
module ShellStrings {
  import opened ShellGrammar

  const NUL: char := '\0'

  /** A word by the pointers to its start and to the character behind it. */
  datatype Span = Span(q: nat, eq: nat)

  /** A redirection with its file name as a span. */
  datatype Spot = Spot(file: Span, fd: nat)

  /** `struct cmd` and its kinds, as they are in memory. */
  datatype Tree =
    | ExecNode(argv: seq<Span>)
    | RedirNode(tree: Tree, file: Span, fd: nat)
    | PipeNode(left: Tree, right: Tree)
    | ListNode(left: Tree, right: Tree)
    | BackNode(tree: Tree)

  // ---- the words that spans mean ----

  function TextOf(buf: string, s: Span): string {
    if s.q <= s.eq <= |buf| then buf[s.q..s.eq] else ""
  }

  function Texts(buf: string, argv: seq<Span>): (r: seq<string>)
    ensures |r| == |argv| && forall i :: 0 <= i < |r| ==> r[i] == TextOf(buf, argv[i])
  {
    seq(|argv|, i requires 0 <= i < |argv| => TextOf(buf, argv[i]))
  }

  function Text(buf: string, t: Tree): Cmd {
    match t
    case ExecNode(argv) => Exec(Texts(buf, argv))
    case RedirNode(b, file, fd) => Redir(Text(buf, b), TextOf(buf, file), fd)
    case PipeNode(l, r) => Pipe(Text(buf, l), Text(buf, r))
    case ListNode(l, r) => List(Text(buf, l), Text(buf, r))
    case BackNode(b) => Back(Text(buf, b))
  }

  /** The span is a whole word: the character behind it is none of a word. */
  predicate Maximal(buf: string, s: Span) {
    && s.q < s.eq <= |buf|
    && (forall i :: s.q <= i < s.eq ==> IsWordChar(buf[i]))
    && (s.eq < |buf| ==> !IsWordChar(buf[s.eq]))
  }

  predicate Spanned(buf: string, t: Tree) {
    match t
    case ExecNode(argv) => forall i :: 0 <= i < |argv| ==> Maximal(buf, argv[i])
    case RedirNode(b, file, _) => Spanned(buf, b) && Maximal(buf, file)
    case PipeNode(l, r) => Spanned(buf, l) && Spanned(buf, r)
    case ListNode(l, r) => Spanned(buf, l) && Spanned(buf, r)
    case BackNode(b) => Spanned(buf, b)
  }

  // ---- redirections around a command ----

  function TargetsOf(buf: string, rs: seq<Spot>): (r: seq<Target>)
    ensures |r| == |rs| && forall i :: 0 <= i < |r| ==> r[i] == Target(TextOf(buf, rs[i].file), rs[i].fd)
  {
    seq(|rs|, i requires 0 <= i < |rs| => Target(TextOf(buf, rs[i].file), rs[i].fd))
  }

  function WrapTree(t: Tree, rs: seq<Spot>): Tree {
    if rs == [] then t else RedirNode(WrapTree(t, rs[..|rs| - 1]), rs[|rs| - 1].file, rs[|rs| - 1].fd)
  }

  predicate AllMaximal(buf: string, rs: seq<Spot>) {
    forall i :: 0 <= i < |rs| ==> Maximal(buf, rs[i].file)
  }

  lemma {:induction false} WrapText(buf: string, t: Tree, rs: seq<Spot>)
    ensures Text(buf, WrapTree(t, rs)) == Wrap(Text(buf, t), TargetsOf(buf, rs))
    ensures Spanned(buf, t) && AllMaximal(buf, rs) ==> Spanned(buf, WrapTree(t, rs))
    decreases |rs|
  {
    if rs == [] {
      return;
    }
    var init := rs[..|rs| - 1];
    WrapText(buf, t, init);
    assert TargetsOf(buf, rs)[..|rs| - 1] == TargetsOf(buf, init);
  }

  lemma TextsAppend(buf: string, argv: seq<Span>, s: Span)
    ensures Texts(buf, argv + [s]) == Texts(buf, argv) + [TextOf(buf, s)]
  {
  }

  lemma TargetsAppend(buf: string, rs: seq<Spot>, s: Spot)
    ensures TargetsOf(buf, rs + [s]) == TargetsOf(buf, rs) + [Target(TextOf(buf, s.file), s.fd)]
  {
  }

  // ---- C strings ----

  /** The string that a pointer to `q` is. */
  function CString(m: seq<char>, q: nat): string
    decreases |m| - q
  {
    if q >= |m| || m[q] == NUL then "" else [m[q]] + CString(m, q + 1)
  }

  function CStrings(m: seq<char>, argv: seq<Span>): (r: seq<string>)
    ensures |r| == |argv| && forall i :: 0 <= i < |r| ==> r[i] == CString(m, argv[i].q)
  {
    seq(|argv|, i requires 0 <= i < |argv| => CString(m, argv[i].q))
  }

  /** The command that its `argv` and `file` pointers make of a node. */
  function Read(m: seq<char>, t: Tree): Cmd {
    match t
    case ExecNode(argv) => Exec(CStrings(m, argv))
    case RedirNode(b, file, fd) => Redir(Read(m, b), CString(m, file.q), fd)
    case PipeNode(l, r) => Pipe(Read(m, l), Read(m, r))
    case ListNode(l, r) => List(Read(m, l), Read(m, r))
    case BackNode(b) => Back(Read(m, b))
  }

  /** `m` holds the line `buf` and its NUL, but that some characters which are in no word
      are NUL now. */
  ghost predicate Cut(buf: string, m: seq<char>) {
    && |m| == |buf| + 1 && m[|buf|] == NUL
    && (forall i :: 0 <= i < |buf| ==> m[i] == buf[i] || (m[i] == NUL && !IsWordChar(buf[i])))
  }

  ghost predicate Ends(m: seq<char>, s: Span) {
    s.eq < |m| && m[s.eq] == NUL
  }

  /** All words of the tree end in NUL. */
  ghost predicate Terminated(m: seq<char>, t: Tree) {
    match t
    case ExecNode(argv) => forall i :: 0 <= i < |argv| ==> Ends(m, argv[i])
    case RedirNode(b, file, _) => Terminated(m, b) && Ends(m, file)
    case PipeNode(l, r) => Terminated(m, l) && Terminated(m, r)
    case ListNode(l, r) => Terminated(m, l) && Terminated(m, r)
    case BackNode(b) => Terminated(m, b)
  }

  /** No NUL in the line itself. */
  predicate NoNul(buf: string) {
    forall i :: 0 <= i < |buf| ==> buf[i] != NUL
  }

  lemma {:induction false} WordRead(buf: string, m: seq<char>, s: Span)
    requires NoNul(buf) && Cut(buf, m) && Ends(m, s) && s.q <= s.eq <= |buf|
    requires forall i :: s.q <= i < s.eq ==> IsWordChar(buf[i])
    ensures CString(m, s.q) == TextOf(buf, s)
    decreases s.eq - s.q
  {
    if s.q == s.eq {
      return;
    }
    WordRead(buf, m, Span(s.q + 1, s.eq));
    assert buf[s.q..s.eq] == [buf[s.q]] + buf[s.q + 1..s.eq];
  }

  /** After `nulterminate` every pointer of the command is the word that was parsed: all of
      it, and no more. */
  lemma {:induction false} ReadsBack(buf: string, m: seq<char>, t: Tree)
    requires NoNul(buf) && Cut(buf, m) && Spanned(buf, t) && Terminated(m, t)
    ensures Read(m, t) == Text(buf, t)
  {
    match t
    case ExecNode(argv) =>
      forall i | 0 <= i < |argv|
        ensures CString(m, argv[i].q) == TextOf(buf, argv[i])
      {
        assert Maximal(buf, argv[i]) && Ends(m, argv[i]);
        WordRead(buf, m, argv[i]);
      }
      assert CStrings(m, argv) == Texts(buf, argv);
    case RedirNode(b, file, fd) =>
      ReadsBack(buf, m, b);
      WordRead(buf, m, file);
    case PipeNode(l, r) =>
      ReadsBack(buf, m, l);
      ReadsBack(buf, m, r);
    case ListNode(l, r) =>
      ReadsBack(buf, m, l);
      ReadsBack(buf, m, r);
    case BackNode(b) =>
      ReadsBack(buf, m, b);
  }

  /** More NULs do not undo a terminated word. */
  lemma {:induction false} StaysTerminated(m: seq<char>, n: seq<char>, t: Tree)
    requires |n| == |m| && Terminated(m, t) && forall i :: 0 <= i < |m| && m[i] == NUL ==> n[i] == NUL
    ensures Terminated(n, t)
  {
    match t
    case ExecNode(argv) =>
      assert forall i :: 0 <= i < |argv| ==> Ends(m, argv[i]) ==> Ends(n, argv[i]);
    case RedirNode(b, file, fd) =>
      StaysTerminated(m, n, b);
    case PipeNode(l, r) =>
      StaysTerminated(m, n, l);
      StaysTerminated(m, n, r);
    case ListNode(l, r) =>
      StaysTerminated(m, n, l);
      StaysTerminated(m, n, r);
    case BackNode(b) =>
      StaysTerminated(m, n, b);
  }

  /** Some word of the tree ends at `i`. */
  ghost predicate EndsAt(t: Tree, i: int) {
    match t
    case ExecNode(argv) => exists k :: 0 <= k < |argv| && argv[k].eq == i
    case RedirNode(b, file, _) => EndsAt(b, i) || file.eq == i
    case PipeNode(l, r) => EndsAt(l, i) || EndsAt(r, i)
    case ListNode(l, r) => EndsAt(l, i) || EndsAt(r, i)
    case BackNode(b) => EndsAt(b, i)
  }

  /** `nulterminate`, on the line in memory: it writes where words end and nowhere else. */
  method NulTerminate(mem: array<char>, t: Tree, ghost buf: string)
    requires Spanned(buf, t) && Cut(buf, mem[..])
    modifies mem
    ensures Cut(buf, mem[..]) && Terminated(mem[..], t)
    ensures forall i :: 0 <= i < mem.Length && old(mem[i]) == NUL ==> mem[i] == NUL
    ensures forall i :: 0 <= i < mem.Length && mem[i] != old(mem[i]) ==> EndsAt(t, i)
    decreases t
  {
    match t
    case ExecNode(argv) =>
      var i := 0;
      while i < |argv|
        invariant 0 <= i <= |argv| && Cut(buf, mem[..])
        invariant forall j :: 0 <= j < i ==> Ends(mem[..], argv[j])
        invariant forall j :: 0 <= j < mem.Length && old(mem[j]) == NUL ==> mem[j] == NUL
        invariant forall j :: 0 <= j < mem.Length && mem[j] != old(mem[j]) ==> EndsAt(t, j)
      {
        assert Maximal(buf, argv[i]);
        mem[argv[i].eq] := NUL;
        i := i + 1;
      }
    case RedirNode(b, file, fd) =>
      NulTerminate(mem, b, buf);
      ghost var m := mem[..];
      mem[file.eq] := NUL;
      StaysTerminated(m, mem[..], b);
    case PipeNode(l, r) =>
      NulTerminate(mem, l, buf);
      ghost var m := mem[..];
      NulTerminate(mem, r, buf);
      StaysTerminated(m, mem[..], l);
    case ListNode(l, r) =>
      NulTerminate(mem, l, buf);
      ghost var m := mem[..];
      NulTerminate(mem, r, buf);
      StaysTerminated(m, mem[..], l);
    case BackNode(b) =>
      NulTerminate(mem, b, buf);
  }
}

/** project3/grep.c: the backtracking matcher against what its patterns mean. Strings are
    without their terminating zero. */
module Grep {

  datatype Atom = Any | Char(c: char)
  datatype Item = One(atom: Atom) | Star(atom: Atom)

  /** Items to be matched in order, and whether the text has to end there. */
  datatype Pattern = Pattern(items: seq<Item>, atEnd: bool)

  function AtomOf(c: char): Atom {
    if c == '.' then Any else Char(c)
  }

  predicate Accepts(a: Atom, c: char) {
    a == Any || a.c == c
  }

  /** The pattern that `re` spells. `*` follows what it repeats, even `$` or `*`; `$` stands
      for the end of the text only as the last character. */
  function Parse(re: string): Pattern {
    if re == "" then Pattern([], false)
    else if |re| >= 2 && re[1] == '*' then
      var p := Parse(re[2..]);
      p.(items := [Star(AtomOf(re[0]))] + p.items)
    else if re == "$" then Pattern([], true)
    else
      var p := Parse(re[1..]);
      p.(items := [One(AtomOf(re[0]))] + p.items)
  }

  function PrintAtom(a: Atom): char {
    if a.Any? then '.' else a.c
  }

  function PrintItem(t: Item): string {
    match t
    case One(a) => [PrintAtom(a)]
    case Star(a) => [PrintAtom(a), '*']
  }

  /** A pattern as it is spelled. */
  function Print(p: Pattern): string
    decreases |p.items|
  {
    if p.items == [] then if p.atEnd then "$" else ""
    else PrintItem(p.items[0]) + Print(p.(items := p.items[1..]))
  }

  /** The patterns that can be spelled: `.` accepts any character, `*` behind a single
      character repeats it, and `$` at the end asks for the end. */
  predicate Spellable(p: Pattern) {
    && (forall i :: 0 <= i < |p.items| ==> p.items[i].atom != Char('.'))
    && (forall i :: 0 <= i < |p.items| - 1 && p.items[i].One? ==> p.items[i + 1].atom != Char('*'))
    && (p.items != [] && p.items[|p.items| - 1] == One(Char('$')) ==> p.atEnd)
  }

  lemma PrintMore(t: Item, q: Pattern)
    ensures Print(q.(items := [t] + q.items)) == PrintItem(t) + Print(q)
    ensures q.items != [] ==> Print(q) != "" && Print(q)[0] == PrintAtom(q.items[0].atom)
  {
    var p := q.(items := [t] + q.items);
    assert p.items[1..] == q.items && p.(items := p.items[1..]) == q;
  }

  lemma SpellMore(t: Item, q: Pattern)
    requires t.atom != Char('.') && (t.One? && q.items != [] ==> q.items[0].atom != Char('*'))
    requires t == One(Char('$')) && q.items == [] ==> q.atEnd
    ensures Spellable(q) ==> Spellable(q.(items := [t] + q.items))
  {
  }

  /** Every string spells a pattern, and spells it in the only way there is. */
  lemma {:induction false} PrintParse(re: string)
    ensures Print(Parse(re)) == re && Spellable(Parse(re))
  {
    hide Print, Spellable;
    if re == "" || re == "$" {
      PrintNothing();
    } else if |re| >= 2 && re[1] == '*' {
      PrintParse(re[2..]);
      PrintMore(Star(AtomOf(re[0])), Parse(re[2..]));
      SpellMore(Star(AtomOf(re[0])), Parse(re[2..]));
      assert re == [re[0], '*'] + re[2..];
    } else {
      var q := Parse(re[1..]);
      PrintParse(re[1..]);
      PrintMore(One(AtomOf(re[0])), q);
      assert re == [re[0]] + re[1..];
      if q.items != [] {
        assert re[1..][0] == PrintAtom(q.items[0].atom);
      } else if !q.atEnd {
        PrintNothing();
        assert re[1..] == "";
      }
      SpellMore(One(AtomOf(re[0])), q);
    }
  }

  lemma PrintNothing()
    ensures forall e :: Print(Pattern([], e)) == (if e then "$" else "") && Spellable(Pattern([], e))
  {
  }

  lemma SpellLess(p: Pattern)
    requires Spellable(p) && p.items != []
    ensures var t, q := p.items[0], p.(items := p.items[1..]);
      && Spellable(q) && t.atom != Char('.') && (t.One? && q.items != [] ==> q.items[0].atom != Char('*'))
      && (t == One(Char('$')) && q.items == [] ==> q.atEnd)
  {
    var q := p.(items := p.items[1..]);
    assert forall i :: 0 <= i < |q.items| ==> q.items[i] == p.items[i + 1];
  }

  /** One item more, in front. */
  lemma ParseMore(t: Item, re: string)
    requires t.atom != Char('.') && (t.One? ==> (re != "" ==> re[0] != '*') && (re == "" ==> t.atom != Char('$')))
    ensures Parse(PrintItem(t) + re) == Parse(re).(items := [t] + Parse(re).items)
  {
    var s := PrintItem(t) + re;
    match t
    case Star(a) =>
      assert s[0] == PrintAtom(a) && s[1] == '*' && s[2..] == re;
      assert AtomOf(s[0]) == a;
    case One(a) =>
      assert s[0] == PrintAtom(a) && s[1..] == re;
      assert AtomOf(s[0]) == a && (re != "" ==> s[1] == re[0]) && s != "$";
  }

  /** A pattern that is printed is read back exactly when it can be spelled. */
  lemma {:induction false} ParsePrint(p: Pattern)
    ensures Parse(Print(p)) == p <==> Spellable(p)
    decreases |p.items|
  {
    hide Print, Parse, Spellable;
    PrintNothing();
    if Parse(Print(p)) == p {
      PrintParse(Print(p));
    }
    if Spellable(p) {
      if p.items == [] {
        ParseNothing();
      } else {
        var t, q := p.items[0], p.(items := p.items[1..]);
        assert p.items == [t] + q.items;
        SpellLess(p);
        ParsePrint(q);
        PrintMore(t, q);
        ParseMore(t, Print(q));
      }
    }
  }

  lemma ParseNothing()
    ensures Parse("") == Pattern([], false) && Parse("$") == Pattern([], true)
  {
  }

  ghost predicate AllAccepted(a: Atom, w: string) {
    forall i :: 0 <= i < |w| ==> Accepts(a, w[i])
  }

  /** `w` is a word of the language of `items`: the words of the items, one after another. */
  ghost predicate InLanguage(items: seq<Item>, w: string)
    decreases |items|
  {
    if items == [] then w == ""
    else
      match items[0]
      case One(a) => w != "" && Accepts(a, w[0]) && InLanguage(items[1..], w[1..])
      case Star(a) => exists k :: 0 <= k <= |w| && AllAccepted(a, w[..k]) && InLanguage(items[1..], w[k..])
  }

  /** Some beginning of `text`, all of it if `atEnd` is set, is a word of the pattern. */
  ghost predicate BeginsWith(p: Pattern, text: string) {
    exists n :: 0 <= n <= |text| && (p.atEnd ==> n == |text|) && InLanguage(p.items, text[..n])
  }

  /** `text` begins with characters that `a` accepts, at most `m` of them, and goes on with
      what `p` asks for. */
  ghost predicate StarThen(a: Atom, p: Pattern, text: string, m: nat) {
    exists k :: 0 <= k <= m && k <= |text| && AllAccepted(a, text[..k]) && BeginsWith(p, text[k..])
  }

  lemma OneMeans(a: Atom, p: Pattern, text: string)
    ensures BeginsWith(p.(items := [One(a)] + p.items), text) <==>
      text != "" && Accepts(a, text[0]) && BeginsWith(p, text[1..])
  {
    var items := [One(a)] + p.items;
    assert items[1..] == p.items;
    if text != "" {
      forall n | 1 <= n <= |text|
        ensures InLanguage(items, text[..n]) <==> Accepts(a, text[0]) && InLanguage(p.items, text[1..][..n - 1])
      {
        assert text[..n][1..] == text[1..][..n - 1];
      }
    }
    if BeginsWith(p.(items := items), text) {
      var n :| 0 <= n <= |text| && (p.atEnd ==> n == |text|) && InLanguage(items, text[..n]);
      assert n >= 1;
      assert InLanguage(p.items, text[1..][..n - 1]);
    }
    if text != "" && Accepts(a, text[0]) && BeginsWith(p, text[1..]) {
      var n :| 0 <= n <= |text[1..]| && (p.atEnd ==> n == |text[1..]|) && InLanguage(p.items, text[1..][..n]);
      assert InLanguage(items, text[..n + 1]);
    }
  }

  lemma StarMeans(a: Atom, p: Pattern, text: string)
    ensures BeginsWith(p.(items := [Star(a)] + p.items), text) <==> StarThen(a, p, text, |text|)
  {
    var items := [Star(a)] + p.items;
    assert items[1..] == p.items;
    if BeginsWith(p.(items := items), text) {
      var n :| 0 <= n <= |text| && (p.atEnd ==> n == |text|) && InLanguage(items, text[..n]);
      var k :| 0 <= k <= n && AllAccepted(a, text[..n][..k]) && InLanguage(p.items, text[..n][k..]);
      assert text[..n][..k] == text[..k] && text[..n][k..] == text[k..][..n - k];
      assert BeginsWith(p, text[k..]);
    }
    if StarThen(a, p, text, |text|) {
      var k :| 0 <= k <= |text| && AllAccepted(a, text[..k]) && BeginsWith(p, text[k..]);
      var n :| 0 <= n <= |text[k..]| && (p.atEnd ==> n == |text[k..]|) && InLanguage(p.items, text[k..][..n]);
      assert text[..k + n][..k] == text[..k] && text[..k + n][k..] == text[k..][..n];
      assert InLanguage(items, text[..k + n]);
    }
  }

  lemma AcceptedAt(a: Atom, text: string, k: nat, m: nat)
    requires k <= |text| && AllAccepted(a, text[..k])
    ensures m < k ==> Accepts(a, text[m])
  {
    if m < k {
      assert Accepts(a, text[..k][m]);
    }
  }

  /** Repetitions are tried one longer each time. */
  lemma StarNext(a: Atom, p: Pattern, text: string, m: nat)
    requires m <= |text| && AllAccepted(a, text[..m])
    ensures StarThen(a, p, text, m) <==> (m > 0 && StarThen(a, p, text, m - 1)) || BeginsWith(p, text[m..])
    ensures m == |text| || !Accepts(a, text[m]) ==> (StarThen(a, p, text, |text|) <==> StarThen(a, p, text, m))
  {
    if (m == |text| || !Accepts(a, text[m])) && StarThen(a, p, text, |text|) {
      var k :| 0 <= k <= |text| && AllAccepted(a, text[..k]) && BeginsWith(p, text[k..]);
      AcceptedAt(a, text, k, m);
    }
  }

  /** What `match` is to find: a place where the pattern begins, the start of the text if
      `re` begins with `^`. */
  ghost predicate Contains(re: string, text: string) {
    if re != "" && re[0] == '^' then BeginsWith(Parse(re[1..]), text)
    else exists i :: 0 <= i <= |text| && BeginsWith(Parse(re), text[i..])
  }

  method Match(re: string, text: string) returns (found: bool)
    ensures found <==> Contains(re, text)
  {
    if re != "" && re[0] == '^' {
      found := MatchHere(re[1..], text);
      return;
    }
    var t := 0;
    while true
      invariant t <= |text|
      invariant forall i :: 0 <= i < t ==> !BeginsWith(Parse(re), text[i..])
      decreases |text| - t
    {
      var here := MatchHere(re, text[t..]);
      if here {
        return true;
      }
      if t == |text| {
        return false;
      }
      t := t + 1;
    }
  }

  method MatchHere(re: string, text: string) returns (found: bool)
    ensures found <==> BeginsWith(Parse(re), text)
    decreases |re|, 0
  {
    if re == "" {
      assert InLanguage([], text[..0]);
      return true;
    }
    if |re| >= 2 && re[1] == '*' {
      StarMeans(AtomOf(re[0]), Parse(re[2..]), text);
      found := MatchStar(re[0], re[2..], text);
      return;
    }
    if re == "$" {
      assert text == "" ==> InLanguage([], text[..0]);
      return text == "";
    }
    OneMeans(AtomOf(re[0]), Parse(re[1..]), text);
    if text != "" && (re[0] == '.' || re[0] == text[0]) {
      found := MatchHere(re[1..], text[1..]);
      return;
    }
    found := false;
  }

  method MatchStar(c: char, re: string, text: string) returns (found: bool)
    ensures found <==> StarThen(AtomOf(c), Parse(re), text, |text|)
    decreases |re|, 1
  {
    ghost var a, p := AtomOf(c), Parse(re);
    var t := 0;
    while true
      invariant t <= |text| && AllAccepted(a, text[..t])
      invariant t > 0 ==> !StarThen(a, p, text, t - 1)
      decreases |text| - t
    {
      StarNext(a, p, text, t);
      var here := MatchHere(re, text[t..]);
      if here {
        assert AllAccepted(a, text[..t]) && BeginsWith(p, text[t..]);
        return true;
      }
      if t == |text| || !(text[t] == c || c == '.') {
        return false;
      }
      t := t + 1;
    }
  }
}

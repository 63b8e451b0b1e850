/** How many frames page tables take: the tables that a stretch of pages needs, less the
    ones that are there already. */
module FrameCount {
  import opened PageTables

  /** The tables that a directory frame refers to. */
  function Tables(c: Frame): (ts: set<nat>)
    ensures forall i: nat :: i in ts <==> i < NENTRIES && Present(c[i])
  {
    set i: nat | i < NENTRIES && Present(c[i])
  }

  /** Table `i` holds the entry of a page in `[lo, hi)`. */
  predicate Serves(i: nat, lo: nat, hi: nat) {
    lo < hi && lo < (i + 1) * NENTRIES && i * NENTRIES < hi
  }

  /** The tables that hold the entries of the pages `[lo, hi)`. */
  function TablesOf(lo: nat, hi: nat): (ts: set<nat>)
    ensures forall i: nat :: i in ts <==> i < NENTRIES && Serves(i, lo, hi)
  {
    set i: nat | i < NENTRIES && Serves(i, lo, hi)
  }

  /** `c` has the tables of `c0` and those of `ts`. */
  ghost predicate Gains(c0: Frame, c: Frame, ts: set<nat>) {
    forall i :: 0 <= i < NENTRIES ==> (Present(c[i]) <==> Present(c0[i]) || i in ts)
  }

  /** Frames it takes to have `pages` pages, and the tables of `ts` in the directory `c`. */
  function Need(c: Frame, ts: set<nat>, pages: nat): nat {
    pages + |ts - Tables(c)|
  }

  /** Between `c0` with `n0` free frames and `c` with `n`, the tables of `ts` and `pages`
      pages have been added, and nothing else has been taken. */
  ghost predicate Spent(c0: Frame, c: Frame, ts: set<nat>, pages: nat, n0: nat, n: nat) {
    Gains(c0, c, ts) && n0 == n + Need(c0, ts, pages)
  }

  lemma SpentNothing(c: Frame, n: nat)
    ensures Spent(c, c, {}, 0, n, n)
  {
    assert {} - Tables(c) == {};
  }

  lemma Minus(a: set<nat>, b: set<nat>)
    requires b <= a
    ensures |a - b| == |a| - |b|
  {
    assert a == (a - b) + b;
  }

  /** The new tables of both steps together. */
  lemma NeedBoth(c0: Frame, c: Frame, ts: set<nat>, us: set<nat>)
    requires Gains(c0, c, ts) && forall i: nat :: i in us ==> i < NENTRIES
    ensures |(ts + us) - Tables(c0)| == |ts - Tables(c0)| + |us - Tables(c)|
  {
    var a, b, t := ts - Tables(c0), us - Tables(c), (ts + us) - Tables(c0);
    forall i: nat
      ensures i in t <==> i in a || i in b
      ensures i !in a || i !in b
    {
    }
    assert t == a + b && a !! b;
  }

  /** One step after the other. */
  lemma SpentThen(c0: Frame, c: Frame, c1: Frame, ts: set<nat>, us: set<nat>, all: set<nat>,
                  pages: nat, more: nat, n0: nat, n: nat, n1: nat)
    requires Spent(c0, c, ts, pages, n0, n) && Spent(c, c1, us, more, n, n1)
    requires (forall i: nat :: i in us ==> i < NENTRIES) && all == ts + us
    ensures Spent(c0, c1, all, pages + more, n0, n1)
  {
    NeedBoth(c0, c, ts, us);
  }

  lemma NeedMore(c: Frame, ts: set<nat>, us: set<nat>, pages: nat, more: nat)
    requires ts <= us && pages <= more
    ensures Need(c, ts, pages) <= Need(c, us, more)
  {
    Minus(us - Tables(c), ts - Tables(c));
  }

  /** A second step that there are not enough frames for, as part of all that was wanted. */
  lemma SpentShort(c0: Frame, c: Frame, ts: set<nat>, us: set<nat>, all: set<nat>, pages: nat, more: nat, total: nat,
      n0: nat, n: nat)
    requires Spent(c0, c, ts, pages, n0, n) && n < Need(c, us, more)
    requires (forall i: nat :: i in us ==> i < NENTRIES) && ts + us <= all && pages + more <= total
    ensures n0 < Need(c0, all, total)
  {
    NeedBoth(c0, c, ts, us);
    NeedMore(c0, ts + us, all, pages + more, total);
  }

  /** The table of page `v` is one more or one of those before. */
  lemma TablesNext(lo: nat, v: nat, next: nat)
    requires lo <= v && v / NENTRIES < NENTRIES && next == v + 1
    ensures TablesOf(lo, next) == TablesOf(lo, v) + {v / NENTRIES}
  {
    forall i: nat
      ensures i in TablesOf(lo, next) <==> i in TablesOf(lo, v) || i == v / NENTRIES
    {
    }
  }

  lemma TablesNone(lo: nat)
    ensures TablesOf(lo, lo) == {}
  {
  }

  lemma TablesWithin(lo: nat, v: nat, hi: nat)
    requires v <= hi
    ensures TablesOf(lo, v) <= TablesOf(lo, hi)
  {
  }

  /** The table of one page. */
  lemma NeedOne(c: Frame, i: nat, pages: nat)
    requires i < NENTRIES
    ensures Need(c, {i}, pages) == pages + if Present(c[i]) then 0 else 1
  {
    if Present(c[i]) {
      assert {i} - Tables(c) == {};
    } else {
      assert {i} - Tables(c) == {i};
    }
  }

  /** The table of a page is there already. */
  lemma SpentOn(c: Frame, i: nat, n: nat)
    requires i < NENTRIES
    ensures Present(c[i]) ==> Spent(c, c, {i}, 0, n, n)
  {
    NeedOne(c, i, 0);
  }

  /** The table of a page is made. */
  lemma SpentOnTable(c: Frame, i: nat, t: nat, flags: nat, n: nat)
    requires i < NENTRIES && !Present(c[i]) && flags % 2 == 1
    ensures Spent(c, c[i := Entry(t, flags)], {i}, 0, n + 1, n)
  {
    NeedOne(c, i, 0);
  }

  /** Frames it takes to map the pages `[lo, hi)` to pages of their own. */
  function NeedRange(c: Frame, lo: nat, hi: nat): nat {
    Need(c, TablesOf(lo, hi), if lo < hi then hi - lo else 0)
  }

  /** The pages `[lo, v)` have been given frames and tables. */
  ghost predicate SpentUpTo(c0: Frame, c: Frame, lo: nat, v: nat, n0: nat, n: nat) {
    lo <= v && Spent(c0, c, TablesOf(lo, v), v - lo, n0, n)
  }

  lemma UpToStart(c: Frame, lo: nat, n: nat)
    ensures SpentUpTo(c, c, lo, lo, n, n)
  {
    TablesNone(lo);
    SpentNothing(c, n);
  }

  lemma UpToNext(c0: Frame, c: Frame, c1: Frame, lo: nat, v: nat, n0: nat, n: nat, n1: nat)
    requires SpentUpTo(c0, c, lo, v, n0, n) && v / NENTRIES < NENTRIES
    requires n > 0 && Spent(c, c1, {v / NENTRIES}, 0, n - 1, n1)
    ensures SpentUpTo(c0, c1, lo, v + 1, n0, n1)
  {
    TablesNext(lo, v, v + 1);
    SpentThen(c0, c, c1, TablesOf(lo, v), {v / NENTRIES}, TablesOf(lo, v + 1), v - lo, 1, n0, n, n1);
  }

  /** There is no frame for page `v`, or none for its table. */
  lemma UpToShort(c0: Frame, c: Frame, lo: nat, v: nat, hi: nat, n0: nat, n: nat)
    requires SpentUpTo(c0, c, lo, v, n0, n) && v < hi && v / NENTRIES < NENTRIES
    requires n == 0 || (n == 1 && !Present(c[v / NENTRIES]))
    ensures n0 < NeedRange(c0, lo, hi)
  {
    TablesNext(lo, v, v + 1);
    TablesWithin(lo, v + 1, hi);
    NeedOne(c, v / NENTRIES, 1);
    SpentShort(c0, c, TablesOf(lo, v), {v / NENTRIES}, TablesOf(lo, hi), v - lo, 1, hi - lo, n0, n);
  }

  lemma UpToEnd(c0: Frame, c: Frame, lo: nat, hi: nat, n0: nat, n: nat)
    requires SpentUpTo(c0, c, lo, hi, n0, n)
    ensures n0 >= NeedRange(c0, lo, hi)
  {
  }

  /** The pages `[lo, v)` have been given tables; the frames they map are not taken. */
  ghost predicate SpentOnTables(c0: Frame, c: Frame, lo: nat, v: nat, n0: nat, n: nat) {
    lo <= v && Spent(c0, c, TablesOf(lo, v), 0, n0, n)
  }

  lemma TablesStart(c: Frame, lo: nat, n: nat)
    ensures SpentOnTables(c, c, lo, lo, n, n)
  {
    TablesNone(lo);
    SpentNothing(c, n);
  }

  lemma RunSpent(c0: Frame, c: Frame, c1: Frame, lo: nat, v: nat, n0: nat, n: nat, n1: nat)
    requires SpentOnTables(c0, c, lo, v, n0, n) && v / NENTRIES < NENTRIES
    requires Spent(c, c1, {v / NENTRIES}, 0, n, n1)
    ensures SpentOnTables(c0, c1, lo, v + 1, n0, n1)
  {
    TablesNext(lo, v, v + 1);
    SpentThen(c0, c, c1, TablesOf(lo, v), {v / NENTRIES}, TablesOf(lo, v + 1), 0, 0, n0, n, n1);
  }

  /** There is no frame for the table of page `v`. */
  lemma RunShort(c0: Frame, c: Frame, lo: nat, v: nat, hi: nat, n0: nat, n: nat)
    requires SpentOnTables(c0, c, lo, v, n0, n) && v < hi && v / NENTRIES < NENTRIES
    requires n == 0 && !Present(c[v / NENTRIES])
    ensures n0 < Need(c0, TablesOf(lo, hi), 0)
  {
    TablesNext(lo, v, v + 1);
    TablesWithin(lo, v + 1, hi);
    NeedOne(c, v / NENTRIES, 0);
    SpentShort(c0, c, TablesOf(lo, v), {v / NENTRIES}, TablesOf(lo, hi), 0, 0, 0, n0, n);
  }

  lemma RunEnd(c0: Frame, c: Frame, lo: nat, hi: nat, n0: nat, n: nat)
    requires SpentOnTables(c0, c, lo, hi, n0, n)
    ensures Spent(c0, c, TablesOf(lo, hi), 0, n0, n) && n0 >= Need(c0, TablesOf(lo, hi), 0)
  {
  }

  /** A directory without tables. */
  lemma NeedFresh(ts: set<nat>, pages: nat)
    ensures Need(ZeroFrame(), ts, pages) == pages + |ts|
  {
    assert Tables(ZeroFrame()) == {};
    assert ts - {} == ts;
  }

  lemma FreshStart(n: nat)
    requires n > 0
    ensures Spent(ZeroFrame(), ZeroFrame(), {}, 1, n, n - 1)
  {
    NeedFresh({}, 1);
  }

  lemma FreshEnd(c: Frame, ts: set<nat>, pages: nat, n0: nat, n: nat)
    requires Spent(ZeroFrame(), c, ts, pages, n0, n)
    ensures n0 >= pages + |ts|
  {
    NeedFresh(ts, pages);
  }

  /** What a new address space with these tables had to be made from. */
  lemma FreshShort(c: Frame, ts: set<nat>, us: set<nat>, all: set<nat>, pages: nat, more: nat, total: nat, n0: nat,
      n: nat)
    requires Spent(ZeroFrame(), c, ts, pages, n0, n) && n < Need(c, us, more)
    requires (forall i: nat :: i in us ==> i < NENTRIES) && ts + us <= all && pages + more <= total
    ensures n0 < total + |all|
  {
    SpentShort(ZeroFrame(), c, ts, us, all, pages, more, total, n0, n);
    NeedFresh(all, total);
  }

  /** A new address space has its kernel tables and then its pages. */
  lemma FreshPages(c: Frame, c1: Frame, ts: set<nat>, hi: nat, n0: nat, n: nat, n1: nat)
    requires Spent(ZeroFrame(), c, ts, 1, n0, n) && SpentUpTo(c, c1, 0, hi, n, n1)
    ensures n0 >= 1 + hi + |ts + TablesOf(0, hi)|
  {
    SpentThen(ZeroFrame(), c, c1, ts, TablesOf(0, hi), ts + TablesOf(0, hi), 1, hi, n0, n, n1);
    FreshEnd(c1, ts + TablesOf(0, hi), 1 + hi, n0, n1);
  }

  lemma FreshPagesShort(c: Frame, c1: Frame, ts: set<nat>, v: nat, hi: nat, n0: nat, n: nat, n1: nat)
    requires Spent(ZeroFrame(), c, ts, 1, n0, n) && SpentUpTo(c, c1, 0, v, n, n1) && v < hi && v / NENTRIES < NENTRIES
    requires n1 == 0 || (n1 == 1 && !Present(c1[v / NENTRIES]))
    ensures n0 < 1 + hi + |ts + TablesOf(0, hi)|
  {
    UpToShort(c, c1, 0, v, hi, n, n1);
    FreshShort(c, ts, TablesOf(0, hi), ts + TablesOf(0, hi), 1, hi, 1 + hi, n0, n);
  }
}

/** How many blocks a file takes: which pointers of the tree are set when exactly the
    first `n` blocks of a file are mapped, and how many blocks that is. */
module ImageSpace {
  import opened Words
  import opened BlockTree
  import opened FileBytes
  import opened Teardown

  function CeilDiv(n: nat, d: nat): nat
    requires d > 0
  {
    (n + d - 1) / d
  }

  /** Blocks of data in a file of `size` bytes. */
  function DataBlocks(size: nat): nat {
    CeilDiv(size, BSIZE)
  }

  /** Data blocks and tables of a file of `n` blocks: one table for each NINDIRECT
      blocks, one for each NINDIRECT of those in the triple-indirect part, and the two
      roots. */
  function TreeBlocks(n: nat): nat {
    var double := NDIRECT + NINDIRECT * NINDIRECT;
    n + (if n <= NDIRECT then 0
         else 1 + CeilDiv(if n <= double then n - NDIRECT else NINDIRECT * NINDIRECT, NINDIRECT))
      + (if n <= double then 0
         else 1 + CeilDiv(n - double, NINDIRECT * NINDIRECT) + CeilDiv(n - double, NINDIRECT))
  }

  function FileBlocks(size: nat): nat {
    TreeBlocks(DataBlocks(size))
  }

  /** All blocks of files of these sizes. */
  function TotalBlocks(sizes: seq<nat>): nat {
    if sizes == [] then 0 else TotalBlocks(sizes[..|sizes| - 1]) + FileBlocks(sizes[|sizes| - 1])
  }

  lemma {:induction false} TotalUpdate(sizes: seq<nat>, i: nat, size: nat)
    requires i < |sizes|
    ensures TotalBlocks(sizes[i := size]) == TotalBlocks(sizes) - FileBlocks(sizes[i]) + FileBlocks(size)
    decreases |sizes|
  {
    var last := |sizes| - 1;
    if i == last {
      assert sizes[i := size][..last] == sizes[..last];
    } else {
      TotalUpdate(sizes[..last], i, size);
      assert sizes[i := size][..last] == sizes[..last][i := size];
    }
  }

  lemma TreeMonotone(m: nat, n: nat)
    requires m <= n
    ensures TreeBlocks(m) <= TreeBlocks(n)
  {
  }

  lemma FileMonotone(a: nat, b: nat)
    requires a <= b
    ensures FileBlocks(a) <= FileBlocks(b)
  {
    hide TreeBlocks;
    TreeMonotone(DataBlocks(a), DataBlocks(b));
  }

  lemma {:induction false} TotalMonotone(a: seq<nat>, b: seq<nat>)
    requires |a| == |b| && forall i :: 0 <= i < |a| ==> a[i] <= b[i]
    ensures TotalBlocks(a) <= TotalBlocks(b)
    decreases |a|
  {
    hide FileBlocks;
    if a == [] {
    } else {
      var last := |a| - 1;
      TotalMonotone(a[..last], b[..last]);
      FileMonotone(a[last], b[last]);
    }
  }

  /** What one more block takes: itself, and each table it is the first in. */
  function NextBlocks(bn: nat): nat {
    var double := NDIRECT + NINDIRECT * NINDIRECT;
    if bn < NDIRECT then 1
    else if bn < double then
      var n := bn - NDIRECT;
      1 + (if n % NINDIRECT == 0 then 1 else 0) + (if n == 0 then 1 else 0)
    else
      var n := bn - double;
      1 + (if n % NINDIRECT == 0 then 1 else 0) + (if n % (NINDIRECT * NINDIRECT) == 0 then 1 else 0)
      + (if n == 0 then 1 else 0)
  }

  lemma TreeNext(bn: nat)
    ensures TreeBlocks(bn + 1) == TreeBlocks(bn) + NextBlocks(bn)
  {
  }

  // ---- which pointers are set ----

  /** Data blocks below a pointer of height `h`. */
  function Span(h: int): nat {
    if h <= 0 then 1 else if h == 1 then NINDIRECT else if h == 2 then NINDIRECT * NINDIRECT
    else NINDIRECT * NINDIRECT * NINDIRECT
  }

  /** The first file block that is reached through position `p`. */
  function First(p: Pos): nat {
    match p
    case Root(k) => if k <= NDIRECT then k else NDIRECT + NINDIRECT * NINDIRECT
    case Kid(q, i) => First(q) + i * Span(Height(p))
  }

  /** Exactly the first `n` blocks of file `inum` are mapped, with just the tables that
      lead to them. */
  ghost predicate Exact(t: Tree, inum: nat, n: nat)
    requires inum < |t.inodes|
  {
    forall p :: ValidPos(p) ==> (At(t, Site(inum, p)) != 0 <==> First(p) < n)
  }

  function Null(t: Tree, s: Site): nat
    requires ValidSite(t, s)
  {
    if At(t, s) == 0 then 1 else 0
  }

  /** Null pointers on the path to `p`. */
  function Missing(t: Tree, inum: nat, p: Pos): nat
    requires ValidSite(t, Site(inum, p))
  {
    Null(t, Site(inum, p)) + if p.Kid? then Missing(t, inum, p.up) else 0
  }

  lemma PathMissing(t: Tree, inum: nat, p: Pos)
    requires inum < |t.inodes| && ValidPos(p)
    ensures Missing(t, inum, p) == Null(t, Site(inum, p)) + if p.Kid? then Missing(t, inum, p.up) else 0
  {
  }

  lemma FirstOfData(bn: nat)
    requires bn < MAXFILE
    ensures First(PosOf(bn)) == bn
  {
  }

  lemma {:induction false} AboveFirst(p: Pos, q: Pos)
    requires Above(p, q)
    ensures First(p) <= First(q)
    decreases q
  {
    if p == q {
    } else {
      AboveFirst(p, q.up);
    }
  }

  /** A position lies above the first block that is reached through it. */
  lemma FirstBelow(p: Pos)
    requires ValidPos(p)
    ensures First(p) < MAXFILE && Above(p, PosOf(First(p)))
  {
    hide PosOf;
    DepthBound(p);
    if Height(p) == 0 {
      BlockNoInverse(p);
      FirstOfData(BlockNo(p));
    } else if p.Kid? {
      DepthBound(p.up);
      if p.up.Root? {
        TableBelow(p, p.up.k, p.i);
      } else {
        DepthBound(p.up.up);
        LowTableBelow(p, p.up.i, p.i);
      }
    } else if p.k == NDIRECT {
      DoublePos(0);
      UpThree(p, 0, 0, 0);
    } else {
      TriplePos(0);
      UpThree(p, 0, 0, 0);
    }
  }

  lemma TableBelow(p: Pos, k: nat, i: nat)
    requires p == Kid(Root(k), i) && ValidPos(p) && Height(p) > 0
    ensures First(p) < MAXFILE && Above(p, PosOf(First(p)))
  {
    hide PosOf;
    if k == NDIRECT {
      DoublePos(i * NINDIRECT);
    } else {
      TriplePos(i * (NINDIRECT * NINDIRECT));
    }
    UpThree(p, 0, 0, 0);
  }

  lemma LowTableBelow(p: Pos, i: nat, j: nat)
    requires p == Kid(Kid(Root(NDIRECT + 1), i), j) && ValidPos(p)
    ensures First(p) < MAXFILE && Above(p, PosOf(First(p)))
  {
    hide PosOf;
    var q := Kid(Root(NDIRECT + 1), i);
    assert Height(q) == 2 && ValidPos(q) && i < NINDIRECT;
    assert First(q) == NDIRECT + NINDIRECT * NINDIRECT + i * (NINDIRECT * NINDIRECT);
    TableStart(i, j);
    TriplePos(i * (NINDIRECT * NINDIRECT) + j * NINDIRECT);
    UpThree(p, 0, 0, 0);
  }

  lemma TableStart(i: nat, j: nat)
    requires i < NINDIRECT && j < NINDIRECT
    ensures var n := i * (NINDIRECT * NINDIRECT) + j * NINDIRECT;
      && n < NINDIRECT * NINDIRECT * NINDIRECT && n / (NINDIRECT * NINDIRECT) == i
      && n % (NINDIRECT * NINDIRECT) / NINDIRECT == j && n % NINDIRECT == 0
  {
  }

  lemma UpThree(p: Pos, i: nat, j: nat, n: nat)
    ensures Above(p, Kid(p, i)) && Above(p, Kid(Kid(p, i), j)) && Above(p, Kid(Kid(Kid(p, i), j), n))
  {
    assert Above(p, Kid(p, i));
    assert Above(p, Kid(Kid(p, i), j));
  }

  /** Resolving block `bn`, the last one mapped or the next, sets its path and no other
      pointer. */
  lemma ExactNext(t: Tree, u: Tree, inum: nat, n: nat, bn: nat, next: nat)
    requires inum < |t.inodes| && bn < MAXFILE && Exact(t, inum, n) && bn <= n <= next == bn + 1
    requires Grown(t, u, inum, PosOf(bn)) && At(u, DataSite(inum, bn)) != 0
    ensures Exact(u, inum, next)
  {
    hide First, At, PosOf;
    forall p | ValidPos(p)
      ensures At(u, Site(inum, p)) != 0 <==> First(p) < next
    {
      FirstOfData(bn);
      if Above(p, PosOf(bn)) {
        AboveSet(u, inum, p, PosOf(bn));
        AboveFirst(p, PosOf(bn));
      } else {
        assert ValidSite(t, Site(inum, p));
        if First(p) == bn {
          FirstBelow(p);
        }
      }
    }
  }

  /** A chunk at `pos` takes what the path to its block lacks. */
  lemma ChunkTakes(t: Tree, inum: nat, pos: nat, m: nat, bn: nat)
    requires inum < |t.inodes| && Exact(t, inum, DataBlocks(pos))
    requires m > 0 && pos % BSIZE + m <= BSIZE && bn == pos / BSIZE < MAXFILE
    ensures FileBlocks(pos + m) == FileBlocks(pos) + Missing(t, inum, PosOf(bn))
    ensures bn <= DataBlocks(pos) <= DataBlocks(pos + m) == bn + 1
  {
    hide TreeBlocks, At, PosOf, First, Missing;
    if pos % BSIZE == 0 {
      MissingNext(t, inum, bn);
      TreeNext(bn);
    } else {
      FirstOfData(bn);
      NoneMissing(t, inum, PosOf(bn));
    }
  }

  // ---- what the path to the next block still lacks ----

  lemma {:induction false} NoneMissing(t: Tree, inum: nat, p: Pos)
    requires inum < |t.inodes| && ValidPos(p) && At(t, Site(inum, p)) != 0
    ensures Missing(t, inum, p) == 0
    decreases p
  {
    if p.Root? {
    } else {
      PathSet(t, inum, p);
      NoneMissing(t, inum, p.up);
    }
  }

  /** Growing the path to `p` sets no entry of the table at `p`. */
  lemma SameBelow(t: Tree, u: Tree, inum: nat, p: Pos, i: nat)
    requires Grown(t, u, inum, p) && ValidPos(Kid(p, i))
    ensures Null(u, Site(inum, Kid(p, i))) == Null(t, Site(inum, Kid(p, i)))
  {
    hide At;
    NotAboveParent(p, i);
    assert ValidSite(t, Site(inum, Kid(p, i)));
  }

  /** The next block takes what its path lacks. */
  lemma MissingNext(t: Tree, inum: nat, bn: nat)
    requires inum < |t.inodes| && bn < MAXFILE && Exact(t, inum, bn)
    ensures Missing(t, inum, PosOf(bn)) == NextBlocks(bn)
  {
    hide At;
    if bn < NDIRECT {
      DirectPos(bn);
      MissingAt(t, inum, Root(bn), bn);
    } else if bn < NDIRECT + NINDIRECT * NINDIRECT {
      DoubleMissing(t, inum, bn - NDIRECT);
    } else {
      TripleMissing(t, inum, bn - NDIRECT - NINDIRECT * NINDIRECT);
    }
  }

  lemma MissingAt(t: Tree, inum: nat, p: Pos, bn: nat)
    requires inum < |t.inodes| && Exact(t, inum, bn) && ValidPos(p)
    ensures Null(t, Site(inum, p)) == if First(p) < bn then 0 else 1
    ensures Missing(t, inum, p) == (if First(p) < bn then 0 else 1) + if p.Kid? then Missing(t, inum, p.up) else 0
  {
  }

  lemma DoubleMissing(t: Tree, inum: nat, n: nat)
    requires inum < |t.inodes| && n < NINDIRECT * NINDIRECT && Exact(t, inum, NDIRECT + n)
    ensures Missing(t, inum, PosOf(NDIRECT + n)) == NextBlocks(NDIRECT + n)
  {
    hide PosOf, At, Exact, Missing;
    DoublePos(n);
    FirstOfData(NDIRECT + n);
    var bn := NDIRECT + n;
    var p0 := Root(NDIRECT);
    var p1 := Kid(p0, n / NINDIRECT);
    MissingAt(t, inum, p0, bn);
    MissingAt(t, inum, p1, bn);
    MissingAt(t, inum, Kid(p1, n % NINDIRECT), bn);
    assert First(p1) == NDIRECT + n / NINDIRECT * NINDIRECT;
  }

  lemma TripleMissing(t: Tree, inum: nat, n: nat)
    requires inum < |t.inodes| && n < NINDIRECT * NINDIRECT * NINDIRECT
    requires Exact(t, inum, NDIRECT + NINDIRECT * NINDIRECT + n)
    ensures Missing(t, inum, PosOf(NDIRECT + NINDIRECT * NINDIRECT + n))
         == NextBlocks(NDIRECT + NINDIRECT * NINDIRECT + n)
  {
    hide PosOf, At, Exact, Missing;
    TriplePos(n);
    var bn := NDIRECT + NINDIRECT * NINDIRECT + n;
    FirstOfData(bn);
    var p0 := Root(NDIRECT + 1);
    var p1 := Kid(p0, n / (NINDIRECT * NINDIRECT));
    var p2 := Kid(p1, n % (NINDIRECT * NINDIRECT) / NINDIRECT);
    MissingAt(t, inum, p0, bn);
    MissingAt(t, inum, p1, bn);
    MissingAt(t, inum, p2, bn);
    MissingAt(t, inum, Kid(p2, n % NINDIRECT), bn);
    assert First(p1) == First(p0) + n / (NINDIRECT * NINDIRECT) * (NINDIRECT * NINDIRECT);
    assert First(p2) == First(p1) + n % (NINDIRECT * NINDIRECT) / NINDIRECT * NINDIRECT;
    assert First(p2) == bn - n % NINDIRECT;
  }
}

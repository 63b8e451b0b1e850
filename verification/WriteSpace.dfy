/** How many blocks a write has to allocate: the null pointers on the paths to the blocks
    it touches, each once; and how many there are to allocate. */
module WriteSpace {
  import opened Words
  import opened BlockTree
  import opened FileBytes
  import opened Teardown
  import opened ImageSpace

  /** How many bits of the bitmap are clear. */
  function Clear(used: seq<bool>): nat {
    if used == [] then 0 else Clear(used[..|used| - 1]) + if used[|used| - 1] then 0 else 1
  }

  lemma {:induction false} ClearTaken(used: seq<bool>, b: nat)
    requires b < |used| && !used[b]
    ensures Clear(used[b := true]) == Clear(used) - 1
    decreases |used|
  {
    var last := |used| - 1;
    if b == last {
      assert used[b := true][..last] == used[..last];
    } else {
      ClearTaken(used[..last], b);
      assert used[b := true][..last] == used[..last][b := true];
    }
  }

  lemma {:induction false} ClearNone(used: seq<bool>)
    ensures Clear(used) == 0 <==> forall b :: 0 <= b < |used| ==> used[b]
    decreases |used|
  {
    if used == [] {
    } else {
      ClearNone(used[..|used| - 1]);
    }
  }

  /** The null pointers on the path to `p`. */
  ghost function Nulls(t: Tree, inum: nat, p: Pos): set<Pos>
    requires inum < |t.inodes| && ValidPos(p)
  {
    (if At(t, Site(inum, p)) == 0 then {p} else {}) + if p.Kid? then Nulls(t, inum, p.up) else {}
  }

  lemma {:induction false} NullsAre(t: Tree, inum: nat, p: Pos, q: Pos)
    requires inum < |t.inodes| && ValidPos(p)
    ensures q in Nulls(t, inum, p) <==> Above(q, p) && ValidPos(q) && At(t, Site(inum, q)) == 0
    decreases p
  {
    if p.Root? {
    } else {
      NullsAre(t, inum, p.up, q);
      if Above(q, p) {
        AboveSet(t, inum, q, p);
      }
    }
  }

  lemma {:induction false} NullsCount(t: Tree, inum: nat, p: Pos)
    requires inum < |t.inodes| && ValidPos(p)
    ensures |Nulls(t, inum, p)| == Missing(t, inum, p)
    decreases p
  {
    if p.Root? {
    } else {
      NullsCount(t, inum, p.up);
      NullsAre(t, inum, p.up, p);
      NotAboveParent(p.up, p.i);
    }
  }

  /** The null pointers on the paths to the `cnt` file blocks from `bn` on. */
  ghost function StretchNulls(t: Tree, inum: nat, bn: nat, cnt: nat): set<Pos>
    requires inum < |t.inodes| && bn + cnt <= MAXFILE
    decreases cnt
  {
    if cnt == 0 then {} else Nulls(t, inum, PosOf(bn)) + StretchNulls(t, inum, bn + 1, cnt - 1)
  }

  /** `q` lies above one of the blocks. */
  ghost predicate AboveStretch(q: Pos, bn: nat, cnt: nat)
    requires bn + cnt <= MAXFILE
  {
    exists b: nat :: bn <= b < bn + cnt && Above(q, PosOf(b))
  }

  lemma {:induction false} StretchAre(t: Tree, inum: nat, bn: nat, cnt: nat, q: Pos)
    requires inum < |t.inodes| && bn + cnt <= MAXFILE
    ensures q in StretchNulls(t, inum, bn, cnt) <==>
      AboveStretch(q, bn, cnt) && ValidPos(q) && At(t, Site(inum, q)) == 0
    decreases cnt
  {
    hide PosOf, At, Above;
    if cnt == 0 {
    } else {
      NullsAre(t, inum, PosOf(bn), q);
      StretchAre(t, inum, bn + 1, cnt - 1, q);
      assert AboveStretch(q, bn, cnt) <==> Above(q, PosOf(bn)) || AboveStretch(q, bn + 1, cnt - 1);
    }
  }

  /** Resolving the first block takes what its path lacks, and leaves the rest to the
      blocks after it. */
  lemma StretchStep(t: Tree, u: Tree, inum: nat, bn: nat, cnt: nat)
    requires inum < |t.inodes| && cnt > 0 && bn + cnt <= MAXFILE
    requires Grown(t, u, inum, PosOf(bn)) && At(u, DataSite(inum, bn)) != 0
    ensures |StretchNulls(t, inum, bn, cnt)|
         == Missing(t, inum, PosOf(bn)) + |StretchNulls(u, inum, bn + 1, cnt - 1)|
  {
    hide PosOf, At, Above, Nulls, Missing;
    var a, b, c := Nulls(t, inum, PosOf(bn)), StretchNulls(t, inum, bn, cnt), StretchNulls(u, inum, bn + 1, cnt - 1);
    NullsCount(t, inum, PosOf(bn));
    forall q
      ensures q in b <==> q in a || q in c
      ensures q !in a || q !in c
    {
      StretchMember(t, u, inum, bn, cnt, q);
    }
    assert b == a + c && a !! c;
  }

  lemma StretchMember(t: Tree, u: Tree, inum: nat, bn: nat, cnt: nat, q: Pos)
    requires inum < |t.inodes| && cnt > 0 && bn + cnt <= MAXFILE
    requires Grown(t, u, inum, PosOf(bn)) && At(u, DataSite(inum, bn)) != 0
    ensures var a := Nulls(t, inum, PosOf(bn));
      var c := StretchNulls(u, inum, bn + 1, cnt - 1);
      && (q in StretchNulls(t, inum, bn, cnt) <==> q in a || q in c)
      && (q !in a || q !in c)
  {
    hide PosOf, At, Above, Nulls;
    NullsAre(t, inum, PosOf(bn), q);
    StretchAre(t, inum, bn + 1, cnt - 1, q);
    StretchAre(u, inum, bn + 1, cnt - 1, q);
    if ValidPos(q) {
      assert ValidSite(t, Site(inum, q));
      if Above(q, PosOf(bn)) {
        AboveSet(u, inum, q, PosOf(bn));
      }
    }
  }

  /** Pointers that are null in both trees or in neither. */
  lemma {:induction false} StretchSame(t: Tree, u: Tree, inum: nat, bn: nat, cnt: nat)
    requires inum < |t.inodes| == |u.inodes| && bn + cnt <= MAXFILE
    requires forall s :: ValidSite(t, s) ==> At(u, s) == At(t, s)
    ensures StretchNulls(u, inum, bn, cnt) == StretchNulls(t, inum, bn, cnt)
  {
    hide At;
    forall q
      ensures q in StretchNulls(u, inum, bn, cnt) <==> q in StretchNulls(t, inum, bn, cnt)
    {
      StretchAre(t, inum, bn, cnt, q);
      StretchAre(u, inum, bn, cnt, q);
      assert ValidPos(q) ==> ValidSite(t, Site(inum, q));
    }
  }

  // ---- by bytes ----

  /** How many blocks the `n` bytes from `off` on lie in. */
  function BlocksOf(off: nat, n: nat): nat {
    if n == 0 then 0 else (off + n - 1) / BSIZE - off / BSIZE + 1
  }

  /** How many of `n` bytes at `off` fit into the block there. */
  function ChunkOf(off: nat, n: nat): nat {
    if n < BSIZE - off % BSIZE then n else BSIZE - off % BSIZE
  }

  lemma ChunkIs(off: nat, n: nat, m: nat)
    requires m == if n < BSIZE - off % BSIZE then n else BSIZE - off % BSIZE
    ensures m == ChunkOf(off, n) && (n > 0 ==> 0 < m <= n && off % BSIZE + m <= BSIZE)
  {
  }

  /** How many blocks a write of `n` bytes at `off` of file `inum` has to allocate. */
  ghost function Lacking(t: Tree, inum: nat, off: nat, n: nat): nat
    requires inum < |t.inodes| && off + n <= MAXFILE * BSIZE
  {
    StretchFits(off, n);
    |StretchNulls(t, inum, off / BSIZE, BlocksOf(off, n))|
  }

  lemma StretchFits(off: nat, n: nat)
    requires off + n <= MAXFILE * BSIZE
    ensures off / BSIZE + BlocksOf(off, n) <= MAXFILE
  {
  }

  /** A chunk up to the end of its block leaves the other blocks. */
  lemma LackingStep(t: Tree, u: Tree, inum: nat, off: nat, n: nat, m: nat)
    requires inum < |t.inodes| && 0 < m <= n && off + n <= MAXFILE * BSIZE
    requires m == ChunkOf(off, n)
    requires Grown(t, u, inum, PosOf(off / BSIZE)) && At(u, DataSite(inum, off / BSIZE)) != 0
    ensures Lacking(t, inum, off, n) == Missing(t, inum, PosOf(off / BSIZE)) + Lacking(u, inum, off + m, n - m)
  {
    hide PosOf, At, Missing, StretchNulls;
    StretchFits(off, n);
    assert BlocksOf(off + m, n - m) == BlocksOf(off, n) - 1;
    assert BlocksOf(off, n) > 1 ==> (off + m) / BSIZE == off / BSIZE + 1;
    StretchStep(t, u, inum, off / BSIZE, BlocksOf(off, n));
    if BlocksOf(off, n) == 1 {
      NoStretch(u, inum, off / BSIZE + 1);
      NoStretch(u, inum, (off + m) / BSIZE);
    }
  }

  lemma NoStretch(t: Tree, inum: nat, bn: nat)
    requires inum < |t.inodes| && bn <= MAXFILE
    ensures StretchNulls(t, inum, bn, 0) == {}
  {
  }

  /** Where every block of the stretch is mapped nothing is lacking. */
  lemma {:induction false} NothingLacking(t: Tree, inum: nat, bn: nat, cnt: nat)
    requires inum < |t.inodes| && bn + cnt <= MAXFILE
    requires forall b :: bn <= b < bn + cnt ==> At(t, DataSite(inum, b)) != 0
    ensures StretchNulls(t, inum, bn, cnt) == {}
    decreases cnt
  {
    hide PosOf, At, Nulls, Missing;
    if cnt == 0 {
    } else {
      assert At(t, DataSite(inum, bn)) != 0;
      NoneMissing(t, inum, PosOf(bn));
      NullsCount(t, inum, PosOf(bn));
      assert Nulls(t, inum, PosOf(bn)) == {};
      NothingLacking(t, inum, bn + 1, cnt - 1);
    }
  }

  lemma LackingNothing(t: Tree, inum: nat, off: nat)
    requires inum < |t.inodes| && off <= MAXFILE * BSIZE
    ensures Lacking(t, inum, off, 0) == 0
  {
  }

  /** The path to the first block is part of what the stretch lacks. */
  lemma LackingPath(t: Tree, inum: nat, off: nat, n: nat)
    requires inum < |t.inodes| && n > 0 && off + n <= MAXFILE * BSIZE
    ensures off / BSIZE < MAXFILE && Missing(t, inum, PosOf(off / BSIZE)) <= Lacking(t, inum, off, n)
  {
    hide PosOf, At, Missing, Nulls;
    StretchFits(off, n);
    var p := PosOf(off / BSIZE);
    NullsCount(t, inum, p);
    FewerNulls(Nulls(t, inum, p), StretchNulls(t, inum, off / BSIZE, BlocksOf(off, n)));
  }

  lemma FewerNulls(a: set<Pos>, b: set<Pos>)
    ensures a <= b ==> |a| <= |b|
  {
    if a <= b {
      assert b == a + (b - a);
    }
  }

  /** Resolving the first block and copying a chunk into it. */
  lemma LackingStored(t: Tree, u: Tree, inum: nat, off: nat, n: nat, src: seq<Byte>)
    requires inum < |t.inodes| && |src| <= n && off + n <= MAXFILE * BSIZE
    requires |src| > 0 && |src| == ChunkOf(off, n)
    requires Grown(t, u, inum, PosOf(off / BSIZE)) && At(u, DataSite(inum, off / BSIZE)) != 0
    requires Separated(u) && At(u, DataSite(inum, off / BSIZE)) < |u.blocks|
    ensures var r := Stored(u, inum, off / BSIZE, off % BSIZE, src);
      && |r.inodes| == |t.inodes|
      && Lacking(t, inum, off, n) == Missing(t, inum, PosOf(off / BSIZE)) + Lacking(r, inum, off + |src|, n - |src|)
  {
    hide PosOf, At, Missing, StretchNulls;
    StretchFits(off + |src|, n - |src|);
    LackingStep(t, u, inum, off, n, |src|);
    StoredPointers(u, inum, off / BSIZE, off % BSIZE, src);
    var r := Stored(u, inum, off / BSIZE, off % BSIZE, src);
    StretchSame(u, r, inum, (off + |src|) / BSIZE, BlocksOf(off + |src|, n - |src|));
  }

  /** Overwriting part of a file without holes takes no block. */
  lemma OverwriteFits(t: Tree, inum: nat, off: nat, n: nat)
    requires inum < |t.inodes| && Whole(t) && off + n <= t.inodes[inum].size
    ensures off + n <= MAXFILE * BSIZE && Lacking(t, inum, off, n) == 0
  {
    hide PosOf, At, StretchNulls;
    assert NoHoles(t, inum, t.inodes[inum].size);
    StretchFits(off, n);
    NothingLacking(t, inum, off / BSIZE, BlocksOf(off, n));
  }
}

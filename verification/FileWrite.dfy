/** project1/file.c `filewrite` over fs.c `writei`, `bmap` and `balloc`: which blocks one
    chunk of a write puts into the log. File contents play no part here. */
module FileWrite {
  import opened Options

  const BSIZE: nat := 512
  const NDIRECT: nat := 12
  const NINDIRECT: nat := 128
  const MAXFILE: nat := NDIRECT + NINDIRECT
  const BPB: nat := BSIZE * 8
  const MAXOPBLOCKS: nat := 10

  /** An inode, its indirect block, the free bitmap, and the blocks logged by the
      operation under way. */
  datatype Fs = Fs(addrs: seq<nat>, indirect: seq<nat>, size: nat, used: seq<bool>, logged: set<nat>)

  datatype Super = Super(bmapstart: nat, inodeblock: nat)

  predicate Sized(f: Fs) {
    |f.addrs| == NDIRECT + 1 && |f.indirect| == NINDIRECT
  }

  function Logged(f: Fs, b: nat): Fs {
    f.(logged := f.logged + {b})
  }

  function FirstFree(used: seq<bool>): (b: nat)
    ensures b <= |used|
    ensures b < |used| ==> !used[b]
    ensures forall i :: 0 <= i < b ==> used[i]
  {
    if used == [] || !used[0] then 0 else 1 + FirstFree(used[1..])
  }

  /** `balloc`, with `bzero`: the bitmap block and the new block are logged. None where the
      code panics, and for block 0, the boot block, which is always in use. */
  function Balloc(s: Super, f: Fs): Option<(Fs, nat)> {
    var b := FirstFree(f.used);
    if b == |f.used| || b == 0 then None
    else Some((Logged(Logged(f.(used := f.used[b := true]), s.bmapstart + b / BPB), b), b))
  }

  /** `bmap` */
  function Bmap(s: Super, f: Fs, bn: nat): Option<(Fs, nat)>
    requires Sized(f) && bn < MAXFILE
  {
    if bn < NDIRECT then
      if f.addrs[bn] != 0 then Some((f, f.addrs[bn]))
      else
        match Balloc(s, f)
        case None => None
        case Some((g, b)) => Some((g.(addrs := g.addrs[bn := b]), b))
    else
      var t :=
        if f.addrs[NDIRECT] != 0 then Some(f)
        else
          match Balloc(s, f)
          case None => None
          case Some((g, b)) => Some(g.(addrs := g.addrs[NDIRECT := b], indirect := seq(NINDIRECT, i => 0)));
      match t
      case None => None
      case Some(g) => BmapIndirect(s, g, bn - NDIRECT)
  }

  /** The part of `bmap` that looks into the indirect block. */
  function BmapIndirect(s: Super, g: Fs, i: nat): Option<(Fs, nat)>
    requires Sized(g) && i < NINDIRECT
  {
    if g.indirect[i] != 0 then Some((g, g.indirect[i]))
    else
      match Balloc(s, g)
      case None => None
      case Some((h, b)) => Some((Logged(h.(indirect := h.indirect[i := b]), h.addrs[NDIRECT]), b))
  }

  /** The loop of `writei` over `cnt` blocks from `bn` on. */
  function WriteBlocks(s: Super, f: Fs, bn: nat, cnt: nat): Option<Fs>
    requires Sized(f) && bn + cnt <= MAXFILE
    decreases cnt
  {
    if cnt == 0 then Some(f)
    else
      match Bmap(s, f, bn)
      case None => None
      case Some((g, b)) => if Sized(g) then WriteBlocks(s, Logged(g, b), bn + 1, cnt - 1) else None
  }

  predicate IsMapped(f: Fs, bn: nat)
    requires Sized(f) && bn < MAXFILE
  {
    if bn < NDIRECT then f.addrs[bn] != 0 else f.addrs[NDIRECT] != 0 && f.indirect[bn - NDIRECT] != 0
  }

  /** Where file block `bn` is. */
  function Address(f: Fs, bn: nat): nat
    requires Sized(f) && bn < MAXFILE
  {
    if bn < NDIRECT then f.addrs[bn] else if f.addrs[NDIRECT] == 0 then 0 else f.indirect[bn - NDIRECT]
  }

  /** How many of the `cnt` blocks from `bn` on are not mapped. */
  function Unmapped(f: Fs, bn: nat, cnt: nat): nat
    requires Sized(f) && bn + cnt <= MAXFILE
    decreases cnt
  {
    if cnt == 0 then 0 else (if IsMapped(f, bn) then 0 else 1) + Unmapped(f, bn + 1, cnt - 1)
  }

  /** Blocks that the indirect block may still add to the log: itself, and the bitmap block
      of its allocation. */
  function Pending(f: Fs): nat
    requires Sized(f)
  {
    if f.addrs[NDIRECT] == 0 then 2 else if f.addrs[NDIRECT] in f.logged then 0 else 1
  }

  lemma AddOne(q: set<nat>, b: nat)
    ensures |q + {b}| <= |q| + 1
    ensures b in q ==> |q + {b}| == |q|
  {
    if b in q {
      assert q + {b} == q;
    }
  }

  lemma BallocCost(s: Super, f: Fs)
    requires Balloc(s, f).Some?
    ensures var (g, b) := Balloc(s, f).value;
      |g.logged| <= |f.logged| + 2 && b != 0 && b in g.logged && f.logged <= g.logged
      && g.addrs == f.addrs && g.indirect == f.indirect && g.size == f.size
  {
    var b := FirstFree(f.used);
    AddOne(f.logged, s.bmapstart + b / BPB);
    AddOne(f.logged + {s.bmapstart + b / BPB}, b);
  }

  /** What one block costs: itself, the bitmap block if it is new, and what the indirect
      block still has to add. Other blocks stay mapped as they were. */
  lemma BmapCost(s: Super, f: Fs, bn: nat)
    requires Sized(f) && bn < MAXFILE && Bmap(s, f, bn).Some?
    ensures var (g, b) := Bmap(s, f, bn).value;
      && Sized(g) && IsMapped(g, bn) && g.size == f.size
      && |Logged(g, b).logged| + Pending(Logged(g, b))
           <= |f.logged| + Pending(f) + 1 + (if IsMapped(f, bn) then 0 else 1)
      && forall k :: 0 <= k < MAXFILE && k != bn ==> (IsMapped(g, k) <==> IsMapped(f, k))
  {
    hide Balloc, BmapIndirect;
    if bn < NDIRECT {
      var (g, b) := Bmap(s, f, bn).value;
      AddOne(g.logged, b);
      if f.addrs[bn] == 0 {
        BallocCost(s, f);
      }
    } else {
      if f.addrs[NDIRECT] == 0 {
        TableCost(s, f);
        var (u, c) := Balloc(s, f).value;
        IndirectCost(s, u.(addrs := u.addrs[NDIRECT := c], indirect := seq(NINDIRECT, i => 0)), bn);
      } else {
        IndirectCost(s, f, bn);
      }
    }
  }

  /** The indirect block is allocated. */
  lemma TableCost(s: Super, f: Fs)
    requires Sized(f) && f.addrs[NDIRECT] == 0 && Balloc(s, f).Some?
    ensures var (u, c) := Balloc(s, f).value;
      |u.addrs| == NDIRECT + 1 &&
      var t := u.(addrs := u.addrs[NDIRECT := c], indirect := seq(NINDIRECT, i => 0));
      && Sized(t) && c != 0 && t.size == f.size && |t.logged| + Pending(t) <= |f.logged| + 2
      && forall k :: 0 <= k < MAXFILE ==> (IsMapped(t, k) <==> IsMapped(f, k))
  {
    hide Balloc;
    BallocCost(s, f);
  }

  /** A block behind the indirect block. */
  lemma IndirectCost(s: Super, t: Fs, bn: nat)
    requires Sized(t) && NDIRECT <= bn < MAXFILE && t.addrs[NDIRECT] != 0 && BmapIndirect(s, t, bn - NDIRECT).Some?
    ensures var (g, b) := BmapIndirect(s, t, bn - NDIRECT).value;
      && Sized(g) && IsMapped(g, bn) && g.size == t.size
      && |Logged(g, b).logged| + Pending(Logged(g, b))
           <= |t.logged| + Pending(t) + 1 + (if IsMapped(t, bn) then 0 else 1)
      && forall k :: 0 <= k < MAXFILE && k != bn ==> (IsMapped(g, k) <==> IsMapped(t, k))
  {
    hide Balloc;
    var (g, b) := BmapIndirect(s, t, bn - NDIRECT).value;
    AddOne(g.logged, b);
    if t.indirect[bn - NDIRECT] == 0 {
      BallocCost(s, t);
      var (u, c) := Balloc(s, t).value;
      AddOne(u.logged, u.addrs[NDIRECT]);
    }
  }

  lemma SameMapped(f: Fs, b: nat, bn: nat)
    requires Sized(f) && bn < MAXFILE
    ensures IsMapped(Logged(f, b), bn) <==> IsMapped(f, bn)
  {
  }

  lemma {:induction false} SameUnmapped(f: Fs, g: Fs, bn: nat, cnt: nat)
    requires Sized(f) && Sized(g) && bn + cnt <= MAXFILE
    requires forall k :: bn <= k < bn + cnt ==> (IsMapped(g, k) <==> IsMapped(f, k))
    ensures Unmapped(g, bn, cnt) == Unmapped(f, bn, cnt)
    decreases cnt
  {
    if cnt == 0 {
    } else {
      SameUnmapped(f, g, bn + 1, cnt - 1);
    }
  }

  /** The blocks that `writei` logs before it updates the inode. */
  lemma {:induction false} WriteCost(s: Super, f: Fs, bn: nat, cnt: nat)
    requires Sized(f) && bn + cnt <= MAXFILE && WriteBlocks(s, f, bn, cnt).Some?
    ensures var g := WriteBlocks(s, f, bn, cnt).value;
      && Sized(g) && g.size == f.size
      && |g.logged| + Pending(g) <= |f.logged| + Pending(f) + cnt + Unmapped(f, bn, cnt)
      && forall k :: 0 <= k < MAXFILE ==> (IsMapped(g, k) <==> IsMapped(f, k) || bn <= k < bn + cnt)
    decreases cnt
  {
    hide Bmap, IsMapped, Pending, FirstFree;
    if cnt == 0 {
    } else {
      BmapCost(s, f, bn);
      var (g, b) := Bmap(s, f, bn).value;
      var h := Logged(g, b);
      forall k | 0 <= k < MAXFILE
        ensures IsMapped(h, k) <==> IsMapped(g, k)
      {
        SameMapped(g, b, k);
      }
      SameUnmapped(f, h, bn + 1, cnt - 1);
      WriteCost(s, h, bn + 1, cnt - 1);
    }
  }

  /** The block found is the one mapped then; no other block moves. */
  lemma BmapAddress(s: Super, f: Fs, bn: nat)
    requires Sized(f) && bn < MAXFILE && Bmap(s, f, bn).Some?
    ensures var (g, b) := Bmap(s, f, bn).value;
      && Sized(g) && Address(g, bn) == b && f.logged <= g.logged
      && forall k :: 0 <= k < MAXFILE && IsMapped(f, k) ==> Address(g, k) == Address(f, k)
  {
    hide Balloc;
    if bn < NDIRECT {
      if f.addrs[bn] == 0 {
        BallocCost(s, f);
      }
    } else {
      var t := f;
      if f.addrs[NDIRECT] == 0 {
        BallocCost(s, f);
        var (u, c) := Balloc(s, f).value;
        t := u.(addrs := u.addrs[NDIRECT := c], indirect := seq(NINDIRECT, i => 0));
      }
      if t.indirect[bn - NDIRECT] == 0 {
        BallocCost(s, t);
      }
    }
  }

  /** Every block written is logged, and none that was mapped moves. */
  lemma {:induction false} WriteLogs(s: Super, f: Fs, bn: nat, cnt: nat)
    requires Sized(f) && bn + cnt <= MAXFILE && WriteBlocks(s, f, bn, cnt).Some?
    ensures var g := WriteBlocks(s, f, bn, cnt).value;
      && Sized(g) && f.logged <= g.logged
      && (forall k :: bn <= k < bn + cnt ==> Address(g, k) in g.logged)
      && (forall k :: 0 <= k < MAXFILE && IsMapped(f, k) ==> Address(g, k) == Address(f, k))
    decreases cnt
  {
    hide Bmap;
    if cnt == 0 {
    } else {
      BmapCost(s, f, bn);
      BmapAddress(s, f, bn);
      var (g, b) := Bmap(s, f, bn).value;
      WriteLogs(s, Logged(g, b), bn + 1, cnt - 1);
    }
  }

  /** Every block below the size is mapped. */
  ghost predicate NoHoles(f: Fs) {
    Sized(f) && f.size <= MAXFILE * BSIZE && forall bn :: 0 <= bn < MAXFILE && bn * BSIZE < f.size ==> IsMapped(f, bn)
  }

  /** How many blocks a write of `n` bytes at `off` touches. */
  function Touched(off: nat, n: nat): nat {
    if n == 0 then 0 else (off + n - 1) / BSIZE - off / BSIZE + 1
  }

  predicate Rejected(f: Fs, off: nat, n: nat) {
    off > f.size || off + n > MAXFILE * BSIZE
  }

  /** `writei`, for a write that it does not reject */
  function Written(s: Super, f: Fs, off: nat, n: nat): Option<Fs>
    requires Sized(f) && !Rejected(f, off, n)
  {
    TouchedFits(off, n);
    match WriteBlocks(s, f, off / BSIZE, Touched(off, n))
    case None => None
    case Some(g) => if n > 0 && off + n > g.size then Some(Logged(g.(size := off + n), s.inodeblock)) else Some(g)
  }

  lemma TouchedFits(off: nat, n: nat)
    requires off + n <= MAXFILE * BSIZE
    ensures off / BSIZE + Touched(off, n) <= MAXFILE
  {
  }

  /** `max` of `filewrite` */
  const CHUNK: nat := (MAXOPBLOCKS - 1 - 1 - 2) / 2 * 512

  /** A chunk touches four blocks only if it does not start on a block boundary. */
  lemma ChunkTouches(off: nat, n: nat)
    requires n <= CHUNK
    ensures Touched(off, n) <= 4
    ensures Touched(off, n) == 4 ==> off % BSIZE != 0
  {
  }

  lemma {:induction false} UnmappedBound(f: Fs, bn: nat, cnt: nat)
    requires Sized(f) && bn + cnt <= MAXFILE
    ensures Unmapped(f, bn, cnt) <= cnt
    ensures cnt > 0 && IsMapped(f, bn) ==> Unmapped(f, bn, cnt) < cnt
    decreases cnt
  {
    if cnt == 0 {
    } else {
      UnmappedBound(f, bn + 1, cnt - 1);
    }
  }

  /** One chunk, as an operation of its own, on a file without holes: it logs at most
      MAXOPBLOCKS distinct blocks, whatever its offset and length, and leaves no hole. */
  lemma ChunkFits(s: Super, f: Fs, off: nat, n: nat)
    requires NoHoles(f) && f.logged == {} && !Rejected(f, off, n) && n <= CHUNK && Written(s, f, off, n).Some?
    ensures var g := Written(s, f, off, n).value;
      |g.logged| <= MAXOPBLOCKS && NoHoles(g) && g.size == if n > 0 && off + n > f.size then off + n else f.size
  {
    TouchedFits(off, n);
    ChunkTouches(off, n);
    var bn, cnt := off / BSIZE, Touched(off, n);
    WriteCost(s, f, bn, cnt);
    UnmappedBound(f, bn, cnt);
    assert off % BSIZE != 0 && cnt > 0 ==> IsMapped(f, bn);
    var g := WriteBlocks(s, f, bn, cnt).value;
    AddOne(g.logged, s.inodeblock);
    var r := Written(s, f, off, n).value;
    forall k | 0 <= k < MAXFILE && k * BSIZE < r.size
      ensures IsMapped(r, k)
    {
      assert IsMapped(g, k) <==> IsMapped(f, k) || bn <= k < bn + cnt;
    }
  }

  // ---- when the bound is met ----

  /** The next `m` blocks that `balloc` hands out, if there are as many. */
  function NextFree(used: seq<bool>, m: nat): (r: seq<nat>)
    ensures |r| <= m
    ensures forall i :: 0 <= i < |r| ==> r[i] < |used| && !used[r[i]]
    ensures forall i, j :: 0 <= i < j < |r| ==> r[i] != r[j]
    decreases m
  {
    var b := FirstFree(used);
    if m == 0 || b == |used| then [] else [b] + NextFree(used[b := true], m - 1)
  }

  /** What allocating these blocks logs. */
  function AllocLogs(s: Super, bs: seq<nat>): set<nat> {
    if bs == [] then {} else {s.bmapstart + bs[0] / BPB, bs[0]} + AllocLogs(s, bs[1..])
  }

  /** How many blocks writing `cnt` unmapped blocks from `bn` on allocates. */
  function Allocated(f: Fs, bn: nat, cnt: nat): nat
    requires Sized(f)
  {
    cnt + if f.addrs[NDIRECT] == 0 && cnt > 0 && bn + cnt > NDIRECT then 1 else 0
  }

  lemma {:induction false} UnmappedAll(f: Fs, bn: nat, cnt: nat)
    requires Sized(f) && bn + cnt <= MAXFILE
    ensures Unmapped(f, bn, cnt) == cnt <==> forall k :: bn <= k < bn + cnt ==> !IsMapped(f, k)
    decreases cnt
  {
    UnmappedBound(f, bn, cnt);
    if cnt == 0 {
    } else {
      UnmappedAll(f, bn + 1, cnt - 1);
      UnmappedBound(f, bn + 1, cnt - 1);
    }
  }

  lemma AllocLogsNext(s: Super, used: seq<bool>, m: nat)
    requires m > 0 && FirstFree(used) < |used|
    ensures NextFree(used, m) == [FirstFree(used)] + NextFree(used[FirstFree(used) := true], m - 1)
    ensures AllocLogs(s, NextFree(used, m))
         == {s.bmapstart + FirstFree(used) / BPB, FirstFree(used)}
           + AllocLogs(s, NextFree(used[FirstFree(used) := true], m - 1))
  {
    var b := FirstFree(used);
    assert ([b] + NextFree(used[b := true], m - 1))[1..] == NextFree(used[b := true], m - 1);
  }

  /** One unmapped block is written: its own allocation, and that of the indirect block
      where it is the first behind it. */
  lemma FreshBlock(s: Super, f: Fs, bn: nat, m: nat)
    requires Sized(f) && bn < MAXFILE && !IsMapped(f, bn) && Bmap(s, f, bn).Some?
    requires f.addrs[NDIRECT] != 0 ==> f.addrs[NDIRECT] in f.logged
    ensures var (g, b) := Bmap(s, f, bn).value;
      var a := Allocated(f, bn, 1);
      && Sized(g) && (g.addrs[NDIRECT] != 0 ==> g.addrs[NDIRECT] in g.logged)
      && (g.addrs[NDIRECT] == 0 <==> f.addrs[NDIRECT] == 0 && bn < NDIRECT)
      && |NextFree(f.used, a + m)| == a + |NextFree(g.used, m)|
      && f.logged + AllocLogs(s, NextFree(f.used, a + m)) == Logged(g, b).logged + AllocLogs(s, NextFree(g.used, m))
  {
    hide NextFree, AllocLogs;
    AllocLogsNext(s, f.used, Allocated(f, bn, 1) + m);
    if Allocated(f, bn, 1) == 2 {
      var (u, t) := Balloc(s, f).value;
      AllocLogsNext(s, u.used, 1 + m);
    }
  }

  lemma AllocatedNext(f: Fs, g: Fs, bn: nat, cnt: nat)
    requires Sized(f) && Sized(g) && (g.addrs[NDIRECT] == 0 <==> f.addrs[NDIRECT] == 0 && bn < NDIRECT)
    requires cnt > 0
    ensures Allocated(f, bn, cnt) == Allocated(f, bn, 1) + Allocated(g, bn + 1, cnt - 1)
  {
  }

  lemma NoneAllocated(f: Fs, bn: nat)
    requires Sized(f)
    ensures Allocated(f, bn, 0) == 0
  {
  }

  lemma SameAllocated(f: Fs, b: nat, bn: nat, cnt: nat)
    requires Sized(f)
    ensures Allocated(Logged(f, b), bn, cnt) == Allocated(f, bn, cnt)
  {
  }

  lemma NothingAllocated(s: Super, used: seq<bool>)
    ensures NextFree(used, 0) == [] && AllocLogs(s, []) == {}
  {
  }

  /** Writing blocks of which none is mapped logs the blocks that are allocated, with
      their bitmap blocks, and nothing else. */
  lemma {:induction false} FreshLogs(s: Super, f: Fs, bn: nat, cnt: nat)
    requires Sized(f) && bn + cnt <= MAXFILE && WriteBlocks(s, f, bn, cnt).Some?
    requires forall k :: bn <= k < bn + cnt ==> !IsMapped(f, k)
    requires f.addrs[NDIRECT] != 0 ==> f.addrs[NDIRECT] in f.logged
    ensures WriteBlocks(s, f, bn, cnt).value.logged == f.logged + AllocLogs(s, NextFree(f.used, Allocated(f, bn, cnt)))
    ensures |NextFree(f.used, Allocated(f, bn, cnt))| == Allocated(f, bn, cnt)
    decreases cnt
  {
    hide Bmap, NextFree, AllocLogs, Allocated, IsMapped, Pending, Unmapped, FirstFree;
    if cnt == 0 {
      NothingAllocated(s, f.used);
      NoneAllocated(f, bn);
    } else {
      BmapCost(s, f, bn);
      var (g, b) := Bmap(s, f, bn).value;
      var h := Logged(g, b);
      FreshBlock(s, f, bn, Allocated(g, bn + 1, cnt - 1));
      AllocatedNext(f, g, bn, cnt);
      SameAllocated(g, b, bn + 1, cnt - 1);
      forall k | bn + 1 <= k < bn + cnt
        ensures !IsMapped(h, k)
      {
        SameMapped(g, b, k);
      }
      FreshLogs(s, h, bn + 1, cnt - 1);
    }
  }

  /** The blocks of the bitmap and the inode are in use and apart, and so are the data
      blocks in the direct slots. */
  ghost predicate Laid(s: Super, f: Fs) {
    && Sized(f)
    && !InBitmap(s, f, s.inodeblock) && (s.inodeblock < |f.used| ==> f.used[s.inodeblock])
    && (forall b :: 0 <= b < |f.used| && InBitmap(s, f, b) ==> f.used[b])
    && (forall k :: 0 <= k < NDIRECT && f.addrs[k] != 0 ==>
          f.addrs[k] < |f.used| && f.used[f.addrs[k]] && !InBitmap(s, f, f.addrs[k]) && f.addrs[k] != s.inodeblock)
  }

  predicate InBitmap(s: Super, f: Fs, b: nat) {
    s.bmapstart <= b <= s.bmapstart + |f.used| / BPB
  }

  /** The blocks lie in bitmap blocks of their own. */
  ghost predicate Scattered(bs: seq<nat>) {
    forall i, j :: 0 <= i < j < |bs| ==> bs[i] / BPB != bs[j] / BPB
  }

  /** Before a write that can use up its reservation: it starts inside a mapped block, the
      three blocks after that are not mapped and reach behind the indirect block, which is
      not there yet, and the four blocks it will get lie in four bitmap blocks. */
  ghost predicate WorstCase(f: Fs, off: nat, n: nat)
    requires Sized(f) && off + n <= MAXFILE * BSIZE
  {
    var bn := off / BSIZE;
    && off % BSIZE != 0 && Touched(off, n) == 4 && bn + 4 > NDIRECT && f.addrs[NDIRECT] == 0
    && (forall k :: bn < k < bn + 4 && k < MAXFILE ==> !IsMapped(f, k))
    && Scattered(NextFree(f.used, 4))
  }

  /** Four blocks of which each logs itself and its bitmap block. */
  lemma FourLogs(s: Super, bs: seq<nat>)
    requires |bs| == 4
    ensures AllocLogs(s, bs) == {bs[0], bs[1], bs[2], bs[3]}
      + {s.bmapstart + bs[0] / BPB, s.bmapstart + bs[1] / BPB, s.bmapstart + bs[2] / BPB, s.bmapstart + bs[3] / BPB}
  {
    assert AllocLogs(s, bs[1..][1..][1..][1..]) == {};
    assert AllocLogs(s, bs[1..][1..][1..]) == {s.bmapstart + bs[3] / BPB, bs[3]};
    assert AllocLogs(s, bs[1..][1..]) == {s.bmapstart + bs[2] / BPB, bs[2], s.bmapstart + bs[3] / BPB, bs[3]};
  }

  lemma CountFour(x: seq<nat>, q: set<nat>)
    requires |x| == 4 && q == {x[0], x[1], x[2], x[3]}
    ensures |q| <= 4
    ensures |q| == 4 <==> forall i, j :: 0 <= i < j < 4 ==> x[i] != x[j]
  {
    var a := {x[0]};
    var b := a + {x[1]};
    var c := b + {x[2]};
    assert q == c + {x[3]};
    AddExactly(a, x[1]);
    AddExactly(b, x[2]);
    AddExactly(c, x[3]);
  }

  lemma AddExactly(q: set<nat>, b: nat)
    ensures |q + {b}| == if b in q then |q| else |q| + 1
  {
    if b in q {
      assert q + {b} == q;
    }
  }

  /** Data, bitmap and inode blocks that are pairwise apart add up. */
  lemma CountApart(bs: seq<nat>, ms: seq<nat>, was: nat, ino: nat, q: set<nat>)
    requires |bs| == 4 == |ms| && forall i, j :: 0 <= i < j < 4 ==> bs[i] != bs[j]
    requires forall i, j :: 0 <= i < 4 && 0 <= j < 4 ==> bs[i] != ms[j]
    requires was != ino && forall i :: 0 <= i < 4 ==> bs[i] != was && bs[i] != ino && ms[i] != was && ms[i] != ino
    requires q == {was} + ({bs[0], bs[1], bs[2], bs[3]} + {ms[0], ms[1], ms[2], ms[3]}) + {ino}
    ensures |q| == 10 <==> forall i, j :: 0 <= i < j < 4 ==> ms[i] != ms[j]
  {
    var x, y := {bs[0], bs[1], bs[2], bs[3]}, {ms[0], ms[1], ms[2], ms[3]};
    CountFour(bs, x);
    CountFour(ms, y);
    assert x !! y;
    assert |x + y| == |x| + |y|;
    AddExactly(x + y, was);
    assert q == x + y + {was} + {ino};
    AddExactly(x + y + {was}, ino);
  }

  /** In the worst case but for the bitmap blocks, what the write logs. */
  lemma WorstLogs(s: Super, f: Fs, off: nat, n: nat)
    requires NoHoles(f) && f.logged == {} && !Rejected(f, off, n) && Written(s, f, off, n).Some?
    requires off % BSIZE != 0 && Touched(off, n) == 4 && off / BSIZE + 4 > NDIRECT && f.addrs[NDIRECT] == 0
    requires off / BSIZE < NDIRECT && off / BSIZE + 4 <= MAXFILE && f.addrs[off / BSIZE] != 0
    requires forall k :: off / BSIZE < k < off / BSIZE + 4 ==> !IsMapped(f, k)
    ensures |NextFree(f.used, 4)| == 4
    ensures Written(s, f, off, n).value.logged
         == {f.addrs[off / BSIZE]} + AllocLogs(s, NextFree(f.used, 4)) + {s.inodeblock}
  {
    hide NextFree, AllocLogs, Bmap;
    var bn := off / BSIZE;
    WriteOld(s, f, bn, 4);
    var h := Logged(f, f.addrs[bn]);
    forall k | bn < k < bn + 4
      ensures !IsMapped(h, k)
    {
      SameMapped(f, f.addrs[bn], k);
    }
    FreshLogs(s, h, bn + 1, 3);
    WriteCost(s, f, bn, 4);
    assert !IsMapped(f, (off + n - 1) / BSIZE);
  }

  /** A chunk of a file without holes uses up its reservation if and only if it is the
      worst case. On a disk with fewer than four bitmap blocks none does. */
  lemma BoundExactly(s: Super, f: Fs, off: nat, n: nat)
    requires NoHoles(f) && f.logged == {} && !Rejected(f, off, n) && n <= CHUNK && Written(s, f, off, n).Some?
    requires Laid(s, f)
    ensures |Written(s, f, off, n).value.logged| == MAXOPBLOCKS <==> WorstCase(f, off, n)
    ensures |f.used| <= 3 * BPB ==> |Written(s, f, off, n).value.logged| < MAXOPBLOCKS
  {
    hide NextFree, AllocLogs, Bmap, WriteBlocks;
    ChunkFits(s, f, off, n);
    TouchedFits(off, n);
    var bn := off / BSIZE;
    if |Written(s, f, off, n).value.logged| == MAXOPBLOCKS {
      WorstShape(s, f, off, n);
    }
    if off % BSIZE != 0 && Touched(off, n) == 4 && bn + 4 > NDIRECT && f.addrs[NDIRECT] == 0
       && (forall k :: bn < k < bn + 4 && k < MAXFILE ==> !IsMapped(f, k)) {
      assert IsMapped(f, bn);
      WorstLogs(s, f, off, n);
      WorstCount(s, f, f.addrs[bn], NextFree(f.used, 4), Written(s, f, off, n).value.logged);
      if |f.used| <= 3 * BPB {
        FewBitmapBlocks(NextFree(f.used, 4));
      }
    }
  }

  lemma FewBitmapBlocks(bs: seq<nat>)
    requires |bs| == 4 && forall i :: 0 <= i < 4 ==> bs[i] < 3 * BPB
    ensures !Scattered(bs)
  {
    assert forall i :: 0 <= i < 4 ==> 0 <= bs[i] / BPB < 3;
    if bs[0] / BPB != bs[1] / BPB && bs[0] / BPB != bs[2] / BPB && bs[1] / BPB != bs[2] / BPB {
      assert bs[3] / BPB == bs[0] / BPB || bs[3] / BPB == bs[1] / BPB || bs[3] / BPB == bs[2] / BPB;
    }
  }

  lemma WorstCount(s: Super, f: Fs, was: nat, bs: seq<nat>, q: set<nat>)
    requires Laid(s, f) && |bs| == 4 && (forall i, j :: 0 <= i < j < 4 ==> bs[i] != bs[j])
    requires forall i :: 0 <= i < 4 ==> bs[i] < |f.used| && !f.used[bs[i]]
    requires was < |f.used| && f.used[was] && !InBitmap(s, f, was) && was != s.inodeblock
    requires q == {was} + AllocLogs(s, bs) + {s.inodeblock}
    ensures |q| == MAXOPBLOCKS <==> Scattered(bs)
  {
    hide AllocLogs, Laid, InBitmap, Scattered;
    FourLogs(s, bs);
    var ms := [s.bmapstart + bs[0] / BPB, s.bmapstart + bs[1] / BPB,
               s.bmapstart + bs[2] / BPB, s.bmapstart + bs[3] / BPB];
    BitmapBlocks(s, f, was, bs, ms);
    CountApart(bs, ms, was, s.inodeblock, q);
  }

  lemma BitmapBlocks(s: Super, f: Fs, was: nat, bs: seq<nat>, ms: seq<nat>)
    requires Laid(s, f) && |bs| == 4 == |ms| && forall i :: 0 <= i < 4 ==> ms[i] == s.bmapstart + bs[i] / BPB
    requires forall i :: 0 <= i < 4 ==> bs[i] < |f.used| && !f.used[bs[i]]
    requires !InBitmap(s, f, was)
    ensures forall i :: 0 <= i < 4 ==> ms[i] != was && ms[i] != s.inodeblock && bs[i] != s.inodeblock
    ensures forall i, j :: 0 <= i < 4 && 0 <= j < 4 ==> bs[i] != ms[j]
    ensures Scattered(bs) <==> forall i, j :: 0 <= i < j < 4 ==> ms[i] != ms[j]
  {
    hide Laid, InBitmap;
    forall i | 0 <= i < 4
      ensures ms[i] != was && ms[i] != s.inodeblock && bs[i] != s.inodeblock
    {
      BitmapBlock(s, f, bs[i], ms[i], was);
    }
    forall i, j | 0 <= i < 4 && 0 <= j < 4
      ensures bs[i] != ms[j]
    {
      BitmapApart(s, f, bs[i], bs[j], ms[j]);
    }
    forall i, j | 0 <= i < j < 4
      ensures ms[i] != ms[j] <==> bs[i] / BPB != bs[j] / BPB
    {
    }
  }

  lemma BitmapBlock(s: Super, f: Fs, b: nat, m: nat, was: nat)
    requires Laid(s, f) && b < |f.used| && !f.used[b] && m == s.bmapstart + b / BPB && !InBitmap(s, f, was)
    ensures InBitmap(s, f, m) && m != was && m != s.inodeblock && b != s.inodeblock
  {
    assert b / BPB <= |f.used| / BPB;
  }

  lemma BitmapApart(s: Super, f: Fs, b: nat, c: nat, m: nat)
    requires Laid(s, f) && b < |f.used| && !f.used[b] && c < |f.used| && m == s.bmapstart + c / BPB
    ensures b != m
  {
    assert c / BPB <= |f.used| / BPB;
    assert InBitmap(s, f, m);
  }

  /** Only these writes can log MAXOPBLOCKS blocks, whatever the layout of the disk. */
  lemma WorstShape(s: Super, f: Fs, off: nat, n: nat)
    requires NoHoles(f) && f.logged == {} && !Rejected(f, off, n) && n <= CHUNK && Written(s, f, off, n).Some?
    requires |Written(s, f, off, n).value.logged| == MAXOPBLOCKS
    ensures off % BSIZE != 0 && Touched(off, n) == 4 && off / BSIZE + 4 > NDIRECT && f.addrs[NDIRECT] == 0
    ensures forall k :: off / BSIZE < k < off / BSIZE + 4 && k < MAXFILE ==> !IsMapped(f, k)
  {
    hide Bmap, WriteBlocks;
    TouchedFits(off, n);
    ChunkTouches(off, n);
    var bn, cnt := off / BSIZE, Touched(off, n);
    WriteCost(s, f, bn, cnt);
    UnmappedBound(f, bn, cnt);
    assert off % BSIZE != 0 && cnt > 0 ==> IsMapped(f, bn);
    var g := WriteBlocks(s, f, bn, cnt).value;
    AddOne(g.logged, s.inodeblock);
    assert cnt == 4 && Unmapped(f, bn + 1, 3) == 3 && Pending(f) == 2;
    UnmappedAll(f, bn + 1, 3);
    DirectOnly(s, f, bn, cnt);
  }

  lemma BmapDirect(s: Super, f: Fs, bn: nat)
    requires Sized(f) && bn < NDIRECT && Bmap(s, f, bn).Some?
    ensures Sized(Bmap(s, f, bn).value.0) && Bmap(s, f, bn).value.0.addrs[NDIRECT] == f.addrs[NDIRECT]
  {
    hide Balloc, BmapIndirect;
    if f.addrs[bn] == 0 {
      BallocCost(s, f);
    }
  }

  /** Without a block behind the indirect block that one is not needed. */
  lemma {:induction false} DirectOnly(s: Super, f: Fs, bn: nat, cnt: nat)
    requires Sized(f) && bn + cnt <= MAXFILE && WriteBlocks(s, f, bn, cnt).Some?
    ensures var g := WriteBlocks(s, f, bn, cnt).value;
      bn + cnt <= NDIRECT ==> Sized(g) && g.addrs[NDIRECT] == f.addrs[NDIRECT]
    decreases cnt
  {
    hide Bmap;
    if 0 < cnt && bn + cnt <= NDIRECT {
      BmapDirect(s, f, bn);
      var (g, b) := Bmap(s, f, bn).value;
      DirectOnly(s, Logged(g, b), bn + 1, cnt - 1);
    }
  }

  lemma {:induction false} FirstFreeIs(used: seq<bool>, b: nat)
    requires b < |used| && !used[b] && forall i :: 0 <= i < b ==> used[i]
    ensures FirstFree(used) == b
  {
    if b == 0 {
    } else {
      FirstFreeIs(used[1..], b - 1);
    }
  }

  predicate FullBut(used: seq<bool>, free: set<nat>) {
    |used| == 4 * BPB && forall i :: 0 <= i < |used| ==> (used[i] <==> i !in free)
  }

  lemma BallocIs(s: Super, f: Fs, free: set<nat>, b: nat)
    requires FullBut(f.used, free) && b in free && 0 < b < 4 * BPB && forall c :: c in free ==> b <= c
    ensures Balloc(s, f) == Some((f.(used := f.used[b := true], logged := f.logged + {s.bmapstart + b / BPB} + {b}), b))
    ensures FullBut(f.used[b := true], free - {b})
  {
    FirstFreeIs(f.used, b);
  }

  /** A disk on which the free blocks are spread over four bitmap blocks. */
  function Spread(): Fs {
    Fs(seq(NDIRECT + 1, i => if i < 10 then 100 + i else 0), seq(NINDIRECT, i => 0), 9 * BSIZE + 1,
       seq(4 * BPB, i => i !in {1000, 4096, 8192, 12288}), {})
  }

  /** A new direct block. */
  lemma WriteDirect(s: Super, f: Fs, bn: nat, cnt: nat, free: set<nat>, b: nat) returns (g: Fs)
    requires Sized(f) && bn < NDIRECT && 0 < cnt && bn + cnt <= MAXFILE && f.addrs[bn] == 0
    requires FullBut(f.used, free) && b in free && 0 < b < 4 * BPB && forall c :: c in free ==> b <= c
    ensures Sized(g) && WriteBlocks(s, f, bn, cnt) == WriteBlocks(s, g, bn + 1, cnt - 1)
    ensures g == f.(addrs := f.addrs[bn := b], used := g.used, logged := g.logged)
    ensures FullBut(g.used, free - {b}) && g.logged == f.logged + {s.bmapstart + b / BPB, b}
  {
    BallocIs(s, f, free, b);
    g := Logged(Bmap(s, f, bn).value.0, b);
  }

  /** The first block behind the indirect block. */
  lemma WriteIndirect(s: Super, f: Fs, free: set<nat>, t: nat, b: nat) returns (g: Fs)
    requires Sized(f) && f.addrs[NDIRECT] == 0 && FullBut(f.used, free) && t in free && b in free && 0 < t < b < 4 * BPB
    requires forall c :: c in free ==> c == t || b <= c
    ensures Sized(g) && g.size == f.size && WriteBlocks(s, f, NDIRECT, 1) == Some(g)
    ensures g.logged == f.logged + {s.bmapstart + t / BPB, t, s.bmapstart + b / BPB, b}
  {
    BallocIs(s, f, free, t);
    var u := Balloc(s, f).value.0;
    var i := u.(addrs := u.addrs[NDIRECT := t], indirect := seq(NINDIRECT, k => 0));
    BallocIs(s, i, free - {t}, b);
    g := Logged(Bmap(s, f, NDIRECT).value.0, b);
    assert WriteBlocks(s, g, NDIRECT + 1, 0) == Some(g);
  }

  /** A block that is there already. */
  lemma WriteOld(s: Super, f: Fs, bn: nat, cnt: nat)
    requires Sized(f) && bn < NDIRECT && 0 < cnt && bn + cnt <= MAXFILE && f.addrs[bn] != 0
    ensures WriteBlocks(s, f, bn, cnt) == WriteBlocks(s, Logged(f, f.addrs[bn]), bn + 1, cnt - 1)
  {
  }

  lemma SpreadFacts()
    ensures Sized(Spread()) && NoHoles(Spread()) && FullBut(Spread().used, {1000, 4096, 8192, 12288})
    ensures Spread().addrs[9] == 109 && Spread().addrs[10] == 0 == Spread().addrs[11] == Spread().addrs[12]
    ensures Spread().size == 4609 && Spread().logged == {}
  {
  }

  lemma SpreadLaid()
    ensures Laid(Super(60, 32), Spread())
  {
  }

  lemma SpreadBlocks(s: Super)
    requires s == Super(60, 32)
    ensures Sized(Spread()) && WriteBlocks(s, Spread(), 9, 4).Some?
    ensures WriteBlocks(s, Spread(), 9, 4).value.logged == {109, 60, 1000, 61, 4096, 62, 8192, 63, 12288}
    ensures WriteBlocks(s, Spread(), 9, 4).value.size == 4609
  {
    hide WriteBlocks, Spread, FullBut;
    SpreadFacts();
    var f := Spread();
    WriteOld(s, f, 9, 4);
    var a := Logged(f, 109);
    var free := {1000, 4096, 8192, 12288};
    var b := WriteDirect(s, a, 10, 3, free, 1000);
    assert free - {1000} == {4096, 8192, 12288};
    var c := WriteDirect(s, b, 11, 2, {4096, 8192, 12288}, 4096);
    assert {4096, 8192, 12288} - {4096} == {8192, 12288};
    var g := WriteIndirect(s, c, {8192, 12288}, 8192, 12288);
    assert g.logged == {109, 60, 1000, 61, 4096, 62, 8192, 63, 12288};
  }

  /** The bound is tight: 1536 bytes written at offset 4609, in the middle of the last
      block of a file, cross into the indirect region and log exactly MAXOPBLOCKS blocks. */
  lemma BoundMet()
    ensures var s, f := Super(60, 32), Spread();
      && NoHoles(f) && f.logged == {} && !Rejected(f, 4609, CHUNK)
      && Written(s, f, 4609, CHUNK).Some? && Laid(s, f)
      && |Written(s, f, 4609, CHUNK).value.logged| == MAXOPBLOCKS
  {
    hide WriteBlocks, Spread, Laid;
    SpreadFacts();
    SpreadLaid();
    SpreadBlocks(Super(60, 32));
    assert 4609 / BSIZE == 9 && Touched(4609, CHUNK) == 4;
    TenBlocks(WriteBlocks(Super(60, 32), Spread(), 9, 4).value.logged);
  }

  lemma TenBlocks(q: set<nat>)
    requires q == {109, 60, 1000, 61, 4096, 62, 8192, 63, 12288}
    ensures |q + {32}| == 10
  {
    assert q + {32} == {109, 60, 1000, 61, 4096, 62, 8192, 63, 12288, 32};
  }

  // ---- the code ----

  class Inode {
    var addrs: seq<nat>
    var indirect: seq<nat>     // contents of block `addrs[NDIRECT]`, once there is one
    var size: nat
    var used: seq<bool>        // the free bitmap
    var logged: set<nat>       // what this operation has logged
    ghost var ops: seq<set<nat>>   // what each operation that has ended logged
    const sb: Super

    function View(): Fs
      reads this
    {
      Fs(addrs, indirect, size, used, logged)
    }

    constructor (sb: Super, f: Fs)
      ensures this.sb == sb && View() == f
    {
      this.sb := sb;
      addrs, indirect, size, used, logged := f.addrs, f.indirect, f.size, f.used, f.logged;
      ops := [];
    }

    method LogWrite(b: nat)
      modifies this`logged
      ensures View() == Logged(old(View()), b)
    {
      logged := logged + {b};
    }

    /** `balloc`; 0 where it panics */
    method AllocBlock() returns (r: nat)
      modifies this`used, this`logged
      ensures if Balloc(sb, old(View())).None? then r == 0 && View() == old(View())
              else r != 0 && Balloc(sb, old(View())).value == (View(), r)
    {
      var b := 0;
      while b < |used|
        invariant unchanged(this) && b % BPB == 0
        invariant forall i :: 0 <= i < b && i < |used| ==> used[i]
      {
        var bi := 0;
        while bi < BPB && b + bi < |used|
          invariant unchanged(this) && bi <= BPB
          invariant forall i :: 0 <= i < b + bi && i < |used| ==> used[i]
        {
          if !used[b + bi] {
            FirstFreeIs(used, b + bi);
            if b + bi == 0 {
              return 0;
            }
            InBitmapBlock(b, bi);
            used := used[b + bi := true];
            LogWrite(sb.bmapstart + b / BPB);
            LogWrite(b + bi);
            return b + bi;
          }
          bi := bi + 1;
        }
        b := b + BPB;
      }
      NoneFree(used);
      return 0;
    }

    /** `bmap`; 0 where it panics */
    method MapBlock(bn: nat) returns (r: nat)
      requires Sized(View()) && bn < MAXFILE
      modifies this`addrs, this`indirect, this`used, this`logged
      ensures Bmap(sb, old(View()), bn).None? ==> r == 0 && Balloc(sb, View()).None?
      ensures Bmap(sb, old(View()), bn).Some? ==> r != 0 && Bmap(sb, old(View()), bn).value == (View(), r)
    {
      ghost var f := View();
      if bn < NDIRECT {
        r := addrs[bn];
        if r == 0 {
          r := AllocBlock();
          if r == 0 {
            return;
          }
          addrs := addrs[bn := r];
        }
        return;
      }
      var i := bn - NDIRECT;
      if addrs[NDIRECT] == 0 {
        var t := AllocBlock();
        if t == 0 {
          return 0;
        }
        addrs := addrs[NDIRECT := t];
        indirect := seq(NINDIRECT, k => 0);
      }
      r := indirect[i];
      if r == 0 {
        r := AllocBlock();
        if r == 0 {
          return;
        }
        indirect := indirect[i := r];
        LogWrite(addrs[NDIRECT]);
      }
    }

    /** `writei`: -1 for a write that is rejected, -2 where the code panics. */
    method Writei(off: nat, n: nat) returns (r: int)
      requires Sized(View())
      modifies this`addrs, this`indirect, this`size, this`used, this`logged
      ensures Rejected(old(View()), off, n) ==> r == -1 && View() == old(View())
      ensures !Rejected(old(View()), off, n) && Written(sb, old(View()), off, n).None? ==>
        r == -2 && Balloc(sb, View()).None?
      ensures !Rejected(old(View()), off, n) && Written(sb, old(View()), off, n).Some? ==>
        r == n && View() == Written(sb, old(View()), off, n).value
    {
      hide Bmap;
      if off > size || off + n > MAXFILE * BSIZE {
        return -1;
      }
      ghost var f := View();
      TouchedFits(off, n);
      ghost var all := WriteBlocks(sb, f, off / BSIZE, Touched(off, n));
      var tot, o := 0, off;
      while tot < n
        invariant tot <= n && o == off + tot && Sized(View()) && size == old(size)
        invariant o / BSIZE + Touched(o, n - tot) <= MAXFILE
        invariant WriteBlocks(sb, View(), o / BSIZE, Touched(o, n - tot)) == all
      {
        ghost var g := View();
        NextTouched(o, n - tot);
        assert o / BSIZE < MAXFILE;
        var b := MapBlock(o / BSIZE);
        if b == 0 {
          return -2;
        }
        BmapCost(sb, g, o / BSIZE);
        LogWrite(b);
        var m := if n - tot < BSIZE - o % BSIZE then n - tot else BSIZE - o % BSIZE;
        tot, o := tot + m, o + m;
      }
      if n > 0 && o > size {
        size := o;
        LogWrite(sb.inodeblock);
      }
      return n;
    }

    /** `begin_op` */
    method BeginOp()
      modifies this`logged
      ensures View() == old(View()).(logged := {})
    {
      logged := {};
    }

    /** `end_op`: the operation has kept to what it reserved. */
    method EndOp()
      requires |logged| <= MAXOPBLOCKS
      modifies this`ops
      ensures ops == old(ops) + [logged]
    {
      ops := ops + [logged];
    }

    /** One operation of `filewrite`: `begin_op`, `writei` of a chunk, `end_op`. */
    method OneOp(off: nat, n1: nat) returns (w: int)
      requires NoHoles(View()) && n1 <= CHUNK
      modifies this`addrs, this`indirect, this`size, this`used, this`logged, this`ops
      ensures w == if Rejected(old(View()), off, n1) then -1
                   else if Written(sb, old(View()).(logged := {}), off, n1).None? then -2 else n1
      ensures w == -2 ==> ops == old(ops) && Balloc(sb, View()).None?
      ensures w == -1 ==> View() == old(View()).(logged := {})
      ensures w >= 0 ==> View() == Written(sb, old(View()).(logged := {}), off, n1).value
      ensures w != -2 ==> NoHoles(View()) && ops == old(ops) + [logged] && |logged| <= MAXOPBLOCKS
    {
      hide NoHoles, Bmap, Written, Balloc, WriteBlocks;
      LoggedHoles(View(), {});
      BeginOp();
      ghost var f := View();
      w := Writei(off, n1);
      if w == -2 {
        return;
      }
      if w >= 0 {
        ChunkFits(sb, f, off, n1);
      }
      EndOp();
    }

    /** `filewrite` of `n` bytes at file offset `off`: every operation it makes keeps to its
        reservation, and together they log every block of the stretch. -1 for a write that
        `writei` rejects, and -2 where the code panics, for lack of a free block. */
    method FileWrite(off: nat, n: nat) returns (r: int, newoff: nat)
      requires NoHoles(View())
      modifies this`addrs, this`indirect, this`size, this`used, this`logged, this`ops
      ensures old(ops) <= ops && forall k :: |old(ops)| <= k < |ops| ==> |ops[k]| <= MAXOPBLOCKS
      ensures r == n || r == -1 || r == -2
      ensures r == n ==> newoff == off + n && |ops| == |old(ops)| + Rounds(n)
      ensures r == n && n > 0 ==> !Rejected(old(View()), off, n)
      ensures r == -1 ==> n > 0 && Rejected(old(View()), off, n) && off <= newoff < off + n
      ensures r == -2 ==> n > 0 && Balloc(sb, View()).None?
      ensures r >= -1 ==> NoHoles(View()) && size == if newoff > off && newoff > old(size) then newoff else old(size)
      ensures r >= -1 ==> Stays(old(View()), View()) && Covered(View(), ops[|old(ops)|..], off, newoff - off)
    {
      hide NoHoles, Bmap, Covered, Address, Written, IsMapped, Rounds, Whole, Stays, LogsAll, Balloc, Sized;
      NoRounds();
      newoff := off;
      var i := 0;
      ghost var f0 := View();
      CoveredNone(f0, ops[|old(ops)|..], off);
      while i < n
        invariant i <= n && newoff == off + i && NoHoles(View())
        invariant (i < n ==> Whole(i)) && old(ops) <= ops && |ops| == |old(ops)| + Rounds(i)
        invariant forall k :: |old(ops)| <= k < |ops| ==> |ops[k]| <= MAXOPBLOCKS
        invariant i > 0 ==> off <= f0.size && off + i <= MAXFILE * BSIZE
        invariant size == if i > 0 && newoff > f0.size then newoff else f0.size
        invariant Stays(f0, View()) && Covered(View(), ops[|old(ops)|..], off, i)
      {
        var n1 := if n - i > CHUNK then CHUNK else n - i;
        RoundsNext(n, i, n1);
        LoggedHoles(View(), {});
        ghost var e := View();
        ghost var f := e.(logged := {});
        ghost var was := ops[|old(ops)|..];
        var w := OneOp(newoff, n1);
        if w == -2 {
          return -2, newoff;
        }
        assert ops[|old(ops)|..] == was + [logged];
        if w < 0 {
          LogsNothing(f, newoff);
          CoveredNext(e, f, View(), was, off, i, 0);
          StaysOn(f0, e, f, View());
          break;
        }
        WrittenSize(sb, f, newoff, n1);
        ChunkLogs(sb, f, newoff, n1);
        CoveredNext(e, f, View(), was, off, i, n1);
        StaysOn(f0, e, f, View());
        newoff := newoff + w;
        assert w == n1;
        i := i + w;
      }
      return if i == n then n else -1, newoff;
    }
  }

  /** No block that is mapped in `f` is elsewhere in `g`. */
  ghost predicate Stays(f: Fs, g: Fs) {
    Sized(f) && Sized(g) && forall k :: 0 <= k < MAXFILE && IsMapped(f, k) ==>
      IsMapped(g, k) && Address(g, k) == Address(f, k)
  }

  /** Every block that the `n` bytes from `off` on lie in is mapped, and logged in one of
      these operations. */
  ghost predicate Covered(f: Fs, ops: seq<set<nat>>, off: nat, n: nat) {
    Sized(f) && forall bn :: 0 <= bn < MAXFILE && Touches(off, n, bn) ==>
      IsMapped(f, bn) && exists k :: 0 <= k < |ops| && Address(f, bn) in ops[k]
  }

  ghost predicate LogsAll(f: Fs, off: nat, n: nat) {
    Sized(f) && forall bn :: 0 <= bn < MAXFILE && Touches(off, n, bn) ==> IsMapped(f, bn) && Address(f, bn) in f.logged
  }

  lemma LogsNothing(f: Fs, off: nat)
    requires NoHoles(f)
    ensures LogsAll(f, off, 0) && Stays(f, f)
  {
  }

  /** How many operations `filewrite` makes for `n` bytes. */
  function Rounds(n: nat): nat {
    (n + CHUNK - 1) / CHUNK
  }

  predicate Whole(i: nat) {
    i % CHUNK == 0
  }

  lemma NoRounds()
    ensures Rounds(0) == 0 && Whole(0)
  {
  }

  lemma RoundsAt(q: nat, i: nat, n1: nat)
    requires i == q * 1536 && 0 < n1 <= 1536
    ensures CHUNK == 1536 && Rounds(i) == q && Rounds(i + n1) == q + 1 && (n1 == 1536 ==> Whole(i + n1))
  {
    assert CHUNK == 1536;
    assert (i + n1) + 1535 == (q + 1) * 1536 + (n1 - 1);
  }

  lemma RoundsNext(n: nat, i: nat, n1: nat)
    requires i < n && Whole(i) && n1 == if n - i > CHUNK then CHUNK else n - i
    ensures Rounds(i + n1) == Rounds(i) + 1 && (i + n1 < n ==> Whole(i + n1))
  {
    RoundsAt(i / CHUNK, i, n1);
  }

  lemma CoveredNone(f: Fs, ops: seq<set<nat>>, off: nat)
    requires NoHoles(f)
    ensures Covered(f, ops, off, 0) && Stays(f, f)
  {
  }

  lemma StaysOn(f0: Fs, e: Fs, f: Fs, g: Fs)
    requires Stays(f0, e) && f == e.(logged := {}) && Stays(f, g)
    ensures Stays(f0, g)
  {
    hide Address;
    forall k | 0 <= k < MAXFILE && IsMapped(f0, k)
      ensures IsMapped(g, k) && Address(g, k) == Address(f0, k)
    {
      SameAddress(e, {}, k);
    }
  }

  lemma SameAddress(e: Fs, q: set<nat>, k: nat)
    requires Sized(e) && k < MAXFILE
    ensures Address(e.(logged := q), k) == Address(e, k) && (IsMapped(e.(logged := q), k) <==> IsMapped(e, k))
  {
  }

  /** A chunk logs every block it touches and moves none. */
  lemma ChunkLogs(s: Super, f: Fs, off: nat, n: nat)
    requires Sized(f) && !Rejected(f, off, n) && Written(s, f, off, n).Some?
    ensures Stays(f, Written(s, f, off, n).value) && LogsAll(Written(s, f, off, n).value, off, n)
  {
    hide Bmap, WriteBlocks;
    TouchedFits(off, n);
    WriteLogs(s, f, off / BSIZE, Touched(off, n));
    WriteCost(s, f, off / BSIZE, Touched(off, n));
    var g := WriteBlocks(s, f, off / BSIZE, Touched(off, n)).value;
    var r := Written(s, f, off, n).value;
    forall k | 0 <= k < MAXFILE
      ensures Address(r, k) == Address(g, k) && (IsMapped(r, k) <==> IsMapped(g, k))
    {
    }
  }

  lemma CoveredNext(e: Fs, f: Fs, g: Fs, was: seq<set<nat>>, off: nat, i: nat, n: nat)
    requires Covered(e, was, off, i) && f == e.(logged := {}) && Stays(f, g) && LogsAll(g, off + i, n)
    ensures Covered(g, was + [g.logged], off, i + n)
  {
    hide Address, IsMapped;
    var ops := was + [g.logged];
    forall bn | 0 <= bn < MAXFILE && Touches(off, i + n, bn)
      ensures IsMapped(g, bn) && exists k :: 0 <= k < |ops| && Address(g, bn) in ops[k]
    {
      SameAddress(e, {}, bn);
      if Touches(off, i, bn) {
        var k :| 0 <= k < |was| && Address(e, bn) in was[k];
        assert ops[k] == was[k];
      } else {
        assert Touches(off + i, n, bn);
        assert ops[|was|] == g.logged;
      }
    }
  }

  predicate Touches(off: nat, n: nat, bn: nat) {
    off < (bn + 1) * BSIZE && bn * BSIZE < off + n && n > 0
  }

  lemma WrittenSize(s: Super, f: Fs, off: nat, n: nat)
    requires NoHoles(f) && f.logged == {} && !Rejected(f, off, n) && n <= CHUNK && Written(s, f, off, n).Some?
    ensures Written(s, f, off, n).value.size == if n > 0 && off + n > f.size then off + n else f.size
  {
    ChunkFits(s, f, off, n);
  }

  lemma LoggedHoles(f: Fs, q: set<nat>)
    requires NoHoles(f)
    ensures NoHoles(f.(logged := q))
  {
    forall k | 0 <= k < MAXFILE && k * BSIZE < f.size
      ensures IsMapped(f.(logged := q), k)
    {
      assert IsMapped(f, k);
    }
  }

  lemma InBitmapBlock(b: nat, bi: nat)
    requires b % BPB == 0 && bi < BPB
    ensures (b + bi) / BPB == b / BPB
  {
  }

  lemma {:induction false} NoneFree(used: seq<bool>)
    requires forall i :: 0 <= i < |used| ==> used[i]
    ensures FirstFree(used) == |used|
  {
    if used == [] {
    } else {
      NoneFree(used[1..]);
    }
  }

  /** Writing up to the end of the block leaves one block less. */
  lemma NextTouched(o: nat, n: nat)
    requires n > 0
    ensures Touched(o, n) > 0
    ensures var m := if n < BSIZE - o % BSIZE then n else BSIZE - o % BSIZE;
      && Touched(o + m, n - m) == Touched(o, n) - 1
      && (Touched(o, n) > 1 ==> (o + m) / BSIZE == o / BSIZE + 1)
  {
  }
}

/** Files as flat byte sequences on top of the block tree, and what resolving a
    block and copying bytes into it do to them. */
module FileBytes {
  import opened Words
  import opened BlockTree
  import opened Teardown

  function DataSite(inum: nat, bn: nat): (s: Site)
    requires bn < MAXFILE
    ensures ValidPos(s.pos) && Height(s.pos) == 0
  {
    Site(inum, PosOf(bn))
  }

  /** Byte `x` of file `inum`, as found by walking the tree. */
  function ByteAt(t: Tree, inum: nat, x: nat): Byte
    requires inum < |t.inodes| && x < MAXFILE * BSIZE
  {
    var a := At(t, DataSite(inum, x / BSIZE));
    if a == 0 || a >= |t.blocks| then 0 else t.blocks[a][x % BSIZE]
  }

  /** The file as a flat byte sequence. */
  function Contents(t: Tree, inum: nat): (c: seq<Byte>)
    requires inum < |t.inodes| && t.inodes[inum].size <= MAXFILE * BSIZE
    ensures |c| == t.inodes[inum].size
  {
    seq(t.inodes[inum].size, x requires 0 <= x < t.inodes[inum].size => ByteAt(t, inum, x))
  }

  /** A stretch of the file that stays inside one block is a stretch of that block. */
  lemma ContentsInBlock(t: Tree, inum: nat, off: nat, m: nat)
    requires inum < |t.inodes| && off % BSIZE + m <= BSIZE
    requires off + m <= t.inodes[inum].size <= MAXFILE * BSIZE && off < MAXFILE * BSIZE
    requires 0 < At(t, DataSite(inum, off / BSIZE)) < |t.blocks|
    ensures t.blocks[At(t, DataSite(inum, off / BSIZE))][off % BSIZE..off % BSIZE + m]
         == Contents(t, inum)[off..off + m]
  {
    var b := t.blocks[At(t, DataSite(inum, off / BSIZE))];
    forall i | off <= i < off + m
      ensures b[i - off + off % BSIZE] == Contents(t, inum)[i]
    {
      assert i / BSIZE == off / BSIZE && i % BSIZE == i - off + off % BSIZE;
    }
  }

  lemma SlicesJoin<T>(f: seq<T>, lo: nat, mid: nat, hi: nat)
    requires lo <= mid <= hi <= |f|
    ensures f[lo..mid] + f[mid..hi] == f[lo..hi]
  {
  }

  /** Every block below the end of the file is mapped. */
  ghost predicate NoHoles(t: Tree, inum: nat, size: nat)
    requires inum < |t.inodes|
  {
    forall bn :: 0 <= bn < MAXFILE && bn * BSIZE < size ==> At(t, DataSite(inum, bn)) != 0
  }

  /** No file is larger than MAXFILE blocks and none has a hole. */
  ghost predicate Whole(t: Tree) {
    forall j :: 0 <= j < |t.inodes| ==> t.inodes[j].size <= MAXFILE * BSIZE && NoHoles(t, j, t.inodes[j].size)
  }

  /** Resolving a block changes no byte of any file: what was unmapped read as
      zero, and the block now mapped there is zeroed. */
  lemma GrownBytes(t: Tree, r: Tree, inum: nat, p: Pos, j: nat, x: nat)
    requires Separated(t) && Separated(r) && Grown(t, r, inum, p)
    requires j < |t.inodes| && x < MAXFILE * BSIZE
    ensures ByteAt(r, j, x) == ByteAt(t, j, x)
  {
    var s := DataSite(j, x / BSIZE);
    assert ValidSite(t, s) && ValidSite(r, s);
    var b := At(r, s);
    if At(t, s) != 0 {
      assert b == At(t, s) && b in t.owner;
    } else if b != 0 {
      assert b in r.owner && r.owner[b] == s;
      assert b !in t.owner;
    }
  }

  function Overwrite<T>(c: seq<T>, off: nat, src: seq<T>): (r: seq<T>)
    requires off + |src| <= |c|
    ensures |r| == |c|
  {
    c[..off] + src + c[off + |src|..]
  }

  /** The image after bytes are copied into the data block of file block `bn`. */
  function Stored(t: Tree, inum: nat, bn: nat, off: nat, src: seq<Byte>): (r: Tree)
    requires inum < |t.inodes| && bn < MAXFILE && At(t, DataSite(inum, bn)) < |t.blocks|
    requires off + |src| <= BSIZE
    ensures |r.blocks| == |t.blocks|
  {
    var a := At(t, DataSite(inum, bn));
    t.(blocks := t.blocks[a := Overwrite(t.blocks[a], off, src)])
  }

  lemma StoredPointers(t: Tree, inum: nat, bn: nat, off: nat, src: seq<Byte>)
    requires Separated(t) && inum < |t.inodes| && bn < MAXFILE && At(t, DataSite(inum, bn)) != 0
    requires At(t, DataSite(inum, bn)) < |t.blocks| && off + |src| <= BSIZE
    ensures var r := Stored(t, inum, bn, off, src);
      Separated(r) && forall x :: ValidSite(t, x) ==> At(r, x) == At(t, x)
  {
    var r := Stored(t, inum, bn, off, src);
    assert At(t, DataSite(inum, bn)) in t.owner;
    forall x | ValidSite(t, x)
      ensures At(r, x) == At(t, x)
    {
      SameTablesAt(t, r, x);
    }
  }

  /** Exactly the bytes written change, in this file and in no other. */
  lemma StoredBytes(t: Tree, inum: nat, bn: nat, off: nat, src: seq<Byte>, j: nat, x: nat)
    requires Separated(t) && inum < |t.inodes| && bn < MAXFILE && At(t, DataSite(inum, bn)) != 0
    requires At(t, DataSite(inum, bn)) < |t.blocks| && off + |src| <= BSIZE
    requires j < |t.inodes| && x < MAXFILE * BSIZE
    ensures ByteAt(Stored(t, inum, bn, off, src), j, x)
         == if j == inum && bn * BSIZE + off <= x < bn * BSIZE + off + |src| then src[x - bn * BSIZE - off]
            else ByteAt(t, j, x)
  {
    var s := DataSite(j, x / BSIZE);
    assert ValidSite(t, s) && ValidSite(t, DataSite(inum, bn));
    StoredPointers(t, inum, bn, off, src);
    var a := At(t, DataSite(inum, bn));
    assert a in t.owner && t.owner[a] == DataSite(inum, bn);
    if At(t, s) == a {
      assert s == DataSite(inum, bn);
      assert BlockNo(PosOf(x / BSIZE)) == x / BSIZE;
      assert x / BSIZE == bn;
    }
  }

  /** A write of `src` at `off` as it acts on a flat byte sequence. */
  function Spliced(c: seq<Byte>, off: nat, src: seq<Byte>): (r: seq<Byte>)
    requires off <= |c|
    ensures |r| == if off + |src| < |c| then |c| else off + |src|
    ensures forall i :: 0 <= i < |r| ==> r[i] == if off <= i < off + |src| then src[i - off] else c[i]
  {
    c[..off] + src + if off + |src| < |c| then c[off + |src|..] else []
  }

  /** `r` is `t` after the bytes `done` were written at `off` of file `inum`, with
      the inode sizes not yet adjusted. */
  ghost predicate Written(t: Tree, r: Tree, inum: nat, off: nat, done: seq<Byte>)
    requires inum < |t.inodes|
  {
    && |r.inodes| == |t.inodes| && r.inodes[inum].size == t.inodes[inum].size
    && (forall j :: 0 <= j < |t.inodes| && j != inum ==> r.inodes[j] == t.inodes[j])
    && (forall s :: ValidSite(t, s) && At(t, s) != 0 ==> At(r, s) == At(t, s))
    && NoHoles(r, inum, if off + |done| > t.inodes[inum].size then off + |done| else t.inodes[inum].size)
    && (forall j, x :: 0 <= j < |t.inodes| && 0 <= x < MAXFILE * BSIZE ==>
          ByteAt(r, j, x) == if j == inum && off <= x < off + |done| then done[x - off] else ByteAt(t, j, x))
  }

  /** One more chunk, which starts where `done` ends. */
  ghost predicate WrittenNext(u: Tree, v: Tree, inum: nat, pos: nat, src: seq<Byte>)
    requires inum < |u.inodes| && pos / BSIZE < MAXFILE
  {
    && |v.inodes| == |u.inodes| && v.inodes[inum].size == u.inodes[inum].size
    && (forall j :: 0 <= j < |u.inodes| && j != inum ==> v.inodes[j] == u.inodes[j])
    && At(v, DataSite(inum, pos / BSIZE)) != 0
    && (forall s :: ValidSite(u, s) && At(u, s) != 0 ==> At(v, s) == At(u, s))
    && (forall j, x :: 0 <= j < |u.inodes| && 0 <= x < MAXFILE * BSIZE ==>
          ByteAt(v, j, x) == if j == inum && pos <= x < pos + |src| then src[x - pos] else ByteAt(u, j, x))
  }

  lemma WriteStep(t: Tree, u: Tree, v: Tree, inum: nat, off: nat, src: seq<Byte>, k: nat, hi: nat, pos: nat)
    requires k < hi <= |src| && pos == off + k && off + hi <= MAXFILE * BSIZE
    requires inum < |t.inodes| && Written(t, u, inum, off, src[..k]) && off <= t.inodes[inum].size
    requires pos % BSIZE + hi - k <= BSIZE
    requires WrittenNext(u, v, inum, pos, src[k..hi])
    ensures Written(t, v, inum, off, src[..hi])
  {
    forall s | ValidSite(t, s) && At(t, s) != 0
      ensures At(v, s) == At(t, s)
    {
      assert ValidSite(u, s);
    }
    var size := t.inodes[inum].size;
    forall bn | 0 <= bn < MAXFILE && bn * BSIZE < if off + hi > size then off + hi else size
      ensures At(v, DataSite(inum, bn)) != 0
    {
      if bn * BSIZE < if pos > size then pos else size {
        assert ValidSite(u, DataSite(inum, bn)) && At(u, DataSite(inum, bn)) != 0;
      } else {
        assert bn == pos / BSIZE;
      }
    }
    forall j, x | 0 <= j < |t.inodes| && 0 <= x < MAXFILE * BSIZE
      ensures ByteAt(v, j, x)
           == if j == inum && off <= x < off + hi then src[x - off] else ByteAt(t, j, x)
    {
      assert ByteAt(u, j, x) == if j == inum && off <= x < off + k then src[..k][x - off] else ByteAt(t, j, x);
    }
  }

  function WithSize(t: Tree, inum: nat, size: nat): (r: Tree)
    requires inum < |t.inodes|
  {
    t.(inodes := t.inodes[inum := t.inodes[inum].(size := size)])
  }

  lemma WithSizeSame(t: Tree, inum: nat)
    requires inum < |t.inodes|
    ensures WithSize(t, inum, t.inodes[inum].size) == t
  {
  }

  lemma {:induction false} WithSizeAt(t: Tree, inum: nat, size: nat, s: Site)
    requires inum < |t.inodes| && ValidSite(t, s)
    ensures At(WithSize(t, inum, size), s) == At(t, s)
    decreases s.pos
  {
    match s.pos
    case Root(_) =>
    case Kid(q, _) => WithSizeAt(t, inum, size, Site(s.inum, q));
  }

  /** Setting the size of an inode moves no pointer and no byte. */
  lemma WithSizeKeeps(t: Tree, inum: nat, size: nat)
    requires inum < |t.inodes| && Separated(t)
    ensures var r := WithSize(t, inum, size);
      && Separated(r)
      && (forall s :: ValidSite(t, s) ==> At(r, s) == At(t, s))
      && (forall j, x :: 0 <= j < |t.inodes| && 0 <= x < MAXFILE * BSIZE ==> ByteAt(r, j, x) == ByteAt(t, j, x))
  {
    var r := WithSize(t, inum, size);
    forall s | ValidSite(t, s)
      ensures At(r, s) == At(t, s)
    {
      WithSizeAt(t, inum, size, s);
    }
    forall j, x | 0 <= j < |t.inodes| && 0 <= x < MAXFILE * BSIZE
      ensures ByteAt(r, j, x) == ByteAt(t, j, x)
    {
      assert ValidSite(t, DataSite(j, x / BSIZE));
    }
  }

  lemma WrittenNothing(t: Tree, inum: nat, off: nat, src: seq<Byte>)
    requires inum < |t.inodes| && NoHoles(t, inum, t.inodes[inum].size) && off <= t.inodes[inum].size
    ensures Written(t, t, inum, off, src[..0])
  {
  }

  lemma WrittenAll(t: Tree, r: Tree, inum: nat, off: nat, src: seq<Byte>)
    requires inum < |t.inodes| && Written(t, r, inum, off, src[..|src|])
    ensures Written(t, r, inum, off, src)
  {
    assert src[..|src|] == src;
  }

  /** A chunk that starts below the old end of file goes to a mapped block. */
  lemma WrittenMapped(t: Tree, u: Tree, inum: nat, off: nat, done: seq<Byte>)
    requires inum < |t.inodes| && Written(t, u, inum, off, done)
    requires off + |done| < MAXFILE * BSIZE
    ensures At(u, DataSite(inum, (off + |done|) / BSIZE)) == 0 ==> t.inodes[inum].size <= off + |done|
  {
  }

  function GrownSize(t: Tree, inum: nat, end: nat): nat
    requires inum < |t.inodes|
  {
    if end > t.inodes[inum].size then end else t.inodes[inum].size
  }

  lemma WriteDoneWhole(t: Tree, r: Tree, inum: nat, off: nat, src: seq<Byte>)
    requires inum < |t.inodes| && Written(t, r, inum, off, src) && Separated(r)
    requires off + |src| <= MAXFILE * BSIZE && Whole(t)
    ensures Whole(WithSize(r, inum, GrownSize(t, inum, off + |src|)))
  {
    var v := WithSize(r, inum, GrownSize(t, inum, off + |src|));
    WithSizeKeeps(r, inum, GrownSize(t, inum, off + |src|));
    forall j | 0 <= j < |v.inodes|
      ensures v.inodes[j].size <= MAXFILE * BSIZE && NoHoles(v, j, v.inodes[j].size)
    {
      forall bn | 0 <= bn < MAXFILE && bn * BSIZE < v.inodes[j].size
        ensures At(v, DataSite(j, bn)) != 0
      {
        assert ValidSite(r, DataSite(j, bn)) && ValidSite(t, DataSite(j, bn));
      }
    }
  }

  /** The end of `writei`: once the size is set, the file reads as the splice, no
      file has a hole, and the other files are as they were. */
  lemma WriteDone(t: Tree, r: Tree, inum: nat, off: nat, src: seq<Byte>)
    requires inum < |t.inodes| && Written(t, r, inum, off, src) && Separated(r)
    requires off <= t.inodes[inum].size && off + |src| <= MAXFILE * BSIZE
    requires Whole(t)
    ensures var v := WithSize(r, inum, GrownSize(t, inum, off + |src|));
      && Separated(v)
      && Whole(v)
      && |v.inodes| == |t.inodes|
      && Contents(v, inum) == Spliced(Contents(t, inum), off, src)
      && (forall j :: 0 <= j < |v.inodes| && j != inum ==>
            v.inodes[j] == t.inodes[j] && Contents(v, j) == Contents(t, j))
  {
    hide NoHoles, At, ByteAt;
    WithSizeKeeps(r, inum, GrownSize(t, inum, off + |src|));
    WriteDoneWhole(t, r, inum, off, src);
  }

  /** Removing one file leaves the others whole, byte for byte. */
  lemma TornDownBytes(t: Tree, r: Tree, inum: nat)
    requires Separated(t) && TornDown(t, r, inum) && Whole(t)
    ensures Whole(r)
    ensures forall j :: 0 <= j < |t.inodes| && j != inum ==> Contents(r, j) == Contents(t, j)
  {
    TornDownSeparated(t, r, inum);
    forall j | 0 <= j < |t.inodes| && j != inum
      ensures NoHoles(r, j, r.inodes[j].size)
      ensures Contents(r, j) == Contents(t, j)
    {
      forall bn | 0 <= bn < MAXFILE && bn * BSIZE < r.inodes[j].size
        ensures At(r, DataSite(j, bn)) != 0
      {
        assert ValidSite(t, DataSite(j, bn)) && At(t, DataSite(j, bn)) != 0;
      }
      forall x | 0 <= x < t.inodes[j].size
        ensures ByteAt(r, j, x) == ByteAt(t, j, x)
      {
        var s := DataSite(j, x / BSIZE);
        assert ValidSite(t, s);
        assert At(t, s) != 0 ==> At(t, s) in t.owner && At(t, s) in r.owner;
      }
    }
  }

  /** `r` maps no block of any file that `t` does not map, except `bn` of `inum`. */
  ghost predicate MappedOnly(t: Tree, r: Tree, inum: nat, bn: nat) {
    |r.inodes| == |t.inodes| &&
    forall j, n :: 0 <= j < |t.inodes| && 0 <= n < MAXFILE && At(r, DataSite(j, n)) != 0 ==>
      At(t, DataSite(j, n)) != 0 || (j == inum && n == bn)
  }

  lemma GrownMapsOnly(t: Tree, u: Tree, inum: nat, bn: nat)
    requires bn < MAXFILE && Grown(t, u, inum, PosOf(bn))
    ensures MappedOnly(t, u, inum, bn)
  {
    forall j, n | 0 <= j < |t.inodes| && 0 <= n < MAXFILE && At(u, DataSite(j, n)) != 0
      ensures At(t, DataSite(j, n)) != 0 || (j == inum && n == bn)
    {
      var s := DataSite(j, n);
      assert ValidSite(t, s);
      if At(t, s) != At(u, s) {
        assert Above(s.pos, PosOf(bn));
        if s.pos != PosOf(bn) {
          AboveHigher(s.pos, PosOf(bn));
        }
        assert BlockNo(s.pos) == n && BlockNo(PosOf(bn)) == bn;
      }
    }
  }

  lemma {:induction false} AboveHigher(p: Pos, q: Pos)
    requires Above(p, q) && ValidPos(q) && p != q
    ensures Height(p) > Height(q)
  {
    if p == q.up {
    } else {
      AboveHigher(p, q.up);
    }
  }

  /** Resolving a block and copying bytes into it writes those bytes and no others. */
  lemma GrownStored(t: Tree, u: Tree, inum: nat, bn: nat, pos: nat, src: seq<Byte>)
    requires Separated(t) && Separated(u) && bn < MAXFILE && Grown(t, u, inum, PosOf(bn))
    requires At(u, DataSite(inum, bn)) != 0 && bn == pos / BSIZE
    requires pos + |src| <= MAXFILE * BSIZE && pos % BSIZE + |src| <= BSIZE
    ensures At(u, DataSite(inum, bn)) in u.owner && At(u, DataSite(inum, bn)) < |u.blocks|
    ensures var r := Stored(u, inum, bn, pos % BSIZE, src);
      && Separated(r)
      && WrittenNext(t, r, inum, pos, src)
      && MappedOnly(t, r, inum, bn)
  {
    SiteOwned(u, DataSite(inum, bn));
    var r := Stored(u, inum, bn, pos % BSIZE, src);
    StoredPointers(u, inum, bn, pos % BSIZE, src);
    GrownMapsOnly(t, u, inum, bn);
    assert ValidSite(u, DataSite(inum, bn));
    forall s | ValidSite(t, s) && At(t, s) != 0
      ensures At(r, s) == At(t, s)
    {
      assert ValidSite(u, s);
    }
    forall j, x | 0 <= j < |t.inodes| && 0 <= x < MAXFILE * BSIZE
      ensures ByteAt(r, j, x) == if j == inum && pos <= x < pos + |src| then src[x - pos] else ByteAt(t, j, x)
    {
      GrownBytes(t, u, inum, PosOf(bn), j, x);
      StoredBytes(u, inum, bn, pos % BSIZE, src, j, x);
    }
    forall j, n | 0 <= j < |t.inodes| && 0 <= n < MAXFILE && At(r, DataSite(j, n)) != 0
      ensures At(t, DataSite(j, n)) != 0 || (j == inum && n == bn)
    {
      assert ValidSite(u, DataSite(j, n));
    }
  }
}

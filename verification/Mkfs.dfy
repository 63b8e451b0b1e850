/** project3/mkfs.c: the image builder, which lays out the same tree as the kernel
    with its own code: blocks come from a counter and are already zero. */
module Mkfs {
  import opened Words
  import opened BlockTree
  import opened FileBytes
  import opened Teardown
  import opened ImageSpace

  /** Why the builder stops: it reads a block beyond the image, an assertion on the
      file size or on the size of the bitmap fails. */
  datatype Stop = ImageFull | FileTooBig | BitmapFull

  datatype Built<T> = Stopped(why: Stop) | Ok(value: T)

  /** Each file has exactly the blocks its size needs, file `inum` exactly `n`. */
  ghost predicate ExactBut(t: Tree, inum: nat, n: nat) {
    forall j :: 0 <= j < |t.inodes| ==> Exact(t, j, if j == inum then n else DataBlocks(t.inodes[j].size))
  }

  ghost predicate AllExact(t: Tree) {
    forall j :: 0 <= j < |t.inodes| ==> Exact(t, j, DataBlocks(t.inodes[j].size))
  }

  /** Bytes of mapped blocks past the end of a file are zero. */
  ghost predicate ZeroPast(t: Tree) {
    forall j, x :: 0 <= j < |t.inodes| && t.inodes[j].size <= x < MAXFILE * BSIZE ==> ByteAt(t, j, x) == 0
  }

  ghost function Sizes(inodes: seq<Inode>): (r: seq<nat>)
    ensures |r| == |inodes|
  {
    seq(|inodes|, j requires 0 <= j < |inodes| => inodes[j].size)
  }

  class Builder {
    var blocks: seq<Block>
    var dinodes: seq<Inode>
    var freeblock: nat
    const nmeta: nat
    ghost var owner: map<nat, Site>

    /** The image with inode `inum` replaced by the local copy `din`. */
    ghost function With(inum: nat, din: Inode): Tree
      requires inum < |dinodes|
      reads this
    {
      Tree(blocks, dinodes[inum := din], owner, nmeta)
    }

    ghost function View(): Tree
      reads this
    {
      Tree(blocks, dinodes, owner, nmeta)
    }

    /** The allocated blocks are exactly those from `nmeta` up to the counter, and
        everything beyond is still zero. */
    ghost predicate Counted(t: Tree)
      reads this
    {
      && Separated(t)
      && nmeta <= freeblock <= |blocks| < 0x1_0000_0000
      && (forall b :: b in owner <==> nmeta <= b < freeblock)
      && (forall b :: freeblock <= b < |blocks| ==> blocks[b] == ZeroBlock())
    }

    ghost predicate Valid()
      reads this
    {
      && Counted(View()) && Whole(View()) && AllExact(View()) && ZeroPast(View())
      && freeblock == nmeta + TotalBlocks(Sizes(dinodes))
    }

    constructor (size: nat, ninodes: nat, nmeta: nat)
      requires 0 < nmeta <= size < 0x1_0000_0000
      ensures Valid()
      ensures |blocks| == size && |dinodes| == ninodes && freeblock == nmeta && this.nmeta == nmeta
      ensures forall j :: 0 <= j < ninodes ==> dinodes[j].size == 0
    {
      blocks := seq(size, i => ZeroBlock());
      dinodes := seq(ninodes, i => Inode(seq(NDIRECT + 2, j => 0), 0));
      freeblock := nmeta;
      this.nmeta := nmeta;
      owner := map[];
      new;
      forall s | ValidSite(View(), s)
        ensures At(View(), s) == 0
      {
        NullFile(View(), s.inum, s.pos);
      }
      NothingYet(Sizes(dinodes));
    }

    /** The next free block goes into slot `k` of the inode, if the slot is null. */
    method SlotBlock(inum: nat, din: Inode, k: nat) returns (r: Built<Inode>)
      requires inum < |dinodes| && Counted(With(inum, din)) && k < NDIRECT + 2
      modifies this`freeblock, this`owner
      ensures r.Stopped? ==> r.why == ImageFull
      ensures r.Ok? <==> old(freeblock + Null(With(inum, din), Site(inum, Root(k)))) <= |blocks|
      ensures r.Ok? ==>
        && freeblock == old(freeblock + Null(With(inum, din), Site(inum, Root(k))))
        && Counted(With(inum, r.value))
        && At(With(inum, r.value), Site(inum, Root(k))) != 0
        && Grown(old(With(inum, din)), With(inum, r.value), inum, Root(k))
    {
      hide Grown, Separated;
      ghost var t := With(inum, din);
      var d := din;
      if d.addrs[k] == 0 {
        if freeblock >= |blocks| {
          return Stopped(ImageFull);
        }
        AttachRoot(t, inum, k, freeblock);
        d := d.(addrs := d.addrs[k := freeblock]);
        owner := owner[freeblock := Site(inum, Root(k))];
        ZeroAgain(blocks, freeblock);
        SetTwice(dinodes, inum, din, d);
        assert With(inum, d) == AttachedRoot(t, inum, k, freeblock);
        freeblock := freeblock + 1;
      } else {
        GrownNothing(t, inum, Root(k));
      }
      return Ok(d);
    }

    /** Read table sector `a`; when entry `i` is null give it the next block and
        write the sector back. */
    method EntryBlock(inum: nat, din: Inode, a: Word, i: nat, ghost s: Site) returns (r: Built<Word>)
      requires inum < |dinodes| && Counted(With(inum, din)) && i < NINDIRECT
      requires s.inum == inum && ValidSite(With(inum, din), s) && Height(s.pos) > 0
      requires a != 0 && At(With(inum, din), s) == a
      modifies this`freeblock, this`owner, this`blocks
      ensures |blocks| == |old(blocks)| && (r.Stopped? ==> r.why == ImageFull)
      ensures r.Ok? <==> old(freeblock + Null(With(inum, din), Site(inum, Kid(s.pos, i)))) <= |blocks|
      ensures r.Ok? ==>
        && freeblock == old(freeblock + Null(With(inum, din), Site(inum, Kid(s.pos, i))))
        && Counted(With(inum, din))
        && r.value != 0 && At(With(inum, din), Site(inum, Kid(s.pos, i))) == r.value
        && Grown(old(With(inum, din)), With(inum, din), inum, Kid(s.pos, i))
    {
      hide Grown, Separated, At, Ptr, GetWord, SetWord;
      ghost var t := With(inum, din);
      SiteOwned(t, s);
      KidAt(t, s, i);
      var x := GetWord(blocks[a], i);
      if x == 0 {
        if freeblock >= |blocks| {
          return Stopped(ImageFull);
        }
        x := freeblock;
        AttachWord(t, s, i, x);
        ZeroAgain(blocks, x);
        blocks := blocks[a := SetWord(blocks[a], i, x)];
        owner := owner[x := Site(inum, Kid(s.pos, i))];
        assert With(inum, din) == AttachedWord(t, s, i, x);
        freeblock := freeblock + 1;
      } else {
        GrownNothing(t, inum, Kid(s.pos, i));
      }
      return Ok(x);
    }

    /** The three branches of `iappend` that find the sector of file block `fbn`. */
    method Resolve(inum: nat, din: Inode, fbn: nat) returns (r: Built<(Inode, Word)>)
      requires inum < |dinodes| && Counted(With(inum, din)) && fbn < MAXFILE
      modifies this`freeblock, this`owner, this`blocks
      ensures |blocks| == |old(blocks)| && (r.Stopped? ==> r.why == ImageFull)
      ensures r.Ok? <==> old(freeblock + Missing(With(inum, din), inum, PosOf(fbn))) <= |blocks|
      ensures r.Ok? ==>
        && freeblock == old(freeblock + Missing(With(inum, din), inum, PosOf(fbn)))
        && Counted(With(inum, r.value.0))
        && r.value.1 != 0 && At(With(inum, r.value.0), DataSite(inum, fbn)) == r.value.1
        && Grown(old(With(inum, din)), With(inum, r.value.0), inum, PosOf(fbn))
    {
      hide Grown, Separated, PosOf, Ptr, Null;
      ghost var t := With(inum, din);
      if fbn < NDIRECT {
        DirectPos(fbn);
        PathMissing(t, inum, PosOf(fbn));
        var d := SlotBlock(inum, din, fbn);
        if d.Stopped? {
          return Stopped(d.why);
        }
        RootAt(With(inum, d.value), inum, fbn);
        return Ok((d.value, d.value.addrs[fbn]));
      } else if fbn < NDIRECT + NINDIRECT * NINDIRECT {
        var n := fbn - NDIRECT;
        r := ResolveDouble(inum, din, n);
      } else {
        var n := fbn - (NDIRECT + NINDIRECT * NINDIRECT);
        r := ResolveTriple(inum, din, n);
      }
    }

    method ResolveDouble(inum: nat, din: Inode, n: nat) returns (r: Built<(Inode, Word)>)
      requires inum < |dinodes| && Counted(With(inum, din)) && n < NINDIRECT * NINDIRECT
      modifies this`freeblock, this`owner, this`blocks
      ensures |blocks| == |old(blocks)| && (r.Stopped? ==> r.why == ImageFull)
      ensures r.Ok? <==> old(freeblock + Missing(With(inum, din), inum, PosOf(NDIRECT + n))) <= |blocks|
      ensures r.Ok? ==>
        && freeblock == old(freeblock + Missing(With(inum, din), inum, PosOf(NDIRECT + n)))
        && Counted(With(inum, r.value.0))
        && r.value.1 != 0 && At(With(inum, r.value.0), DataSite(inum, NDIRECT + n)) == r.value.1
        && Grown(old(With(inum, din)), With(inum, r.value.0), inum, PosOf(NDIRECT + n))
    {
      hide Grown, Separated, PosOf, Ptr, Missing, Null;
      DoublePos(n);
      ghost var t := With(inum, din);
      ghost var p0 := Root(NDIRECT);
      ghost var q1 := Kid(p0, n / NINDIRECT);
      PathMissing(t, inum, p0);
      PathMissing(t, inum, q1);
      PathMissing(t, inum, Kid(q1, n % NINDIRECT));
      var d := SlotBlock(inum, din, NDIRECT);
      if d.Stopped? {
        return Stopped(d.why);
      }
      ghost var u := With(inum, d.value);
      RootAt(u, inum, NDIRECT);
      var idx := n % NINDIRECT;
      var didx := n / NINDIRECT;
      SameBelow(t, u, inum, p0, didx);
      var a := EntryBlock(inum, d.value, d.value.addrs[NDIRECT], didx, Site(inum, p0));
      if a.Stopped? {
        return Stopped(a.why);
      }
      ghost var v := With(inum, d.value);
      GrownThenGrown(t, u, v, inum, p0, Kid(p0, didx));
      SameBelow(t, v, inum, Kid(p0, didx), idx);
      var x := EntryBlock(inum, d.value, a.value, idx, Site(inum, Kid(p0, didx)));
      if x.Stopped? {
        return Stopped(x.why);
      }
      GrownThenGrown(t, v, With(inum, d.value), inum, Kid(p0, didx), Kid(Kid(p0, didx), idx));
      return Ok((d.value, x.value));
    }

    method ResolveTriple(inum: nat, din: Inode, n: nat) returns (r: Built<(Inode, Word)>)
      requires inum < |dinodes| && Counted(With(inum, din)) && n < NINDIRECT * NINDIRECT * NINDIRECT
      modifies this`freeblock, this`owner, this`blocks
      ensures |blocks| == |old(blocks)| && (r.Stopped? ==> r.why == ImageFull)
      ensures r.Ok? <==>
        old(freeblock + Missing(With(inum, din), inum, PosOf(NDIRECT + NINDIRECT * NINDIRECT + n))) <= |blocks|
      ensures r.Ok? ==>
        && freeblock == old(freeblock + Missing(With(inum, din), inum, PosOf(NDIRECT + NINDIRECT * NINDIRECT + n)))
        && Counted(With(inum, r.value.0))
        && r.value.1 != 0
        && At(With(inum, r.value.0), DataSite(inum, NDIRECT + NINDIRECT * NINDIRECT + n)) == r.value.1
        && Grown(old(With(inum, din)), With(inum, r.value.0), inum, PosOf(NDIRECT + NINDIRECT * NINDIRECT + n))
    {
      hide Grown, Separated, PosOf, Ptr, Missing, Null;
      TriplePos(n);
      ghost var t := With(inum, din);
      ghost var p0 := Root(NDIRECT + 1);
      ghost var q1 := Kid(p0, n / (NINDIRECT * NINDIRECT));
      ghost var q2 := Kid(q1, n % (NINDIRECT * NINDIRECT) / NINDIRECT);
      PathMissing(t, inum, p0);
      PathMissing(t, inum, q1);
      PathMissing(t, inum, q2);
      PathMissing(t, inum, Kid(q2, n % NINDIRECT));
      var d := SlotBlock(inum, din, NDIRECT + 1);
      if d.Stopped? {
        return Stopped(d.why);
      }
      ghost var u := With(inum, d.value);
      RootAt(u, inum, NDIRECT + 1);
      var idx := n % NINDIRECT;
      var didx := n % (NINDIRECT * NINDIRECT) / NINDIRECT;
      var tidx := n / (NINDIRECT * NINDIRECT);
      ghost var p1 := Kid(p0, tidx);
      ghost var p2 := Kid(p1, didx);
      SameBelow(t, u, inum, p0, tidx);
      var a := EntryBlock(inum, d.value, d.value.addrs[NDIRECT + 1], tidx, Site(inum, p0));
      if a.Stopped? {
        return Stopped(a.why);
      }
      ghost var v := With(inum, d.value);
      GrownThenGrown(t, u, v, inum, p0, p1);
      SameBelow(t, v, inum, p1, didx);
      var b := EntryBlock(inum, d.value, a.value, didx, Site(inum, p1));
      if b.Stopped? {
        return Stopped(b.why);
      }
      ghost var w := With(inum, d.value);
      GrownThenGrown(t, v, w, inum, p1, p2);
      SameBelow(t, w, inum, p2, idx);
      var x := EntryBlock(inum, d.value, b.value, idx, Site(inum, p2));
      if x.Stopped? {
        return Stopped(x.why);
      }
      GrownThenGrown(t, w, With(inum, d.value), inum, p2, Kid(p2, idx));
      return Ok((d.value, x.value));
    }

    /** One round of the loop of `iappend`. It stops exactly when the image has not the
        blocks the chunk takes. */
    method AppendChunk(inum: nat, din: Inode, src: seq<Byte>, pos: nat) returns (r: Built<Inode>)
      requires inum < |dinodes| && Counted(With(inum, din)) && ExactBut(With(inum, din), inum, DataBlocks(pos))
      requires pos + |src| <= MAXFILE * BSIZE && pos % BSIZE + |src| <= BSIZE && |src| > 0
      modifies this`freeblock, this`owner, this`blocks
      ensures |blocks| == |old(blocks)| && (r.Stopped? ==> r.why == ImageFull)
      ensures r.Ok? <==> old(freeblock) + FileBlocks(pos + |src|) - FileBlocks(pos) <= |blocks|
      ensures r.Ok? ==>
        && freeblock == old(freeblock) + FileBlocks(pos + |src|) - FileBlocks(pos)
        && Counted(With(inum, r.value)) && ExactBut(With(inum, r.value), inum, DataBlocks(pos + |src|))
        && WrittenNext(old(With(inum, din)), With(inum, r.value), inum, pos, src)
    {
      hide Grown, Separated, FileBlocks, Missing, ExactBut, WrittenNext, MappedOnly, At, ByteAt;
      ghost var t := With(inum, din);
      var fbn := pos / BSIZE;
      ExactOf(t, inum, DataBlocks(pos));
      ChunkTakes(t, inum, pos, |src|, fbn);
      var x := Resolve(inum, din, fbn);
      if x.Stopped? {
        return Stopped(x.why);
      }
      var (d, sector) := x.value;
      ghost var u := With(inum, d);
      GrownStored(t, u, inum, fbn, pos, src);
      blocks := blocks[sector := Overwrite(blocks[sector], pos - fbn * BSIZE, src)];
      assert With(inum, d) == Stored(u, inum, fbn, pos % BSIZE, src);
      ExactChunk(t, u, inum, DataBlocks(pos), fbn, fbn + 1, pos % BSIZE, src);
      return Ok(d);
    }

    lemma Room(t: Tree)
      requires Counted(t)
      ensures freeblock <= |blocks|
    {
    }

    /** Append `xp` to file `inum`: the flat contents grow by exactly these bytes, and
        no other file changes. It stops exactly when the file gets too big or the image
        has not the blocks the bytes take. */
    method Iappend(inum: nat, xp: seq<Byte>) returns (r: Built<()>)
      requires Valid() && inum < |dinodes|
      modifies this`freeblock, this`owner, this`blocks, this`dinodes
      ensures |dinodes| == |old(dinodes)| && |blocks| == |old(blocks)|
      ensures var size := old(dinodes[inum].size);
        && (r.Ok? <==> size + |xp| <= MAXFILE * BSIZE
                       && old(freeblock) + FileBlocks(size + |xp|) - FileBlocks(size) <= |blocks|)
        && (r.Stopped? && r.why == FileTooBig ==> size + |xp| > MAXFILE * BSIZE)
        && (r.Stopped? && r.why != FileTooBig ==>
              r.why == ImageFull && old(freeblock) + FileBlocks(size + |xp|) - FileBlocks(size) > |blocks|)
      ensures r.Ok? ==>
        && Valid() && Sizes(dinodes) == old(Sizes(dinodes)[inum := dinodes[inum].size + |xp|])
        && Contents(View(), inum) == old(Contents(View(), inum)) + xp
        && (forall j :: 0 <= j < |dinodes| && j != inum ==>
              dinodes[j] == old(dinodes[j]) && Contents(View(), j) == old(Contents(View(), j)))
    {
      hide Separated, At, Written, WrittenNext, NoHoles, ByteAt, ExactBut, AllExact, ZeroPast, FileBlocks, DataBlocks,
        TotalBlocks, Counted, Whole, Contents, Sizes;
      var din := dinodes[inum];
      ghost var t := View();
      Room(t);
      StartAppend(t, inum);
      ghost var size := din.size;
      var off := din.size;
      var done, n := 0, |xp|;
      WrittenNothing(t, inum, size, xp);
      SetSame(dinodes, inum);
      while n > 0
        invariant 0 <= done <= |xp| && n == |xp| - done && off == size + done
        invariant dinodes == old(dinodes) && |blocks| == |old(blocks)|
        invariant Counted(With(inum, din)) && off <= MAXFILE * BSIZE
        invariant Written(t, With(inum, din), inum, size, xp[..done])
        invariant ExactBut(With(inum, din), inum, DataBlocks(off))
        invariant freeblock == old(freeblock) + FileBlocks(off) - FileBlocks(size) && freeblock <= |blocks|
      {
        var fbn := off / BSIZE;
        if fbn >= MAXFILE {
          return Stopped(FileTooBig);
        }
        var n1 := if n < (fbn + 1) * BSIZE - off then n else (fbn + 1) * BSIZE - off;
        var hi := done + n1;
        ghost var u := With(inum, din);
        FileMonotone(off + n1, size + |xp|);
        var d := AppendChunk(inum, din, xp[done..hi], off);
        if d.Stopped? {
          return Stopped(d.why);
        }
        din := d.value;
        WriteStep(t, u, With(inum, din), inum, size, xp, done, hi, off);
        n := n - n1;
        off := off + n1;
        done := hi;
        Room(With(inum, din));
      }
      WrittenAll(t, With(inum, din), inum, size, xp);
      FinishAppend(inum, din, off, xp, t);
      return Ok(());
    }

    /** The end of `iappend`: the size is set and the inode written to the image. */
    method FinishAppend(inum: nat, din: Inode, off: nat, xp: seq<Byte>, ghost t: Tree)
      requires inum < |dinodes| && Counted(With(inum, din)) && t.inodes == dinodes && Whole(t) && ZeroPast(t)
      requires off == t.inodes[inum].size + |xp| && off <= MAXFILE * BSIZE
      requires Written(t, With(inum, din), inum, t.inodes[inum].size, xp)
      requires ExactBut(With(inum, din), inum, DataBlocks(off))
      requires freeblock == nmeta + TotalBlocks(Sizes(dinodes)) + FileBlocks(off) - FileBlocks(dinodes[inum].size)
      modifies this`dinodes
      ensures Valid() && |dinodes| == |t.inodes|
      ensures Sizes(dinodes) == Sizes(t.inodes)[inum := off]
      ensures Contents(View(), inum) == Contents(t, inum) + xp
      ensures forall j :: 0 <= j < |dinodes| && j != inum ==>
        dinodes[j] == t.inodes[j] && Contents(View(), j) == Contents(t, j)
    {
      hide Separated, At, NoHoles, ByteAt, Contents, Spliced, Whole, FileBlocks, TotalBlocks, ZeroPast, ExactBut,
        AllExact;
      ghost var r := With(inum, din);
      WriteDone(t, r, inum, t.inodes[inum].size, xp);
      SplicedAtEnd(t, inum, xp);
      ExactDone(r, inum, off);
      ZeroDone(t, r, inum, xp, off);
      TotalUpdate(Sizes(dinodes), inum, off);
      SetTwice(dinodes, inum, din, din.(size := off));
      SizesUpdate(dinodes, t.inodes, inum, din.(size := off));
      dinodes := dinodes[inum := din.(size := off)];
      assert View() == WithSize(r, inum, off);
    }

    /** `balloc(freeblock)`: the bitmap block with the first `n` bits set. The builder
        only ever writes one bitmap block. */
    method Balloc(n: nat) returns (r: Built<seq<bool>>)
      ensures r.Stopped? <==> n >= BSIZE * 8
      ensures r.Stopped? ==> r.why == BitmapFull
      ensures r.Ok? ==> |r.value| == |blocks| && forall b :: 0 <= b < |blocks| ==> (r.value[b] <==> b < n)
    {
      if n >= BSIZE * 8 {
        return Stopped(BitmapFull);
      }
      var bits := seq(|blocks|, b => false);
      var i := 0;
      while i < n && i < |bits|
        invariant 0 <= i <= n && |bits| == |blocks|
        invariant forall b :: 0 <= b < |bits| ==> (bits[b] <==> b < i)
      {
        bits := bits[i := true];
        i := i + 1;
      }
      return Ok(bits);
    }

    /** The last step on the root directory: round its size up past the last block
        in use. This opens a hole exactly when the directory already ended on a
        block boundary; otherwise the directory grows by zeros. */
    method FixRoot(root: nat)
      requires Valid() && root < |dinodes|
      modifies this`dinodes
      ensures var din := old(dinodes)[root];
        dinodes == old(dinodes)[root := din.(size := (din.size / BSIZE + 1) * BSIZE)]
      ensures Counted(View())
      ensures Whole(View()) <==> old(dinodes)[root].size % BSIZE != 0
      ensures old(dinodes)[root].size % BSIZE != 0 ==>
        && Contents(View(), root) == old(Contents(View(), root)) + Zeros(BSIZE - old(dinodes)[root].size % BSIZE)
        && forall j :: 0 <= j < |dinodes| && j != root ==> Contents(View(), j) == old(Contents(View(), j))
    {
      hide Separated, Whole, AllExact, ZeroPast, Contents, TotalBlocks, At;
      var off := (dinodes[root].size / BSIZE + 1) * BSIZE;
      RoundedUp(View(), root);
      if dinodes[root].size % BSIZE != 0 {
        RoundedContents(View(), root);
      }
      WithSizeKeeps(View(), root, off);
      dinodes := dinodes[root := dinodes[root].(size := off)];
    }
  }

  function Zeros(n: nat): (r: seq<Byte>)
    ensures |r| == n
  {
    seq(n, i => 0)
  }

  lemma ZeroAgain(blocks: seq<Block>, b: nat)
    requires b < |blocks| && blocks[b] == ZeroBlock()
    ensures blocks[b := ZeroBlock()] == blocks
  {
  }

  lemma SetTwice(inodes: seq<Inode>, inum: nat, d: Inode, e: Inode)
    requires inum < |inodes|
    ensures inodes[inum := d][inum := e] == inodes[inum := e]
  {
  }

  lemma SetSame(inodes: seq<Inode>, inum: nat)
    requires inum < |inodes|
    ensures inodes[inum := inodes[inum]] == inodes
  {
  }

  lemma {:induction false} NothingYet(sizes: seq<nat>)
    requires forall j :: 0 <= j < |sizes| ==> sizes[j] == 0
    ensures TotalBlocks(sizes) == 0
    decreases |sizes|
  {
    if sizes == [] {
    } else {
      NothingYet(sizes[..|sizes| - 1]);
    }
  }

  lemma StartAppend(t: Tree, inum: nat)
    requires inum < |t.inodes| && Whole(t) && AllExact(t)
    ensures NoHoles(t, inum, t.inodes[inum].size) && t.inodes[inum].size <= MAXFILE * BSIZE
    ensures ExactBut(t, inum, DataBlocks(t.inodes[inum].size))
  {
    hide Exact, NoHoles;
  }

  lemma SizesUpdate(inodes: seq<Inode>, was: seq<Inode>, inum: nat, din: Inode)
    requires inum < |inodes| && inodes == was
    ensures Sizes(inodes[inum := din]) == Sizes(was)[inum := din.size]
  {
  }

  lemma ExactOf(t: Tree, inum: nat, n: nat)
    requires inum < |t.inodes| && ExactBut(t, inum, n)
    ensures Exact(t, inum, n)
  {
  }

  /** Copying a chunk into block `bn` leaves the pointers as resolving `bn` made them. */
  lemma ExactChunk(t: Tree, u: Tree, inum: nat, n: nat, bn: nat, next: nat, off: nat, src: seq<Byte>)
    requires inum < |t.inodes| && bn < MAXFILE && ExactBut(t, inum, n) && bn <= n <= next == bn + 1
    requires Grown(t, u, inum, PosOf(bn)) && At(u, DataSite(inum, bn)) != 0
    requires Separated(u) && At(u, DataSite(inum, bn)) < |u.blocks| && off + |src| <= BSIZE
    ensures ExactBut(Stored(u, inum, bn, off, src), inum, next)
  {
    hide PosOf, At, Separated, First;
    StoredPointers(u, inum, bn, off, src);
    ExactNext(t, u, inum, n, bn, next);
    var r := Stored(u, inum, bn, off, src);
    forall j | 0 <= j < |r.inodes|
      ensures Exact(r, j, if j == inum then next else DataBlocks(r.inodes[j].size))
    {
      forall p | ValidPos(p)
        ensures At(r, Site(j, p)) != 0 <==> First(p) < if j == inum then next else DataBlocks(r.inodes[j].size)
      {
        assert ValidSite(u, Site(j, p)) && ValidSite(t, Site(j, p));
        assert Exact(t, j, if j == inum then n else DataBlocks(t.inodes[j].size));
      }
    }
  }

  lemma ExactDone(r: Tree, inum: nat, off: nat)
    requires inum < |r.inodes| && Separated(r) && ExactBut(r, inum, DataBlocks(off))
    ensures AllExact(WithSize(r, inum, off))
  {
    hide At, Separated, First;
    WithSizeKeeps(r, inum, off);
    var v := WithSize(r, inum, off);
    forall j | 0 <= j < |v.inodes|
      ensures Exact(v, j, DataBlocks(v.inodes[j].size))
    {
      assert Exact(r, j, if j == inum then DataBlocks(off) else DataBlocks(r.inodes[j].size));
      forall p | ValidPos(p)
        ensures At(v, Site(j, p)) != 0 <==> First(p) < DataBlocks(v.inodes[j].size)
      {
        assert ValidSite(r, Site(j, p));
      }
    }
  }

  lemma ZeroDone(t: Tree, r: Tree, inum: nat, xp: seq<Byte>, off: nat)
    requires inum < |t.inodes| && ZeroPast(t) && Separated(r)
    requires Written(t, r, inum, t.inodes[inum].size, xp) && off == t.inodes[inum].size + |xp|
    ensures ZeroPast(WithSize(r, inum, off))
  {
    hide At, Separated, ByteAt, NoHoles;
    WithSizeKeeps(r, inum, off);
    var v := WithSize(r, inum, off);
    forall j, x | 0 <= j < |v.inodes| && v.inodes[j].size <= x < MAXFILE * BSIZE
      ensures ByteAt(v, j, x) == 0
    {
      assert ByteAt(r, j, x) == ByteAt(t, j, x);
    }
  }

  lemma SplicedAtEnd(t: Tree, inum: nat, xp: seq<Byte>)
    requires inum < |t.inodes| && t.inodes[inum].size <= MAXFILE * BSIZE
    ensures Spliced(Contents(t, inum), t.inodes[inum].size, xp) == Contents(t, inum) + xp
  {
  }

  lemma NextNull(t: Tree, root: nat, size: nat)
    requires root < |t.inodes| && Exact(t, root, DataBlocks(size)) && size % BSIZE == 0 && size / BSIZE < MAXFILE
    ensures At(t, DataSite(root, size / BSIZE)) == 0
  {
    hide At, PosOf, First;
    FirstOfData(size / BSIZE);
  }

  lemma RoundedUp(t: Tree, root: nat)
    requires Separated(t) && Whole(t) && AllExact(t) && root < |t.inodes|
    ensures Whole(WithSize(t, root, (t.inodes[root].size / BSIZE + 1) * BSIZE)) <==> t.inodes[root].size % BSIZE != 0
  {
    hide At, PosOf, Separated, Exact;
    var size := t.inodes[root].size;
    var v := WithSize(t, root, (size / BSIZE + 1) * BSIZE);
    WithSizeKeeps(t, root, (size / BSIZE + 1) * BSIZE);
    assert NoHoles(t, root, size) && Exact(t, root, DataBlocks(size));
    if size % BSIZE == 0 {
      if size / BSIZE < MAXFILE {
        var last := DataSite(root, size / BSIZE);
        NextNull(t, root, size);
        assert ValidSite(t, last) && At(v, last) == At(t, last) == 0;
        assert !NoHoles(v, root, v.inodes[root].size);
      } else {
        assert v.inodes[root].size > MAXFILE * BSIZE;
      }
    } else {
      forall j | 0 <= j < |v.inodes|
        ensures v.inodes[j].size <= MAXFILE * BSIZE && NoHoles(v, j, v.inodes[j].size)
      {
        assert NoHoles(t, j, t.inodes[j].size);
        forall bn | 0 <= bn < MAXFILE && bn * BSIZE < v.inodes[j].size
          ensures At(v, DataSite(j, bn)) != 0
        {
          assert ValidSite(t, DataSite(j, bn));
        }
      }
    }
  }

  lemma RoundedContents(t: Tree, root: nat)
    requires Separated(t) && Whole(t) && ZeroPast(t) && root < |t.inodes| && t.inodes[root].size % BSIZE != 0
    ensures var size := t.inodes[root].size;
      var v := WithSize(t, root, (size / BSIZE + 1) * BSIZE);
      && (size / BSIZE + 1) * BSIZE <= MAXFILE * BSIZE
      && Contents(v, root) == Contents(t, root) + Zeros(BSIZE - size % BSIZE)
      && forall j :: 0 <= j < |t.inodes| && j != root ==> Contents(v, j) == Contents(t, j)
  {
    hide At, Separated, ByteAt, NoHoles;
    WithSizeKeeps(t, root, (t.inodes[root].size / BSIZE + 1) * BSIZE);
  }
}

/** The block layer of project3/fs.c: `balloc`, `bfree`, `bmap`, `itrunc`, `readi`
    and `writei` as they update the bitmap, the buffers and the inodes. */
module KernelFs {
  import opened Words
  import opened BlockTree
  import opened FileBytes
  import opened ImageSpace
  import opened Teardown
  import opened WriteSpace
  import Mkfs

  const BPB: nat := BSIZE * 8

  /** `panic` stops the kernel; the other outcomes are return values. */
  datatype Outcome<T> = Panic | Fail | Done(value: T)

  class FileSystem {
    var blocks: seq<Block>        // current contents of every block, as `bread` sees them
    var used: seq<bool>           // the free bitmap, one bit a block
    var inodes: seq<Inode>        // in-memory inodes
    var dinodes: seq<Inode>       // inodes as stored in the inode blocks
    const nmeta: nat              // boot, super, log, inode and bitmap blocks
    ghost var owner: map<nat, Site>

    ghost function View(): Tree
      reads this
    {
      Tree(blocks, inodes, owner, nmeta)
    }

    /** What holds between any two steps: the tree is separated and the bitmap
        marks exactly the metadata and the blocks some pointer refers to. */
    ghost predicate Consistent()
      reads this
    {
      && |used| == |blocks| < 0x1_0000_0000
      && |dinodes| == |inodes|
      && nmeta <= |blocks|
      && Separated(View())
      && (forall b :: 0 <= b < |used| ==> (used[b] <==> b < nmeta || b in owner))
    }

    /** What holds between operations. */
    ghost predicate Valid()
      reads this
    {
      && Consistent()
      && dinodes == inodes
      && Whole(View())
    }

    /** Boot from an image: the kernel sees the blocks and inodes the builder wrote,
        and the bitmap it wrote last. Every file then reads, through the kernel's
        `bmap`, as the bytes that were appended to it. */
    constructor Mount(m: Mkfs.Builder, bitmap: seq<bool>)
      requires m.Counted(m.View()) && Whole(m.View())
      requires |bitmap| == |m.blocks| && forall b :: 0 <= b < |bitmap| ==> (bitmap[b] <==> b < m.freeblock)
      ensures Valid() && View() == m.View()
    {
      blocks := m.blocks;
      used := bitmap;
      inodes := m.dinodes;
      dinodes := m.dinodes;
      nmeta := m.nmeta;
      owner := m.owner;
    }

    method Balloc() returns (r: Outcome<Word>)
      requires |used| == |blocks| < 0x1_0000_0000
      modifies this`used, this`blocks
      ensures r.Done? || r.Panic?
      ensures r.Panic? ==> used == old(used) && blocks == old(blocks) && forall b :: 0 <= b < |used| ==> used[b]
      ensures r.Done? ==>
        && r.value < |old(used)| && !old(used)[r.value] && (forall c :: 0 <= c < r.value ==> old(used)[c])
        && used == old(used)[r.value := true]
        && blocks == old(blocks)[r.value := ZeroBlock()]
    {
      var b := 0;
      while b < |used|
        invariant 0 <= b
        invariant forall c :: 0 <= c < b && c < |used| ==> used[c]
        invariant used == old(used) && blocks == old(blocks)
      {
        var bi := 0;
        while bi < BPB && b + bi < |used|
          invariant 0 <= bi <= BPB
          invariant forall c :: 0 <= c < b + bi && c < |used| ==> used[c]
          invariant used == old(used) && blocks == old(blocks)
        {
          if !used[b + bi] {
            used := used[b + bi := true];
            blocks := blocks[b + bi := ZeroBlock()];
            return Done(b + bi);
          }
          bi := bi + 1;
        }
        b := b + BPB;
      }
      return Panic;
    }

    method Bfree(b: Word) returns (r: Outcome<()>)
      requires b < |used|
      modifies this`used
      ensures r == if old(used)[b] then Done(()) else Panic
      ensures used == old(used)[b := false]
    {
      if !used[b] {
        return Panic;
      }
      used := used[b := false];
      return Done(());
    }

    /** The block of slot `k` of the inode, allocated if the slot is null. */
    method SlotBlock(inum: nat, k: nat) returns (r: Outcome<Word>)
      requires Consistent() && inum < |inodes| && k < NDIRECT + 2
      modifies this`used, this`blocks, this`inodes, this`owner
      ensures Consistent() && !r.Fail?
      ensures r.Panic? ==> old(At(View(), Site(inum, Root(k)))) == 0 && forall b :: 0 <= b < |used| ==> used[b]
      ensures r.Panic? <==> old(Clear(used)) < Null(old(View()), Site(inum, Root(k)))
      ensures r.Done? ==>
        && Clear(used) == old(Clear(used)) - Null(old(View()), Site(inum, Root(k)))
        && r.value != 0 && At(View(), Site(inum, Root(k))) == r.value
        && Grown(old(View()), View(), inum, Root(k))
      ensures old(At(View(), Site(inum, Root(k)))) != 0 ==> View() == old(View()) && used == old(used)
    {
      hide Grown, Separated;
      var addr := inodes[inum].addrs[k];
      if addr == 0 {
        ClearNone(used);
        var a := Balloc();
        if a.Panic? {
          return Panic;
        }
        addr := a.value;
        ClearTaken(old(used), addr);
        AttachRoot(old(View()), inum, k, addr);
        inodes := inodes[inum := inodes[inum].(addrs := inodes[inum].addrs[k := addr])];
        owner := owner[addr := Site(inum, Root(k))];
        assert View() == AttachedRoot(old(View()), inum, k, addr);
      } else {
        GrownNothing(View(), inum, Root(k));
      }
      return Done(addr);
    }

    /** The block of entry `i` of the table block `a`, found at site `s`, allocated if the
        entry is null. */
    method EntryBlock(a: Word, i: nat, ghost s: Site) returns (r: Outcome<Word>)
      requires Consistent() && ValidSite(View(), s) && Height(s.pos) > 0 && i < NINDIRECT
      requires a != 0 && At(View(), s) == a
      modifies this`used, this`blocks, this`owner
      ensures Consistent() && !r.Fail?
      ensures r.Panic? ==> old(At(View(), Site(s.inum, Kid(s.pos, i)))) == 0 && forall b :: 0 <= b < |used| ==> used[b]
      ensures r.Panic? <==> old(Clear(used)) < Null(old(View()), Site(s.inum, Kid(s.pos, i)))
      ensures r.Done? ==>
        && Clear(used) == old(Clear(used)) - Null(old(View()), Site(s.inum, Kid(s.pos, i)))
        && r.value != 0 && At(View(), Site(s.inum, Kid(s.pos, i))) == r.value
        && Grown(old(View()), View(), s.inum, Kid(s.pos, i))
      ensures old(At(View(), Site(s.inum, Kid(s.pos, i)))) != 0 ==> View() == old(View()) && used == old(used)
    {
      ghost var kid := Site(s.inum, Kid(s.pos, i));
      hide Grown, Separated, At, Ptr, GetWord, SetWord;
      SiteOwned(View(), s);
      KidAt(View(), s, i);
      var addr := GetWord(blocks[a], i);
      if addr == 0 {
        ClearNone(used);
        var f := Balloc();
        if f.Panic? {
          return Panic;
        }
        addr := f.value;
        ClearTaken(old(used), addr);
        AttachWord(old(View()), s, i, addr);
        blocks := blocks[a := SetWord(blocks[a], i, addr)];
        owner := owner[addr := kid];
        assert View() == AttachedWord(old(View()), s, i, addr);
      } else {
        GrownNothing(View(), s.inum, kid.pos);
      }
      return Done(addr);
    }

    /** The double-indirect branch of `bmap`, for the `n`th block it covers. */
    method DoubleBlock(inum: nat, n: nat) returns (r: Outcome<Word>)
      requires Consistent() && inum < |inodes| && n < NINDIRECT * NINDIRECT
      modifies this`used, this`blocks, this`inodes, this`owner
      ensures Consistent() && !r.Fail?
      ensures Resolves(old(View()), old(used), inum, NDIRECT + n, r)
    {
      hide Grown, Separated, PosOf, Ptr, Missing, Null, Clear;
      ghost var t := View();
      var idx := n % NINDIRECT;
      var didx := n / NINDIRECT;
      ghost var p0 := Root(NDIRECT);
      ghost var p1 := Kid(p0, didx);
      DoublePos(n);
      PathSet(View(), inum, Kid(p1, idx));
      PathSet(View(), inum, p1);
      PathMissing(t, inum, p0);
      PathMissing(t, inum, p1);
      PathMissing(t, inum, Kid(p1, idx));
      var a := SlotBlock(inum, NDIRECT);
      if a.Panic? {
        return Panic;
      }
      ghost var v1 := View();
      SameBelow(t, v1, inum, p0, didx);
      var d := EntryBlock(a.value, didx, Site(inum, p0));
      if d.Panic? {
        return Panic;
      }
      ghost var v2 := View();
      GrownThenGrown(old(View()), v1, v2, inum, p0, p1);
      SameBelow(t, v2, inum, p1, idx);
      r := EntryBlock(d.value, idx, Site(inum, p1));
      if r.Done? {
        GrownThenGrown(old(View()), v2, View(), inum, p1, Kid(p1, idx));
      }
    }

    /** The triple-indirect branch of `bmap`, for the `n`th block it covers. */
    method TripleBlock(inum: nat, n: nat) returns (r: Outcome<Word>)
      requires Consistent() && inum < |inodes| && n < NINDIRECT * NINDIRECT * NINDIRECT
      modifies this`used, this`blocks, this`inodes, this`owner
      ensures Consistent() && !r.Fail?
      ensures Resolves(old(View()), old(used), inum, NDIRECT + NINDIRECT * NINDIRECT + n, r)
    {
      hide Grown, Separated, PosOf, Ptr, Missing, Null, Clear;
      ghost var t0 := View();
      var idx := n % NINDIRECT;
      var didx := n % (NINDIRECT * NINDIRECT) / NINDIRECT;
      var tidx := n / (NINDIRECT * NINDIRECT);
      ghost var p0 := Root(NDIRECT + 1);
      ghost var p1 := Kid(p0, tidx);
      ghost var p2 := Kid(p1, didx);
      TriplePos(n);
      PathSet(View(), inum, Kid(p2, idx));
      PathSet(View(), inum, p2);
      PathSet(View(), inum, p1);
      PathMissing(t0, inum, p0);
      PathMissing(t0, inum, p1);
      PathMissing(t0, inum, p2);
      PathMissing(t0, inum, Kid(p2, idx));
      var a := SlotBlock(inum, NDIRECT + 1);
      if a.Panic? {
        return Panic;
      }
      ghost var v1 := View();
      SameBelow(t0, v1, inum, p0, tidx);
      var t := EntryBlock(a.value, tidx, Site(inum, p0));
      if t.Panic? {
        return Panic;
      }
      ghost var v2 := View();
      GrownThenGrown(old(View()), v1, v2, inum, p0, p1);
      SameBelow(t0, v2, inum, p1, didx);
      var d := EntryBlock(t.value, didx, Site(inum, p1));
      if d.Panic? {
        return Panic;
      }
      ghost var v3 := View();
      GrownThenGrown(old(View()), v2, v3, inum, p1, p2);
      SameBelow(t0, v3, inum, p2, idx);
      r := EntryBlock(d.value, idx, Site(inum, p2));
      if r.Done? {
        GrownThenGrown(old(View()), v3, View(), inum, p2, Kid(p2, idx));
      }
    }

    /** What `bmap` promises: the block it returns is the one now mapped at `bn`;
        existing mappings stay; a mapped block is found without any change; it takes one
        block for each null pointer on the path, and panics exactly when there are not
        that many. */
    ghost predicate Resolves(t: Tree, was: seq<bool>, inum: nat, bn: nat, r: Outcome<Word>)
      requires bn < MAXFILE && inum < |t.inodes| && inum < |inodes|
      reads this
    {
      && (r.Panic? ==> forall b :: 0 <= b < |used| ==> used[b])
      && (r.Panic? <==> Clear(was) < Missing(t, inum, PosOf(bn)))
      && (r.Done? ==>
            && Clear(used) == Clear(was) - Missing(t, inum, PosOf(bn))
            && r.value != 0 && At(View(), DataSite(inum, bn)) == r.value
            && Grown(t, View(), inum, PosOf(bn)))
      && (At(t, DataSite(inum, bn)) != 0 ==>
            View() == t && used == was && r == Done(At(t, DataSite(inum, bn))))
    }

    /** Resolve file block `bn`, allocating what is missing on the way. */
    method Bmap(inum: nat, bn: nat) returns (r: Outcome<Word>)
      requires Consistent() && inum < |inodes|
      modifies this`used, this`blocks, this`inodes, this`owner
      ensures Consistent() && !r.Fail?
      ensures bn >= MAXFILE ==> r.Panic? && View() == old(View()) && used == old(used)
      ensures bn < MAXFILE ==> Resolves(old(View()), old(used), inum, bn, r)
    {
      if bn < NDIRECT {
        DirectPos(bn);
        PathMissing(View(), inum, Root(bn));
        r := SlotBlock(inum, bn);
      } else if bn < NDIRECT + NINDIRECT * NINDIRECT {
        r := DoubleBlock(inum, bn - NDIRECT);
      } else if bn < NDIRECT + NINDIRECT * NINDIRECT * (NINDIRECT + 1) {
        r := TripleBlock(inum, bn - (NDIRECT + NINDIRECT * NINDIRECT));
      } else {
        r := Panic;
      }
    }

    /** Read up to `n` bytes at `off`: `data` is what arrives in the caller's buffer,
        and it is that part of the flat file. The loop goes through `bmap`, which
        could allocate; in a valid state it never does. */
    method Readi(inum: nat, off: Word, n: Word) returns (r: Outcome<nat>, data: seq<Byte>)
      requires Valid() && inum < |inodes|
      modifies this
      ensures Valid() && View() == old(View()) && used == old(used) && dinodes == old(dinodes)
      ensures !r.Panic?
      ensures r.Fail? <==> off > inodes[inum].size || off + n >= 0x1_0000_0000
      ensures r.Fail? ==> data == []
      ensures r.Done? ==>
        && r.value == (if off + n > inodes[inum].size then inodes[inum].size - off else n)
        && data == Contents(View(), inum)[off..off + r.value]
    {
      data := [];
      if off > inodes[inum].size || (off + n) % 0x1_0000_0000 < off {
        return Fail, [];
      }
      var cnt: nat := n;
      if off + cnt > inodes[inum].size {
        cnt := inodes[inum].size - off;
      }
      ghost var f := Contents(View(), inum);
      hide Valid, Consistent, At, Contents, Whole, ByteAt, Separated;
      var tot, pos: nat := 0, off;
      while tot < cnt
        invariant 0 <= tot <= cnt && pos == off + tot
        invariant Valid() && View() == old(View()) && used == old(used) && dinodes == old(dinodes)
        invariant data == f[off..pos]
      {
        var m := if cnt - tot < BSIZE - pos % BSIZE then cnt - tot else BSIZE - pos % BSIZE;
        var hi := pos + m;
        var chunk := ReadChunk(inum, pos, hi);
        SlicesJoin(f, off, pos, hi);
        data := data + chunk;
        tot := tot + m;
        pos := hi;
      }
      return Done(cnt), data;
    }

    /** One round of the loop of `readi`: bytes that lie in one block. */
    method ReadChunk(inum: nat, pos: nat, hi: nat) returns (data: seq<Byte>)
      requires Valid() && inum < |inodes|
      requires pos < hi <= inodes[inum].size && pos % BSIZE + hi - pos <= BSIZE
      modifies this
      ensures Valid() && View() == old(View()) && used == old(used) && dinodes == old(dinodes)
      ensures data == Contents(View(), inum)[pos..hi]
    {
      hide Separated, Whole, NoHoles, At, Contents, Grown, PosOf;
      MappedBelow(View(), inum, pos);
      var a := Bmap(inum, pos / BSIZE);
      assert a.Done?;
      ContentsInBlock(View(), inum, pos, hi - pos);
      data := blocks[a.value][pos % BSIZE..pos % BSIZE + (hi - pos)];
    }

    /** Write an inode through to its inode block. */
    method Iupdate(inum: nat)
      requires inum < |inodes| == |dinodes|
      modifies this`dinodes
      ensures dinodes == old(dinodes)[inum := inodes[inum]]
    {
      dinodes := dinodes[inum := inodes[inum]];
    }

    /** This many blocks are free beyond those that a write of `n` bytes at `off` has to
        allocate. */
    ghost predicate Surplus(inum: nat, off: nat, n: nat, surplus: int)
      reads this
    {
      && inum < |inodes| && off + n <= MAXFILE * BSIZE
      && Clear(used) - Lacking(View(), inum, off, n) == surplus
    }

    /** One round of the loop of `writei`: copy bytes that fit into one block. */
    method WriteChunk(inum: nat, src: seq<Byte>, pos: nat, ghost n: nat, ghost next: nat, ghost rest: nat,
                      ghost surplus: int)
      returns (r: Outcome<()>)
      requires Consistent() && inum < |inodes|
      requires |src| <= n && next == pos + |src| && rest == n - |src| && Surplus(inum, pos, n, surplus)
      requires |src| > 0 && |src| == ChunkOf(pos, n)
      modifies this`used, this`blocks, this`inodes, this`owner
      ensures Consistent() && !r.Fail?
      ensures r.Panic? ==> forall b :: 0 <= b < |used| ==> used[b]
      ensures r.Panic? ==> surplus < 0
      ensures r.Done? ==> |inodes| == |old(inodes)| && Surplus(inum, next, rest, surplus)
      ensures r.Done? && old(At(View(), DataSite(inum, pos / BSIZE))) != 0 ==> inodes[inum] == old(inodes[inum])
      ensures r.Done? ==> WrittenNext(old(View()), View(), inum, pos, src)
    {
      hide Separated, Grown, At, PosOf, ByteAt, WrittenNext, Lacking, Missing, Clear;
      var bn := pos / BSIZE;
      LackingPath(View(), inum, pos, n);
      var a := Bmap(inum, bn);
      if a.Panic? {
        return Panic;
      }
      ghost var v := View();
      GrownStored(old(View()), v, inum, bn, pos, src);
      LackingStored(old(View()), v, inum, pos, n, src);
      blocks := blocks[a.value := Overwrite(blocks[a.value], pos % BSIZE, src)];
      assert View() == Stored(v, inum, bn, pos % BSIZE, src);
      return Done(());
    }

    /** Write `src` at `off`. On the flat bytes this is a splice; every other file
        keeps its inode and its bytes; and `iupdate` runs whenever `addrs` changed,
        so the inode on disk agrees again at the end. */
    method Writei(inum: nat, src: seq<Byte>, off: Word) returns (r: Outcome<nat>)
      requires Valid() && inum < |inodes| && |src| < 0x1_0000_0000
      modifies this
      ensures r.Fail? <==> off > old(inodes[inum]).size || off + |src| > MAXFILE * BSIZE
      ensures r.Fail? ==> View() == old(View()) && used == old(used) && dinodes == old(dinodes)
      ensures r.Panic? ==> forall b :: 0 <= b < |used| ==> used[b]
      ensures r.Panic? <==> off <= old(inodes[inum].size) && off + |src| <= MAXFILE * BSIZE
                            && old(Clear(used)) < Lacking(old(View()), inum, off, |src|)
      ensures r.Done? ==>
        && r.value == |src|
        && Clear(used) == old(Clear(used)) - Lacking(old(View()), inum, off, |src|)
        && Valid() && |inodes| == |old(inodes)|
        && Contents(View(), inum) == Spliced(old(Contents(View(), inum)), off, src)
        && (forall j :: 0 <= j < |inodes| && j != inum ==>
              inodes[j] == old(inodes[j]) && Contents(View(), j) == old(Contents(View(), j)))
    {
      var n := |src|;
      if off > inodes[inum].size || (off + n) % 0x1_0000_0000 < off {
        return Fail;
      }
      if off + n > MAXFILE * BSIZE {
        return Fail;
      }
      ghost var t := View();
      var done := WriteLoop(inum, src, off);
      if done.Panic? {
        return Panic;
      }
      FinishWrite(inum, src, off, off + n, t);
      return Done(n);
    }

    /** The loop of `writei`, block by block. */
    method WriteLoop(inum: nat, src: seq<Byte>, off: nat) returns (r: Outcome<()>)
      requires Valid() && inum < |inodes| && off <= inodes[inum].size && off + |src| <= MAXFILE * BSIZE
      modifies this`used, this`blocks, this`inodes, this`owner
      ensures !r.Fail?
      ensures r.Panic? ==> forall b :: 0 <= b < |used| ==> used[b]
      ensures r.Panic? <==> old(Clear(used)) < Lacking(old(View()), inum, off, |src|)
      ensures r.Done? ==>
        && Clear(used) == old(Clear(used)) - Lacking(old(View()), inum, off, |src|)
        && Consistent() && |inodes| == |old(inodes)|
        && Written(old(View()), View(), inum, off, src)
        && (inodes[inum] == old(inodes[inum]) || off + |src| > old(inodes[inum]).size)
    {
      hide Valid, Consistent, Whole, Separated, At, Written, WrittenNext, NoHoles, ByteAt, Lacking, Clear, ChunkOf,
        Surplus, PosOf;
      ghost var t := View();
      StartWrite(inum);
      var n := |src|;
      var tot, pos: nat := 0, off;
      WrittenNothing(t, inum, off, src);
      ghost var rest := n;
      ghost var surplus := SurplusAt(inum, off, n);
      while tot < n
        invariant 0 <= tot <= n && pos == off + tot
        invariant Consistent() && dinodes == old(dinodes) && |inodes| == |t.inodes|
        invariant Written(t, View(), inum, off, src[..tot])
        invariant inodes[inum] == t.inodes[inum] || pos > t.inodes[inum].size
        invariant rest == n - tot
        invariant Surplus(inum, pos, rest, surplus)
      {
        var m := if n - tot < BSIZE - pos % BSIZE then n - tot else BSIZE - pos % BSIZE;
        ghost var u := View();
        WrittenMapped(t, u, inum, off, src[..tot]);
        var hi := tot + m;
        ghost var after := rest - m;
        ChunkIs(pos, rest, m);
        var c := WriteChunk(inum, src[tot..hi], pos, rest, pos + m, after, surplus);
        if c.Panic? {
          return Panic;
        }
        WriteStep(t, u, View(), inum, off, src, tot, hi, pos);
        tot := hi;
        pos := pos + m;
        rest := after;
      }
      WrittenAll(t, View(), inum, off, src);
      NoneLeft(inum, pos, surplus);
      return Done(());
    }

    lemma StartWrite(inum: nat)
      requires Valid() && inum < |inodes|
      ensures Consistent() && dinodes == inodes && NoHoles(View(), inum, inodes[inum].size)
    {
      hide NoHoles;
    }

    lemma SurplusAt(inum: nat, off: nat, n: nat) returns (surplus: int)
      requires inum < |inodes| && off + n <= MAXFILE * BSIZE
      ensures Surplus(inum, off, n, surplus) && surplus == Clear(used) - Lacking(View(), inum, off, n)
    {
      surplus := Clear(used) - Lacking(View(), inum, off, n);
    }

    lemma NoneLeft(inum: nat, off: nat, surplus: int)
      requires Surplus(inum, off, 0, surplus)
      ensures surplus == Clear(used)
    {
      LackingNothing(View(), inum, off);
    }

    /** The tail of `writei`: grow the size and write the inode through. */
    method FinishWrite(inum: nat, src: seq<Byte>, off: Word, pos: nat, ghost t: Tree)
      requires Consistent() && inum < |inodes| == |t.inodes| && dinodes == t.inodes && Whole(t)
      requires Written(t, View(), inum, off, src) && pos == off + |src| <= MAXFILE * BSIZE
      requires off <= t.inodes[inum].size
      requires inodes[inum] == t.inodes[inum] || pos > t.inodes[inum].size
      modifies this`inodes, this`dinodes
      ensures Valid() && |inodes| == |t.inodes|
      ensures Contents(View(), inum) == Spliced(Contents(t, inum), off, src)
      ensures forall j :: 0 <= j < |inodes| && j != inum ==>
        inodes[j] == t.inodes[j] && Contents(View(), j) == Contents(t, j)
    {
      hide Separated, At, ByteAt, NoHoles, Contents, Spliced, Whole;
      ghost var r := View();
      WriteDone(t, r, inum, off, src);
      if |src| > 0 && pos > inodes[inum].size {
        inodes := inodes[inum := inodes[inum].(size := pos)];
        Iupdate(inum);
        assert View() == WithSize(r, inum, pos);
        assert dinodes == inodes;
      } else {
        WithSizeSame(r, inum);
        assert dinodes == inodes;
      }
    }

    /** The innermost loop of `itrunc`: free every block an indirect table refers to. */
    method FreeData(a: Word, ghost s: Site, ghost t: Tree)
      requires Separated(t) && ValidSite(t, s) && Height(s.pos) == 1 && At(t, s) == a != 0
      requires |used| == |blocks| == |t.blocks| && blocks[a] == t.blocks[a]
      requires forall b :: b in Entries(t, s, NINDIRECT) && b < |used| ==> used[b] && blocks[b] == t.blocks[b]
      modifies this`used, this`blocks
      ensures Freed(old(used), old(blocks), used, blocks, Entries(t, s, NINDIRECT),
        Entries(t, s, NINDIRECT) + {a as nat})
    {
      hide At, Ptr, Entries, Separated, GetWord, SetWord;
      SiteOwned(t, s);
      EntriesZero(t, s);
      var i := 0;
      while i < NINDIRECT
        invariant 0 <= i <= NINDIRECT
        invariant Freed(old(used), old(blocks), used, blocks, Entries(t, s, i), Entries(t, s, i) + {a as nat})
        invariant forall j: nat :: i <= j < NINDIRECT ==> GetWord(blocks[a], j) == GetWord(t.blocks[a], j)
      {
        EntriesNext(t, s, i);
        EntriesGrow(t, s, i + 1, NINDIRECT);
        ghost var kid := Site(s.inum, Kid(s.pos, i));
        var w := GetWord(blocks[a], i);
        KidAt(t, s, i);
        if w != 0 {
          SiteOwned(t, kid);
          var f := Bfree(w);
          assert f.Done?;
          blocks := blocks[a := SetWord(blocks[a], i, 0)];
        }
        i := i + 1;
      }
    }

    /** The loop over a double-indirect table: empty and free every table it refers to. */
    method FreeTables(a: Word, ghost s: Site, ghost t: Tree)
      requires Separated(t) && ValidSite(t, s) && Height(s.pos) == 2 && At(t, s) == a != 0
      requires |used| == |blocks| == |t.blocks| && blocks[a] == t.blocks[a]
      requires forall b :: b in Entries(t, s, NINDIRECT) && b < |used| ==> used[b] && blocks[b] == t.blocks[b]
      modifies this`used, this`blocks
      ensures Freed(old(used), old(blocks), used, blocks, Entries(t, s, NINDIRECT),
        Entries(t, s, NINDIRECT) + {a as nat})
    {
      hide At, Ptr, Entries, Separated, GetWord, SetWord;
      SiteOwned(t, s);
      EntriesZero(t, s);
      var i := 0;
      while i < NINDIRECT
        invariant 0 <= i <= NINDIRECT
        invariant Freed(old(used), old(blocks), used, blocks, Entries(t, s, i), Entries(t, s, i) + {a as nat})
        invariant forall j: nat :: i <= j < NINDIRECT ==> GetWord(blocks[a], j) == GetWord(t.blocks[a], j)
      {
        EntriesNext(t, s, i);
        EntriesGrow(t, s, i + 1, NINDIRECT);
        ghost var kid := Site(s.inum, Kid(s.pos, i));
        var w := GetWord(blocks[a], i);
        KidAt(t, s, i);
        if w != 0 {
          SiteOwned(t, kid);
          FreeData(w, kid, t);
          var f := Bfree(w);
          assert f.Done?;
          blocks := blocks[a := SetWord(blocks[a], i, 0)];
        }
        i := i + 1;
      }
    }

    /** The loop over the triple-indirect table. */
    method FreeDoubleTables(a: Word, ghost s: Site, ghost t: Tree)
      requires Separated(t) && ValidSite(t, s) && Height(s.pos) == 3 && At(t, s) == a != 0
      requires |used| == |blocks| == |t.blocks| && blocks[a] == t.blocks[a]
      requires forall b :: b in Entries(t, s, NINDIRECT) && b < |used| ==> used[b] && blocks[b] == t.blocks[b]
      modifies this`used, this`blocks
      ensures Freed(old(used), old(blocks), used, blocks, Entries(t, s, NINDIRECT),
        Entries(t, s, NINDIRECT) + {a as nat})
    {
      hide At, Ptr, Entries, Separated, GetWord, SetWord;
      SiteOwned(t, s);
      EntriesZero(t, s);
      var i := 0;
      while i < NINDIRECT
        invariant 0 <= i <= NINDIRECT
        invariant Freed(old(used), old(blocks), used, blocks, Entries(t, s, i), Entries(t, s, i) + {a as nat})
        invariant forall j: nat :: i <= j < NINDIRECT ==> GetWord(blocks[a], j) == GetWord(t.blocks[a], j)
      {
        EntriesNext(t, s, i);
        EntriesGrow(t, s, i + 1, NINDIRECT);
        ghost var kid := Site(s.inum, Kid(s.pos, i));
        var w := GetWord(blocks[a], i);
        KidAt(t, s, i);
        if w != 0 {
          SiteOwned(t, kid);
          FreeTables(w, kid, t);
          var f := Bfree(w);
          assert f.Done?;
          blocks := blocks[a := SetWord(blocks[a], i, 0)];
        }
        i := i + 1;
      }
    }

    /** `itrunc` has dealt with the first `k` slots of file `inum`. */
    ghost predicate Truncating(t: Tree, was: seq<bool>, inum: nat, k: nat)
      requires k <= NDIRECT + 2
      reads this
    {
      && Freed(was, t.blocks, used, blocks, Slots(t, inum, k), Slots(t, inum, k))
      && Cleared(t, inodes, inum, k)
    }

    method FreeDirect(inum: nat, ghost t: Tree)
      requires Consistent() && inum < |inodes| && t == View()
      modifies this`used, this`inodes
      ensures Truncating(t, old(used), inum, NDIRECT)
    {
      SlotsAll(t, inum);
      var i := 0;
      while i < NDIRECT
        invariant 0 <= i <= NDIRECT
        invariant Truncating(t, old(used), inum, i)
      {
        SlotsNext(t, inum, i);
        var w := inodes[inum].addrs[i];
        if w != 0 {
          var f := Bfree(w);
          assert f.Done?;
          inodes := inodes[inum := inodes[inum].(addrs := inodes[inum].addrs[i := 0])];
        }
        i := i + 1;
      }
    }

    method FreeDoubleIndirect(inum: nat, ghost t: Tree, ghost was: seq<bool>)
      requires Separated(t) && inum < |t.inodes| && Truncating(t, was, inum, NDIRECT)
      requires forall b :: b in t.owner && b < |was| ==> was[b]
      modifies this`used, this`blocks, this`inodes
      ensures Truncating(t, was, inum, NDIRECT + 1)
    {
      SlotsNext(t, inum, NDIRECT);
      var w := inodes[inum].addrs[NDIRECT];
      if w != 0 {
        FreeTables(w, Site(inum, Root(NDIRECT)), t);
        var f := Bfree(w);
        assert f.Done?;
        inodes := inodes[inum := inodes[inum].(addrs := inodes[inum].addrs[NDIRECT := 0])];
      }
    }

    method FreeTripleIndirect(inum: nat, ghost t: Tree, ghost was: seq<bool>)
      requires Separated(t) && inum < |t.inodes| && Truncating(t, was, inum, NDIRECT + 1)
      requires forall b :: b in t.owner && b < |was| ==> was[b]
      modifies this`used, this`blocks, this`inodes
      ensures Truncating(t, was, inum, NDIRECT + 2)
    {
      SlotsNext(t, inum, NDIRECT + 1);
      var w := inodes[inum].addrs[NDIRECT + 1];
      if w != 0 {
        FreeDoubleTables(w, Site(inum, Root(NDIRECT + 1)), t);
        var f := Bfree(w);
        assert f.Done?;
        inodes := inodes[inum := inodes[inum].(addrs := inodes[inum].addrs[NDIRECT + 1 := 0])];
      }
    }

    /** Free everything file `inum` holds. `bfree` never meets a free block; exactly
        the bits of the blocks reachable from the inode are cleared; every other file
        keeps its inode and its bytes. */
    method Itrunc(inum: nat)
      requires Valid() && inum < |inodes|
      modifies this
      ensures Valid()
      ensures |used| == |old(used)|
      ensures forall b :: 0 <= b < |used| ==> used[b] == (old(used)[b] && b !in old(Reachable(View(), inum)))
      ensures inodes == old(inodes)[inum := Inode(seq(NDIRECT + 2, i => 0), 0)]
      ensures forall b :: 0 <= b < |blocks| && b !in old(Reachable(View(), inum)) ==> blocks[b] == old(blocks)[b]
      ensures forall j :: 0 <= j < |inodes| && j != inum ==> Contents(View(), j) == old(Contents(View(), j))
    {
      ghost var t := View();
      ghost var was := used;
      FreeDirect(inum, t);
      FreeDoubleIndirect(inum, t, was);
      FreeTripleIndirect(inum, t, was);
      SlotsAll(t, inum);
      AllCleared(t, inodes, inum);
      inodes := inodes[inum := inodes[inum].(size := 0)];
      owner := owner - Reachable(t, inum);
      Iupdate(inum);
      TornDownSeparated(t, View(), inum);
      TornDownBytes(t, View(), inum);
    }
  }

  /** Below the end of a file every block is mapped and on the disk. */
  lemma MappedBelow(t: Tree, inum: nat, pos: nat)
    requires Separated(t) && Whole(t) && inum < |t.inodes| && pos < t.inodes[inum].size
    ensures t.inodes[inum].size <= MAXFILE * BSIZE
    ensures 0 < At(t, DataSite(inum, pos / BSIZE)) < |t.blocks|
  {
    hide At, PosOf;
    assert NoHoles(t, inum, t.inodes[inum].size);
    SiteOwned(t, DataSite(inum, pos / BSIZE));
  }
}

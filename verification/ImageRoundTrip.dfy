/** The image builder and the kernel, end to end: what any sequence of `iappend`
    calls put into the files is what `readi` returns after the image is mounted. */
module ImageRoundTrip {
  import opened Words
  import opened BlockTree
  import opened FileBytes
  import opened ImageSpace
  import Mkfs
  import KernelFs

  const ROOTINO: nat := 1

  datatype Append = Append(inum: nat, bytes: seq<Byte>)

  /** The bytes a list of appends gives to file `inum`, in order. */
  function Appended(script: seq<Append>, inum: nat): seq<Byte> {
    if script == [] then []
    else
      var last := script[|script| - 1];
      Appended(script[..|script| - 1], inum) + if last.inum == inum then last.bytes else []
  }

  /** The sizes the files end up with. */
  function FinalSizes(script: seq<Append>, ninodes: nat): (r: seq<nat>)
    ensures |r| == ninodes
  {
    seq(ninodes, j requires 0 <= j < ninodes => |Appended(script, j)|)
  }

  /** No file exceeds MAXFILE blocks. */
  ghost predicate NoneTooBig(script: seq<Append>, ninodes: nat) {
    forall j :: 0 <= j < ninodes ==> |Appended(script, j)| <= MAXFILE * BSIZE
  }

  /** Blocks of the image in use at the end. */
  function InUse(script: seq<Append>, ninodes: nat, nmeta: nat): nat {
    nmeta + TotalBlocks(FinalSizes(script, ninodes))
  }

  /** How the script ends: the builder stops, it leaves an image with a hole, or the
      kernel reads back a file. */
  datatype Ending = Stopped(why: Mkfs.Stop) | Holed | Read(data: seq<Byte>)

  lemma AppendedNext(script: seq<Append>, k: nat, inum: nat)
    requires k < |script|
    ensures Appended(script[..k + 1], inum)
         == Appended(script[..k], inum) + if script[k].inum == inum then script[k].bytes else []
  {
    assert script[..k + 1][..k] == script[..k];
  }

  /** Files only grow. */
  lemma {:induction false} AppendedPrefix(script: seq<Append>, k: nat, inum: nat)
    requires k <= |script|
    ensures |Appended(script[..k], inum)| <= |Appended(script, inum)|
    decreases |script| - k
  {
    if k == |script| {
      assert script[..k] == script;
    } else {
      AppendedNext(script, k, inum);
      AppendedPrefix(script, k + 1, inum);
    }
  }

  lemma PrefixFits(script: seq<Append>, k: nat, ninodes: nat)
    requires k <= |script|
    ensures TotalBlocks(FinalSizes(script[..k], ninodes)) <= TotalBlocks(FinalSizes(script, ninodes))
  {
    forall j | 0 <= j < ninodes
      ensures FinalSizes(script[..k], ninodes)[j] <= FinalSizes(script, ninodes)[j]
    {
      AppendedPrefix(script, k, j);
    }
    TotalMonotone(FinalSizes(script[..k], ninodes), FinalSizes(script, ninodes));
  }

  /** One append changes the size of its file. */
  lemma SizesNext(script: seq<Append>, k: nat, ninodes: nat)
    requires k < |script| && script[k].inum < ninodes
    ensures var a := script[k]; var was := FinalSizes(script[..k], ninodes);
      && FinalSizes(script[..k + 1], ninodes) == was[a.inum := was[a.inum] + |a.bytes|]
      && TotalBlocks(FinalSizes(script[..k + 1], ninodes))
           == TotalBlocks(was) - FileBlocks(was[a.inum]) + FileBlocks(was[a.inum] + |a.bytes|)
  {
    var a, was := script[k], FinalSizes(script[..k], ninodes);
    var now := FinalSizes(script[..k + 1], ninodes);
    forall j | 0 <= j < ninodes
      ensures now[j] == was[a.inum := was[a.inum] + |a.bytes|][j]
    {
      AppendedNext(script, k, j);
    }
    assert now == was[a.inum := was[a.inum] + |a.bytes|];
    TotalUpdate(was, a.inum, was[a.inum] + |a.bytes|);
  }

  /** Why an append stops tells what the whole script asks too much of. */
  lemma StopsScript(script: seq<Append>, k: nat, ninodes: nat, nmeta: nat, size: nat, why: Mkfs.Stop)
    requires k < |script| && script[k].inum < ninodes
    requires var was := FinalSizes(script[..k], ninodes)[script[k].inum];
      var now := was + |script[k].bytes|;
      if why == Mkfs.FileTooBig then now > MAXFILE * BSIZE
      else why == Mkfs.ImageFull
           && InUse(script[..k], ninodes, nmeta) + FileBlocks(now) - FileBlocks(was) > size
    ensures why == Mkfs.FileTooBig ==> !NoneTooBig(script, ninodes)
    ensures why == Mkfs.ImageFull ==> InUse(script, ninodes, nmeta) > size
  {
    hide FileBlocks, TotalBlocks;
    SizesNext(script, k, ninodes);
    PrefixFits(script, k + 1, ninodes);
    AppendedNext(script, k, script[k].inum);
    AppendedPrefix(script, k + 1, script[k].inum);
  }

  /** Append the script to an empty image, one call of `iappend` after the other. */
  method Build(size: nat, ninodes: nat, nmeta: nat, script: seq<Append>)
    returns (r: Mkfs.Built<()>, m: Mkfs.Builder)
    requires 0 < nmeta <= size < 0x1_0000_0000
    requires forall k :: 0 <= k < |script| ==> script[k].inum < ninodes
    ensures fresh(m)
    ensures r.Ok? ==> m.Valid() && |m.blocks| == size && NoneTooBig(script, ninodes)
    ensures r.Ok? ==> Mkfs.Sizes(m.dinodes) == FinalSizes(script, ninodes) && m.nmeta == nmeta
    ensures r.Ok? ==> forall j :: 0 <= j < ninodes ==> Contents(m.View(), j) == Appended(script, j)
    ensures r.Stopped? ==> r.why == Mkfs.FileTooBig || r.why == Mkfs.ImageFull
    ensures r == Mkfs.Stopped(Mkfs.FileTooBig) ==> !NoneTooBig(script, ninodes)
    ensures r == Mkfs.Stopped(Mkfs.ImageFull) ==> InUse(script, ninodes, nmeta) > size
  {
    hide FileBlocks, TotalBlocks, Contents;
    m := new Mkfs.Builder(size, ninodes, nmeta);
    var k := 0;
    assert script[..0] == [];
    assert Mkfs.Sizes(m.dinodes) == FinalSizes([], ninodes);
    while k < |script|
      invariant 0 <= k <= |script|
      invariant fresh(m) && m.Valid() && |m.blocks| == size && m.nmeta == nmeta
      invariant Mkfs.Sizes(m.dinodes) == FinalSizes(script[..k], ninodes)
      invariant forall j :: 0 <= j < ninodes ==> Contents(m.View(), j) == Appended(script[..k], j)
    {
      var inum := script[k].inum;
      assert m.dinodes[inum].size == Mkfs.Sizes(m.dinodes)[inum];
      SizesNext(script, k, ninodes);
      var a := m.Iappend(inum, script[k].bytes);
      if a.Stopped? {
        StopsScript(script, k, ninodes, nmeta, size, a.why);
        return Mkfs.Stopped(a.why), m;
      }
      forall j | 0 <= j < ninodes
        ensures Contents(m.View(), j) == Appended(script[..k + 1], j)
      {
        AppendedNext(script, k, j);
      }
      k := k + 1;
    }
    assert script[..k] == script;
    SizesFit(m, script, ninodes);
    r := Mkfs.Ok(());
  }

  lemma SizesFit(m: Mkfs.Builder, script: seq<Append>, ninodes: nat)
    requires m.Valid() && Mkfs.Sizes(m.dinodes) == FinalSizes(script, ninodes)
    ensures NoneTooBig(script, ninodes)
  {
    forall j | 0 <= j < ninodes
      ensures |Appended(script, j)| <= MAXFILE * BSIZE
    {
      assert Mkfs.Sizes(m.dinodes)[j] == FinalSizes(script, ninodes)[j];
    }
  }

  /** Build an image with any appends to any files, fix the root directory, write the
      bitmap, boot the image, and read all of one file. The builder stops exactly when
      some file or the image as a whole gets too big, the fix leaves a hole exactly when
      the root directory ends on a block boundary, and otherwise the file reads as what
      was appended to it, the root directory followed by zeros. */
  method BuildBootRead(size: nat, ninodes: nat, nmeta: nat, script: seq<Append>, inum: nat) returns (r: Ending)
    requires 0 < nmeta <= size < 0x1_0000_0000 && inum < ninodes && ROOTINO < ninodes
    requires forall k :: 0 <= k < |script| ==> script[k].inum < ninodes
    ensures r.Stopped? <==>
      !NoneTooBig(script, ninodes) || InUse(script, ninodes, nmeta) > size || InUse(script, ninodes, nmeta) >= BSIZE * 8
    ensures r == Stopped(Mkfs.FileTooBig) ==> !NoneTooBig(script, ninodes)
    ensures r == Stopped(Mkfs.ImageFull) ==> InUse(script, ninodes, nmeta) > size
    ensures r == Stopped(Mkfs.BitmapFull) ==> InUse(script, ninodes, nmeta) >= BSIZE * 8
    ensures !r.Stopped? ==> (r.Holed? <==> |Appended(script, ROOTINO)| % BSIZE == 0)
    ensures r.Read? ==>
      r.data == Appended(script, inum)
                + if inum == ROOTINO then Mkfs.Zeros(BSIZE - |Appended(script, ROOTINO)| % BSIZE) else []
  {
    hide TotalBlocks, Contents;
    var built, m := Build(size, ninodes, nmeta, script);
    if built.Stopped? {
      return Stopped(built.why);
    }
    assert m.dinodes[ROOTINO].size == Mkfs.Sizes(m.dinodes)[ROOTINO];
    var rootSize := m.dinodes[ROOTINO].size;
    m.FixRoot(ROOTINO);
    var bitmap := m.Balloc(m.freeblock);
    if bitmap.Stopped? {
      return Stopped(bitmap.why);
    }
    if rootSize % BSIZE == 0 {
      return Holed;
    }
    var fs := new KernelFs.FileSystem.Mount(m, bitmap.value);
    var n, data := fs.Readi(inum, 0, fs.inodes[inum].size);
    assert n.Done?;
    return Read(data);
  }
}

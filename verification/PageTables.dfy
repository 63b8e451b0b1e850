/** project3/vm.c and kalloc.c: physical memory, and who owns each frame of it. A frame
    is 1024 words; a word is held as its page frame number and its low twelve bits, which
    is how page tables read it. */
module PageTables {
  import opened Options

  const NENTRIES: nat := 1024
  /** Directory entries below this one are for user memory: KERNBASE is 512 << 22. */
  const NUSER: nat := 512

  const PTE_P: nat := 1
  const PTE_W: nat := 2
  const PTE_U: nat := 4

  datatype Entry = Entry(frame: nat, flags: nat)

  type Frame = s: seq<Entry> | |s| == NENTRIES witness seq(NENTRIES, i => Entry(0, 0))

  predicate Present(e: Entry) {
    e.flags % 2 == 1
  }

  function ZeroFrame(): (f: Frame)
    ensures forall i :: 0 <= i < NENTRIES ==> f[i] == Entry(0, 0)
  {
    seq(NENTRIES, i => Entry(0, 0))
  }

  /** What a frame is for. `Other` frames are allocated, but not to an address space. */
  datatype Owner = Free | Dir | TableOf(dir: nat, i: nat) | PageOf(dir: nat, i: nat, j: nat) | Other

  datatype Phys = Phys(mem: seq<Frame>, own: seq<Owner>)

  predicate IsDir(p: Phys, d: nat) {
    d < |p.own| == |p.mem| && p.own[d] == Dir
  }

  predicate HasTable(p: Phys, d: nat, i: nat) {
    d < |p.mem| && i < NENTRIES && Present(p.mem[d][i])
  }

  function Table(p: Phys, d: nat, i: nat): nat
    requires HasTable(p, d, i)
  {
    p.mem[d][i].frame
  }

  /** Page `j` of table `i` is mapped. */
  predicate HasPage(p: Phys, d: nat, i: nat, j: nat) {
    j < NENTRIES && HasTable(p, d, i) && Table(p, d, i) < |p.mem| && Present(p.mem[Table(p, d, i)][j])
  }

  function Page(p: Phys, d: nat, i: nat, j: nat): Entry
    requires HasPage(p, d, i, j)
  {
    p.mem[Table(p, d, i)][j]
  }

  /** The processor lets user code read, or write, a page that both its directory entry and
      its table entry give to the user, or also make writable. */
  predicate UserReads(p: Phys, d: nat, i: nat, j: nat) {
    HasPage(p, d, i, j) && Has(p.mem[d][i].flags, PTE_U) && Has(Page(p, d, i, j).flags, PTE_U)
  }

  predicate UserWrites(p: Phys, d: nat, i: nat, j: nat) {
    UserReads(p, d, i, j) && Has(p.mem[d][i].flags, PTE_W) && Has(Page(p, d, i, j).flags, PTE_W)
  }

  /** The bit `bit`, a power of two, is set. */
  predicate Has(flags: nat, bit: nat)
    requires bit != 0
  {
    flags / bit % 2 == 1
  }

  /** An address space, as a map from pages to frames and flags. */
  function Mapped(p: Phys, d: nat, i: nat, j: nat): Option<Entry> {
    if HasPage(p, d, i, j) then Some(Page(p, d, i, j)) else None
  }

  /** Every page table and every mapped user page of every address space is owned by that
      place in that address space, and nothing else is so owned: no frame is used twice,
      and none is lost. Kernel pages are shared and not owned. Directory entries leave all
      access to the tables to decide. */
  ghost predicate Tree(p: Phys) {
    && |p.own| == |p.mem|
    && (forall d: nat, i: nat :: IsDir(p, d) && HasTable(p, d, i) ==>
          p.mem[d][i].flags == PTE_P + PTE_W + PTE_U)
    && (forall d: nat, i: nat :: IsDir(p, d) && HasTable(p, d, i) ==>
      Table(p, d, i) < |p.own| && p.own[Table(p, d, i)] == TableOf(d, i))
    && (forall d: nat, i: nat, j: nat :: IsDir(p, d) && HasPage(p, d, i, j) && i < NUSER ==>
          Page(p, d, i, j).frame < |p.own| && p.own[Page(p, d, i, j).frame] == PageOf(d, i, j))
    && (forall f :: 0 <= f < |p.own| && p.own[f].TableOf? ==>
          IsDir(p, p.own[f].dir) && HasTable(p, p.own[f].dir, p.own[f].i) && Table(p, p.own[f].dir, p.own[f].i) == f)
    && (forall f :: 0 <= f < |p.own| && p.own[f].PageOf? ==>
          IsDir(p, p.own[f].dir) && HasPage(p, p.own[f].dir, p.own[f].i, p.own[f].j)
          && p.own[f].i < NUSER && Page(p, p.own[f].dir, p.own[f].i, p.own[f].j).frame == f)
  }

  /** What user code may do with a page rests with the entry of its table alone. */
  lemma UserAccess(p: Phys, d: nat, i: nat, j: nat)
    requires Tree(p) && IsDir(p, d) && HasPage(p, d, i, j)
    ensures UserReads(p, d, i, j) <==> Has(Page(p, d, i, j).flags, PTE_U)
    ensures UserWrites(p, d, i, j) <==> Has(Page(p, d, i, j).flags, PTE_U) && Has(Page(p, d, i, j).flags, PTE_W)
  {
    assert p.mem[d][i].flags == PTE_P + PTE_W + PTE_U;
  }

  /** The address spaces of `p` are still there, with the same mappings. */
  ghost predicate SameMaps(p: Phys, r: Phys) {
    && (forall d: nat :: IsDir(p, d) ==> IsDir(r, d))
    && (forall d: nat, i: nat, j: nat :: IsDir(p, d) ==> Mapped(r, d, i, j) == Mapped(p, d, i, j))
  }

  function Write(p: Phys, x: nat, c: Frame): Phys
    requires x < |p.mem|
  {
    p.(mem := p.mem[x := c])
  }

  function Give(p: Phys, x: nat, o: Owner): Phys
    requires x < |p.own|
  {
    p.(own := p.own[x := o])
  }

  /** In `r` the directory `d` has the tables it has in `p`, with the same contents. */
  ghost predicate SameTables(p: Phys, r: Phys, d: nat) {
    && (forall i :: HasTable(r, d, i) <==> HasTable(p, d, i))
    && (forall i :: HasTable(p, d, i) ==> SameTable(p, r, d, i))
  }

  predicate SameTable(p: Phys, r: Phys, d: nat, i: nat)
    requires HasTable(p, d, i) && HasTable(r, d, i)
  {
    r.mem[d][i] == p.mem[d][i] && Table(p, d, i) < |p.mem| == |r.mem|
      && r.mem[Table(p, d, i)] == p.mem[Table(p, d, i)]
  }

  lemma SamePages(p: Phys, r: Phys, d: nat)
    requires SameTables(p, r, d)
    ensures forall i: nat, j: nat ::
      (HasPage(r, d, i, j) <==> HasPage(p, d, i, j)) && (HasPage(p, d, i, j) ==> Page(r, d, i, j) == Page(p, d, i, j))
    ensures forall i: nat, j: nat :: Mapped(r, d, i, j) == Mapped(p, d, i, j)
  {
    forall i: nat, j: nat
      ensures (HasPage(r, d, i, j) <==> HasPage(p, d, i, j))
        && (HasPage(p, d, i, j) ==> Page(r, d, i, j) == Page(p, d, i, j))
    {
      assert HasTable(r, d, i) <==> HasTable(p, d, i);
    }
  }

  /** Frames outside the tables change, or change hands. */
  lemma Unaffected(p: Phys, r: Phys)
    requires Tree(p) && |r.own| == |r.mem| == |p.own|
    requires forall d :: IsDir(r, d) <==> IsDir(p, d)
    requires forall d :: IsDir(p, d) ==> SameTables(p, r, d)
    requires forall f :: 0 <= f < |p.own| && r.own[f] != p.own[f] ==>
      p.own[f] in {Free, Other} && r.own[f] in {Free, Other}
    ensures Tree(r) && SameMaps(p, r)
  {
    forall d | IsDir(p, d)
      ensures forall i: nat, j: nat ::
        (HasPage(r, d, i, j) <==> HasPage(p, d, i, j)) && (HasPage(p, d, i, j) ==> Page(r, d, i, j) == Page(p, d, i, j))
      ensures forall i: nat, j: nat :: Mapped(r, d, i, j) == Mapped(p, d, i, j)
    {
      SamePages(p, r, d);
    }
    forall d: nat, i: nat | IsDir(r, d) && HasTable(r, d, i)
      ensures Table(r, d, i) < |r.own| && r.own[Table(r, d, i)] == TableOf(d, i)
    {
      assert HasTable(p, d, i);
    }
    forall d: nat, i: nat, j: nat | IsDir(r, d) && HasPage(r, d, i, j) && i < NUSER
      ensures Page(r, d, i, j).frame < |r.own| && r.own[Page(r, d, i, j).frame] == PageOf(d, i, j)
    {
      assert HasPage(p, d, i, j);
    }
  }

  /** Writing a frame that is neither a directory nor a table. */
  lemma WriteKeeps(p: Phys, x: nat, c: Frame)
    requires Tree(p) && x < |p.mem| && !p.own[x].Dir? && !p.own[x].TableOf?
    ensures Tree(Write(p, x, c)) && SameMaps(p, Write(p, x, c))
  {
    var r := Write(p, x, c);
    forall d | IsDir(p, d)
      ensures SameTables(p, r, d)
    {
      assert forall i :: HasTable(p, d, i) ==> Table(p, d, i) != x;
    }
    Unaffected(p, r);
  }

  /** Frames outside the address spaces change hands. */
  lemma GiveKeeps(p: Phys, x: nat, o: Owner)
    requires Tree(p) && x < |p.own| && p.own[x] in {Free, Other} && o in {Free, Other}
    ensures Tree(Give(p, x, o)) && SameMaps(p, Give(p, x, o))
  {
    var r := Give(p, x, o);
    forall d | IsDir(p, d)
      ensures SameTables(p, r, d)
    {
      assert forall i :: HasTable(p, d, i) ==> Table(p, d, i) < |p.mem|;
    }
    Unaffected(p, r);
  }

  /** A zeroed frame becomes an empty directory. */
  lemma AddDir(p: Phys, d: nat)
    requires Tree(p) && d < |p.own| && p.own[d] == Other && p.mem[d] == ZeroFrame()
    ensures var r := Give(p, d, Dir); Tree(r) && SameMaps(p, r) && IsDir(r, d) && forall i: nat, j: nat ::
      Mapped(r, d, i, j) == None
  {
    var r := Give(p, d, Dir);
    assert forall i :: !HasTable(r, d, i);
    assert forall c :: IsDir(r, c) <==> IsDir(p, c) || c == d;
    forall c | IsDir(p, c)
      ensures SameTables(p, r, c)
    {
      assert forall i :: HasTable(p, c, i) ==> Table(p, c, i) < |p.mem|;
    }
    SameElse(p, r, d);
  }

  /** `r` is `p` but for one directory `d` more, which has no tables. */
  lemma SameElse(p: Phys, r: Phys, d: nat)
    requires Tree(p) && d < |p.own| && p.own[d] == Other && r == Give(p, d, Dir) && forall i :: !HasTable(r, d, i)
    requires forall c :: IsDir(p, c) ==> SameTables(p, r, c)
    ensures Tree(r) && SameMaps(p, r)
  {
    forall c | IsDir(p, c)
      ensures IsDir(r, c)
      ensures forall i: nat, j: nat ::
        (HasPage(r, c, i, j) <==> HasPage(p, c, i, j)) && (HasPage(p, c, i, j) ==> Page(r, c, i, j) == Page(p, c, i, j))
      ensures forall i: nat, j: nat :: Mapped(r, c, i, j) == Mapped(p, c, i, j)
    {
      SamePages(p, r, c);
    }
    forall c: nat, i: nat | IsDir(r, c) && HasTable(r, c, i)
      ensures Table(r, c, i) < |r.own| && r.own[Table(r, c, i)] == TableOf(c, i)
    {
      assert IsDir(p, c) && HasTable(p, c, i);
    }
    forall c: nat, i: nat, j: nat | IsDir(r, c) && HasPage(r, c, i, j) && i < NUSER
      ensures Page(r, c, i, j).frame < |r.own| && r.own[Page(r, c, i, j).frame] == PageOf(c, i, j)
    {
      assert HasTable(r, c, i) && IsDir(p, c) && HasPage(p, c, i, j);
    }
  }

  /** A zeroed frame becomes table `i` of the directory `d`. */
  function WithTable(p: Phys, d: nat, i: nat, t: nat, flags: nat): Phys
    requires d < |p.mem| && t < |p.own| && i < NENTRIES
  {
    Give(Write(p, d, p.mem[d][i := Entry(t, flags)]), t, TableOf(d, i))
  }

  lemma AddTable(p: Phys, d: nat, i: nat, t: nat, flags: nat)
    requires Tree(p) && IsDir(p, d) && i < NENTRIES && !HasTable(p, d, i) && flags == PTE_P + PTE_W + PTE_U
    requires t < |p.own| && p.own[t] == Other && p.mem[t] == ZeroFrame()
    ensures var r := WithTable(p, d, i, t, flags); Tree(r) && SameMaps(p, r) && HasTable(r, d, i) && Table(r, d, i) == t
  {
    var r := WithTable(p, d, i, t, flags);
    forall c: nat, k: nat | IsDir(p, c)
      ensures HasTable(r, c, k) <==> HasTable(p, c, k) || (c == d && k == i)
      ensures HasTable(p, c, k) ==>
        Table(r, c, k) == Table(p, c, k) && Table(p, c, k) < |p.mem| && r.mem[Table(p, c, k)] == p.mem[Table(p, c, k)]
    {
    }
    assert forall c :: IsDir(r, c) <==> IsDir(p, c);
    assert forall c: nat, k: nat, j: nat :: IsDir(p, c) ==> (HasPage(r, c, k, j) <==> HasPage(p, c, k, j));
  }

  /** Every directory has the same tables, at the same frames, with the same flags. */
  ghost predicate TablesStay(p: Phys, r: Phys) {
    forall c: nat, k: nat :: IsDir(p, c) ==>
      (HasTable(r, c, k) <==> HasTable(p, c, k)) && (HasTable(p, c, k) ==> r.mem[c][k] == p.mem[c][k])
  }

  /** Entry `j` of table `i` is set to `e`. */
  function WithEntry(p: Phys, d: nat, i: nat, j: nat, e: Entry): Phys
    requires HasTable(p, d, i) && Table(p, d, i) < |p.mem| && j < NENTRIES
  {
    var t := Table(p, d, i);
    Write(p, t, p.mem[t][j := e])
  }

  /** What setting an entry of a table changes in the tables: that entry. */
  lemma EntrySet(p: Phys, d: nat, i: nat, j: nat, e: Entry)
    requires Tree(p) && IsDir(p, d) && HasTable(p, d, i) && j < NENTRIES
    ensures Table(p, d, i) < |p.mem|
    ensures var r := WithEntry(p, d, i, j, e);
      && TablesStay(p, r)
      && (forall c: nat, k: nat, l: nat :: IsDir(p, c) && !(c == d && k == i && l == j) ==>
        Mapped(r, c, k, l) == Mapped(p, c, k, l))
      && Mapped(r, d, i, j) == (if Present(e) then Some(e) else None)
  {
    var t := Table(p, d, i);
    var r := WithEntry(p, d, i, j, e);
    forall c: nat, k: nat | IsDir(p, c)
      ensures HasTable(r, c, k) <==> HasTable(p, c, k)
      ensures HasTable(p, c, k) ==> r.mem[c][k] == p.mem[c][k] && (Table(p, c, k) == t ==> c == d && k == i)
    {
    }
  }

  /** A frame becomes user page `j` of table `i`. */
  function WithPage(p: Phys, d: nat, i: nat, j: nat, e: Entry): Phys
    requires HasTable(p, d, i) && Table(p, d, i) < |p.mem| && j < NENTRIES && e.frame < |p.own|
  {
    Give(WithEntry(p, d, i, j, e), e.frame, PageOf(d, i, j))
  }

  /** The mappings of `r` are those of `p`, but that page `j` of table `i` in `d` is `m`. */
  ghost predicate OneMapped(p: Phys, r: Phys, d: nat, i: nat, j: nat, m: Option<Entry>) {
    && (forall c :: IsDir(r, c) <==> IsDir(p, c))
    && (forall c: nat, k: nat, l: nat :: IsDir(p, c) && !(c == d && k == i && l == j) ==>
      Mapped(r, c, k, l) == Mapped(p, c, k, l))
    && Mapped(r, d, i, j) == m
  }

  lemma AddPage(p: Phys, d: nat, i: nat, j: nat, e: Entry)
    requires Tree(p) && IsDir(p, d) && HasTable(p, d, i) && i < NUSER && j < NENTRIES && !HasPage(p, d, i, j)
    requires Present(e) && e.frame < |p.own| && p.own[e.frame] == Other
    ensures Table(p, d, i) < |p.mem|
    ensures var r := WithPage(p, d, i, j, e); Tree(r) && OneMapped(p, r, d, i, j, Some(e)) && TablesStay(p, r)
  {
    EntrySet(p, d, i, j, e);
    var r := WithPage(p, d, i, j, e);
    PagesFromMaps(p, r, d, i, j, e.frame, Some(e));
  }

  /** A mapping is taken away; its frame is no longer the page's. */
  function WithoutPage(p: Phys, d: nat, i: nat, j: nat): Phys
    requires HasPage(p, d, i, j) && Page(p, d, i, j).frame < |p.own|
  {
    Give(WithEntry(p, d, i, j, Entry(0, 0)), Page(p, d, i, j).frame, Other)
  }

  lemma RemovePage(p: Phys, d: nat, i: nat, j: nat)
    requires Tree(p) && IsDir(p, d) && HasPage(p, d, i, j) && i < NUSER
    ensures Page(p, d, i, j).frame < |p.own|
    ensures var r := WithoutPage(p, d, i, j); Tree(r) && OneMapped(p, r, d, i, j, None) && TablesStay(p, r)
  {
    EntrySet(p, d, i, j, Entry(0, 0));
    var r := WithoutPage(p, d, i, j);
    PagesFromMaps(p, r, d, i, j, Page(p, d, i, j).frame, None);
  }

  /** From what is mapped to who owns it. */
  lemma PagesFromMaps(p: Phys, r: Phys, d: nat, i: nat, j: nat, f: nat, m: Option<Entry>)
    requires Tree(p) && IsDir(p, d) && |r.own| == |r.mem| == |p.own| && f < |p.own| && i < NUSER && j < NENTRIES
    requires TablesStay(p, r) && (forall c :: IsDir(r, c) <==> IsDir(p, c))
    requires forall c: nat, k: nat, l: nat :: IsDir(p, c) && !(c == d && k == i && l == j) ==>
      Mapped(r, c, k, l) == Mapped(p, c, k, l)
    requires Mapped(r, d, i, j) == m && HasPage(r, d, i, j) == m.Some?
    requires m.Some? ==>
      m.value.frame == f && p.own[f] == Other && r.own == p.own[f := PageOf(d, i, j)] && !HasPage(p, d, i, j)
    requires m.None? ==> p.own[f] == PageOf(d, i, j) && r.own == p.own[f := Other]
    ensures Tree(r)
  {
    forall c: nat, k: nat | IsDir(r, c) && HasTable(r, c, k)
      ensures Table(r, c, k) < |r.own| && r.own[Table(r, c, k)] == TableOf(c, k)
      ensures r.mem[c][k] == p.mem[c][k]
    {
      assert HasTable(p, c, k);
    }
    forall c: nat, k: nat, l: nat | IsDir(r, c) && HasPage(r, c, k, l) && k < NUSER
      ensures Page(r, c, k, l).frame < |r.own| && r.own[Page(r, c, k, l).frame] == PageOf(c, k, l)
    {
      if !(c == d && k == i && l == j) {
        assert Mapped(r, c, k, l) == Mapped(p, c, k, l);
        assert HasPage(p, c, k, l);
      } else {
        assert Mapped(r, d, i, j) == m;
      }
    }
    forall g | 0 <= g < |r.own| && r.own[g].PageOf?
      ensures IsDir(r, r.own[g].dir) && HasPage(r, r.own[g].dir, r.own[g].i, r.own[g].j)
      ensures r.own[g].i < NUSER && Page(r, r.own[g].dir, r.own[g].i, r.own[g].j).frame == g
    {
      if g != f {
        assert Mapped(p, p.own[g].dir, p.own[g].i, p.own[g].j) == Some(Page(p, p.own[g].dir, p.own[g].i, p.own[g].j));
      }
    }
  }

  /** An entry of a kernel table is set; nobody comes to own anything. */
  lemma AddKernel(p: Phys, d: nat, i: nat, j: nat, e: Entry)
    requires Tree(p) && IsDir(p, d) && HasTable(p, d, i) && NUSER <= i && j < NENTRIES && Present(e)
    ensures Table(p, d, i) < |p.mem|
    ensures var r := WithEntry(p, d, i, j, e); Tree(r) && OneMapped(p, r, d, i, j, Some(e)) && TablesStay(p, r)
  {
    EntrySet(p, d, i, j, e);
    var r := WithEntry(p, d, i, j, e);
    assert forall c :: IsDir(r, c) <==> IsDir(p, c);
    forall c: nat, k: nat | IsDir(r, c) && HasTable(r, c, k)
      ensures Table(r, c, k) < |r.own| && r.own[Table(r, c, k)] == TableOf(c, k)
    {
      assert HasTable(p, c, k);
    }
    forall c: nat, k: nat, l: nat | IsDir(r, c) && HasPage(r, c, k, l) && k < NUSER
      ensures Page(r, c, k, l).frame < |r.own| && r.own[Page(r, c, k, l).frame] == PageOf(c, k, l)
    {
      assert Mapped(r, c, k, l) == Mapped(p, c, k, l);
      assert HasPage(p, c, k, l);
    }
    forall g | 0 <= g < |r.own| && r.own[g].PageOf?
      ensures HasPage(r, r.own[g].dir, r.own[g].i, r.own[g].j) && r.own[g].i < NUSER
      ensures Page(r, r.own[g].dir, r.own[g].i, r.own[g].j).frame == g
    {
      assert Mapped(p, p.own[g].dir, p.own[g].i, p.own[g].j) == Some(Page(p, p.own[g].dir, p.own[g].i, p.own[g].j));
    }
  }

  /** The directory `d` and its tables are no longer an address space. */
  function Abandoned(p: Phys, d: nat): (r: Phys)
    requires d < |p.own|
    ensures |r.own| == |p.own| && r.mem == p.mem
    ensures forall f :: 0 <= f < |p.own| ==>
      r.own[f] == if f == d || (p.own[f].TableOf? && p.own[f].dir == d) then Other else p.own[f]
  {
    p.(own := seq(|p.own|, f requires 0 <= f < |p.own| =>
      if f == d || (p.own[f].TableOf? && p.own[f].dir == d) then Other else p.own[f]))
  }

  /** With no page mapped in it an address space can be given up. */
  lemma AbandonKeeps(p: Phys, d: nat)
    requires Tree(p) && IsDir(p, d) && forall i: nat, j: nat :: i < NUSER ==> !HasPage(p, d, i, j)
    ensures Tree(Abandoned(p, d))
    ensures forall c: nat, i: nat, j: nat :: IsDir(p, c) && c != d ==>
      IsDir(Abandoned(p, d), c) && Mapped(Abandoned(p, d), c, i, j) == Mapped(p, c, i, j)
  {
    var r := Abandoned(p, d);
    forall c | IsDir(p, c) && c != d
      ensures SameTables(p, r, c)
    {
      assert forall i :: HasTable(p, c, i) ==> Table(p, c, i) < |p.mem|;
    }
    forall c | IsDir(r, c)
      ensures IsDir(p, c) && c != d && SameTables(p, r, c)
    {
    }
    forall c | IsDir(p, c) && c != d
      ensures forall i: nat, j: nat ::
        (HasPage(r, c, i, j) <==> HasPage(p, c, i, j)) && (HasPage(p, c, i, j) ==> Page(r, c, i, j) == Page(p, c, i, j))
      ensures forall i: nat, j: nat :: Mapped(r, c, i, j) == Mapped(p, c, i, j)
    {
      SamePages(p, r, c);
    }
    forall c: nat, k: nat | IsDir(r, c) && HasTable(r, c, k)
      ensures Table(r, c, k) < |r.own| && r.own[Table(r, c, k)] == TableOf(c, k)
    {
      assert HasTable(p, c, k);
    }
    forall c: nat, k: nat, l: nat | IsDir(r, c) && HasPage(r, c, k, l) && k < NUSER
      ensures Page(r, c, k, l).frame < |r.own| && r.own[Page(r, c, k, l).frame] == PageOf(c, k, l)
    {
      assert HasPage(p, c, k, l);
    }
  }
}

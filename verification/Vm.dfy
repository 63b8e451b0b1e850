/** project3/vm.c on top of kalloc.c: building, growing, shrinking, copying and freeing
    address spaces. Virtual addresses of pages are page numbers, `i * NENTRIES + j` for
    page `j` of table `i`; sizes are in bytes. */
module Vm {
  import opened FrameCount
  import opened FreeFrames
  import opened Options
  import opened PageTables

  const PGSIZE: nat := 4096
  const KERNBASE: nat := 0x8000_0000
  /** KERNBASE as a page number */
  const KERNPAGE: nat := 0x80000
  const NPAGES: nat := 0x100000

  /** `PGROUNDUP`, as a page number */
  function PagesUp(sz: nat): (n: nat)
    ensures (n - 1) * PGSIZE < sz <= n * PGSIZE || sz == n == 0
  {
    (sz + PGSIZE - 1) / PGSIZE
  }

  /** Page `j` of table `i` lies in `[lo, hi)`. */
  predicate InRange(lo: int, hi: int, i: nat, j: nat) {
    lo <= i * NENTRIES + j < hi
  }

  /** From `p` to `r` nothing that was allocated is lost or overwritten, the frame `x`
      aside, which keeps its contents; tables and directories may be written. */
  ghost predicate Stable(p: Phys, r: Phys, x: int) {
    && |r.own| == |r.mem| == |p.own| == |p.mem|
    && (forall f :: 0 <= f < |p.own| && f != x && p.own[f] != Free ==> r.own[f] == p.own[f])
    && (forall f :: 0 <= f < |p.own| && (p.own[f].PageOf? || p.own[f].Other?) ==> r.mem[f] == p.mem[f])
  }

  /** Frames that were free still are, or are tables of `d` now. */
  ghost predicate NewTables(p: Phys, r: Phys, d: nat) {
    |r.own| == |p.own| && forall f :: 0 <= f < |p.own| && p.own[f] == Free ==>
      r.own[f] == Free || (r.own[f].TableOf? && r.own[f].dir == d)
  }

  predicate Covered(o: Owner, d: nat, lo: int, hi: int) {
    o.PageOf? && o.dir == d && InRange(lo, hi, o.i, o.j)
  }

  /** From `p` to `r` the pages `[lo, hi)` of `d` are unmapped and their frames freed, and
      nothing else changes. */
  ghost predicate Cleared(p: Phys, r: Phys, d: nat, lo: int, hi: int) {
    && |r.own| == |r.mem| == |p.own| == |p.mem|
    && (forall c: nat :: IsDir(p, c) ==> IsDir(r, c))
    && (forall c: nat, k: nat, l: nat :: IsDir(p, c) ==>
          Mapped(r, c, k, l) == if c == d && InRange(lo, hi, k, l) then None else Mapped(p, c, k, l))
    && (forall f :: 0 <= f < |p.own| ==> r.own[f] == if Covered(p.own[f], d, lo, hi) then Free else p.own[f])
    && (forall f :: 0 <= f < |p.own| && (p.own[f].PageOf? || p.own[f].Other?) && !Covered(p.own[f], d, lo, hi) ==>
      r.mem[f] == p.mem[f])
  }

  /** Page `j` of table `i` is a page of zeros that the user may write. */
  predicate ZeroPage(p: Phys, d: nat, i: nat, j: nat) {
    HasPage(p, d, i, j) && Page(p, d, i, j).flags == PTE_P + PTE_W + PTE_U && Page(p, d, i, j).frame < |p.mem|
    && p.mem[Page(p, d, i, j).frame] == ZeroFrame()
  }

  /** From `p` to `r` the pages `[lo, hi)` of `d` have been mapped to new pages of zeros, and
      nothing else is mapped differently; `x` is one more frame taken from the free ones. */
  ghost predicate Filled(p: Phys, r: Phys, d: nat, lo: int, hi: int, x: int) {
    && lo <= hi <= KERNPAGE && Stable(p, r, -1)
    && (forall c: nat :: IsDir(p, c) ==> IsDir(r, c))
    && (forall c: nat, k: nat, l: nat :: IsDir(p, c) && !(c == d && InRange(lo, hi, k, l)) ==>
      Mapped(r, c, k, l) == Mapped(p, c, k, l))
    && (forall k: nat, l: nat :: l < NENTRIES && InRange(lo, hi, k, l) ==> ZeroPage(r, d, k, l))
    && (forall f :: 0 <= f < |p.own| && f != x && p.own[f] == Free ==>
          r.own[f] == Free || (r.own[f].TableOf? && r.own[f].dir == d) || Covered(r.own[f], d, lo, hi))
    && (x >= 0 ==> x < |p.own| && p.own[x] == Free && r.own[x] == Other)
  }

  /** Frame `f`, owned by `o`, is part of the address space `d`. */
  predicate PartOf(o: Owner, f: int, d: nat) {
    f == d || (o.TableOf? && o.dir == d) || (o.PageOf? && o.dir == d)
  }

  /** From `p` to `r` exactly the frames of the address space `d` are freed, and nothing
      else changes. */
  ghost predicate Released(p: Phys, r: Phys, d: nat) {
    && |r.own| == |r.mem| == |p.own| == |p.mem|
    && (forall c: nat :: IsDir(p, c) && c != d ==> IsDir(r, c))
    && (forall c: nat, k: nat, l: nat :: IsDir(p, c) && c != d ==> Mapped(r, c, k, l) == Mapped(p, c, k, l))
    && (forall f :: 0 <= f < |p.own| ==> r.own[f] == if PartOf(p.own[f], f, d) then Free else p.own[f])
    && (forall f :: 0 <= f < |p.own| && (p.own[f].PageOf? || p.own[f].Other?) && !PartOf(p.own[f], f, d) ==>
      r.mem[f] == p.mem[f])
  }

  /** The owner of a frame that was owned by `o`, while the tables before `i` are freed. */
  function WhileReleasing(o: Owner, f: int, d: nat, i: nat): Owner {
    if f == d then Other
    else if o.TableOf? && o.dir == d then (if o.i < i then Free else Other)
    else o
  }

  /** The loop of `freevm`, begun in `q`, has freed the tables before `i`. */
  ghost predicate Releasing(q: Phys, p: Phys, d: nat, i: nat) {
    && |p.own| == |p.mem| == |q.own| == |q.mem| && d < |p.mem| && p.mem[d] == q.mem[d]
    && (forall c: nat :: IsDir(q, c) && c != d ==> IsDir(p, c))
    && (forall c: nat, k: nat, l: nat :: IsDir(q, c) && c != d ==> Mapped(p, c, k, l) == Mapped(q, c, k, l))
    && (forall f :: 0 <= f < |q.own| ==> p.own[f] == WhileReleasing(q.own[f], f, d, i))
    && (forall f :: 0 <= f < |q.own| && (q.own[f].PageOf? || q.own[f].Other?) ==> p.mem[f] == q.mem[f])
  }

  /** A run of `kmap`: pages from `virt` on are mapped to the frames from `phys` on. */
  datatype Kmap = Kmap(virt: nat, npages: nat, phys: nat, perm: nat)

  predicate InRun(k: Kmap, v: int) {
    k.virt <= v < k.virt + k.npages
  }

  /** The runs are kernel pages, and no two have a page in common. */
  ghost predicate KernelRuns(kmap: seq<Kmap>) {
    && (forall n :: 0 <= n < |kmap| ==>
      KERNPAGE <= kmap[n].virt && kmap[n].virt + kmap[n].npages <= NPAGES && kmap[n].npages >= 1)
    && (forall m, n, v {:trigger InRun(kmap[m], v), InRun(kmap[n], v)} ::
          0 <= m < n < |kmap| && InRun(kmap[m], v) ==> !InRun(kmap[n], v))
  }

  /** What the first `m` runs say about page `v`. */
  function KernelEntry(kmap: seq<Kmap>, m: nat, v: nat): Option<Entry>
    requires m <= |kmap|
  {
    if m == 0 then None
    else if InRun(kmap[m - 1], v) then Some(Entry(kmap[m - 1].phys + (v - kmap[m - 1].virt), WithP(kmap[m - 1].perm)))
    else KernelEntry(kmap, m - 1, v)
  }

  /** The tables that the first `m` runs need. */
  function KernelTables(kmap: seq<Kmap>, m: nat): (ts: set<nat>)
    requires m <= |kmap|
    ensures forall i: nat :: i in ts ==> i < NENTRIES
  {
    if m == 0 then {}
    else KernelTables(kmap, m - 1) + TablesOf(kmap[m - 1].virt, kmap[m - 1].virt + kmap[m - 1].npages)
  }

  lemma {:induction false} KernelTablesNext(kmap: seq<Kmap>, m: nat, next: nat)
    requires m < |kmap| && next == m + 1
    ensures var ts := TablesOf(kmap[m].virt, kmap[m].virt + kmap[m].npages);
      KernelTables(kmap, next) == KernelTables(kmap, m) + ts && KernelTables(kmap, m) + ts <= KernelTables(kmap, |kmap|)
    decreases |kmap| - m
  {
    if next == |kmap| {
    } else {
      KernelTablesNext(kmap, next, next + 1);
    }
  }

  /** From `p0` to `p` the address space `d` has been made, of frames that were free; `x` is
      one more frame taken from the free ones. Nothing else has changed. */
  ghost predicate Built(p0: Phys, p: Phys, d: nat, x: int) {
    && SameMaps(p0, p) && Stable(p0, p, -1) && d < |p0.own| && p0.own[d] == Free && IsDir(p, d)
    && (forall f :: 0 <= f < |p0.own| && f != x && p0.own[f] == Free ==> p.own[f] == Free || PartOf(p.own[f], f, d))
    && (forall f :: 0 <= f < |p0.own| && PartOf(p.own[f], f, d) ==> p0.own[f] == Free)
    && (x >= 0 ==> x < |p0.own| && p0.own[x] == Free && p.own[x] == Other)
  }

  /** From `p` to `r` every frame has kept its owner, and every address space its mappings
      and contents. */
  ghost predicate Restored(p: Phys, r: Phys) {
    SameMaps(p, r) && Stable(p, r, -1) && r.own == p.own
  }

  /** `d` maps what the first `m` runs say, and nothing else. */
  ghost predicate KernelOnly(p: Phys, d: nat, kmap: seq<Kmap>, m: nat) {
    m <= |kmap| && forall k: nat, l: nat ::
      Mapped(p, d, k, l) == if l < NENTRIES then KernelEntry(kmap, m, k * NENTRIES + l) else None
  }

  /** Pages `[v, hi)` of `d` are mapped to consecutive frames; other mappings are as in `p0`. */
  ghost predicate RunMapped(p0: Phys, p: Phys, d: nat, v: nat, hi: nat, frame: nat, perm: nat) {
    && v <= hi && Stable(p0, p, -1) && NewTables(p0, p, d)
    && (forall c: nat :: IsDir(p0, c) ==> IsDir(p, c))
    && (forall c: nat, k: nat, l: nat :: IsDir(p0, c) && !(c == d && InRange(v, hi, k, l)) ==>
      Mapped(p, c, k, l) == Mapped(p0, c, k, l))
    && (forall k: nat, l: nat :: l < NENTRIES && InRange(v, hi, k, l) ==>
          Mapped(p, d, k, l) == Some(Entry(frame + (k * NENTRIES + l - v), WithP(perm))))
  }

  /** Only pages `[v, hi)` of `d` may be mapped differently. */
  ghost predicate RunTried(p0: Phys, p: Phys, d: nat, v: nat, hi: nat) {
    && Stable(p0, p, -1) && NewTables(p0, p, d)
    && (forall c: nat :: IsDir(p0, c) ==> IsDir(p, c))
    && (forall c: nat, k: nat, l: nat :: IsDir(p0, c) && !(c == d && InRange(v, hi, k, l)) ==>
      Mapped(p, c, k, l) == Mapped(p0, c, k, l))
  }

  /** Page `j` of table `i` in `d` is a copy of that in `src` at `p0`: other frame, same
      flags, same contents. */
  predicate CopyOf(p0: Phys, p: Phys, src: nat, d: nat, i: nat, j: nat) {
    && HasPage(p0, src, i, j) && HasPage(p, d, i, j) && Page(p, d, i, j).flags == Page(p0, src, i, j).flags
    && Page(p0, src, i, j).frame < |p0.mem| && Page(p, d, i, j).frame < |p.mem|
    && p.mem[Page(p, d, i, j).frame] == p0.mem[Page(p0, src, i, j).frame]
  }

  /** The first `v` pages of `d` are copies of those of `src`; beyond them it has the
      kernel's pages only. */
  ghost predicate Copied(p0: Phys, p: Phys, src: nat, d: nat, kmap: seq<Kmap>, v: nat) {
    && v <= KERNPAGE
    && (forall k: nat, l: nat :: l < NENTRIES && InRange(0, v, k, l) ==> CopyOf(p0, p, src, d, k, l))
    && (forall k: nat, l: nat :: !(l < NENTRIES && InRange(0, v, k, l)) ==>
          Mapped(p, d, k, l) == if l < NENTRIES then KernelEntry(kmap, |kmap|, k * NENTRIES + l) else None)
  }

  /** The first `n` pages are mapped. */
  ghost predicate AllMapped(p: Phys, d: nat, n: nat) {
    forall k: nat, l: nat :: l < NENTRIES && InRange(0, n, k, l) ==> HasPage(p, d, k, l)
  }

  /** No page of `[lo, hi)` is mapped. */
  ghost predicate Unmapped(p: Phys, d: nat, lo: int, hi: int) {
    forall k: nat, l: nat :: InRange(lo, hi, k, l) ==> Mapped(p, d, k, l) == None
  }

  class Memory {
    var mem: seq<Frame>
    var freelist: nat          // 0 for null
    const first: nat           // the first frame after the kernel
    const kmap: seq<Kmap>
    ghost var p: Phys
    ghost var free: seq<nat>

    /** The allocator is in order. */
    ghost predicate Pool()
      reads this
    {
      p.mem == mem && FreeList(p, first, freelist, free)
    }

    ghost predicate Valid()
      reads this
    {
      Pool() && Tree(p)
    }

    /** All memory before `kinit1`: nothing on the list yet. */
    constructor (mem: seq<Frame>, first: nat, kmap: seq<Kmap>)
      requires 1 <= first
      ensures Valid() && this.mem == mem && this.first == first && this.kmap == kmap && free == []
      ensures forall f :: 0 <= f < |mem| ==> p.own[f] == Other
    {
      this.mem, this.first, this.kmap, freelist := mem, first, kmap, 0;
      p := Phys(mem, seq(|mem|, i => Other));
      free := [];
    }

    /** `kalloc`: a frame that was free, or 0 when there is none. */
    method Kalloc() returns (f: nat)
      requires Pool()
      modifies this`freelist, this`p, this`free
      ensures Pool()
      ensures f == 0 <==> old(free) == []
      ensures f == 0 ==> p == old(p) && free == old(free)
      ensures f != 0 ==>
        first <= f < |mem| && f == old(free)[0] && old(p).own[f] == Free && p == Give(old(p), f, Other)
          && free == old(free)[1..]
    {
      hide FreeList;
      ListEmpty(p, first, freelist, free);
      f := freelist;
      if f != 0 {
        Popped(p, first, freelist, free);
        freelist := LinkedFrame(mem[f][0]);
        p := Give(p, f, Other);
        free := free[1..];
      }
    }

    /** `kfree`: the frame has to be one of the pool. */
    method Kfree(f: nat)
      requires Pool() && first <= f < |mem| && |p.own| == |mem| && p.own[f] != Free
      modifies this`mem, this`freelist, this`p, this`free
      ensures Pool() && p == Give(Write(old(p), f, Junk(old(freelist))), f, Free) && free == [f] + old(free)
      ensures freelist == f
    {
      hide FreeList;
      Pushed(p, first, freelist, free, f);
      mem := mem[f := Junk(freelist)];
      p := Give(Write(p, f, Junk(freelist)), f, Free);
      free := [f] + free;
      freelist := f;
    }

    /** `freerange` over the whole pages of `[lo, hi)`, in frames. */
    method FreeRange(lo: nat, hi: nat)
      requires Valid() && first <= lo && hi <= |mem|
      requires forall f :: lo <= f < hi ==> p.own[f] == Other
      modifies this`mem, this`freelist, this`p, this`free
      ensures Valid() && |mem| == old(|mem|)
      ensures forall f :: 0 <= f < |mem| ==> p.own[f] == if lo <= f < hi then Free else old(p).own[f]
    {
      hide FreeList, Tree;
      TreeSize(p);
      var f := lo;
      while f < hi
        invariant Valid() && |mem| == old(|mem|) == |p.own| && (lo <= f <= hi || hi <= lo == f)
        invariant forall g :: 0 <= g < |mem| ==> p.own[g] == if lo <= g < f then Free else old(p).own[g]
      {
        KfreeKeeps(p, f, Junk(freelist));
        Kfree(f);
        f := f + 1;
      }
    }

    /** `walkpgdir`: the table that has the entry of page `v`, or 0. */
    method WalkPgdir(d: nat, v: nat, alloc: bool) returns (t: nat)
      requires Valid() && IsDir(p, d) && v < NPAGES
      modifies this`mem, this`freelist, this`p, this`free
      ensures Valid() && SameMaps(old(p), p) && Stable(old(p), p, -1) && NewTables(old(p), p, d)
      ensures if t != 0 then HasTable(p, d, v / NENTRIES) && Table(p, d, v / NENTRIES) == t
              else p == old(p) && free == old(free) && !HasTable(p, d, v / NENTRIES)
      ensures !alloc || HasTable(old(p), d, v / NENTRIES) ==> p == old(p) && free == old(free)
      ensures alloc && t == 0 ==> free == []
      ensures alloc && t != 0 ==> d < |mem| && Spent(old(mem)[d], mem[d], {v / NENTRIES}, 0, |old(free)|, |free|)
    {
      hide FreeList, Tree, SameMaps, Stable, NewTables, Spent;
      TreeSize(p);
      Unchanged(p, d);
      var i := v / NENTRIES;
      SpentOn(mem[d], i, |free|);
      var pde := mem[d][i];
      if Present(pde) {
        t := pde.frame;
        TableFrame(p, first, freelist, free, d, i);
      } else {
        if !alloc {
          return 0;
        }
        ghost var p0 := p;
        t := Kalloc();
        if t == 0 {
          return 0;
        }
        NewTable(p0, first, freelist, free, d, i, t, PTE_P + PTE_W + PTE_U);
        mem := mem[t := ZeroFrame()];
        SpentOnTable(mem[d], i, t, PTE_P + PTE_W + PTE_U, |free|);
        mem := mem[d := mem[d][i := Entry(t, PTE_P + PTE_W + PTE_U)]];
        p := WithTable(Write(p, t, ZeroFrame()), d, i, t, PTE_P + PTE_W + PTE_U);
      }
    }

    /** One round of the loop of `mappages`, for page `v`, which must not be mapped yet
        (the code panics if it is). A user page takes over the frame. */
    method MapPage(d: nat, v: nat, frame: nat, perm: nat) returns (ok: bool)
      requires Valid() && IsDir(p, d) && v < NPAGES && Mapped(p, d, v / NENTRIES, v % NENTRIES) == None
      requires v < KERNPAGE ==> first <= frame < |mem| && p.own[frame] == Other
      modifies this`mem, this`freelist, this`p, this`free
      ensures Valid() && NewTables(old(p), p, d) && Stable(old(p), p, if ok && v < KERNPAGE then frame else -1)
      ensures if ok then OneMapped(old(p), p, d, v / NENTRIES, v % NENTRIES, Some(Entry(frame, WithP(perm))))
        else SameMaps(old(p), p)
      ensures ok && v < KERNPAGE ==> frame < |p.own| && p.own[frame] == PageOf(d, v / NENTRIES, v % NENTRIES)
      ensures ok ==> d < |mem| && Spent(old(mem)[d], mem[d], {v / NENTRIES}, 0, |old(free)|, |free|)
      ensures !ok ==> old(free) == [] && !Present(old(mem)[d][v / NENTRIES])
    {
      hide FreeList, Tree, SameMaps, Stable, NewTables, OneMapped, Spent;
      ghost var p0 := p;
      var pte := WalkPgdir(d, v, true);
      if pte == 0 {
        return false;
      }
      ghost var i, j := v / NENTRIES, v % NENTRIES;
      NotMapped(p0, p, d, i, j);
      TableApart(p0, p, first, freelist, free, d, i);
      SetEntry(p0, p, first, freelist, free, d, i, j, Entry(frame, WithP(perm)));
      ghost var r := if v < KERNPAGE then WithPage(p, d, i, j, Entry(frame, WithP(perm)))
        else WithEntry(p, d, i, j, Entry(frame, WithP(perm)));
      mem := mem[pte := mem[pte][v % NENTRIES := Entry(frame, WithP(perm))]];
      p := r;
      return true;
    }

    /** `deallocuvm`: whatever is mapped in the pages given up is unmapped and freed, also
        behind the page tables that are skipped. */
    method DeallocUvm(d: nat, oldsz: nat, newsz: nat) returns (r: nat)
      requires Valid() && IsDir(p, d) && oldsz <= KERNBASE
      modifies this`mem, this`freelist, this`p, this`free
      ensures Valid()
      ensures if newsz >= oldsz then r == oldsz && p == old(p)
              else r == newsz && Cleared(old(p), p, d, PagesUp(newsz), PagesUp(oldsz))
    {
      hide FreeList, Tree, Cleared, SameMaps, Stable, NewTables;
      if newsz >= oldsz {
        return oldsz;
      }
      ghost var p0, lo, hi := p, PagesUp(newsz), PagesUp(oldsz);
      ClearedStart(p, d, lo);
      var v := PagesUp(newsz);
      while v * PGSIZE < oldsz
        invariant Valid() && lo <= v && Cleared(p0, p, d, lo, if v < hi then v else hi)
        decreases NPAGES - v
      {
        ClearedDir(p0, p, d, lo, v);
        var t := WalkPgdir(d, v, false);
        if t == 0 {
          ghost var m := if (v / NENTRIES + 1) * NENTRIES < hi then (v / NENTRIES + 1) * NENTRIES else hi;
          NoTable(p, d, v, m);
          ClearedSkip(p0, p, d, lo, v, m);
          v := (v / NENTRIES + 1) * NENTRIES - 1;
        } else {
          TableFrame(p, first, freelist, free, d, v / NENTRIES);
          var pte := mem[t][v % NENTRIES];
          if Present(pte) {
            ClearedStep(p0, p, first, freelist, free, d, lo, v);
            assert pte.frame != 0;
            ghost var r := Freed(p, d, v / NENTRIES, v % NENTRIES, Junk(freelist));
            Kfree(pte.frame);
            mem := mem[t := mem[t][v % NENTRIES := Entry(0, 0)]];
            p := r;
          } else {
            NoPage(p, d, v);
            ClearedSkip(p0, p, d, lo, v, v + 1);
          }
        }
        v := v + 1;
      }
      return newsz;
    }

    /** `allocuvm`, for a process that has nothing mapped where it grows: the new pages are
        zeroed and the user's; if memory runs out the address space is as before, but for
        page tables that it may have gained, and every other frame is free again. */
    method AllocUvm(d: nat, oldsz: nat, newsz: nat) returns (r: nat)
      requires Valid() && IsDir(p, d) && Unmapped(p, d, PagesUp(oldsz), PagesUp(newsz))
      modifies this`mem, this`freelist, this`p, this`free
      ensures Valid() && r in {0, oldsz, newsz}
      ensures newsz >= KERNBASE ==> r == 0 && p == old(p)
      ensures newsz < KERNBASE && newsz < oldsz ==> r == oldsz && p == old(p)
      ensures oldsz <= newsz < KERNBASE && r == newsz && r != 0 ==>
        Filled(old(p), p, d, PagesUp(oldsz), PagesUp(newsz), -1)
      ensures oldsz <= newsz < KERNBASE && r != newsz ==> r == 0
      ensures r == 0 ==> SameMaps(old(p), p) && Stable(old(p), p, -1) && NewTables(old(p), p, d)
      ensures oldsz <= newsz < KERNBASE ==>
        (r == newsz <==> |old(free)| >= NeedRange(old(mem)[d], PagesUp(oldsz), PagesUp(newsz)))
    {
      hide FreeList, Tree, Cleared, SameMaps, Stable, NewTables, Filled, Unmapped, OneMapped, Spent, SpentUpTo,
        NeedRange, Need, TablesOf, Tables, WithP;
      ghost var p0, lo, hi := p, PagesUp(oldsz), PagesUp(newsz);
      TreeSize(p);
      Unchanged(p, d);
      if newsz >= KERNBASE {
        return 0;
      }
      if newsz < oldsz {
        return oldsz;
      }
      FilledStart(p, d, lo);
      ghost var c0, n0 := mem[d], |free|;
      UpToStart(c0, lo, n0);
      var v := PagesUp(oldsz);
      while v * PGSIZE < newsz
        invariant Valid() && lo <= v <= hi && Filled(p0, p, d, lo, v, -1) && IsDir(p, d)
        invariant d < |mem| && SpentUpTo(c0, mem[d], lo, v, n0, |free|)
        decreases NPAGES - v
      {
        StillUnmapped(p0, p, d, lo, hi, v);
        ghost var q := p;
        ghost var c, n := mem[d], |free|;
        var m := Kalloc();
        if m == 0 {
          UpToShort(c0, c, lo, v, hi, n0, n);
          var s := DeallocUvm(d, newsz, oldsz);
          Undone(p0, q, p, d, lo, hi, v, -1);
          return 0;
        }
        TakenKeeps(p0, q, first, freelist, free, d, lo, v, m);
        mem := mem[m := ZeroFrame()];
        p := Write(p, m, ZeroFrame());
        ghost var a := p;
        var ok := MapPage(d, v, m, PTE_W + PTE_U);
        if !ok {
          UpToShort(c0, c, lo, v, hi, n0, n);
          FilledFailed(p0, a, p, d, lo, v, m);
          ghost var b := p;
          var s := DeallocUvm(d, newsz, oldsz);
          Undone(p0, b, p, d, lo, hi, v, m);
          LastFreed(p0, p, freelist, d, m);
          Kfree(m);
          return 0;
        }
        FilledMapped(p0, a, p, d, lo, v, m);
        UpToNext(c0, c, mem[d], lo, v, n0, n, |free|);
        v := v + 1;
      }
      UpToEnd(c0, mem[d], lo, hi, n0, |free|);
      FilledNothing(p0, p, d, lo, hi);
      return newsz;
    }

    /** `freevm`: every frame of the address space goes back to the free list, each once. */
    method FreeVm(d: nat)
      requires Valid() && IsDir(p, d)
      modifies this`mem, this`freelist, this`p, this`free
      ensures Valid() && Released(old(p), p, d)
    {
      hide FreeList, Tree, Cleared, Released, Releasing;
      ghost var p0 := p;
      var r := DeallocUvm(d, KERNBASE, 0);
      ghost var q, head, list := p, freelist, free;
      ReleasingStart(p0, q, first, freelist, free, d);
      p := Abandoned(p, d);
      var i := 0;
      while i < NENTRIES
        invariant i <= NENTRIES && Valid() && Releasing(q, p, d, i) && d < |mem|
      {
        ReleasingStep(q, p, d, i, first, head, list);
        SameDir(q, p, d, i);
        var pde := mem[d][i];
        if Present(pde) {
          ReleasingFreed(q, p, d, i, Junk(freelist));
          Kfree(pde.frame);
        }
        i := i + 1;
      }
      ReleasedAll(p0, q, p, d, Junk(freelist));
      LastOwner(q, p, d);
      Kfree(d);
    }

    /** `mappages` for a run of kernel pages. (For a user page its loop runs once.) */
    method MapPages(d: nat, v: nat, n: nat, frame: nat, perm: nat) returns (ok: bool)
      requires Valid() && IsDir(p, d) && n >= 1 && KERNPAGE <= v && v + n <= NPAGES && Unmapped(p, d, v, v + n)
      modifies this`mem, this`freelist, this`p, this`free
      ensures Valid() && RunTried(old(p), p, d, v, v + n) && (ok ==> RunMapped(old(p), p, d, v, v + n, frame, perm))
      ensures ok <==> |old(free)| >= Need(old(mem)[d], TablesOf(v, v + n), 0)
      ensures ok ==> d < |mem| && Spent(old(mem)[d], mem[d], TablesOf(v, v + n), 0, |old(free)|, |free|)
    {
      hide FreeList, Tree, RunMapped, RunTried, Unmapped, Stable, NewTables, SameMaps, OneMapped, Spent,
        SpentOnTables, Need;
      ghost var p0 := p;
      TreeSize(p);
      ghost var c0, n0 := mem[d], |free|;
      TablesStart(c0, v, n0);
      RunStart(p, d, v, frame, perm);
      var a := 0;
      while true
        invariant a < n && Valid() && IsDir(p, d) && RunMapped(p0, p, d, v, v + a, frame, perm)
        invariant d < |mem| && SpentOnTables(c0, mem[d], v, v + a, n0, |free|)
        decreases n - a
      {
        RunNext(p0, p, d, v, v + n, a, frame, perm);
        ghost var q := p;
        ghost var c, m := mem[d], |free|;
        ok := MapPage(d, v + a, frame + a, perm);
        if !ok {
          RunShort(c0, c, v, v + a, v + n, n0, m);
          RunFailed(p0, q, p, d, v, v + n, v + a, frame, perm);
          return;
        }
        RunStep(p0, q, p, d, v, v + a, frame, perm);
        RunSpent(c0, c, mem[d], v, v + a, n0, m, |free|);
        if a == n - 1 {
          RunEnd(c0, mem[d], v, v + n, n0, |free|);
          RunDone(p0, p, d, v, v + n, frame, perm);
          return;
        }
        a := a + 1;
      }
    }

    /** `setupkvm`: a new address space with the kernel's pages; without the memory for it
        everything is given back. */
    method SetupKvm() returns (d: nat)
      requires Valid() && KernelRuns(kmap)
      modifies this`mem, this`freelist, this`p, this`free
      ensures Valid()
      ensures d == 0 ==> Restored(old(p), p)
      ensures d != 0 ==> Built(old(p), p, d, -1) && KernelOnly(p, d, kmap, |kmap|)
      ensures d != 0 <==> |old(free)| >= 1 + |KernelTables(kmap, |kmap|)|
      ensures d != 0 ==> d < |mem| && Spent(ZeroFrame(), mem[d], KernelTables(kmap, |kmap|), 1, |old(free)|, |free|)
    {
      hide FreeList, Tree, SameMaps, Built, Restored, KernelOnly, RunMapped, RunTried, Unmapped, Released, Stable,
        Spent, Need;
      ghost var p0 := p;
      TreeSize(p);
      RestoredSelf(p);
      d := Kalloc();
      if d == 0 {
        return;
      }
      BuiltStart(p0, first, freelist, free, d, kmap);
      FreshStart(|free| + 1);
      ghost var n0 := |free| + 1;
      mem := mem[d := ZeroFrame()];
      p := Give(Write(p, d, ZeroFrame()), d, Dir);
      var n := 0;
      while n < |kmap|
        invariant n <= |kmap| && Valid() && Built(p0, p, d, -1) && IsDir(p, d) && KernelOnly(p, d, kmap, n)
        invariant d < |mem| && Spent(ZeroFrame(), mem[d], KernelTables(kmap, n), 1, n0, |free|)
      {
        RunFree(p, d, kmap, n);
        ghost var q := p;
        ghost var c, m, ts := mem[d], |free|, TablesOf(kmap[n].virt, kmap[n].virt + kmap[n].npages);
        KernelTablesNext(kmap, n, n + 1);
        var ok := MapPages(d, kmap[n].virt, kmap[n].npages, kmap[n].phys, kmap[n].perm);
        BuiltTried(p0, q, p, d, kmap[n].virt, kmap[n].virt + kmap[n].npages);
        if !ok {
          FreshShort(c, KernelTables(kmap, n), ts, KernelTables(kmap, |kmap|), 1, 0, 1, n0, m);
          ghost var b := p;
          FreeVm(d);
          Unbuilt(p0, b, p, d);
          return 0;
        }
        RunAdded(q, p, d, kmap, n);
        SpentThen(ZeroFrame(), c, mem[d], KernelTables(kmap, n), ts, KernelTables(kmap, n + 1), 1, 0, n0, m, |free|);
        n := n + 1;
      }
      FreshEnd(mem[d], KernelTables(kmap, n), 1, n0, |free|);
    }

    /** `copyuvm`: copies of the first pages of `src`, on frames of their own; without the
        memory for it everything is given back. */
    method CopyUvm(src: nat, sz: nat) returns (d: nat)
      requires Valid() && KernelRuns(kmap) && IsDir(p, src) && sz <= KERNBASE && AllMapped(p, src, PagesUp(sz))
      modifies this`mem, this`freelist, this`p, this`free
      ensures Valid()
      ensures d == 0 ==> Restored(old(p), p)
      ensures d != 0 ==> Built(old(p), p, d, -1) && Copied(old(p), p, src, d, kmap, PagesUp(sz))
      ensures d != 0 <==> |old(free)| >= 1 + PagesUp(sz) + |KernelTables(kmap, |kmap|) + TablesOf(0, PagesUp(sz))|
    {
      hide FreeList, Tree, SameMaps, Built, Restored, KernelOnly, Released, Copied, AllMapped, Stable, NewTables,
        OneMapped, Spent,
        SpentUpTo, KernelTables, TablesOf, HasTable, Mapped, Junk, LinkAt, PagesUp, InRange, KernelRuns, WithP;
      ghost var p0, hi, n0, ts := p, PagesUp(sz), |free|, KernelTables(kmap, |kmap|);
      d := SetupKvm();
      if d == 0 {
        FewerTables(ts, TablesOf(0, hi));
        return;
      }
      ghost var c0, n1 := mem[d], |free|;
      UpToStart(c0, 0, n1);
      CopiedStart(p0, p, src, d, kmap);
      var v := 0;
      while v * PGSIZE < sz
        invariant v <= hi && Valid() && Built(p0, p, d, -1) && Copied(p0, p, src, d, kmap, v)
        invariant d < |mem| && SpentUpTo(c0, mem[d], 0, v, n1, |free|)
        decreases NPAGES - v
      {
        CopySource(p0, p, src, d, hi, v);
        BuiltDir(p0, p, d);
        CopyTarget(p0, p, src, d, kmap, v);
        var t := WalkPgdir(src, v, false);
        var pte := mem[t][v % NENTRIES];
        ghost var q := p;
        ghost var c, n := mem[d], |free|;
        var m := Kalloc();
        if m == 0 {
          FreshPagesShort(c0, c, ts, v, hi, n0, n1, n);
          FreeVm(d);
          Unbuilt(p0, q, p, d);
          return 0;
        }
        CopyTaken(p0, q, first, freelist, free, src, d, kmap, v, m);
        mem := mem[m := mem[pte.frame]];
        p := Write(p, m, p.mem[pte.frame]);
        ghost var a := p;
        var ok := MapPage(d, v, m, pte.flags);
        if !ok {
          FreshPagesShort(c0, c, ts, v, hi, n0, n1, n);
          CopyFailed(p0, a, p, d, m, Junk(freelist));
          Kfree(m);
          ghost var b := p;
          FreeVm(d);
          Unbuilt(p0, b, p, d);
          return 0;
        }
        CopyStep(p0, a, p, src, d, kmap, v, m, pte.flags);
        UpToNext(c0, c, mem[d], 0, v, n1, n, |free|);
        v := v + 1;
      }
      FreshPages(c0, mem[d], ts, hi, n0, n1, |free|);
    }
  }

  /** User code may write every page that `allocuvm` has mapped, at both levels. */
  lemma FilledForUser(p: Phys, r: Phys, d: nat, lo: int, hi: int)
    requires Tree(r) && IsDir(r, d) && Filled(p, r, d, lo, hi, -1)
    ensures forall i: nat, j: nat :: j < NENTRIES && InRange(lo, hi, i, j) ==> UserWrites(r, d, i, j)
  {
    hide Tree;
    forall i: nat, j: nat | j < NENTRIES && InRange(lo, hi, i, j)
      ensures UserWrites(r, d, i, j)
    {
      assert ZeroPage(r, d, i, j);
      UserAccess(r, d, i, j);
    }
  }

  /** User code may read and write in a copy what it may in the original. */
  lemma CopiedForUser(p0: Phys, p: Phys, src: nat, d: nat, kmap: seq<Kmap>, v: nat)
    requires Tree(p0) && IsDir(p0, src) && Tree(p) && IsDir(p, d) && Copied(p0, p, src, d, kmap, v)
    ensures forall i: nat, j: nat :: j < NENTRIES && InRange(0, v, i, j) ==>
      (UserReads(p, d, i, j) <==> UserReads(p0, src, i, j)) && (UserWrites(p, d, i, j) <==> UserWrites(p0, src, i, j))
  {
    hide Tree;
    forall i: nat, j: nat | j < NENTRIES && InRange(0, v, i, j)
      ensures UserReads(p, d, i, j) <==> UserReads(p0, src, i, j)
      ensures UserWrites(p, d, i, j) <==> UserWrites(p0, src, i, j)
    {
      assert CopyOf(p0, p, src, d, i, j);
      UserAccess(p0, src, i, j);
      UserAccess(p, d, i, j);
    }
  }

  lemma FewerTables(ts: set<nat>, us: set<nat>)
    ensures |ts| <= |ts + us|
  {
    Minus(ts + us, ts);
  }

  lemma SameDir(q: Phys, p: Phys, d: nat, i: nat)
    requires Releasing(q, p, d, i) && IsDir(q, d) && i < NENTRIES
    ensures |p.own| == |p.mem| && d < |q.mem| == |p.mem| && p.mem[d] == q.mem[d]
    ensures Present(p.mem[d][i]) ==> HasTable(q, d, i) && Table(q, d, i) == p.mem[d][i].frame
  {
  }

  lemma LastOwner(q: Phys, p: Phys, d: nat)
    requires Releasing(q, p, d, NENTRIES)
    ensures |p.own| == |p.mem| && d < |p.own| && p.own[d] == Other
  {
  }

  lemma ReleasingStart(p0: Phys, q: Phys, first: nat, head: nat, free: seq<nat>, d: nat)
    requires Tree(p0) && Tree(q) && Cleared(p0, q, d, 0, KERNPAGE) && IsDir(p0, d) && FreeList(q, first, head, free)
    ensures IsDir(q, d) && first <= d < |q.mem| && Releasing(q, Abandoned(q, d), d, 0)
    ensures Tree(Abandoned(q, d)) && FreeList(Abandoned(q, d), first, head, free)
  {
    forall i: nat, j: nat | i < NUSER
      ensures !HasPage(q, d, i, j)
    {
      var now := Mapped(q, d, i, j);
      assert j < NENTRIES ==> InRange(0, KERNPAGE, i, j);
    }
    AbandonKeeps(q, d);
    ListStays(q, Abandoned(q, d), first, head, free);
  }

  /** Table `i` is freed, if there is one. */
  lemma ReleasingStep(q: Phys, p: Phys, d: nat, i: nat, first: nat, head: nat, free: seq<nat>)
    requires Tree(q) && Tree(p) && IsDir(q, d) && Releasing(q, p, d, i) && i < NENTRIES
    requires FreeList(q, first, head, free)
    ensures !Present(p.mem[d][i]) ==> Releasing(q, p, d, i + 1)
    ensures Present(p.mem[d][i]) ==>
      var f := p.mem[d][i].frame;
      first <= f < |p.own| && p.own[f] == Other && f != d
  {
    if Present(p.mem[d][i]) {
      assert HasTable(q, d, i);
    }
  }

  lemma ReleasingFreed(q: Phys, p: Phys, d: nat, i: nat, junk: Frame)
    requires Tree(q) && Tree(p) && IsDir(q, d) && Releasing(q, p, d, i) && i < NENTRIES && HasTable(q, d, i)
    ensures Table(q, d, i) < |p.own|
    ensures var r := Give(Write(p, Table(q, d, i), junk), Table(q, d, i), Free); Releasing(q, r, d, i + 1) && Tree(r)
  {
    var f := Table(q, d, i);
    assert q.own[f] == TableOf(d, i);
    KfreeKeeps(p, f, junk);
    var r := Give(Write(p, f, junk), f, Free);
    forall c: nat, k: nat, l: nat | IsDir(q, c) && c != d
      ensures IsDir(r, c) && Mapped(r, c, k, l) == Mapped(q, c, k, l)
    {
      assert IsDir(p, c) && Mapped(p, c, k, l) == Mapped(q, c, k, l);
    }
    forall g | 0 <= g < |q.own| && g != f
      ensures q.own[g] != TableOf(d, i)
    {
    }
  }

  /** Last the directory itself is freed. */
  lemma ReleasedAll(p0: Phys, q: Phys, p: Phys, d: nat, junk: Frame)
    requires Tree(p0) && Tree(q) && Tree(p) && IsDir(p0, d) && IsDir(q, d) && Cleared(p0, q, d, 0, KERNPAGE)
    requires Releasing(q, p, d, NENTRIES)
    ensures d < |p.own|
    ensures var r := Give(Write(p, d, junk), d, Free); Released(p0, r, d) && Tree(r)
  {
    KfreeKeeps(p, d, junk);
    var r := Give(Write(p, d, junk), d, Free);
    forall c: nat, k: nat, l: nat | IsDir(p0, c) && c != d
      ensures IsDir(r, c) && Mapped(r, c, k, l) == Mapped(p0, c, k, l)
    {
      assert IsDir(q, c) && Mapped(q, c, k, l) == Mapped(p0, c, k, l);
      assert IsDir(p, c) && Mapped(p, c, k, l) == Mapped(q, c, k, l);
    }
    forall f | 0 <= f < |p0.own|
      ensures p0.own[f].PageOf? && p0.own[f].dir == d ==> Covered(p0.own[f], d, 0, KERNPAGE)
      ensures q.own[f].TableOf? && q.own[f].dir == d ==> q.own[f].i < NENTRIES
    {
      if p0.own[f].PageOf? && p0.own[f].dir == d {
        assert HasPage(p0, d, p0.own[f].i, p0.own[f].j);
      }
      if q.own[f].TableOf? && q.own[f].dir == d {
        assert HasTable(q, d, q.own[f].i);
      }
    }
  }

  lemma FilledNothing(p: Phys, r: Phys, d: nat, lo: int, hi: int)
    requires Filled(p, r, d, lo, hi, -1)
    ensures lo == hi ==> SameMaps(p, r) && Stable(p, r, -1) && NewTables(p, r, d)
  {
  }

  lemma FilledStart(p: Phys, d: nat, lo: int)
    requires |p.own| == |p.mem| && lo <= KERNPAGE
    ensures Filled(p, p, d, lo, lo, -1)
  {
  }

  lemma StillUnmapped(p0: Phys, p: Phys, d: nat, lo: int, hi: int, v: nat)
    requires Filled(p0, p, d, lo, v, -1) && Unmapped(p0, d, lo, hi) && IsDir(p0, d) && lo <= v < hi
    ensures IsDir(p, d) && Mapped(p, d, v / NENTRIES, v % NENTRIES) == None
  {
    assert InRange(lo, hi, v / NENTRIES, v % NENTRIES) && !InRange(lo, v, v / NENTRIES, v % NENTRIES);
  }

  /** The frame for the next page, zeroed. */
  lemma TakenKeeps(p0: Phys, p: Phys, first: nat, head: nat, free: seq<nat>, d: nat, lo: int, v: int, m: nat)
    requires Tree(p) && Filled(p0, p, d, lo, v, -1) && m < |p.own| && p.own[m] == Free && IsDir(p, d)
    requires FreeList(Give(p, m, Other), first, head, free)
    ensures |p.mem| == |p.own|
    ensures var r := Write(Give(p, m, Other), m, ZeroFrame());
      Tree(r) && FreeList(r, first, head, free) && Filled(p0, r, d, lo, v, m) && IsDir(r, d) && SameMaps(p, r)
  {
    hide FreeList;
    TreeSize(p);
    var a := Give(p, m, Other);
    GiveKeeps(p, m, Other);
    WriteKeeps(a, m, ZeroFrame());
    var r := Write(a, m, ZeroFrame());
    SameThenSame(p, a, r);
    TakenList(a, first, head, free, m);
    TakenFilled(p0, p, r, d, lo, v, m);
  }

  lemma TakenList(a: Phys, first: nat, head: nat, free: seq<nat>, m: nat)
    requires FreeList(a, first, head, free) && m < |a.own| && a.own[m] == Other
    ensures m < |a.mem| && FreeList(Write(a, m, ZeroFrame()), first, head, free)
  {
    ListStays(a, Write(a, m, ZeroFrame()), first, head, free);
  }

  lemma TakenFilled(p0: Phys, p: Phys, r: Phys, d: nat, lo: int, v: int, m: nat)
    requires Tree(p) && Filled(p0, p, d, lo, v, -1) && m < |p.own| == |p.mem| && p.own[m] == Free
    requires IsDir(p, d) && IsDir(p0, d)
    requires r == Write(Give(p, m, Other), m, ZeroFrame()) && SameMaps(p, r)
    ensures Filled(p0, r, d, lo, v, m)
  {
    forall k: nat, l: nat | l < NENTRIES && InRange(lo, v, k, l)
      ensures ZeroPage(r, d, k, l)
    {
      assert ZeroPage(p, d, k, l) && k < NUSER;
      assert Mapped(r, d, k, l) == Mapped(p, d, k, l);
    }
  }

  /** The next page is mapped. */
  lemma FilledMapped(p0: Phys, p: Phys, r: Phys, d: nat, lo: int, v: nat, m: nat)
    requires Filled(p0, p, d, lo, v, m) && Tree(p) && IsDir(p0, d) && IsDir(p, d) && v < KERNPAGE
    requires m < |p.mem| && p.mem[m] == ZeroFrame()
    requires OneMapped(p, r, d, v / NENTRIES, v % NENTRIES, Some(Entry(m, PTE_P + PTE_W + PTE_U)))
    requires Stable(p, r, m) && NewTables(p, r, d) && m < |r.own| && r.own[m] == PageOf(d, v / NENTRIES, v % NENTRIES)
    ensures Filled(p0, r, d, lo, v + 1, -1) && IsDir(r, d)
  {
    forall k: nat, l: nat | l < NENTRIES && InRange(lo, v + 1, k, l)
      ensures ZeroPage(r, d, k, l)
    {
      if k * NENTRIES + l == v {
        assert k == v / NENTRIES && l == v % NENTRIES;
      } else {
        assert InRange(lo, v, k, l) && ZeroPage(p, d, k, l) && k < NUSER;
        assert Mapped(r, d, k, l) == Mapped(p, d, k, l);
      }
    }
    forall c: nat, k: nat, l: nat | IsDir(p0, c) && !(c == d && InRange(lo, v + 1, k, l))
      ensures Mapped(r, c, k, l) == Mapped(p0, c, k, l)
    {
      assert IsDir(p, c) && !(c == d && InRange(lo, v, k, l));
      assert Mapped(p, c, k, l) == Mapped(p0, c, k, l);
      assert !(c == d && k == v / NENTRIES && l == v % NENTRIES);
    }
    forall f | 0 <= f < |p0.own| && p0.own[f] == Free
      ensures r.own[f] == Free || (r.own[f].TableOf? && r.own[f].dir == d) || Covered(r.own[f], d, lo, v + 1)
    {
      if f != m && p.own[f] != Free {
        assert r.own[f] == p.own[f];
      }
    }
  }

  /** There was no memory for the page table. */
  lemma FilledFailed(p0: Phys, p: Phys, r: Phys, d: nat, lo: int, v: int, m: nat)
    requires Filled(p0, p, d, lo, v, m) && Tree(p) && IsDir(p0, d) && IsDir(p, d)
    requires SameMaps(p, r) && Stable(p, r, -1) && NewTables(p, r, d)
    ensures Filled(p0, r, d, lo, v, m) && IsDir(r, d)
  {
    forall k: nat, l: nat | l < NENTRIES && InRange(lo, v, k, l)
      ensures ZeroPage(r, d, k, l)
    {
      assert ZeroPage(p, d, k, l) && k < NUSER;
      assert Mapped(r, d, k, l) == Mapped(p, d, k, l);
    }
    forall c: nat, k: nat, l: nat | IsDir(p0, c) && !(c == d && InRange(lo, v, k, l))
      ensures Mapped(r, c, k, l) == Mapped(p0, c, k, l)
    {
      assert IsDir(p, c) && Mapped(p, c, k, l) == Mapped(p0, c, k, l);
    }
  }

  /** From `p` to `r` frames were at most made tables of `d`, the frame `x` aside. */
  ghost predicate TablesBut(p: Phys, r: Phys, d: nat, x: int) {
    |r.own| == |p.own| && forall f :: 0 <= f < |p.own| && f != x && p.own[f] == Free ==>
      r.own[f] == Free || (r.own[f].TableOf? && r.own[f].dir == d)
  }

  /** What `allocuvm` mapped, `deallocuvm` unmaps. */
  lemma Undone(p0: Phys, p: Phys, r: Phys, d: nat, lo: int, hi: int, v: int, x: int)
    requires Filled(p0, p, d, lo, v, x) && Cleared(p, r, d, lo, hi) && v <= hi && Unmapped(p0, d, lo, hi)
    requires IsDir(p0, d)
    requires Tree(p0)
    ensures SameMaps(p0, r) && Stable(p0, r, -1) && TablesBut(p0, r, d, x)
      && (x >= 0 ==> x < |r.own| && r.own[x] == Other)
    ensures x == -1 ==> NewTables(p0, r, d)
  {
    forall c: nat, k: nat, l: nat | IsDir(p0, c)
      ensures Mapped(r, c, k, l) == Mapped(p0, c, k, l)
    {
      assert IsDir(p, c);
      if c == d && InRange(lo, hi, k, l) {
        assert Mapped(p0, d, k, l) == None;
      } else {
        assert Mapped(p, c, k, l) == Mapped(p0, c, k, l);
      }
    }
    forall f | 0 <= f < |p0.own|
      ensures p0.own[f] != Free ==> !Covered(p.own[f], d, lo, hi) && p.own[f] == p0.own[f]
    {
      if p0.own[f] != Free && p0.own[f].PageOf? && p0.own[f].dir == d {
        var was := Mapped(p0, d, p0.own[f].i, p0.own[f].j);
      }
    }
    forall f | 0 <= f < |p0.own| && f != x && p0.own[f] == Free
      ensures r.own[f] == Free || (r.own[f].TableOf? && r.own[f].dir == d)
    {
      assert Covered(p.own[f], d, lo, v) ==> Covered(p.own[f], d, lo, hi);
    }
  }

  /** `allocuvm` gives back the frame it could not map. */
  lemma LastFreed(p0: Phys, p: Phys, head: nat, d: nat, m: nat)
    requires Tree(p) && SameMaps(p0, p) && Stable(p0, p, -1) && TablesBut(p0, p, d, m)
    requires m < |p.own| == |p0.own| && p.own[m] == Other && p0.own[m] == Free
    ensures m < |p.mem|
    ensures var r := Give(Write(p, m, Junk(head)), m, Free);
      Tree(r) && SameMaps(p0, r) && Stable(p0, r, -1) && NewTables(p0, r, d)
  {
    KfreeKeeps(p, m, Junk(head));
    hide Tree;
    SameThenSame(p0, p, Give(Write(p, m, Junk(head)), m, Free));
  }

  lemma ClearedStart(p: Phys, d: nat, lo: int)
    requires Tree(p)
    ensures Cleared(p, p, d, lo, lo)
  {
  }

  /** A directory entry that is not there leaves 1024 pages unmapped. */
  lemma NoTable(p: Phys, d: nat, v: nat, m: int)
    requires !HasTable(p, d, v / NENTRIES) && m <= (v / NENTRIES + 1) * NENTRIES
    ensures forall k: nat, l: nat :: InRange(v, m, k, l) ==> Mapped(p, d, k, l) == None
  {
    forall k: nat, l: nat | InRange(v, m, k, l)
      ensures Mapped(p, d, k, l) == None
    {
      if l < NENTRIES {
        assert k == v / NENTRIES;
      }
    }
  }

  lemma NoPage(p: Phys, d: nat, v: nat)
    requires HasTable(p, d, v / NENTRIES) && Table(p, d, v / NENTRIES) < |p.mem|
    requires !Present(p.mem[Table(p, d, v / NENTRIES)][v % NENTRIES])
    ensures forall k: nat, l: nat :: InRange(v, v + 1, k, l) ==> Mapped(p, d, k, l) == None
  {
    forall k: nat, l: nat | InRange(v, v + 1, k, l)
      ensures Mapped(p, d, k, l) == None
    {
      if l < NENTRIES {
        assert k == v / NENTRIES && l == v % NENTRIES;
      }
    }
  }

  /** `p` after `kfree` of page `j` of table `i`, filled with `junk`, with its entry cleared. */
  function Freed(p: Phys, d: nat, i: nat, j: nat, junk: Frame): Phys
    requires HasPage(p, d, i, j) && Page(p, d, i, j).frame < |p.own| == |p.mem|
  {
    var f, t := Page(p, d, i, j).frame, Table(p, d, i);
    var a := Give(Write(p, f, junk), f, Free);
    Write(a, t, a.mem[t][j := Entry(0, 0)])
  }

  lemma FreedKeeps(p: Phys, d: nat, i: nat, j: nat, junk: Frame)
    requires Tree(p) && IsDir(p, d) && HasPage(p, d, i, j) && i < NUSER
    ensures Page(p, d, i, j).frame < |p.own|
    ensures var r := Freed(p, d, i, j, junk); Tree(r) && OneMapped(p, r, d, i, j, None)
  {
    var f, t := Page(p, d, i, j).frame, Table(p, d, i);
    RemovePage(p, d, i, j);
    var q := WithoutPage(p, d, i, j);
    KfreeKeeps(q, f, junk);
    var r := Give(Write(q, f, junk), f, Free);
    FreedAs(p, d, i, j, junk);
    hide Tree;
    SameAfterOne(p, q, r, d, i, j, None);
  }

  /** Freeing the frame first and clearing the entry then comes to the same as the other
      way round. */
  lemma FreedAs(p: Phys, d: nat, i: nat, j: nat, junk: Frame)
    requires Tree(p) && IsDir(p, d) && HasPage(p, d, i, j) && i < NUSER
    ensures var f := Page(p, d, i, j).frame;
      f < |p.own| && Freed(p, d, i, j, junk) == Give(Write(WithoutPage(p, d, i, j), f, junk), f, Free)
  {
    var f, t := Page(p, d, i, j).frame, Table(p, d, i);
    assert f != t;
    var zeroed := p.mem[t][j := Entry(0, 0)];
    assert p.mem[f := junk][t := zeroed] == p.mem[t := zeroed][f := junk];
    assert p.own[f := Other][f := Free] == p.own[f := Free];
  }

  lemma SameAfterOne(p: Phys, q: Phys, r: Phys, d: nat, i: nat, j: nat, m: Option<Entry>)
    requires OneMapped(p, q, d, i, j, m) && SameMaps(q, r) && IsDir(p, d) && (forall c :: IsDir(r, c) ==> IsDir(q, c))
    ensures OneMapped(p, r, d, i, j, m)
  {
    forall c: nat, k: nat, l: nat | IsDir(p, c) && !(c == d && k == i && l == j)
      ensures Mapped(r, c, k, l) == Mapped(p, c, k, l)
    {
      assert IsDir(q, c) && Mapped(r, c, k, l) == Mapped(q, c, k, l);
    }
    assert IsDir(q, d);
  }

  /** The round of `deallocuvm` that finds page `v` mapped. */
  lemma ClearedStep(p0: Phys, p: Phys, first: nat, head: nat, free: seq<nat>, d: nat, lo: int, v: nat)
    requires Tree(p0) && Tree(p) && FreeList(p, first, head, free) && Cleared(p0, p, d, lo, v) && IsDir(p0, d)
    requires IsDir(p, d)
    requires lo <= v < KERNPAGE && HasPage(p, d, v / NENTRIES, v % NENTRIES)
    ensures var i, j := v / NENTRIES, v % NENTRIES;
      var f := Page(p, d, i, j).frame;
      && 0 < f && first <= f < |p.mem| == |p.own| && p.own[f] != Free && f != Table(p, d, i) < |p.mem|
      && Tree(Freed(p, d, i, j, Junk(head))) && FreeList(Freed(p, d, i, j, Junk(head)), first, f, [f] + free)
      && Cleared(p0, Freed(p, d, i, j, Junk(head)), d, lo, v + 1)
  {
    hide Cleared;
    var i, j := v / NENTRIES, v % NENTRIES;
    TreeSize(p);
    FreedKeeps(p, d, i, j, Junk(head));
    var r := Freed(p, d, i, j, Junk(head));
    FreedList(p, first, head, free, d, i, j);
    FreedClears(p0, p, r, d, i, j, lo, Junk(head));
  }

  lemma FreedList(p: Phys, first: nat, head: nat, free: seq<nat>, d: nat, i: nat, j: nat)
    requires Tree(p) && FreeList(p, first, head, free) && IsDir(p, d) && HasPage(p, d, i, j) && i < NUSER
    ensures var f := Page(p, d, i, j).frame;
      && 0 < f && first <= f < |p.mem| == |p.own| && p.own[f] != Free && f != Table(p, d, i) < |p.mem|
      && FreeList(Freed(p, d, i, j, Junk(head)), first, f, [f] + free)
  {
    var f, t := Page(p, d, i, j).frame, Table(p, d, i);
    assert p.own[f] == PageOf(d, i, j) && p.own[t] == TableOf(d, i);
    Pushed(p, first, head, free, f);
    var a := Give(Write(p, f, Junk(head)), f, Free);
    hide Tree;
    ListStays(a, Freed(p, d, i, j, Junk(head)), first, f, [f] + free);
  }

  lemma FreedClears(p0: Phys, p: Phys, r: Phys, d: nat, i: nat, j: nat, lo: int, junk: Frame)
    requires Tree(p0) && Tree(p) && IsDir(p0, d) && IsDir(p, d) && HasPage(p, d, i, j) && i < NUSER
    requires Cleared(p0, p, d, lo, i * NENTRIES + j) && lo <= i * NENTRIES + j
    requires Page(p, d, i, j).frame < |p.own| == |p.mem| && r == Freed(p, d, i, j, junk)
    requires OneMapped(p, r, d, i, j, None)
    ensures Cleared(p0, r, d, lo, i * NENTRIES + j + 1)
  {
    var v, f, t := i * NENTRIES + j, Page(p, d, i, j).frame, Table(p, d, i);
    assert p.own[f] == PageOf(d, i, j) && p.own[t] == TableOf(d, i);
    forall c: nat, k: nat, l: nat | IsDir(p0, c)
      ensures Mapped(r, c, k, l) == if c == d && InRange(lo, v + 1, k, l) then None else Mapped(p0, c, k, l)
    {
      assert IsDir(p, c);
      if c == d && k * NENTRIES + l == v {
        if l < NENTRIES {
          assert k == i && l == j;
        } else {
          assert Mapped(r, c, k, l) == None;
        }
      } else {
        assert Mapped(r, c, k, l) == Mapped(p, c, k, l);
        assert InRange(lo, v + 1, k, l) <==> InRange(lo, v, k, l) || k * NENTRIES + l == v;
      }
    }
    forall g | 0 <= g < |p0.own|
      ensures r.own[g] == if Covered(p0.own[g], d, lo, v + 1) then Free else p0.own[g]
      ensures (p0.own[g].PageOf? || p0.own[g].Other?) && !Covered(p0.own[g], d, lo, v + 1) ==> r.mem[g] == p0.mem[g]
    {
      var o := p0.own[g];
      if o.PageOf? && o.dir == d && o.i * NENTRIES + o.j == v {
        SamePlace(p0, o, i, j, g);
        assert p.own[g] == o && Page(p, d, i, j).frame == g;
      }
    }
  }

  /** A page number determines table and entry. */
  lemma SamePlace(p: Phys, o: Owner, i: nat, j: nat, g: nat)
    requires Tree(p) && g < |p.own| && p.own[g] == o && o.PageOf? && o.i * NENTRIES + o.j == i * NENTRIES + j
    requires j < NENTRIES
    ensures o.i == i && o.j == j && IsDir(p, o.dir) && HasPage(p, o.dir, i, j)
  {
    assert HasPage(p, o.dir, o.i, o.j);
  }

  lemma ClearedDir(p0: Phys, p: Phys, d: nat, lo: int, v: int)
    requires Cleared(p0, p, d, lo, v) && IsDir(p0, d)
    ensures IsDir(p, d)
  {
  }

  /** Pages that are not mapped need no clearing. */
  lemma ClearedSkip(p0: Phys, p: Phys, d: nat, lo: int, v: int, m: int)
    requires Tree(p0) && Cleared(p0, p, d, lo, v) && IsDir(p0, d) && lo <= v <= m
    requires forall k: nat, l: nat :: InRange(v, m, k, l) ==> Mapped(p, d, k, l) == None
    ensures Cleared(p0, p, d, lo, m)
  {
    forall f | 0 <= f < |p0.own|
      ensures !Covered(p0.own[f], d, v, m)
    {
      if p0.own[f].PageOf? {
        var now := Mapped(p, d, p0.own[f].i, p0.own[f].j);
      }
    }
    forall c: nat, k: nat, l: nat | IsDir(p0, c)
      ensures Mapped(p, c, k, l) == if c == d && InRange(lo, m, k, l) then None else Mapped(p0, c, k, l)
    {
      assert InRange(lo, m, k, l) ==> InRange(lo, v, k, l) || InRange(v, m, k, l);
    }
  }

  /** `perm | PTE_P` */
  function WithP(perm: nat): (r: nat)
    ensures r % 2 == 1 && r / 2 == perm / 2
  {
    if perm % 2 == 1 then perm else perm + 1
  }

  lemma NotMapped(p: Phys, r: Phys, d: nat, i: nat, j: nat)
    requires SameMaps(p, r) && IsDir(p, d) && Mapped(p, d, i, j) == None
    ensures IsDir(r, d) && Mapped(r, d, i, j) == None && !HasPage(r, d, i, j)
  {
  }

  /** The entry written by `mappages`, after `walkpgdir` has led from `p0` to `p`. */
  lemma SetEntry(p0: Phys, p: Phys, first: nat, head: nat, free: seq<nat>, d: nat, i: nat, j: nat, e: Entry)
    requires Tree(p) && FreeList(p, first, head, free) && IsDir(p, d) && HasTable(p, d, i) && j < NENTRIES
    requires !HasPage(p, d, i, j)
    requires Present(e) && (i < NUSER ==> first <= e.frame < |p0.own| && p0.own[e.frame] == Other)
    requires IsDir(p0, d) && SameMaps(p0, p) && Stable(p0, p, -1) && NewTables(p0, p, d)
    ensures Table(p, d, i) < |p.mem| && (i < NUSER ==> e.frame < |p.own|)
    ensures var r := if i < NUSER then WithPage(p, d, i, j, e) else WithEntry(p, d, i, j, e);
      && Tree(r) && FreeList(r, first, head, free) && OneMapped(p0, r, d, i, j, Some(e))
      && NewTables(p0, r, d) && Stable(p0, r, if i < NUSER then e.frame else -1)
      && (i < NUSER ==> r.own[e.frame] == PageOf(d, i, j))
  {
    hide Tree, SameMaps, OneMapped, FreeList, Stable, NewTables;
    TreeSize(p);
    TableFrame(p, first, head, free, d, i);
    DirsBefore(p0, p, d);
    var t, x := Table(p, d, i), if i < NUSER then e.frame as int else -1;
    var c := p.mem[t][j := e];
    var r;
    if i < NUSER {
      StillOther(p0, p, e.frame);
      AddPage(p, d, i, j, e);
      r := WithPage(p, d, i, j, e);
    } else {
      AddKernel(p, d, i, j, e);
      r := WithEntry(p, d, i, j, e);
    }
    EntryStable(p0, p, r, first, head, free, d, t, c, x);
    OneAfterSame(p0, p, r, d, i, j, Some(e));
  }

  lemma StillOther(p0: Phys, p: Phys, x: nat)
    requires Stable(p0, p, -1) && x < |p0.own| && p0.own[x] == Other
    ensures x < |p.own| && p.own[x] == Other
  {
  }

  lemma DirsBefore(p0: Phys, p: Phys, d: nat)
    requires Stable(p0, p, -1) && NewTables(p0, p, d)
    ensures |p0.own| == |p.own| && forall c: nat :: IsDir(p, c) ==> IsDir(p0, c)
  {
    forall c: nat | IsDir(p, c)
      ensures IsDir(p0, c)
    {
      assert p0.own[c] != Free;
    }
  }

  /** A table is written, and frame `x`, if it is one, becomes a page. */
  lemma EntryStable(p0: Phys, p: Phys, r: Phys, first: nat, head: nat, free: seq<nat>, d: nat, t: nat, c: Frame, x: int)
    requires Stable(p0, p, -1) && NewTables(p0, p, d) && FreeList(p, first, head, free)
    requires t < |p.own| == |p.mem| && p.own[t].TableOf? && r.mem == p.mem[t := c]
    requires x < 0 ==> r.own == p.own && x == -1
    requires x >= 0 ==> first <= x < |p.own| && p0.own[x] == Other == p.own[x]
    requires x >= 0 ==> |r.own| == |p.own| && r.own[x].PageOf? && r.own == p.own[x := r.own[x]]
    ensures Stable(p0, r, x) && NewTables(p0, r, d) && FreeList(r, first, head, free)
  {
    hide FreeList;
    ListStays(p, r, first, head, free);
  }

  lemma OneAfterSame(p: Phys, q: Phys, r: Phys, d: nat, i: nat, j: nat, m: Option<Entry>)
    requires SameMaps(p, q) && OneMapped(q, r, d, i, j, m) && (forall c :: IsDir(q, c) ==> IsDir(p, c))
    ensures OneMapped(p, r, d, i, j, m)
  {
    forall c: nat, k: nat, l: nat | IsDir(p, c) && !(c == d && k == i && l == j)
      ensures Mapped(r, c, k, l) == Mapped(p, c, k, l)
    {
      assert IsDir(q, c) && Mapped(q, c, k, l) == Mapped(p, c, k, l);
    }
    assert forall c :: IsDir(p, c) ==> IsDir(q, c) && Mapped(q, c, i, j) == Mapped(p, c, i, j);
  }

  lemma ListEmpty(p: Phys, first: nat, head: nat, free: seq<nat>)
    requires FreeList(p, first, head, free)
    ensures head == 0 <==> free == []
    ensures free != [] ==> free[0] == head && first <= head < |p.mem| == |p.own| && p.own[head] == Free
  {
  }

  lemma TreeSize(p: Phys)
    requires Tree(p)
    ensures |p.own| == |p.mem|
  {
  }

  lemma KfreeKeeps(p: Phys, f: nat, junk: Frame)
    requires Tree(p) && f < |p.own| && p.own[f] == Other
    ensures f < |p.mem|
    ensures var r := Give(Write(p, f, junk), f, Free); Tree(r) && SameMaps(p, r)
  {
    WriteKeeps(p, f, junk);
    GiveKeeps(Write(p, f, junk), f, Free);
    SameThenSame(p, Write(p, f, junk), Give(Write(p, f, junk), f, Free));
  }

  lemma SameThenSame(p: Phys, q: Phys, r: Phys)
    requires SameMaps(p, q) && SameMaps(q, r)
    ensures SameMaps(p, r)
  {
    forall d: nat, i: nat, j: nat | IsDir(p, d)
      ensures IsDir(r, d) && Mapped(r, d, i, j) == Mapped(p, d, i, j)
    {
      assert IsDir(q, d) && Mapped(q, d, i, j) == Mapped(p, d, i, j);
    }
  }

  lemma Unchanged(p: Phys, d: nat)
    requires |p.own| == |p.mem|
    ensures SameMaps(p, p) && Stable(p, p, -1) && NewTables(p, p, d)
  {
  }

  /** A table lies in the pool. */
  lemma TableApart(p0: Phys, p: Phys, first: nat, head: nat, free: seq<nat>, d: nat, i: nat)
    requires Tree(p) && FreeList(p, first, head, free) && IsDir(p0, d) && SameMaps(p0, p) && HasTable(p, d, i)
    ensures Table(p, d, i) != d
  {
    TableFrame(p, first, head, free, d, i);
  }

  lemma TableFrame(p: Phys, first: nat, head: nat, free: seq<nat>, d: nat, i: nat)
    requires Tree(p) && FreeList(p, first, head, free) && IsDir(p, d) && HasTable(p, d, i)
    ensures 0 < Table(p, d, i) < |p.mem| && p.own[Table(p, d, i)] == TableOf(d, i)
  {
  }

  /** The new table of `walkpgdir`, from the frame `t` that was free in `p`. */
  lemma NewTable(p: Phys, first: nat, head: nat, free: seq<nat>, d: nat, i: nat, t: nat, flags: nat)
    requires Tree(p) && IsDir(p, d) && i < NENTRIES && !HasTable(p, d, i) && flags == PTE_P + PTE_W + PTE_U
    requires t < |p.own| && first <= t && p.own[t] == Free && FreeList(Give(p, t, Other), first, head, free)
    ensures t < |p.mem| && d < |p.mem|
    ensures var r := WithTable(Write(Give(p, t, Other), t, ZeroFrame()), d, i, t, flags);
      && Tree(r) && FreeList(r, first, head, free) && SameMaps(p, r) && Stable(p, r, -1) && NewTables(p, r, d)
      && HasTable(r, d, i) && Table(r, d, i) == t
  {
    var a := Give(p, t, Other);
    var b := Write(a, t, ZeroFrame());
    var r := WithTable(b, d, i, t, flags);
    NewTableMaps(p, d, i, t, flags);
    hide Tree, SameMaps;
    ListStays(a, r, first, head, free);
  }

  lemma NewTableMaps(p: Phys, d: nat, i: nat, t: nat, flags: nat)
    requires Tree(p) && IsDir(p, d) && i < NENTRIES && !HasTable(p, d, i) && flags == PTE_P + PTE_W + PTE_U
    requires t < |p.own| && p.own[t] == Free
    ensures t < |p.mem| && d < |p.mem|
    ensures var r := WithTable(Write(Give(p, t, Other), t, ZeroFrame()), d, i, t, flags);
      Tree(r) && SameMaps(p, r) && HasTable(r, d, i) && Table(r, d, i) == t
  {
    hide Tree;
    TreeSize(p);
    var a := Give(p, t, Other);
    GiveKeeps(p, t, Other);
    var b := Write(a, t, ZeroFrame());
    WriteKeeps(a, t, ZeroFrame());
    AddTable(b, d, i, t, flags);
    var r := WithTable(b, d, i, t, flags);
    SameThenSame(p, a, b);
    SameThenSame(p, b, r);
  }

  // ---- mappages ----

  lemma RunStart(p: Phys, d: nat, v: nat, frame: nat, perm: nat)
    requires |p.own| == |p.mem|
    ensures RunMapped(p, p, d, v, v, frame, perm)
  {
  }

  lemma RunNext(p0: Phys, p: Phys, d: nat, v: nat, hi: nat, a: nat, frame: nat, perm: nat)
    requires RunMapped(p0, p, d, v, v + a, frame, perm) && Unmapped(p0, d, v, hi) && v + a < hi && IsDir(p0, d)
    ensures Mapped(p, d, (v + a) / NENTRIES, (v + a) % NENTRIES) == None
  {
    var i, j := (v + a) / NENTRIES, (v + a) % NENTRIES;
    assert InRange(v, hi, i, j) && !InRange(v, v + a, i, j);
  }

  lemma StableThen(p: Phys, q: Phys, r: Phys, d: nat)
    requires Stable(p, q, -1) && NewTables(p, q, d) && Stable(q, r, -1) && NewTables(q, r, d)
    ensures Stable(p, r, -1) && NewTables(p, r, d)
  {
    forall f | 0 <= f < |p.own| && p.own[f] == Free
      ensures r.own[f] == Free || (r.own[f].TableOf? && r.own[f].dir == d)
    {
      assert q.own[f] != Free ==> r.own[f] == q.own[f];
    }
  }

  lemma RunFailed(p0: Phys, q: Phys, p: Phys, d: nat, v: nat, hi: nat, m: nat, frame: nat, perm: nat)
    requires RunMapped(p0, q, d, v, m, frame, perm) && m <= hi && NewTables(q, p, d) && Stable(q, p, -1)
    requires SameMaps(q, p)
    ensures RunTried(p0, p, d, v, hi)
  {
    StableThen(p0, q, p, d);
    forall c: nat, k: nat, l: nat | IsDir(p0, c) && !(c == d && InRange(v, hi, k, l))
      ensures Mapped(p, c, k, l) == Mapped(p0, c, k, l)
    {
      assert IsDir(q, c) && !(c == d && InRange(v, m, k, l));
      assert Mapped(q, c, k, l) == Mapped(p0, c, k, l);
    }
  }

  lemma RunStep(p0: Phys, q: Phys, p: Phys, d: nat, v: nat, m: nat, frame: nat, perm: nat)
    requires RunMapped(p0, q, d, v, m, frame, perm) && NewTables(q, p, d) && Stable(q, p, -1) && IsDir(q, d)
    requires OneMapped(q, p, d, m / NENTRIES, m % NENTRIES, Some(Entry(frame + (m - v), WithP(perm))))
    ensures RunMapped(p0, p, d, v, m + 1, frame, perm) && IsDir(p, d)
  {
    StableThen(p0, q, p, d);
    var i, j := m / NENTRIES, m % NENTRIES;
    forall k: nat, l: nat | l < NENTRIES && InRange(v, m + 1, k, l)
      ensures Mapped(p, d, k, l) == Some(Entry(frame + (k * NENTRIES + l - v), WithP(perm)))
    {
      if k * NENTRIES + l == m {
        assert k == i && l == j;
      } else {
        assert InRange(v, m, k, l);
        assert Mapped(p, d, k, l) == Mapped(q, d, k, l);
      }
    }
    forall c: nat, k: nat, l: nat | IsDir(p0, c) && !(c == d && InRange(v, m + 1, k, l))
      ensures Mapped(p, c, k, l) == Mapped(p0, c, k, l)
    {
      assert IsDir(q, c) && !(c == d && InRange(v, m, k, l)) && !(c == d && k == i && l == j);
      assert Mapped(q, c, k, l) == Mapped(p0, c, k, l);
    }
  }

  lemma RunDone(p0: Phys, p: Phys, d: nat, v: nat, hi: nat, frame: nat, perm: nat)
    requires RunMapped(p0, p, d, v, hi, frame, perm)
    ensures RunTried(p0, p, d, v, hi)
  {
  }

  // ---- setupkvm ----

  lemma RestoredSelf(p: Phys)
    requires |p.own| == |p.mem|
    ensures Restored(p, p)
  {
  }

  lemma BuiltStart(p0: Phys, first: nat, head: nat, free: seq<nat>, d: nat, kmap: seq<Kmap>)
    requires Tree(p0) && d < |p0.own| && p0.own[d] == Free && FreeList(Give(p0, d, Other), first, head, free)
    requires first <= d
    ensures d < |p0.mem|
    ensures var r := Give(Write(Give(p0, d, Other), d, ZeroFrame()), d, Dir);
      Tree(r) && FreeList(r, first, head, free) && Built(p0, r, d, -1) && IsDir(r, d) && KernelOnly(r, d, kmap, 0)
  {
    hide FreeList;
    TreeSize(p0);
    var a := Give(p0, d, Other);
    GiveKeeps(p0, d, Other);
    var b := Write(a, d, ZeroFrame());
    WriteKeeps(a, d, ZeroFrame());
    AddDir(b, d);
    var r := Give(b, d, Dir);
    SameThenSame(p0, a, b);
    SameThenSame(p0, b, r);
    NewDirList(a, first, head, free, d);
    NobodyElse(p0, d);
  }

  lemma NewDirList(a: Phys, first: nat, head: nat, free: seq<nat>, d: nat)
    requires FreeList(a, first, head, free) && d < |a.own| && a.own[d] == Other && first <= d
    ensures d < |a.mem| && FreeList(Give(Write(a, d, ZeroFrame()), d, Dir), first, head, free)
  {
    ListStays(a, Give(Write(a, d, ZeroFrame()), d, Dir), first, head, free);
  }

  /** A frame that is no directory has no tables and no pages. */
  lemma NobodyElse(p: Phys, d: nat)
    requires Tree(p) && d < |p.own| && p.own[d] == Free
    ensures forall f :: 0 <= f < |p.own| && f != d ==> !PartOf(p.own[f], f, d)
  {
  }

  lemma {:induction false} NotBefore(kmap: seq<Kmap>, m: nat, n: nat, v: nat)
    requires KernelRuns(kmap) && m <= n < |kmap| && InRun(kmap[n], v)
    ensures KernelEntry(kmap, m, v) == None
  {
    if m == 0 {
    } else {
      NotBefore(kmap, m - 1, n, v);
    }
  }

  lemma {:induction false} KernelHigh(kmap: seq<Kmap>, m: nat, v: nat)
    requires KernelRuns(kmap) && m <= |kmap| && v < KERNPAGE
    ensures KernelEntry(kmap, m, v) == None
  {
    if m == 0 {
    } else {
      KernelHigh(kmap, m - 1, v);
    }
  }

  lemma RunFree(p: Phys, d: nat, kmap: seq<Kmap>, n: nat)
    requires KernelRuns(kmap) && KernelOnly(p, d, kmap, n) && n < |kmap|
    ensures Unmapped(p, d, kmap[n].virt, kmap[n].virt + kmap[n].npages)
  {
    forall k: nat, l: nat | InRange(kmap[n].virt, kmap[n].virt + kmap[n].npages, k, l)
      ensures Mapped(p, d, k, l) == None
    {
      NotBefore(kmap, n, n, k * NENTRIES + l);
    }
  }

  lemma BuiltTried(p0: Phys, q: Phys, p: Phys, d: nat, lo: nat, hi: nat)
    requires Built(p0, q, d, -1) && RunTried(q, p, d, lo, hi) && Tree(p0)
    ensures Built(p0, p, d, -1) && IsDir(p, d)
  {
    BuiltGrows(p0, q, p, d, -1);
  }

  /** The new address space gets another table; nothing else changes. */
  lemma BuiltGrows(p0: Phys, q: Phys, p: Phys, d: nat, x: int)
    requires Built(p0, q, d, x) && Tree(p0) && Stable(q, p, -1) && NewTables(q, p, d)
    requires forall c: nat :: IsDir(q, c) ==> IsDir(p, c)
    requires forall c: nat, k: nat, l: nat :: IsDir(q, c) && c != d ==> Mapped(p, c, k, l) == Mapped(q, c, k, l)
    ensures Built(p0, p, d, x)
  {
    forall c: nat, k: nat, l: nat | IsDir(p0, c)
      ensures Mapped(p, c, k, l) == Mapped(p0, c, k, l)
    {
      assert IsDir(q, c) && c != d && Mapped(q, c, k, l) == Mapped(p0, c, k, l);
    }
    forall f | 0 <= f < |p0.own|
      ensures f != x && p0.own[f] == Free ==> p.own[f] == Free || PartOf(p.own[f], f, d)
      ensures PartOf(p.own[f], f, d) ==> p0.own[f] == Free
    {
      assert q.own[f] != Free ==> p.own[f] == q.own[f];
      assert p0.own[f] != Free ==> q.own[f] == p0.own[f];
    }
  }

  lemma RunAdded(q: Phys, p: Phys, d: nat, kmap: seq<Kmap>, n: nat)
    requires KernelRuns(kmap) && n < |kmap| && KernelOnly(q, d, kmap, n) && IsDir(q, d)
    requires RunMapped(q, p, d, kmap[n].virt, kmap[n].virt + kmap[n].npages, kmap[n].phys, kmap[n].perm)
    ensures KernelOnly(p, d, kmap, n + 1)
  {
    forall k: nat, l: nat
      ensures Mapped(p, d, k, l) == if l < NENTRIES then KernelEntry(kmap, n + 1, k * NENTRIES + l) else None
    {
      assert Mapped(q, d, k, l) == if l < NENTRIES then KernelEntry(kmap, n, k * NENTRIES + l) else None;
      assert InRange(kmap[n].virt, kmap[n].virt + kmap[n].npages, k, l) <==> InRun(kmap[n], k * NENTRIES + l);
    }
  }

  /** Giving up what has been built restores everything. */
  lemma Unbuilt(p0: Phys, b: Phys, p: Phys, d: nat)
    requires Built(p0, b, d, -1) && Released(b, p, d)
    ensures Restored(p0, p)
  {
    forall c: nat, k: nat, l: nat | IsDir(p0, c)
      ensures IsDir(p, c) && Mapped(p, c, k, l) == Mapped(p0, c, k, l)
    {
      assert IsDir(b, c) && c != d && Mapped(b, c, k, l) == Mapped(p0, c, k, l);
    }
    assert p.own == p0.own;
  }

  // ---- copyuvm ----

  lemma CopiedStart(p0: Phys, p: Phys, src: nat, d: nat, kmap: seq<Kmap>)
    requires KernelOnly(p, d, kmap, |kmap|)
    ensures Copied(p0, p, src, d, kmap, 0)
  {
  }

  /** The page to be copied is still what it was, and owned by `src`. */
  lemma CopySource(p0: Phys, p: Phys, src: nat, d: nat, hi: nat, v: nat)
    requires Built(p0, p, d, -1) && AllMapped(p0, src, hi) && v < hi <= KERNPAGE && IsDir(p0, src) && Tree(p0)
    ensures var i, j := v / NENTRIES, v % NENTRIES;
      && IsDir(p, src) && HasPage(p0, src, i, j) && HasPage(p, src, i, j) && Page(p, src, i, j) == Page(p0, src, i, j)
      && Page(p, src, i, j).frame < |p0.mem| == |p.mem| == |p.own|
        && p.mem[Page(p, src, i, j).frame] == p0.mem[Page(p, src, i, j).frame]
  {
    var i, j := v / NENTRIES, v % NENTRIES;
    assert InRange(0, hi, i, j) && i < NUSER;
    assert Mapped(p, src, i, j) == Mapped(p0, src, i, j);
  }

  lemma BuiltDir(p0: Phys, p: Phys, d: nat)
    requires Built(p0, p, d, -1)
    ensures IsDir(p, d)
  {
  }

  lemma CopyTarget(p0: Phys, p: Phys, src: nat, d: nat, kmap: seq<Kmap>, v: nat)
    requires KernelRuns(kmap) && Copied(p0, p, src, d, kmap, v) && v < KERNPAGE
    ensures Mapped(p, d, v / NENTRIES, v % NENTRIES) == None
  {
    KernelHigh(kmap, |kmap|, v);
    assert !InRange(0, v, v / NENTRIES, v % NENTRIES);
  }

  /** The frame for the copy, with the contents copied into it. */
  lemma CopyTaken(p0: Phys, q: Phys, first: nat, head: nat, free: seq<nat>, src: nat, d: nat, kmap: seq<Kmap>,
      v: nat, m: nat)
    requires Tree(p0) && Tree(q) && Built(p0, q, d, -1) && Copied(p0, q, src, d, kmap, v) && v < KERNPAGE
    requires m < |q.own| && q.own[m] == Free
    requires FreeList(Give(q, m, Other), first, head, free)
    requires var i, j := v / NENTRIES, v % NENTRIES;
      && HasPage(p0, src, i, j) && HasPage(q, src, i, j) && Page(q, src, i, j) == Page(p0, src, i, j)
      && Page(q, src, i, j).frame < |p0.mem| == |q.mem|
        && q.mem[Page(q, src, i, j).frame] == p0.mem[Page(q, src, i, j).frame]
    requires Mapped(q, d, v / NENTRIES, v % NENTRIES) == None
    ensures m < |q.mem|
    ensures var r := Write(Give(q, m, Other), m, q.mem[Page(q, src, v / NENTRIES, v % NENTRIES).frame]);
      && Tree(r) && FreeList(r, first, head, free) && Built(p0, r, d, m) && Copied(p0, r, src, d, kmap, v)
        && IsDir(r, d)
      && Mapped(r, d, v / NENTRIES, v % NENTRIES) == None && r.own[m] == Other
  {
    hide FreeList, Copied, Tree, SameMaps, Built, Stable;
    TreeSize(q);
    BuiltDir(p0, q, d);
    var c := q.mem[Page(q, src, v / NENTRIES, v % NENTRIES).frame];
    var a := Give(q, m, Other);
    GiveKeeps(q, m, Other);
    WriteKeeps(a, m, c);
    var r := Write(a, m, c);
    SameThenSame(q, a, r);
    BuiltTaken(p0, q, r, d, m, c);
    FrameWritten(a, first, head, free, m, c);
    CopiedKept(p0, q, r, src, d, kmap, v, m);
    SameNone(q, r, d, v / NENTRIES, v % NENTRIES);
  }

  lemma SameNone(q: Phys, r: Phys, d: nat, i: nat, j: nat)
    requires SameMaps(q, r) && IsDir(q, d) && Mapped(q, d, i, j) == None
    ensures IsDir(r, d) && Mapped(r, d, i, j) == None
  {
  }

  /** One free frame more is taken, and written. */
  lemma BuiltTaken(p0: Phys, q: Phys, r: Phys, d: nat, m: nat, c: Frame)
    requires Built(p0, q, d, -1) && m < |q.own| && q.own[m] == Free && |q.own| == |q.mem|
    requires r == Write(Give(q, m, Other), m, c) && SameMaps(q, r)
    ensures Built(p0, r, d, m)
  {
    SameThenSame(p0, q, r);
  }

  lemma FrameWritten(a: Phys, first: nat, head: nat, free: seq<nat>, m: nat, c: Frame)
    requires FreeList(a, first, head, free) && m < |a.own| && a.own[m] == Other
    ensures m < |a.mem| && FreeList(Write(a, m, c), first, head, free)
  {
    ListStays(a, Write(a, m, c), first, head, free);
  }

  /** The pages copied so far stay, when only frames that are no pages are written. */
  lemma CopiedKept(p0: Phys, q: Phys, r: Phys, src: nat, d: nat, kmap: seq<Kmap>, v: nat, x: int)
    requires Tree(q) && Copied(p0, q, src, d, kmap, v) && IsDir(q, d) && SameMaps(q, r) && |r.mem| == |q.mem|
    requires forall f :: 0 <= f < |q.own| && q.own[f].PageOf? ==> r.mem[f] == q.mem[f]
    ensures Copied(p0, r, src, d, kmap, v)
  {
    forall k: nat, l: nat | l < NENTRIES && InRange(0, v, k, l)
      ensures CopyOf(p0, r, src, d, k, l)
    {
      assert CopyOf(p0, q, src, d, k, l) && k < NUSER;
      assert Mapped(r, d, k, l) == Mapped(q, d, k, l);
    }
    forall k: nat, l: nat | !(l < NENTRIES && InRange(0, v, k, l))
      ensures Mapped(r, d, k, l) == if l < NENTRIES then KernelEntry(kmap, |kmap|, k * NENTRIES + l) else None
    {
      assert Mapped(r, d, k, l) == Mapped(q, d, k, l);
    }
  }

  /** `copyuvm` gives back the frame it could not map. */
  lemma CopyFailed(p0: Phys, a: Phys, p: Phys, d: nat, m: nat, junk: Frame)
    requires Tree(p0) && Tree(p) && Built(p0, a, d, m) && SameMaps(a, p) && Stable(a, p, -1) && NewTables(a, p, d)
    ensures m < |p.own| == |p.mem| && p.own[m] == Other
    ensures var r := Give(Write(p, m, junk), m, Free); Tree(r) && Built(p0, r, d, -1) && IsDir(r, d)
  {
    BuiltGrows(p0, a, p, d, m);
    KfreeKeeps(p, m, junk);
    var r := Give(Write(p, m, junk), m, Free);
    SameThenSame(p0, p, r);
  }

  lemma CopyStep(p0: Phys, a: Phys, p: Phys, src: nat, d: nat, kmap: seq<Kmap>, v: nat, m: nat, flags: nat)
    requires Tree(p0) && Tree(a) && Built(p0, a, d, m) && Copied(p0, a, src, d, kmap, v) && v < KERNPAGE
    requires flags % 2 == 1
    requires OneMapped(a, p, d, v / NENTRIES, v % NENTRIES, Some(Entry(m, WithP(flags))))
    requires Stable(a, p, m) && NewTables(a, p, d) && m < |p.own| && p.own[m] == PageOf(d, v / NENTRIES, v % NENTRIES)
    requires var i, j := v / NENTRIES, v % NENTRIES;
      HasPage(p0, src, i, j) && Page(p0, src, i, j).frame < |p0.mem| && Page(p0, src, i, j).flags == flags
      && m < |a.mem| && a.mem[m] == p0.mem[Page(p0, src, i, j).frame]
    ensures Built(p0, p, d, -1) && Copied(p0, p, src, d, kmap, v + 1)
  {
    var i, j := v / NENTRIES, v % NENTRIES;
    CopiedOneMore(p0, a, p, src, d, kmap, v, m, flags);
    hide Copied, Tree;
    NotInBuilt(p0, a, p, d, m);
    forall c: nat, k: nat, l: nat | IsDir(p0, c)
      ensures IsDir(p, c) && Mapped(p, c, k, l) == Mapped(p0, c, k, l)
    {
      assert IsDir(a, c) && c != d && Mapped(a, c, k, l) == Mapped(p0, c, k, l);
    }
  }

  lemma NotInBuilt(p0: Phys, a: Phys, p: Phys, d: nat, m: nat)
    requires Built(p0, a, d, m) && Stable(a, p, m) && NewTables(a, p, d) && p.own[m].PageOf? && p.own[m].dir == d
    ensures Stable(p0, p, -1)
    ensures forall f :: 0 <= f < |p0.own| && p0.own[f] == Free ==> p.own[f] == Free || PartOf(p.own[f], f, d)
    ensures forall f :: 0 <= f < |p0.own| && PartOf(p.own[f], f, d) ==> p0.own[f] == Free
  {
    forall f | 0 <= f < |p0.own|
      ensures p0.own[f] == Free ==> p.own[f] == Free || PartOf(p.own[f], f, d)
      ensures PartOf(p.own[f], f, d) ==> p0.own[f] == Free
    {
      assert f != m && a.own[f] != Free ==> p.own[f] == a.own[f];
      assert p0.own[f] != Free ==> a.own[f] == p0.own[f];
    }
  }

  lemma CopiedOneMore(p0: Phys, a: Phys, p: Phys, src: nat, d: nat, kmap: seq<Kmap>, v: nat, m: nat, flags: nat)
    requires Tree(a) && IsDir(a, d) && Copied(p0, a, src, d, kmap, v) && v < KERNPAGE && flags % 2 == 1
    requires OneMapped(a, p, d, v / NENTRIES, v % NENTRIES, Some(Entry(m, WithP(flags))))
    requires Stable(a, p, m) && m < |a.own| && a.own[m] == Other
    requires var i, j := v / NENTRIES, v % NENTRIES;
      HasPage(p0, src, i, j) && Page(p0, src, i, j).frame < |p0.mem| && Page(p0, src, i, j).flags == flags
      && m < |a.mem| && a.mem[m] == p0.mem[Page(p0, src, i, j).frame]
    ensures Copied(p0, p, src, d, kmap, v + 1)
  {
    var i, j := v / NENTRIES, v % NENTRIES;
    forall k: nat, l: nat | l < NENTRIES && InRange(0, v + 1, k, l)
      ensures CopyOf(p0, p, src, d, k, l)
    {
      if k * NENTRIES + l == v {
        assert k == i && l == j;
      } else {
        assert InRange(0, v, k, l) && CopyOf(p0, a, src, d, k, l) && k < NUSER;
        assert Mapped(p, d, k, l) == Mapped(a, d, k, l);
      }
    }
    forall k: nat, l: nat | !(l < NENTRIES && InRange(0, v + 1, k, l))
      ensures Mapped(p, d, k, l) == if l < NENTRIES then KernelEntry(kmap, |kmap|, k * NENTRIES + l) else None
    {
      assert !(l < NENTRIES && InRange(0, v, k, l)) && !(k == i && l == j);
      assert Mapped(p, d, k, l) == Mapped(a, d, k, l);
    }
  }
}

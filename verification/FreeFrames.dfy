/** project3/kalloc.c: the list of free frames, linked through the frames themselves. */
module FreeFrames {
  import opened Lists
  import opened PageTables

  /** KERNBASE / PGSIZE: the kernel addresses frame `f` as page `KERNFRAME + f`. */
  const KERNFRAME: nat := 0x80000

  /** The word that points to frame `f`; 0 is the null pointer. */
  function Link(f: nat): Entry {
    if f == 0 then Entry(0, 0) else Entry(KERNFRAME + f, 0)
  }

  function LinkedFrame(e: Entry): nat {
    if e.frame < KERNFRAME then 0 else e.frame - KERNFRAME
  }

  /** What `kfree` leaves in a frame: the link, and 1 in every other byte. */
  function Junk(next: nat): (f: Frame)
    ensures f[0] == Link(next)
  {
    seq(NENTRIES, i => Entry(0x01010, 0x101))[0 := Link(next)]
  }

  predicate LinkAt(mem: seq<Frame>, free: seq<nat>, i: nat)
    requires i < |free| && free[i] < |mem|
  {
    mem[free[i]][0] == Link(if i + 1 < |free| then free[i + 1] else 0)
  }

  /** The free frames, each once, are those on the list from `head`; every frame that is
      free or in an address space lies in the pool, which starts at `first`. */
  ghost predicate FreeList(p: Phys, first: nat, head: nat, free: seq<nat>) {
    && 1 <= first && |p.own| == |p.mem| && NoRepeat(free)
    && (forall i :: 0 <= i < |free| ==> first <= free[i] < |p.mem| && p.own[free[i]] == Free)
    && (forall f :: 0 <= f < |p.own| && p.own[f] == Free ==> f in free)
    && (forall f :: 0 <= f < |p.own| && p.own[f] != Other ==> first <= f)
    && head == (if |free| == 0 then 0 else free[0])
    && (forall i: nat :: i < |free| ==> LinkAt(p.mem, free, i))
  }

  lemma Popped(p: Phys, first: nat, head: nat, free: seq<nat>)
    requires FreeList(p, first, head, free) && free != []
    ensures first <= head < |p.mem| && head != 0 && p.own[head] == Free
    ensures FreeList(Give(p, head, Other), first, LinkedFrame(p.mem[head][0]), free[1..])
  {
    var r, rest := Give(p, head, Other), free[1..];
    assert LinkAt(p.mem, free, 0);
    forall i: nat | i < |rest|
      ensures LinkAt(r.mem, rest, i)
    {
      assert LinkAt(p.mem, free, i + 1);
    }
    forall f | 0 <= f < |r.own| && r.own[f] == Free
      ensures f in rest
    {
      assert f in free && free == [head] + rest;
    }
  }

  lemma Pushed(p: Phys, first: nat, head: nat, free: seq<nat>, f: nat)
    requires FreeList(p, first, head, free) && first <= f < |p.mem| && p.own[f] != Free
    ensures FreeList(Give(Write(p, f, Junk(head)), f, Free), first, f, [f] + free)
  {
    var r, more := Give(Write(p, f, Junk(head)), f, Free), [f] + free;
    forall i: nat | i < |more|
      ensures LinkAt(r.mem, more, i)
    {
      if i > 0 {
        assert LinkAt(p.mem, free, i - 1);
      }
    }
    forall g | 0 <= g < |r.own| && r.own[g] == Free
      ensures g in more
    {
      if g == f {
        assert more[0] == f;
      } else {
        assert g in free;
      }
    }
  }

  /** Changes to frames that are not free, nor become so, leave the list alone. */
  lemma ListStays(p: Phys, r: Phys, first: nat, head: nat, free: seq<nat>)
    requires FreeList(p, first, head, free) && |r.mem| == |r.own| == |p.own|
    requires forall f :: 0 <= f < |p.own| ==>
      (r.own[f] == Free <==> p.own[f] == Free) && (p.own[f] == Free ==> r.mem[f] == p.mem[f])
    requires forall f :: 0 <= f < |p.own| && r.own[f] != p.own[f] ==> first <= f
    ensures FreeList(r, first, head, free)
  {
    forall i: nat | i < |free|
      ensures LinkAt(r.mem, free, i)
    {
      assert LinkAt(p.mem, free, i);
    }
  }
}

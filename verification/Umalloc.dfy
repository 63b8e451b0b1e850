/** project3/umalloc.c: the circular, address-ordered free list of `malloc` and
    `free`. Addresses and sizes count units of one header (8 bytes). */
module Umalloc {

  datatype Header = Header(ptr: nat, size: nat)

  /** The heap as the proofs see it. `mem` is the address space, of which only headers
      are looked at; `free` are the members of the free list, `base` among them; `live`
      are the blocks handed out; `owner[u]` is the block that unit `u` lies in, 0 for
      units that `sbrk` has not given to the allocator. */
  datatype Arena = Arena(mem: seq<Header>, free: set<nat>, live: set<nat>, owner: seq<nat>, base: nat)

  /** Each list member points to the next higher one, the highest to `base`: the list
      is circular, in address order, and wraps once. */
  ghost predicate Linked(a: Arena) {
    && a.base in a.free
    && (forall p :: p in a.free ==> a.base <= p < |a.mem|)
    && a.mem[a.base].size == 0
    && (forall p {:trigger a.mem[p]} :: p in a.free ==> a.mem[p].ptr in a.free)
    && (forall p {:trigger a.mem[p]} :: p in a.free && a.mem[p].ptr <= p ==> a.mem[p].ptr == a.base)
    && (forall p, q {:trigger a.mem[p], q in a.free} :: p in a.free && q in a.free && p < q ==> p < a.mem[p].ptr <= q)
    && (forall p {:trigger a.mem[p]} :: p in a.free && p != a.base ==> a.mem[p].size >= 1)
  }

  predicate IsBlock(a: Arena, h: nat) {
    h in a.live || (h in a.free && h != a.base)
  }

  /** Unit `u` lies in the block whose header is at `h`. */
  predicate Within(a: Arena, h: nat, u: nat)
    requires h < |a.mem|
  {
    h <= u < h + a.mem[h].size
  }

  /** Free blocks, live blocks and `base` are pairwise disjoint and cover exactly the
      units obtained: every unit lies in one block, its `owner`. */
  ghost predicate Partition(a: Arena) {
    && |a.owner| == |a.mem|
    && (forall h :: h in a.live ==> a.base < h < |a.mem| && h !in a.free && a.mem[h].size >= 1)
    && (forall u :: 0 <= u < |a.owner| && a.owner[u] != 0 ==>
          a.base < u && a.owner[u] < |a.mem| && IsBlock(a, a.owner[u]) && Within(a, a.owner[u], u))
    && (forall h: nat, u: nat :: h < |a.mem| && IsBlock(a, h) && Within(a, h, u) ==> u < |a.owner| && a.owner[u] == h)
  }

  /** The free block at `p` does not end where the next one starts. */
  predicate Apart(a: Arena, p: nat)
    requires p < |a.mem|
  {
    p + a.mem[p].size != a.mem[p].ptr
  }

  ghost predicate Coalesced(a: Arena) {
    forall p {:trigger Apart(a, p)} :: p in a.free && p < |a.mem| && p != a.base ==> Apart(a, p)
  }

  ghost predicate Sound(a: Arena) {
    Linked(a) && Partition(a) && Coalesced(a)
  }

  /** The headers of `a` are unchanged in `m`. */
  ghost predicate SameHeaders(a: Arena, m: seq<Header>) {
    && |m| == |a.mem|
    && (forall h :: h in a.free && h < |m| ==> m[h] == a.mem[h])
    && (forall h :: h in a.live && h < |m| ==> m[h] == a.mem[h])
  }

  /** A client that writes anything but headers leaves the heap sound. */
  lemma ClientWrites(a: Arena, m: seq<Header>)
    requires Sound(a) && SameHeaders(a, m)
    ensures Sound(a.(mem := m))
  {
    hide Linked, Partition, Coalesced, SameHeaders;
    ClientLinked(a, m);
    ClientPartition(a, m);
    ClientApart(a, m);
  }

  lemma ClientLinked(a: Arena, m: seq<Header>)
    requires Linked(a) && SameHeaders(a, m)
    ensures Linked(a.(mem := m))
  {
  }

  lemma ClientPartition(a: Arena, m: seq<Header>)
    requires Partition(a) && SameHeaders(a, m)
    ensures Partition(a.(mem := m))
  {
    var r := a.(mem := m);
    forall h: nat, u: nat | h < |r.mem| && IsBlock(r, h) && Within(r, h, u)
      ensures u < |r.owner| && r.owner[u] == h
    {
      assert IsBlock(a, h) && Within(a, h, u);
    }
  }

  lemma ClientApart(a: Arena, m: seq<Header>)
    requires Coalesced(a) && SameHeaders(a, m)
    ensures Coalesced(a.(mem := m))
  {
    var r := a.(mem := m);
    forall p | p in r.free && p < |r.mem| && p != r.base
      ensures Apart(r, p)
    {
      assert Apart(a, p);
    }
  }

  // ---- free ----

  /** `p` is the list member that a block at `bp` goes behind. */
  ghost predicate Before(a: Arena, p: nat, bp: nat) {
    p in a.free && p < bp && forall q :: q in a.free ==> q <= p || bp < q
  }

  /** The exit of the search loop of `free`. */
  predicate Stops(p: nat, next: nat, bp: nat) {
    (bp > p && bp < next) || (p >= next && (bp > p || bp < next))
  }

  lemma StopsExactly(a: Arena, p: nat, bp: nat)
    requires Linked(a) && p in a.free && bp > a.base && bp !in a.free
    ensures Stops(p, a.mem[p].ptr, bp) <==> Before(a, p, bp)
  {
  }

  /** `bp` put into the list behind `p`, joined to nothing. */
  function Inserted(a: Arena, p: nat, bp: nat): Arena
    requires bp < |a.mem| && p < |a.mem|
  {
    a.(mem := a.mem[bp := Header(a.mem[p].ptr, a.mem[bp].size)][p := Header(bp, a.mem[p].size)],
       free := a.free + {bp},
       live := a.live - {bp})
  }

  /** The free block at `p` absorbs the next one, which starts where it ends. */
  function Merged(a: Arena, p: nat): Arena
    requires p < |a.mem| && a.mem[p].ptr < |a.mem|
  {
    var q := a.mem[p].ptr;
    a.(mem := a.mem[p := Header(a.mem[q].ptr, a.mem[p].size + a.mem[q].size)],
       free := a.free - {q},
       owner := Renamed(a.owner, q, p))
  }

  function Renamed(owner: seq<nat>, q: nat, p: nat): (r: seq<nat>)
    ensures |r| == |owner|
    ensures forall u :: 0 <= u < |owner| ==> r[u] == if owner[u] == q then p else owner[u]
  {
    seq(|owner|, u requires 0 <= u < |owner| => if owner[u] == q then p else owner[u])
  }

  lemma InsertedLinked(a: Arena, p: nat, bp: nat)
    requires Linked(a) && bp < |a.mem| && a.mem[bp].size >= 1 && Before(a, p, bp) && bp !in a.free
    ensures Linked(Inserted(a, p, bp))
  {
  }

  lemma InsertedPartition(a: Arena, p: nat, bp: nat)
    requires Partition(a) && bp in a.live && p < |a.mem| && p in a.free
    ensures Partition(Inserted(a, p, bp))
  {
    var r := Inserted(a, p, bp);
    forall h: nat, u: nat | h < |r.mem| && IsBlock(r, h) && Within(r, h, u)
      ensures u < |r.owner| && r.owner[u] == h
    {
      assert r.mem[h].size == a.mem[h].size;
      assert IsBlock(a, h) && Within(a, h, u);
    }
    forall u | 0 <= u < |r.owner| && r.owner[u] != 0
      ensures r.base < u && r.owner[u] < |r.mem| && IsBlock(r, r.owner[u]) && Within(r, r.owner[u], u)
    {
      assert r.mem[a.owner[u]].size == a.mem[a.owner[u]].size;
    }
  }

  lemma MergedLinked(a: Arena, p: nat)
    requires Linked(a) && p in a.free && p != a.base && p < a.mem[p].ptr
    ensures Linked(Merged(a, p))
  {
  }

  lemma MergedPartition(a: Arena, p: nat)
    requires Partition(a) && p in a.free && a.base < p < |a.mem| && a.mem[p].ptr in a.free
    requires p < a.mem[p].ptr < |a.mem| && !Apart(a, p)
    ensures Partition(Merged(a, p))
  {
    var r := Merged(a, p);
    var q := a.mem[p].ptr;
    forall h: nat, u: nat | h < |r.mem| && IsBlock(r, h) && Within(r, h, u)
      ensures u < |r.owner| && r.owner[u] == h
    {
      if h == p {
        assert Within(a, p, u) || Within(a, q, u);
      } else {
        assert IsBlock(a, h) && Within(a, h, u);
      }
    }
    forall u | 0 <= u < |r.owner| && r.owner[u] != 0
      ensures r.base < u && r.owner[u] < |r.mem| && IsBlock(r, r.owner[u]) && Within(r, r.owner[u], u)
    {
      assert Within(a, a.owner[u], u);
    }
  }

  /** No free block touches the next, except perhaps those at `x` and `y`. */
  ghost predicate ApartBut(a: Arena, x: nat, y: nat) {
    forall q {:trigger Apart(a, q)} :: q in a.free && q < |a.mem| && q != a.base && q != x && q != y ==> Apart(a, q)
  }

  /** No unit of a block live in both states was written or changed hands. */
  ghost predicate Untouched(a: Arena, r: Arena) {
    forall u {:trigger a.owner[u]} {:trigger r.owner[u]} ::
      0 <= u < |a.owner| && u < |a.mem| && a.owner[u] in a.live && a.owner[u] in r.live ==>
      u < |r.owner| && u < |r.mem| && r.owner[u] == a.owner[u] && r.mem[u] == a.mem[u]
  }

  /** What two states before and after part of `free` have in common. */
  ghost predicate SameRest(a: Arena, r: Arena) {
    && |r.mem| == |a.mem| && r.base == a.base && |r.owner| == |a.owner|
    && (forall u :: 0 <= u < |a.owner| ==> (r.owner[u] == 0 <==> a.owner[u] == 0))
    && (forall h :: h in r.live && h < |a.mem| ==> r.mem[h] == a.mem[h])
    && Untouched(a, r)
  }

  lemma ListUnit(a: Arena, p: nat)
    requires Linked(a) && Partition(a) && p in a.free
    ensures p < |a.owner| && a.owner[p] !in a.live
  {
    if a.owner[p] in a.live {
      assert a.owner[p] != 0;
      assert IsBlock(a, p) && Within(a, p, p);
    }
  }

  lemma LiveUnit(a: Arena, h: nat)
    requires Partition(a) && h in a.live
    ensures h < |a.owner| && a.owner[h] == h
  {
    assert IsBlock(a, h) && Within(a, h, h);
  }

  lemma InsertStep(a: Arena, p: nat, bp: nat)
    requires Sound(a) && bp in a.live && Before(a, p, bp)
    ensures p < |a.mem| && bp < |a.mem|
    ensures var s := Inserted(a, p, bp);
      && Linked(s) && Partition(s) && ApartBut(s, bp, p) && SameRest(a, s)
      && p in s.free && bp in s.free && s.mem[p].ptr == bp && s.base < bp && s.mem[bp].size == a.mem[bp].size
  {
    FreedBounds(a, p, bp);
    ListUnit(a, p);
    LiveUnit(a, bp);
    hide Linked, Partition;
    InsertedLinked(a, p, bp);
    InsertedPartition(a, p, bp);
    InsertedRest(a, p, bp);
  }

  lemma InsertedRest(a: Arena, p: nat, bp: nat)
    requires Coalesced(a) && p in a.free && p < |a.mem| && bp < |a.mem| && p !in a.live
    requires p < |a.owner| && bp < |a.owner| && a.owner[p] !in a.live && a.owner[bp] == bp
    ensures ApartBut(Inserted(a, p, bp), bp, p) && SameRest(a, Inserted(a, p, bp))
  {
    var r := Inserted(a, p, bp);
    forall q | q in r.free && q < |r.mem| && q != r.base && q != bp && q != p
      ensures Apart(r, q)
    {
      assert Apart(a, q);
    }
  }

  /** Joining a free block with the one it touches, if it does. */
  function Joined(a: Arena, p: nat): Arena
    requires p < |a.mem|
  {
    if Apart(a, p) || a.mem[p].ptr >= |a.mem| then a else Merged(a, p)
  }

  lemma JoinStep(a: Arena, p: nat, other: nat)
    requires Linked(a) && Partition(a) && ApartBut(a, p, other) && p in a.free && p < |a.mem|
    requires !Apart(a, p) ==> a.base < p < a.mem[p].ptr && a.mem[p].ptr != other && a.mem[p].ptr in a.free
    requires !Apart(a, p) ==>
      a.mem[p].ptr < |a.mem| && p !in a.live && a.mem[p].ptr != a.base && a.mem[p].ptr !in a.live
    ensures var r := Joined(a, p);
      && Linked(r) && Partition(r) && ApartBut(r, other, other) && SameRest(a, r)
      && (forall q :: q in r.free <==> q in a.free && (Apart(a, p) || q != a.mem[p].ptr)) && r.live == a.live
      && r.mem[p].size >= a.mem[p].size
      && (Apart(a, p) ==> r == a)
      && (!Apart(a, p) ==> p < a.mem[p].ptr && r.mem[p].size >= a.mem[a.mem[p].ptr].size)
      && (forall h {:trigger r.mem[h]} :: 0 <= h < |a.mem| && h != p ==> r.mem[h] == a.mem[h])
  {
    hide Linked, Partition;
    if !Apart(a, p) {
      MergedLinked(a, p);
      MergedPartition(a, p);
      ListUnit(a, p);
      MergedRest(a, p, other);
    }
  }

  lemma MergedRest(a: Arena, p: nat, other: nat)
    requires ApartBut(a, p, other) && p < |a.mem| && !Apart(a, p) && p in a.free && p !in a.live && p != 0
    requires p < a.mem[p].ptr < |a.mem| && a.mem[p].ptr in a.free && a.mem[p].ptr != other && a.mem[p].ptr != a.base
    requires a.mem[p].ptr !in a.live && p < |a.owner| && a.owner[p] !in a.live
    ensures ApartBut(Merged(a, p), other, other) && SameRest(a, Merged(a, p))
  {
    var r := Merged(a, p);
    forall q | q in r.free && q < |r.mem| && q != r.base && q != other
      ensures Apart(r, q)
    {
      if q == p {
        assert Apart(a, a.mem[p].ptr);
      } else {
        assert Apart(a, q);
      }
    }
  }

  /** The heap after `free` of the live block at `bp`, its search having stopped at `p`. */
  function Freed(a: Arena, p: nat, bp: nat): (r: Arena)
    requires bp < |a.mem| && p < |a.mem|
    ensures |r.mem| == |a.mem|
  {
    Joined(Joined(Inserted(a, p, bp), bp), p)
  }

  /** The first two steps of `free`: link the block in, join it with the next one. */
  lemma FreedHalfway(a: Arena, p: nat, bp: nat)
    requires Sound(a) && bp in a.live && Before(a, p, bp)
    ensures p < |a.mem| && bp < |a.mem|
    ensures var t := Joined(Inserted(a, p, bp), bp);
      && Linked(t) && Partition(t) && ApartBut(t, p, p) && SameRest(a, t)
      && t.live == a.live - {bp} && p in t.free && bp in t.free
      && t.mem[p].ptr == bp && t.mem[bp].size >= a.mem[bp].size
  {
    FreedBounds(a, p, bp);
    hide Linked, Partition, Inserted, Joined, SameRest, ApartBut;
    InsertStep(a, p, bp);
    var s := Inserted(a, p, bp);
    InsertedOther(a, p, bp);
    Touching(s, bp);
    JoinStep(s, bp, p);
    SameRestTransitive(a, s, Joined(s, bp));
  }

  /** `free` keeps the list circular, ordered and coalesced and the partition of the
      units intact; only `bp` stops being live; and the freed units are in the block
      at `p` or in the one it points to. */
  lemma FreedSound(a: Arena, p: nat, bp: nat)
    requires Sound(a) && bp in a.live && Before(a, p, bp)
    ensures p < |a.mem| && bp < |a.mem|
    ensures var r := Freed(a, p, bp);
      && Sound(r) && SameRest(a, r)
      && r.live == a.live - {bp}
      && p in r.free
      && (r.mem[p].size >= a.mem[bp].size || (r.mem[p].ptr == bp && bp in r.free && r.mem[bp].size >= a.mem[bp].size))
  {
    FreedBounds(a, p, bp);
    hide Linked, Partition, Inserted, Joined, SameRest, ApartBut, Coalesced;
    FreedHalfway(a, p, bp);
    var t := Joined(Inserted(a, p, bp), bp);
    Touching(t, p);
    JoinStep(t, p, t.base);
    SameRestTransitive(a, t, Joined(t, p));
    CoalescedAll(Joined(t, p));
  }

  lemma InsertedOther(a: Arena, p: nat, bp: nat)
    requires p < |a.mem| && bp < |a.mem| && p != bp
    ensures var s := Inserted(a, p, bp);
      s.free == a.free + {bp} && s.live == a.live - {bp} && s.mem[bp].ptr == a.mem[p].ptr && |s.mem| == |a.mem|
  {
  }

  lemma SameRestTransitive(a: Arena, s: Arena, t: Arena)
    requires SameRest(a, s) && SameRest(s, t) && s.live == t.live
    ensures SameRest(a, t)
  {
  }

  lemma CoalescedAll(a: Arena)
    requires ApartBut(a, a.base, a.base)
    ensures Coalesced(a)
  {
  }

  /** A free block that touches the next one is not `base`, and neither is the next. */
  lemma Touching(a: Arena, p: nat)
    requires Linked(a) && Partition(a) && p in a.free && a.mem[p].ptr != p
    ensures p < |a.mem|
    ensures !Apart(a, p) ==>
      a.base < p < a.mem[p].ptr < |a.mem| && a.mem[p].ptr in a.free && p !in a.live
      && a.mem[p].ptr != a.base && a.mem[p].ptr !in a.live
  {
  }

  lemma FreedBounds(a: Arena, p: nat, bp: nat)
    requires Sound(a) && bp in a.live && Before(a, p, bp)
    ensures p < |a.mem| && bp < |a.mem| && a.mem[p].ptr < |a.mem| && a.mem[bp].size >= 1 && bp !in a.free
    ensures a.mem[p].ptr in a.free && p != bp && a.base <= p
  {
  }

  // ---- malloc ----

  /** Units for a request of `nbytes`: the block plus one header, in the 32-bit
      arithmetic of the code. */
  function NUnits(nbytes: nat): nat {
    (nbytes + 7) % 0x1_0000_0000 / 8 + 1
  }

  /** The argument `sbrk` gets for `nu` units: a 32-bit product read as an `int`. */
  function SbrkBytes(nu: nat): int {
    var bytes := nu * 8 % 0x1_0000_0000;
    if bytes >= 0x8000_0000 then bytes - 0x1_0000_0000 else bytes
  }

  const MAXREQUEST: nat := 0x7FFF_FFF0

  /** A request is rounded up to enough units, and asks `sbrk` for all of them, exactly
      when it is at most MAXREQUEST bytes; beyond that the sizes wrap around. */
  lemma RequestExactly(nbytes: nat)
    requires nbytes < 0x1_0000_0000
    ensures NUnits(nbytes) * 8 >= nbytes + 8 && SbrkBytes(NUnits(nbytes)) == NUnits(nbytes) * 8
       <==> nbytes <= MAXREQUEST
  {
  }

  /** The free block `p`, which `prevp` points to, handed out whole. */
  function TakenWhole(a: Arena, prevp: nat, p: nat): Arena
    requires prevp < |a.mem| && p < |a.mem|
  {
    a.(mem := a.mem[prevp := Header(a.mem[p].ptr, a.mem[prevp].size)], free := a.free - {p}, live := a.live + {p})
  }

  function Claimed(owner: seq<nat>, lo: nat, hi: nat, h: nat): (r: seq<nat>)
    ensures |r| == |owner|
    ensures forall u :: 0 <= u < |owner| ==> r[u] == if lo <= u < hi then h else owner[u]
  {
    seq(|owner|, u requires 0 <= u < |owner| => if lo <= u < hi then h else owner[u])
  }

  /** The last `n` units of the free block `p` handed out. */
  function TakenTail(a: Arena, p: nat, n: nat): Arena
    requires p < |a.mem| && 0 < n < a.mem[p].size && p + a.mem[p].size <= |a.mem|
  {
    var h := p + a.mem[p].size - n;
    a.(mem := a.mem[p := Header(a.mem[p].ptr, a.mem[p].size - n)][h := Header(a.mem[h].ptr, n)],
       live := a.live + {h},
       owner := Claimed(a.owner, h, h + n, h))
  }

  /** Fresh units `[h, h + n)` from `sbrk`, as a block. */
  function Grown(a: Arena, h: nat, n: nat): Arena
    requires h < |a.mem|
  {
    a.(mem := a.mem[h := Header(a.mem[h].ptr, n)], live := a.live + {h}, owner := Claimed(a.owner, h, h + n, h))
  }

  lemma TakenWholeLinked(a: Arena, prevp: nat, p: nat)
    requires Linked(a) && Coalesced(a) && prevp in a.free && p == a.mem[prevp].ptr && p != a.base
    ensures prevp < |a.mem| && p < |a.mem| && p in a.free && prevp != p
    ensures Linked(TakenWhole(a, prevp, p))
  {
  }

  /** With `p` gone from between them, `prevp` still does not touch what follows. */
  lemma GapAfter(a: Arena, prevp: nat, p: nat)
    requires Linked(a) && Partition(a) && prevp in a.free && prevp != a.base
    requires prevp < |a.mem| && p == a.mem[prevp].ptr && p != a.base
    ensures p < |a.mem| && prevp + a.mem[prevp].size != a.mem[p].ptr
  {
    FreeBelow(a, prevp, p);
    assert a.mem[p].ptr > p || a.mem[p].ptr == a.base;
  }

  lemma TakenWholeApart(a: Arena, prevp: nat, p: nat)
    requires Coalesced(a) && prevp < |a.mem| && p < |a.mem| && prevp != p
    requires prevp != a.base ==> prevp + a.mem[prevp].size != a.mem[p].ptr
    ensures Coalesced(TakenWhole(a, prevp, p))
  {
    var r := TakenWhole(a, prevp, p);
    forall q | q in r.free && q < |r.mem| && q != r.base
      ensures Apart(r, q)
    {
      assert Apart(a, q);
    }
  }

  /** A free block ends before the next free block starts. */
  lemma FreeBelow(a: Arena, p: nat, q: nat)
    requires Linked(a) && Partition(a) && p in a.free && q in a.free && a.base < p < q
    ensures p < |a.mem| && p + a.mem[p].size <= q
  {
    if p + a.mem[p].size > q {
      assert Within(a, p, q) && IsBlock(a, p);
      assert Within(a, q, q) && IsBlock(a, q);
    }
  }

  lemma TakenWholePartition(a: Arena, prevp: nat, p: nat)
    requires Partition(a) && prevp < |a.mem| && a.base < p < |a.mem| && prevp != p && p in a.free && a.mem[p].size >= 1
    requires prevp !in a.live
    ensures Partition(TakenWhole(a, prevp, p))
  {
    var r := TakenWhole(a, prevp, p);
    forall h: nat, u: nat | h < |r.mem| && IsBlock(r, h) && Within(r, h, u)
      ensures u < |r.owner| && r.owner[u] == h
    {
      assert IsBlock(a, h) && Within(a, h, u);
    }
    forall u | 0 <= u < |r.owner| && r.owner[u] != 0
      ensures r.base < u && r.owner[u] < |r.mem| && IsBlock(r, r.owner[u]) && Within(r, r.owner[u], u)
    {
      assert r.mem[a.owner[u]].size == a.mem[a.owner[u]].size;
    }
  }

  lemma TakenTailLinked(a: Arena, p: nat, n: nat, h: nat)
    requires Linked(a) && p in a.free && 0 < n < a.mem[p].size && p + a.mem[p].size <= |a.mem|
    requires h == p + a.mem[p].size - n && h !in a.free
    ensures p < |a.mem|
    ensures Linked(TakenTail(a, p, n))
  {
  }

  lemma TakenTailApart(a: Arena, p: nat, n: nat, h: nat)
    requires Coalesced(a) && p < |a.mem| && 0 < n < a.mem[p].size && p + a.mem[p].size <= |a.mem|
    requires h == p + a.mem[p].size - n && h !in a.free && h != a.mem[p].ptr
    ensures Coalesced(TakenTail(a, p, n))
  {
    var r := TakenTail(a, p, n);
    forall q | q in r.free && q < |r.mem| && q != r.base
      ensures Apart(r, q)
    {
      assert Apart(a, q);
    }
  }

  lemma TakenTailPartition(a: Arena, p: nat, n: nat, h: nat)
    requires Partition(a) && a.base < p < |a.mem| && p in a.free && 0 < n < a.mem[p].size
    requires p + a.mem[p].size <= |a.mem|
    requires h == p + a.mem[p].size - n && h !in a.free && h !in a.live && p !in a.live
    ensures Partition(TakenTail(a, p, n))
  {
    var r := TakenTail(a, p, n);
    forall b: nat, u: nat | b < |r.mem| && IsBlock(r, b) && Within(r, b, u)
      ensures u < |r.owner| && r.owner[u] == b
    {
      if b == h {
        assert Within(a, p, u) && IsBlock(a, p);
      } else {
        assert IsBlock(a, b) && Within(a, b, u);
        if b != p && h <= u < h + n {
          assert Within(a, p, u) && IsBlock(a, p);
        }
      }
    }
    forall u | 0 <= u < |r.owner| && r.owner[u] != 0
      ensures r.base < u && r.owner[u] < |r.mem| && IsBlock(r, r.owner[u]) && Within(r, r.owner[u], u)
    {
      if h <= u < h + n {
      } else {
        assert Within(a, a.owner[u], u) && a.owner[u] != h;
      }
    }
  }

  /** What a successful `malloc` gives: a new live block of `n` units, whose units were
      free; every other live block keeps its header. */
  ghost predicate Allocated(a: Arena, r: Arena, h: nat, n: nat) {
    && |r.mem| == |a.mem| && |r.owner| == |a.owner| && r.base == a.base
    && h !in a.live && r.live == a.live + {h} && h < |r.mem| && r.mem[h].size == n
    && (forall b :: b in a.live && b < |a.mem| ==> r.mem[b] == a.mem[b])
    && Untouched(a, r)
    && (forall u :: h <= u < h + n && u < |a.owner| ==> a.owner[u] != 0 && a.owner[u] !in a.live)
    && (forall u :: 0 <= u < |a.owner| ==> (r.owner[u] == 0 <==> a.owner[u] == 0))
  }

  lemma TakenWholeSound(a: Arena, prevp: nat, p: nat)
    requires Sound(a) && prevp in a.free && prevp < |a.mem| && p == a.mem[prevp].ptr && p < |a.mem|
    requires a.mem[p].size >= 1
    ensures Sound(TakenWhole(a, prevp, p)) && Allocated(a, TakenWhole(a, prevp, p), p, a.mem[p].size)
    ensures prevp in TakenWhole(a, prevp, p).free
  {
    FreeFacts(a, p);
    FreeFacts(a, prevp);
    assert p != a.base && |a.owner| == |a.mem|;
    if prevp != a.base {
      GapAfter(a, prevp, p);
    }
    UnitsOf(a, p);
    ListUnit(a, prevp);
    hide Linked, Partition, Coalesced, TakenWhole, Allocated;
    TakenWholeLinked(a, prevp, p);
    TakenWholeApart(a, prevp, p);
    TakenWholePartition(a, prevp, p);
    TakenWholeGives(a, prevp, p);
  }

  lemma TakenWholeGives(a: Arena, prevp: nat, p: nat)
    requires p < |a.mem| && prevp < |a.mem| && p != prevp && p !in a.live && prevp !in a.live && 0 < p
    requires prevp in a.free && |a.owner| == |a.mem| && a.owner[prevp] !in a.live
    requires forall u :: p <= u < p + a.mem[p].size && u < |a.owner| ==> a.owner[u] == p
    ensures Allocated(a, TakenWhole(a, prevp, p), p, a.mem[p].size)
    ensures prevp in TakenWhole(a, prevp, p).free
  {
  }

  /** Where the tail of a free block lies. */
  lemma TailBounds(a: Arena, p: nat, n: nat, h: nat)
    requires Sound(a) && p in a.free && p < |a.mem| && 0 < n < a.mem[p].size && h == p + a.mem[p].size - n
    ensures a.base < p && p !in a.live && p + a.mem[p].size <= |a.mem| == |a.owner|
    ensures h !in a.free && h !in a.live && h != a.mem[p].ptr
    ensures forall u :: p <= u < p + a.mem[p].size && u < |a.owner| ==> a.owner[u] == p
  {
    FreeFacts(a, p);
    UnitsOf(a, p);
    TailPtr(a, p, n);
    TailFresh(a, p, h);
  }

  lemma TakenTailSound(a: Arena, p: nat, n: nat, h: nat)
    requires Sound(a) && p in a.free && p < |a.mem| && 0 < n < a.mem[p].size && h == p + a.mem[p].size - n
    ensures p + a.mem[p].size <= |a.mem|
    ensures Sound(TakenTail(a, p, n)) && Allocated(a, TakenTail(a, p, n), h, n)
  {
    TailBounds(a, p, n, h);
    TakenTailLinked(a, p, n, h);
    TakenTailApart(a, p, n, h);
    TakenTailPartition(a, p, n, h);
    TakenTailGives(a, p, n, h);
  }

  lemma TakenTailGives(a: Arena, p: nat, n: nat, h: nat)
    requires p < |a.mem| && 0 < n < a.mem[p].size && p + a.mem[p].size <= |a.mem| && h == p + a.mem[p].size - n
    requires h !in a.live && p !in a.live && 0 < p && |a.owner| == |a.mem|
    requires forall u :: p <= u < p + a.mem[p].size && u < |a.owner| ==> a.owner[u] == p
    ensures Allocated(a, TakenTail(a, p, n), h, n)
  {
  }

  lemma FreeFacts(a: Arena, p: nat)
    requires Linked(a) && Partition(a) && p in a.free
    ensures p < |a.mem| && p !in a.live && (a.mem[p].size >= 1 ==> a.base < p) && a.mem[p].ptr in a.free
  {
  }

  /** The units of a free block belong to it, so its whole extent is address space. */
  lemma UnitsOf(a: Arena, p: nat)
    requires Partition(a) && p in a.free && a.base < p < |a.mem| && a.mem[p].size >= 1 && p !in a.live
    ensures p + a.mem[p].size <= |a.mem|
    ensures forall u :: p <= u < p + a.mem[p].size && u < |a.owner| ==> a.owner[u] == p
  {
    assert Within(a, p, p + a.mem[p].size - 1) && IsBlock(a, p);
    forall u: nat | p <= u < p + a.mem[p].size
      ensures u < |a.owner| && a.owner[u] == p
    {
      assert Within(a, p, u);
    }
  }

  lemma TailPtr(a: Arena, p: nat, n: nat)
    requires Linked(a) && Partition(a) && p in a.free && a.base < p < |a.mem| && 0 < n < a.mem[p].size
    ensures p + a.mem[p].size - n != a.mem[p].ptr
  {
    if a.mem[p].ptr > p {
      FreeBelow(a, p, a.mem[p].ptr);
    }
  }

  lemma TailFresh(a: Arena, p: nat, h: nat)
    requires Linked(a) && Partition(a) && p in a.free && p < |a.mem| && p < h < p + a.mem[p].size && a.base < p
    ensures h !in a.free && h !in a.live
  {
    assert Within(a, p, h) && IsBlock(a, p);
    if h in a.free || h in a.live {
      assert h < |a.mem|;
      assert IsBlock(a, h) && Within(a, h, h);
    }
  }

  // ---- more memory ----

  lemma GrownFresh(a: Arena, h: nat, n: nat)
    requires Linked(a) && Partition(a) && a.base < h && n >= 1 && h + n <= |a.mem|
    requires forall u :: h <= u < h + n ==> a.owner[u] == 0
    ensures h !in a.free && h !in a.live
  {
    assert a.owner[h] == 0;
    assert !(IsBlock(a, h) && Within(a, h, h));
  }

  lemma GrownPartition(a: Arena, h: nat, n: nat)
    requires Partition(a) && a.base < h && n >= 1 && h + n <= |a.mem| && h !in a.free && h !in a.live
    requires forall u :: h <= u < h + n ==> a.owner[u] == 0
    requires forall b :: b in a.free ==> a.base <= b
    ensures Partition(Grown(a, h, n))
  {
    var r := Grown(a, h, n);
    forall b: nat, u: nat | b < |r.mem| && IsBlock(r, b) && Within(r, b, u)
      ensures u < |r.owner| && r.owner[u] == b
    {
      if b != h {
        assert IsBlock(a, b) && Within(a, b, u);
      }
    }
    forall u | 0 <= u < |r.owner| && r.owner[u] != 0
      ensures r.base < u && r.owner[u] < |r.mem| && IsBlock(r, r.owner[u]) && Within(r, r.owner[u], u)
    {
      if !(h <= u < h + n) {
        assert a.owner[u] != h;
      }
    }
  }

  lemma GrownListed(a: Arena, h: nat, n: nat)
    requires Linked(a) && Coalesced(a) && h < |a.mem| && h !in a.free
    ensures Linked(Grown(a, h, n)) && Coalesced(Grown(a, h, n))
  {
    var r := Grown(a, h, n);
    forall q | q in r.free && q < |r.mem| && q != r.base
      ensures Apart(r, q)
    {
      assert Apart(a, q);
    }
  }

  /** The heap right after `sbrk`: the new units form one more block. */
  lemma GrownSound(a: Arena, h: nat, n: nat)
    requires Sound(a) && a.base < h && n >= 1 && h + n <= |a.mem|
    requires forall u :: h <= u < h + n ==> a.owner[u] == 0
    ensures Sound(Grown(a, h, n)) && h !in a.live
  {
    GrownFresh(a, h, n);
    GrownPartition(a, h, n);
    GrownListed(a, h, n);
  }

  // ---- walking the list ----

  /** The list members met on the way from `p` to `k`, both included. */
  ghost function Ahead(free: set<nat>, p: nat, k: nat): set<nat> {
    if p <= k then set q | q in free && p <= q <= k
    else set q | q in free && (q >= p || q <= k)
  }

  /** A step along the list leaves `p` behind and nothing else. */
  lemma AheadNext(a: Arena, p: nat, k: nat)
    requires Linked(a) && p in a.free && k in a.free && p != k
    ensures p < |a.mem| && a.mem[p].ptr in a.free
    ensures Ahead(a.free, a.mem[p].ptr, k) == Ahead(a.free, p, k) - {p} && p in Ahead(a.free, p, k)
  {
    var n := a.mem[p].ptr;
    forall q | q in a.free
      ensures q in Ahead(a.free, n, k) <==> q in Ahead(a.free, p, k) && q != p
    {
      if p < q {
        assert p < n <= q;
      }
      if p < k {
        assert p < n <= k;
      }
    }
  }

  /** From the successor of `k` all the way round to `k` is the whole list. */
  lemma AheadAll(a: Arena, k: nat)
    requires Linked(a) && k in a.free
    ensures k < |a.mem| && a.mem[k].ptr in a.free
    ensures Ahead(a.free, a.mem[k].ptr, k) == a.free
  {
    var n := a.mem[k].ptr;
    forall q | q in a.free
      ensures q in Ahead(a.free, n, k)
    {
      if k < q {
        assert k < n <= q;
      }
    }
  }

  /** A block above `base` has a place in the list. */
  lemma FindBefore(a: Arena, bp: nat) returns (k: nat)
    requires Linked(a) && bp > a.base && bp !in a.free
    ensures Before(a, k, bp)
  {
    k := a.base;
    while exists q :: q in a.free && k < q < bp
      invariant k in a.free && k < bp
      decreases bp - k
    {
      var q :| q in a.free && k < q < bp;
      k := q;
    }
  }

  /** Nothing beyond the break belongs to the allocator; once `malloc` has run, the
      heap is sound and `freep` is on the list. */
  ghost predicate Heap(a: Arena, base: nat, freep: nat, brk: nat) {
    && a.base == base
    && 0 < base < brk <= |a.mem| == |a.owner|
    && (forall u :: brk <= u < |a.owner| ==> a.owner[u] == 0)
    && (if freep == 0 then a.free == {} && a.live == {} && forall u :: 0 <= u < |a.owner| ==> a.owner[u] == 0
        else freep in a.free && Sound(a))
  }

  lemma FreedHeap(a: Arena, base: nat, freep: nat, brk: nat, p: nat, bp: nat)
    requires Heap(a, base, freep, brk) && freep != 0 && bp in a.live && Before(a, p, bp)
    ensures p < |a.mem| && bp < |a.mem| && p != 0
    ensures Heap(Freed(a, p, bp), base, p, brk)
    ensures FitsAt(Freed(a, p, bp), p, bp, a.mem[bp].size)
    ensures SameRest(a, Freed(a, p, bp)) && Freed(a, p, bp).live == a.live - {bp}
  {
    FreedBounds(a, p, bp);
    FreedSound(a, p, bp);
    FreedRest(a, Freed(a, p, bp), p, bp);
    hide Freed, Sound, SameRest, FitsAt;
    HeapAfter(a, Freed(a, p, bp), base, freep, brk, p);
  }

  lemma FreedRest(a: Arena, r: Arena, p: nat, bp: nat)
    requires p < |a.mem| && bp < |a.mem| && SameRest(a, r)
    requires r.mem[p].size >= a.mem[bp].size || (r.mem[p].ptr == bp && bp in r.free && r.mem[bp].size >= a.mem[bp].size)
    ensures FitsAt(r, p, bp, a.mem[bp].size)
    ensures |r.mem| == |a.mem| && |r.owner| == |a.owner| && r.base == a.base
  {
  }

  lemma HeapAfter(a: Arena, r: Arena, base: nat, freep: nat, brk: nat, p: nat)
    requires Heap(a, base, freep, brk) && Sound(r) && SameRest(a, r) && p in r.free && p != 0
    ensures Heap(r, base, p, brk)
  {
    hide Sound;
  }

  // ---- what a whole `malloc` keeps ----

  /** The heap when `malloc` first runs: the list is `base` alone. */
  function Started(a: Arena): Arena
    requires a.base < |a.mem|
  {
    a.(mem := a.mem[a.base := Header(a.base, 0)], free := {a.base})
  }

  lemma StartedHeap(a: Arena, base: nat, brk: nat)
    requires Heap(a, base, 0, brk)
    ensures Heap(Started(a), base, base, brk) && Kept(a, Started(a), brk)
    ensures Started(a).mem == a.mem[base := Header(base, 0)] && a.free == {} && base == a.base < |a.mem|
  {
  }

  /** Between `a` and `r` no block was handed out or returned, live blocks kept their
      headers, and no unit was lost; new units lie at `b` or above. */
  ghost predicate Kept(a: Arena, r: Arena, b: nat) {
    && |r.mem| == |a.mem| && |r.owner| == |a.owner| && r.base == a.base && r.live == a.live
    && (forall h :: h in a.live && h < |a.mem| ==> r.mem[h] == a.mem[h])
    && Untouched(a, r)
    && (forall u :: 0 <= u < |a.owner| && a.owner[u] != 0 ==> r.owner[u] != 0)
    && (forall u :: 0 <= u < |a.owner| && u < b ==> (r.owner[u] == 0 <==> a.owner[u] == 0))
  }

  /** What a successful `malloc` of `n` units gives: one more live block, at `h`, of
      that size, none of whose units were in a live block; all other live blocks keep
      their headers; and no unit is lost. */
  ghost predicate Served(a: Arena, r: Arena, h: nat, n: nat, b: nat) {
    && |r.mem| == |a.mem| && |r.owner| == |a.owner| && r.base == a.base
    && h !in a.live && r.live == a.live + {h} && h < |r.mem| && r.mem[h].size == n
    && (forall k :: k in a.live && k < |a.mem| ==> r.mem[k] == a.mem[k])
    && Untouched(a, r)
    && (forall u :: h <= u < h + n && u < |a.owner| ==> a.owner[u] !in a.live)
    && (forall u :: 0 <= u < |a.owner| && a.owner[u] != 0 ==> r.owner[u] != 0)
    && (forall u :: 0 <= u < |a.owner| && u < b ==> (r.owner[u] == 0 <==> a.owner[u] == 0))
  }

  lemma ServedFrom(a: Arena, m: Arena, r: Arena, h: nat, n: nat, b: nat)
    requires Partition(a) && Partition(m) && Kept(a, m, b) && Allocated(m, r, h, n)
    ensures Served(a, r, h, n, b)
  {
    forall u | h <= u < h + n && u < |a.owner|
      ensures a.owner[u] !in a.live
    {
      assert m.owner[u] == a.owner[u] || a.owner[u] !in a.live;
    }
  }

  lemma KeptThenKept(a: Arena, m: Arena, r: Arena, b: nat, c: nat)
    requires Kept(a, m, b) && Kept(m, r, c) && b <= c
    ensures Kept(a, r, b)
  {
  }

  lemma TakenHeap(a: Arena, r: Arena, base: nat, freep: nat, brk: nat, prevp: nat, h: nat, n: nat)
    requires Heap(a, base, freep, brk) && Sound(r) && Allocated(a, r, h, n) && prevp in r.free && prevp != 0
    ensures Heap(r, base, prevp, brk)
  {
    hide Sound;
  }

  lemma TakenWholeHeap(a: Arena, base: nat, freep: nat, brk: nat, prevp: nat, p: nat)
    requires Heap(a, base, freep, brk) && freep != 0 && prevp in a.free && prevp < |a.mem|
    requires p == a.mem[prevp].ptr && p < |a.mem| && a.mem[p].size >= 1
    ensures var r := TakenWhole(a, prevp, p);
      && Heap(r, base, prevp, brk) && Allocated(a, r, p, a.mem[p].size) && prevp != 0 && p != 0
      && r.mem == a.mem[prevp := Header(a.mem[p].ptr, a.mem[prevp].size)]
  {
    hide Sound, Linked, Partition, Coalesced, TakenWhole, Allocated;
    HeapSound(a, base, freep, brk);
    FreeAbove(a, prevp);
    FreeAbove(a, p);
    TakenWholeSound(a, prevp, p);
    TakenWholeRest(a, prevp, p);
    TakenHeap(a, TakenWhole(a, prevp, p), base, freep, brk, prevp, p, a.mem[p].size);
  }

  lemma TakenTailHeap(a: Arena, base: nat, freep: nat, brk: nat, prevp: nat, p: nat, n: nat, h: nat)
    requires Heap(a, base, freep, brk) && freep != 0 && prevp in a.free && prevp < |a.mem|
    requires p == a.mem[prevp].ptr && p < |a.mem| && 0 < n < a.mem[p].size && h == p + a.mem[p].size - n
    ensures p + a.mem[p].size <= |a.mem|
    ensures var r := TakenTail(a, p, n);
      && Heap(r, base, prevp, brk) && Allocated(a, r, h, n) && prevp != 0 && h != 0
      && r.mem == a.mem[p := Header(a.mem[p].ptr, a.mem[p].size - n)][h := Header(a.mem[h].ptr, n)]
  {
    hide Sound, Linked, Partition, Coalesced, TakenTail, Allocated;
    HeapSound(a, base, freep, brk);
    FreeAbove(a, prevp);
    FreeAbove(a, p);
    TakenTailSound(a, p, n, h);
    TakenTailRest(a, p, n, h);
    TakenHeap(a, TakenTail(a, p, n), base, freep, brk, prevp, h, n);
  }

  lemma TakenTailRest(a: Arena, p: nat, n: nat, h: nat)
    requires p < |a.mem| && 0 < n < a.mem[p].size && p + a.mem[p].size <= |a.mem| && h == p + a.mem[p].size - n
    ensures var r := TakenTail(a, p, n);
      && r.free == a.free
      && r.mem == a.mem[p := Header(a.mem[p].ptr, a.mem[p].size - n)][h := Header(a.mem[h].ptr, n)]
  {
  }

  lemma TakenWholeRest(a: Arena, prevp: nat, p: nat)
    requires p < |a.mem| && prevp < |a.mem|
    ensures TakenWhole(a, prevp, p).mem == a.mem[prevp := Header(a.mem[p].ptr, a.mem[prevp].size)]
  {
  }

  lemma HeapSound(a: Arena, base: nat, freep: nat, brk: nat)
    requires Heap(a, base, freep, brk) && freep != 0
    ensures Sound(a) && Linked(a)
  {
  }

  lemma FreeAbove(a: Arena, p: nat)
    requires Linked(a) && p in a.free
    ensures a.base <= p && a.mem[p].ptr in a.free
  {
  }

  lemma HeapPartition(a: Arena, base: nat, freep: nat, brk: nat)
    requires Heap(a, base, freep, brk)
    ensures Partition(a)
    ensures freep != 0 ==> Linked(a)
  {
  }

  /** `sbrk` has given `n` units at `h`: one more block, which `free` then lists. */
  lemma GrownHeap(a: Arena, base: nat, freep: nat, brk: nat, h: nat, n: nat, next: nat)
    requires Heap(a, base, freep, brk) && freep != 0 && brk <= h && n >= 1 && next == h + n <= |a.mem|
    ensures Heap(Grown(a, h, n), base, freep, next)
    ensures h !in a.live && Grown(a, h, n).live == a.live + {h} && Grown(a, h, n).mem[h].size == n
    ensures Grown(a, h, n).mem == a.mem[h := Header(a.mem[h].ptr, n)]
    ensures forall u :: h <= u < h + n && u < |a.owner| ==> a.owner[u] !in a.live
  {
    GrownSound(a, h, n);
    GrownRest(a, h, n);
    hide Sound, Grown;
    HeapLonger(a, Grown(a, h, n), base, freep, brk, h, n, next);
  }

  lemma GrownRest(a: Arena, h: nat, n: nat)
    requires h < |a.mem|
    ensures var r := Grown(a, h, n);
      && |r.mem| == |a.mem| && |r.owner| == |a.owner| && r.base == a.base && r.free == a.free
      && r.live == a.live + {h} && r.mem[h].size == n
      && r.mem == a.mem[h := Header(a.mem[h].ptr, n)]
      && (forall u :: 0 <= u < |a.owner| && !(h <= u < h + n) ==> r.owner[u] == a.owner[u])
  {
  }

  lemma HeapLonger(a: Arena, r: Arena, base: nat, freep: nat, brk: nat, h: nat, n: nat, next: nat)
    requires Heap(a, base, freep, brk) && freep in r.free && freep != 0 && brk <= h
    requires next == h + n <= |a.mem| && Sound(r)
    requires |r.mem| == |a.mem| && |r.owner| == |a.owner| && r.base == a.base
    requires forall u :: 0 <= u < |a.owner| && !(h <= u < h + n) ==> r.owner[u] == a.owner[u]
    ensures Heap(r, base, freep, next)
  {
    hide Sound;
  }

  /** Growing the heap and freeing the new block hands nothing out. */
  lemma GrownFreedKept(a: Arena, m: Arena, r: Arena, h: nat, n: nat, b: nat)
    requires h < |a.mem| && |a.owner| == |a.mem| && m == Grown(a, h, n) && h !in a.live && b <= h && 0 < h && n >= 1
    requires SameRest(m, r) && r.live == m.live - {h}
    requires forall u :: h <= u < h + n && u < |a.owner| ==> a.owner[u] !in a.live
    ensures Kept(a, r, b)
  {
    forall u | 0 <= u < |a.owner| && u < |a.mem| && a.owner[u] in a.live && a.owner[u] in r.live
      ensures u < |r.owner| && u < |r.mem| && r.owner[u] == a.owner[u] && r.mem[u] == a.mem[u]
    {
      assert m.owner[u] == a.owner[u];
    }
  }

  /** A call of `sbrk` for `units`, and what it gave, 0 for a failure. */
  datatype Ask = Ask(units: nat, got: nat)

  /** Exactly the units that `ask` gave are new. */
  ghost predicate Gained(a: Arena, r: Arena, ask: Ask) {
    && |r.owner| == |a.owner|
    && (forall u :: 0 <= u < |a.owner| ==>
          (r.owner[u] == 0 <==> a.owner[u] == 0 && !(ask.got != 0 && ask.got <= u < ask.got + ask.units)))
  }

  /** One more call of `sbrk`, for `n` units but at least 4096. */
  ghost predicate AskedFor(was: seq<Ask>, now: seq<Ask>, n: nat) {
    |now| == |was| + 1 && now[..|was|] == was && now[|was|].units == if n < 4096 then 4096 else n
  }

  /** Some member of the list has `n` units. */
  ghost predicate Holds(a: Arena, n: nat) {
    exists q :: q in a.free && q < |a.mem| && a.mem[q].size >= n
  }

  lemma GrownGained(a: Arena, m: Arena, r: Arena, h: nat, n: nat)
    requires h < |a.mem| && |a.owner| == |a.mem| && m == Grown(a, h, n) && SameRest(m, r) && 0 < h
    ensures Gained(a, r, Ask(n, h))
  {
  }

  /** Serving a request gains nothing more. */
  lemma GainedThen(a: Arena, m: Arena, r: Arena, ask: Ask, h: nat, n: nat)
    requires Gained(a, m, ask) && Allocated(m, r, h, n)
    ensures Gained(a, r, ask)
  {
  }

  class Allocator {
    var mem: seq<Header>
    const base: nat            // the static header of the free list
    var freep: nat             // 0 until the first malloc
    var brk: nat               // end of the data segment
    ghost var s: Arena
    ghost var asks: seq<Ask>   // the calls of `sbrk` so far

    ghost predicate Valid()
      reads this
    {
      s.mem == mem && Heap(s, base, freep, brk)
    }

    constructor (space: nat, base: nat, brk: nat)
      requires 0 < base < brk <= space
      ensures Valid() && s.live == {} && asks == [] && |mem| == space && this.base == base && this.brk == brk
    {
      var m := seq(space, i => Header(0, 0));
      mem := m;
      this.base := base;
      freep := 0;
      this.brk := brk;
      s := Arena(m, {}, {}, seq(space, i => 0), base);
      asks := [];
    }

    /** The search loop of `free`: where the block at `bp` belongs. */
    method Search(bp: nat) returns (p: nat)
      requires s.mem == mem && Linked(s) && freep in s.free && bp > s.base && bp !in s.free
      ensures Before(s, p, bp)
    {
      ghost var k := FindBefore(s, bp);
      p := freep;
      StopsExactly(s, p, bp);
      while !(bp > p && bp < mem[p].ptr)
        invariant p in s.free && p < |mem|
        invariant Stops(p, mem[p].ptr, bp) <==> Before(s, p, bp)
        decreases Ahead(s.free, p, k)
      {
        if p >= mem[p].ptr && (bp > p || bp < mem[p].ptr) {
          break;
        }
        AheadNext(s, p, k);
        p := mem[p].ptr;
        StopsExactly(s, p, bp);
      }
    }

    /** The pointer updates of `free` for a block at `bp` behind `p`. */
    method Relink(p: nat, bp: nat)
      requires s.mem == mem && p < bp < |mem| && mem[p].ptr < |mem| && mem[p].ptr != bp && mem[bp].size >= 1
      modifies this`mem
      ensures mem == Freed(s, p, bp).mem
    {
      FreedMem(s, p, bp);
      if bp + mem[bp].size == mem[p].ptr {
        mem := mem[bp := Header(mem[bp].ptr, mem[bp].size + mem[mem[p].ptr].size)];
        mem := mem[bp := Header(mem[mem[p].ptr].ptr, mem[bp].size)];
      } else {
        mem := mem[bp := Header(mem[p].ptr, mem[bp].size)];
      }
      if p + mem[p].size == bp {
        mem := mem[p := Header(mem[p].ptr, mem[p].size + mem[bp].size)];
        mem := mem[p := Header(mem[bp].ptr, mem[p].size)];
      } else {
        mem := mem[p := Header(bp, mem[p].size)];
      }
    }

    /** `free(ap)`, with `bp` the header in front of `ap`: put the block back and join
        it with its neighbours. */
    method Free(bp: nat)
      requires Valid() && freep != 0 && bp in s.live
      modifies this`mem, this`freep, this`s
      ensures Valid() && freep != 0
      ensures s.live == old(s).live - {bp}
      ensures SameRest(old(s), s)
      ensures bp < |old(s).mem| && FitsAt(s, freep, bp, old(s).mem[bp].size)
    {
      hide Heap, Freed, SameRest, FitsAt, Sound, Linked, Partition, Coalesced;
      FreedStart(s, base, freep, brk, bp);
      var p := Search(bp);
      FreedBounds(s, p, bp);
      FreedHeap(s, base, freep, brk, p, bp);
      ghost var r := Freed(s, p, bp);
      Relink(p, bp);
      freep := p;
      s := r;
    }

    /** `sbrk` for `n` units: it fails, or gives the next `n` units at or above the
        break, which something else may have moved. */
    method Sbrk(n: nat) returns (p: nat)
      modifies this`brk, this`asks
      ensures asks == old(asks) + [Ask(n, p)]
      ensures p == 0 ==> brk == old(brk)
      ensures p != 0 ==> old(brk) <= p && brk == p + n <= |mem|
    {
      var q: nat := *;
      if 0 < brk <= q && q + n <= |mem| {
        p, brk := q, q + n;
      } else {
        p := 0;
      }
      asks := asks + [Ask(n, p)];
    }

    /** `morecore` asks `sbrk` once, for `nu` units but at least 4096, and gains exactly
        what that gives. */
    method Morecore(nu: nat) returns (p: nat)
      requires Valid() && freep != 0
      modifies this
      ensures Valid() && freep != 0 && p in {0, freep}
      ensures p == 0 ==> s == old(s) && freep == old(freep) && brk == old(brk)
      ensures p != 0 ==> Kept(old(s), s, old(brk)) && Fits(s, freep, nu) && old(brk) <= brk
      ensures AskedFor(old(asks), asks, nu)
      ensures p == 0 <==> asks[|old(asks)|].got == 0
      ensures p != 0 ==> Gained(old(s), s, asks[|old(asks)|])
    {
      hide Sound, Linked, Partition, Coalesced, SameRest, FitsAt, Fits, Kept, Grown, Gained;
      var n := if nu < 4096 then 4096 else nu;
      ghost var a, b := s, brk;
      var hp := Sbrk(n);
      if hp == 0 {
        return 0;
      }
      GrownHeap(a, base, freep, b, hp, n, brk);
      ghost var m := Grown(a, hp, n);
      var after := mem[hp := Header(mem[hp].ptr, n)];
      assert m.mem == after && Heap(m, base, freep, brk) && hp in m.live && freep != 0;
      mem := after;
      s := m;
      Free(hp);
      GrownFreedKept(a, m, s, hp, n, b);
      GrownGained(a, m, s, hp, n);
      FitsHere(s, freep, hp, n, nu);
      return freep;
    }

    /** The branch of `malloc` that serves a request for `n` units from the list member
        `p`, which `prevp` points to. */
    method Take(prevp: nat, p: nat, n: nat) returns (h: nat)
      requires Valid() && freep != 0 && n >= 1
      requires prevp in s.free && prevp < |mem| && p == mem[prevp].ptr && p < |mem| && mem[p].size >= n
      modifies this`mem, this`freep, this`s
      ensures Valid() && freep != 0
      ensures Allocated(old(s), s, h, n) && h != 0
    {
      hide Sound, Linked, Partition, Coalesced, TakenWhole, TakenTail, Allocated;
      ghost var r;
      if mem[p].size == n {
        TakenWholeHeap(s, base, freep, brk, prevp, p);
        r := TakenWhole(s, prevp, p);
        h := p;
        mem := mem[prevp := Header(mem[p].ptr, mem[prevp].size)];
      } else {
        h := p + mem[p].size - n;
        TakenTailHeap(s, base, freep, brk, prevp, p, n, h);
        r := TakenTail(s, p, n);
        var m := mem[p := Header(mem[p].ptr, mem[p].size - n)];
        mem := m[h := Header(m[h].ptr, n)];
      }
      s := r;
      freep := prevp;
    }

    /** `malloc(nbytes)`: the header in front of the returned memory, or 0. */
    method Malloc(nbytes: nat) returns (r: nat)
      requires Valid() && nbytes <= MAXREQUEST
      modifies this
      ensures Valid() && freep != 0
      ensures r != 0 ==> Served(old(s), s, r, NUnits(nbytes), old(brk))
      ensures r == 0 ==> Kept(old(s), s, old(brk)) && forall q :: q in s.free && q < |s.mem| ==>
        s.mem[q].size < NUnits(nbytes)
      ensures Answered(old(s), s, NUnits(nbytes), old(asks), asks, r != 0)
    {
      hide Sound, Linked, Partition, Coalesced, Allocated, Kept, Served, Fits, Sought, Answered, Gained, AskedFor,
        Started,
        Heap;
      ghost var a, b := s, brk;
      HeapPartition(s, base, freep, brk);
      var nunits := NUnits(nbytes);
      if freep == 0 {
        StartedHeap(s, base, brk);
        ghost var m := Started(s);
        var first := mem[base := Header(base, 0)];
        assert m.mem == first;
        mem := first;
        freep := base;
        s := m;
      } else {
        KeptSelf(s, b);
      }
      var prevp := freep;
      StartWalk(s, base, freep, brk);
      var p := mem[prevp].ptr;
      ghost var grown := false;
      SoughtStart(a, s, base, p, freep, nunits, asks);
      while true
        invariant Valid() && freep != 0 && b <= brk && Kept(a, s, b) && Linked(s)
        invariant prevp in s.free && prevp < |mem| && p == mem[prevp].ptr && p < |mem| && p in s.free && freep in s.free
        invariant Sought(a, s, p, freep, nunits, old(asks), asks, grown)
        decreases !grown, Ahead(s.free, p, freep)
      {
        if mem[p].size >= nunits {
          ghost var m, freep0 := s, freep;
          HeapPartition(s, base, freep, brk);
          r := Take(prevp, p, nunits);
          ServedFrom(a, m, s, r, nunits, b);
          SoughtServed(a, m, s, p, freep0, nunits, old(asks), asks, grown, r);
          return;
        }
        if p == freep {
          ghost var m, c := s, brk;
          SoughtAll(a, s, p, nunits, old(asks), asks, grown);
          p := Morecore(nunits);
          if p == 0 {
            SoughtRefused(a, s, nunits, old(asks), asks);
            return 0;
          }
          KeptThenKept(a, m, s, b, c);
          StartWalk(s, base, freep, brk);
          SoughtGrown(a, m, s, p, nunits, old(asks), asks);
          grown := true;
        } else {
          SoughtOn(a, s, p, freep, nunits, old(asks), asks, grown);
        }
        prevp := p;
        p := mem[p].ptr;
      }
    }
  }

  /** What `malloc` has found out while it goes round the list, now at `p` on the way to
      `k`: before it has asked for more, that the members behind it are too small; then,
      that none was large enough, and that one is now. */
  ghost predicate Sought(a: Arena, m: Arena, p: nat, k: nat, n: nat, was: seq<Ask>, now: seq<Ask>, grown: bool) {
    if grown then
      && Waiting(m, p, k, n) && !Holds(a, n)
      && AskedFor(was, now, n) && now[|was|].got != 0 && Gained(a, m, now[|was|])
    else
      && Passed(m, p, k, n) && (Holds(m, n) <==> Holds(a, n)) && now == was && m.owner == a.owner
  }

  /** The outcome of a request for `n` units: served from the list if some member is large
      enough; else `sbrk` is asked, once, and the request fails if and only if it refuses. */
  ghost predicate Answered(a: Arena, r: Arena, n: nat, was: seq<Ask>, now: seq<Ask>, served: bool) {
    if Holds(a, n) then served && now == was && Gained(a, r, Ask(0, 0))
    else AskedFor(was, now, n) && (served <==> now[|was|].got != 0) && Gained(a, r, now[|was|])
  }

  lemma SoughtStart(a: Arena, m: Arena, base: nat, p: nat, k: nat, n: nat, asks: seq<Ask>)
    requires n >= 1 && (m == a || (a.free == {} && base == a.base < |a.mem| && m == Started(a)))
    requires Ahead(m.free, p, k) == m.free
    ensures Sought(a, m, p, k, n, asks, asks, false)
  {
  }

  lemma SoughtOn(a: Arena, m: Arena, p: nat, k: nat, n: nat, was: seq<Ask>, now: seq<Ask>, grown: bool)
    requires Linked(m) && p in m.free && k in m.free && p != k && p < |m.mem| && m.mem[p].size < n
    requires Sought(a, m, p, k, n, was, now, grown)
    ensures m.mem[p].ptr in m.free && m.mem[p].ptr < |m.mem|
    ensures Ahead(m.free, m.mem[p].ptr, k) < Ahead(m.free, p, k)
    ensures Sought(a, m, m.mem[p].ptr, k, n, was, now, grown)
  {
    hide Passed, Waiting, Holds, Gained, AskedFor;
    WalkOn(m, p, k, n);
  }

  /** Back at the start nothing was found. */
  lemma SoughtAll(a: Arena, m: Arena, p: nat, n: nat, was: seq<Ask>, now: seq<Ask>, grown: bool)
    requires p < |m.mem| && m.mem[p].size < n && Sought(a, m, p, p, n, was, now, grown)
    ensures !grown && now == was && !Holds(a, n) && m.owner == a.owner
    ensures forall q :: q in m.free && q < |m.mem| ==> m.mem[q].size < n
  {
    LastMember(m, p, n);
  }

  lemma SoughtRefused(a: Arena, m: Arena, n: nat, was: seq<Ask>, now: seq<Ask>)
    requires !Holds(a, n) && m.owner == a.owner && AskedFor(was, now, n) && now[|was|].got == 0
    ensures Answered(a, m, n, was, now, false)
  {
  }

  lemma SoughtGrown(a: Arena, m: Arena, r: Arena, p: nat, n: nat, was: seq<Ask>, now: seq<Ask>)
    requires !Holds(a, n) && m.owner == a.owner && AskedFor(was, now, n) && now[|was|].got != 0
    requires Gained(m, r, now[|was|])
    requires Fits(r, p, n) && p in r.free && Ahead(r.free, r.mem[p].ptr, p) == r.free
    ensures Sought(a, r, r.mem[p].ptr, p, n, was, now, true)
  {
    FitsAhead(r, p, n);
  }

  lemma SoughtServed(a: Arena, m: Arena, r: Arena, p: nat, k: nat, n: nat, was: seq<Ask>, now: seq<Ask>, grown: bool,
      h: nat)
    requires Sought(a, m, p, k, n, was, now, grown) && p in m.free && p < |m.mem| && m.mem[p].size >= n
    requires Allocated(m, r, h, n)
    ensures Answered(a, r, n, was, now, true)
  {
    assert Holds(m, n);
    if grown {
      GainedThen(a, m, r, now[|was|], h, n);
    } else {
      assert Gained(a, m, Ask(0, 0));
      GainedThen(a, m, r, Ask(0, 0), h, n);
    }
  }

  lemma KeptSelf(a: Arena, b: nat)
    ensures |a.mem| == |a.owner| ==> Kept(a, a, b)
  {
  }

  /** The members before `p` on the way round to `k` have fewer than `n` units. */
  ghost predicate Passed(a: Arena, p: nat, k: nat, n: nat) {
    forall q :: q in a.free && q < |a.mem| && q !in Ahead(a.free, p, k) ==> a.mem[q].size < n
  }

  /** Some member from `p` on to `k` has `n` units. */
  ghost predicate Waiting(a: Arena, p: nat, k: nat, n: nat) {
    exists q :: q in Ahead(a.free, p, k) && q < |a.mem| && a.mem[q].size >= n
  }

  lemma StartWalk(a: Arena, base: nat, freep: nat, brk: nat)
    requires Heap(a, base, freep, brk) && freep != 0
    ensures Linked(a) && freep in a.free && freep < |a.mem| && a.mem[freep].ptr in a.free && a.mem[freep].ptr < |a.mem|
    ensures Ahead(a.free, a.mem[freep].ptr, freep) == a.free
  {
    AheadAll(a, freep);
  }

  lemma FitsAhead(a: Arena, p: nat, n: nat)
    requires Fits(a, p, n) && p in a.free && Ahead(a.free, a.mem[p].ptr, p) == a.free
    ensures Waiting(a, a.mem[p].ptr, p, n)
  {
    if a.mem[p].size < n {
      assert a.mem[p].ptr in Ahead(a.free, a.mem[p].ptr, p);
    } else {
      assert p in Ahead(a.free, a.mem[p].ptr, p);
    }
  }

  lemma WalkOn(a: Arena, p: nat, k: nat, n: nat)
    requires Linked(a) && p in a.free && k in a.free && p != k && p < |a.mem| && a.mem[p].size < n
    ensures a.mem[p].ptr in a.free && a.mem[p].ptr < |a.mem|
    ensures Ahead(a.free, a.mem[p].ptr, k) < Ahead(a.free, p, k)
    ensures Passed(a, p, k, n) ==> Passed(a, a.mem[p].ptr, k, n)
    ensures Waiting(a, p, k, n) ==> Waiting(a, a.mem[p].ptr, k, n)
  {
    AheadNext(a, p, k);
  }

  /** At `p` itself only `p` is left. */
  lemma LastMember(a: Arena, p: nat, n: nat)
    requires p < |a.mem| && a.mem[p].size < n
    ensures !Waiting(a, p, p, n)
    ensures Passed(a, p, p, n) ==> forall q :: q in a.free && q < |a.mem| ==> a.mem[q].size < n
  {
  }

  /** The list member at `p`, or the one after it, has `n` units. */
  ghost predicate Fits(a: Arena, p: nat, n: nat) {
    && p < |a.mem|
    && (a.mem[p].size >= n || (a.mem[p].ptr in a.free && a.mem[p].ptr < |a.mem| && a.mem[a.mem[p].ptr].size >= n))
  }

  lemma FitsHere(a: Arena, p: nat, bp: nat, n: nat, m: nat)
    requires FitsAt(a, p, bp, n) && m <= n
    ensures Fits(a, p, m)
  {
  }

  /** The list member at `p`, or the next one at `bp`, has `n` units. */
  ghost predicate FitsAt(a: Arena, p: nat, bp: nat, n: nat) {
    p < |a.mem|
    && (a.mem[p].size >= n || (a.mem[p].ptr == bp && bp in a.free && bp < |a.mem| && a.mem[bp].size >= n))
  }

  lemma FreedStart(a: Arena, base: nat, freep: nat, brk: nat, bp: nat)
    requires Heap(a, base, freep, brk) && freep != 0 && bp in a.live
    ensures bp !in a.free && a.base < bp < |a.mem| && Sound(a) && Linked(a) && freep in a.free
  {
  }

  /** The headers `free` leaves, read off its assignments. */
  lemma FreedMem(a: Arena, p: nat, bp: nat)
    requires p < bp < |a.mem| && a.mem[p].ptr < |a.mem| && a.mem[p].ptr != bp && a.mem[bp].size >= 1
    ensures var q := a.mem[p].ptr;
      var b := if bp + a.mem[bp].size == q then Header(a.mem[q].ptr, a.mem[bp].size + a.mem[q].size)
               else Header(q, a.mem[bp].size);
      Freed(a, p, bp).mem ==
        if p + a.mem[p].size == bp then a.mem[bp := b][p := Header(b.ptr, a.mem[p].size + b.size)]
        else a.mem[bp := b][p := Header(bp, a.mem[p].size)]
  {
  }
}
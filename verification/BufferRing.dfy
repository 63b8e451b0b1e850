/** project3/bio.c: the buffers and the doubly linked ring through them. Pointers are
    indices; the last buffer is `bcache.head`. */
module BufferRing {
  import opened Lists
  import opened Words

  datatype Buf = Buf(valid: bool, dirty: bool, dev: nat, blockno: nat, locked: bool, refcnt: nat,
                     prev: int, next: int, data: Block)

  function Step(ring: seq<int>, i: nat): (j: nat)
    requires i < |ring|
    ensures j < |ring|
  {
    if i + 1 < |ring| then i + 1 else 0
  }

  /** Position `i` and the one after it point to each other. */
  predicate LinkAt(bufs: seq<Buf>, ring: seq<int>, i: nat)
    requires i < |ring| && forall j :: 0 <= j < |ring| ==> 0 <= ring[j] < |bufs|
  {
    bufs[ring[i]].next == ring[Step(ring, i)] && bufs[ring[Step(ring, i)]].prev == ring[i]
  }

  /** The buffers in `ring` are linked in a circle, in that order, both ways. */
  ghost predicate Ring(bufs: seq<Buf>, ring: seq<int>) {
    && |ring| >= 1 && NoRepeat(ring)
    && (forall j :: 0 <= j < |ring| ==> 0 <= ring[j] < |bufs|)
    && (forall i: nat :: i < |ring| ==> LinkAt(bufs, ring, i))
  }

  function SetNext(bufs: seq<Buf>, b: int, to: int): (r: seq<Buf>)
    requires 0 <= b < |bufs|
  {
    bufs[b := bufs[b].(next := to)]
  }

  function SetPrev(bufs: seq<Buf>, b: int, to: int): (r: seq<Buf>)
    requires 0 <= b < |bufs|
  {
    bufs[b := bufs[b].(prev := to)]
  }

  predicate InRange(bufs: seq<Buf>, b: int) {
    0 <= b < |bufs|
  }

  /** Buffer `b` is taken out: its neighbours point to each other. */
  function Unlinked(bufs: seq<Buf>, b: int): seq<Buf>
    requires InRange(bufs, b) && InRange(bufs, bufs[b].next) && InRange(bufs, bufs[b].prev)
  {
    var r := SetPrev(bufs, bufs[b].next, bufs[b].prev);
    if InRange(r, r[b].prev) then SetNext(r, r[b].prev, r[b].next) else r
  }

  /** `b` goes behind `head`. */
  function Linked(bufs: seq<Buf>, head: int, b: int): seq<Buf>
    requires InRange(bufs, b) && InRange(bufs, head) && InRange(bufs, bufs[head].next) && b != head
  {
    var r := SetPrev(SetNext(bufs, b, bufs[head].next), b, head);
    SetNext(SetPrev(r, r[head].next, b), head, b)
  }

  /** All but the links are the same. */
  ghost predicate SameBufs(bufs: seq<Buf>, r: seq<Buf>) {
    |r| == |bufs| && forall b :: 0 <= b < |bufs| ==> r[b].(prev := bufs[b].prev, next := bufs[b].next) == bufs[b]
  }

  lemma UnlinkedAt(bufs: seq<Buf>, b: int)
    requires InRange(bufs, b) && InRange(bufs, bufs[b].next) && InRange(bufs, bufs[b].prev)
    requires bufs[b].next != b && bufs[b].prev != b
    ensures var r := Unlinked(bufs, b);
      && SameBufs(bufs, r)
      && (forall x :: 0 <= x < |bufs| ==> r[x].next == if x == bufs[b].prev then bufs[b].next else bufs[x].next)
      && (forall x :: 0 <= x < |bufs| ==> r[x].prev == if x == bufs[b].next then bufs[b].prev else bufs[x].prev)
  {
  }

  lemma LinkedAt(bufs: seq<Buf>, head: int, b: int)
    requires InRange(bufs, b) && InRange(bufs, head) && InRange(bufs, bufs[head].next) && b != head
    requires bufs[head].next != b
    ensures var r := Linked(bufs, head, b);
      && SameBufs(bufs, r)
      && (forall x :: 0 <= x < |bufs| ==>
            r[x].next == if x == b then bufs[head].next else if x == head then b else bufs[x].next)
      && (forall x :: 0 <= x < |bufs| ==>
            r[x].prev == if x == b then head else if x == bufs[head].next then b else bufs[x].prev)
  {
  }

  lemma UnlinkedRing(bufs: seq<Buf>, ring: seq<int>, i: nat)
    requires Ring(bufs, ring) && 1 <= i < |ring|
    ensures InRange(bufs, ring[i]) && InRange(bufs, bufs[ring[i]].next) && InRange(bufs, bufs[ring[i]].prev)
    ensures var r := Unlinked(bufs, ring[i]); Ring(r, Removed(ring, i)) && SameBufs(bufs, r)
  {
    hide Unlinked, SameBufs;
    assert LinkAt(bufs, ring, i) && LinkAt(bufs, ring, i - 1);
    UnlinkedAt(bufs, ring[i]);
    var r, rest := Unlinked(bufs, ring[i]), Removed(ring, i);
    SameSize(bufs, r);
    forall j: nat | j < |rest|
      ensures LinkAt(r, rest, j)
    {
      assert LinkAt(bufs, ring, if j < i then j else j + 1);
    }
  }

  lemma SameSize(bufs: seq<Buf>, r: seq<Buf>)
    requires SameBufs(bufs, r)
    ensures |r| == |bufs|
  {
  }

  lemma LinkedRing(bufs: seq<Buf>, ring: seq<int>, b: int)
    requires Ring(bufs, ring) && InRange(bufs, b) && forall j :: 0 <= j < |ring| ==> ring[j] != b
    ensures InRange(bufs, ring[0]) && InRange(bufs, bufs[ring[0]].next)
    ensures var r := Linked(bufs, ring[0], b); Ring(r, Put(ring, 1, b)) && SameBufs(bufs, r)
  {
    hide Linked, SameBufs;
    assert LinkAt(bufs, ring, 0);
    LinkedAt(bufs, ring[0], b);
    var r, more := Linked(bufs, ring[0], b), Put(ring, 1, b);
    SameSize(bufs, r);
    forall j: nat | j < |more|
      ensures LinkAt(r, more, j)
    {
      if j > 1 {
        assert LinkAt(bufs, ring, j - 1);
      }
    }
  }
}

/** project3/bio.c, with the disk of memide.c: the buffer cache. Each method is what one
    process does while it holds `bcache.lock` or the sleep lock of a buffer; any number
    of processes may take turns between them. */
module BufferCache {
  import opened BufferRing
  import opened Lists
  import opened Words

  const NONE: int := -1

  /** The cache as the proofs see it. `ring` lists the buffers from `bcache.head` on, most
      recently used first; `others[b]` counts the processes that have a reference to `b`
      but not its lock; `modified[b]` says that the holder of the lock has changed the
      data and not yet marked the buffer dirty; and `latest` is what each block was last
      given. */
  datatype Store = Store(bufs: seq<Buf>, ring: seq<int>, others: seq<nat>, modified: seq<bool>,
                         disk: seq<Block>, latest: seq<Block>)

  /** How many buffers there are, which is also the index of `bcache.head`. */
  function Count(s: Store): nat {
    |s.others|
  }

  /** The ring holds every buffer once, and starts with the head. */
  ghost predicate Shaped(s: Store) {
    && |s.bufs| == Count(s) + 1 == |s.modified| + 1
    && Ring(s.bufs, s.ring) && s.ring[0] == Count(s)
    && (forall b :: 0 <= b <= Count(s) ==> b in s.ring)
  }

  /** `refcnt` counts the references there are. */
  ghost predicate Counted(s: Store) {
    && |s.bufs| == |s.others| + 1 == |s.modified| + 1
    && (forall b :: 0 <= b < |s.others| ==> s.bufs[b].refcnt == s.others[b] + if s.bufs[b].locked then 1 else 0)
    && (forall b :: 0 <= b < |s.others| && s.modified[b] ==> s.bufs[b].locked && s.bufs[b].valid)
  }

  predicate Matches(b: Buf, dev: nat, blockno: nat) {
    b.dev == dev && b.blockno == blockno
  }

  /** No two buffers hold the same block of a device other than 0. */
  ghost predicate Single(s: Store) {
    |s.bufs| == |s.others| + 1
    && forall b, c :: 0 <= b < c < |s.others| && s.bufs[b].dev != 0 ==>
      !Matches(s.bufs[c], s.bufs[b].dev, s.bufs[b].blockno)
  }

  /** The buffer has contents that the disk may not have yet. */
  predicate Ahead(s: Store, b: int, k: int)
    requires |s.bufs| == |s.others| + 1 == |s.modified| + 1
  {
    0 <= b < |s.others| && s.bufs[b].valid && s.bufs[b].blockno == k && (s.bufs[b].dirty || s.modified[b])
  }

  /** A valid buffer has the latest contents of its block; the disk has them too, unless
      a buffer is ahead of it. */
  ghost predicate Coherent(s: Store) {
    && |s.bufs| == |s.others| + 1 == |s.modified| + 1 && |s.latest| == |s.disk|
    && (forall b :: 0 <= b < |s.others| && s.bufs[b].dirty ==> s.bufs[b].valid)
    && (forall b :: 0 <= b < |s.others| && s.bufs[b].valid ==>
          s.bufs[b].dev == 1 && s.bufs[b].blockno < |s.disk| && s.bufs[b].data == s.latest[s.bufs[b].blockno])
    && (forall k :: 0 <= k < |s.disk| && s.disk[k] != s.latest[k] ==> exists b :: Ahead(s, b, k))
  }

  ghost predicate Sound(s: Store) {
    Shaped(s) && Counted(s) && Single(s) && Coherent(s)
  }

  // ---- what the operations do ----

  function Changed(s: Store, b: int, to: Buf): Store
    requires 0 <= b < |s.bufs|
  {
    s.(bufs := s.bufs[b := to])
  }

  /** `bget` finds the block in buffer `b`. */
  function Hit(s: Store, b: int): Store
    requires 0 <= b < |s.others| < |s.bufs|
  {
    Changed(s, b, s.bufs[b].(refcnt := s.bufs[b].refcnt + 1)).(others := s.others[b := s.others[b] + 1])
  }

  /** `bget` gives buffer `b` to another block. */
  function Recycled(s: Store, b: int, dev: nat, blockno: nat): Store
    requires 0 <= b < |s.others| < |s.bufs|
  {
    Changed(s, b, s.bufs[b].(dev := dev, blockno := blockno, valid := false, dirty := false, refcnt := 1))
      .(others := s.others[b := 1])
  }

  /** The sleep lock of `b` is taken, or given back. */
  function LockSet(s: Store, b: int, locked: bool): Store
    requires 0 <= b < |s.others| < |s.bufs| && (locked ==> s.others[b] > 0)
  {
    Changed(s, b, s.bufs[b].(locked := locked))
      .(others := s.others[b := if locked then s.others[b] - 1 else s.others[b] + 1])
  }

  /** `iderw` reads the block of `b`. */
  function Filled(s: Store, b: int): Store
    requires 0 <= b < |s.bufs| && s.bufs[b].blockno < |s.disk|
  {
    Changed(s, b, s.bufs[b].(valid := true, data := s.disk[s.bufs[b].blockno]))
  }

  /** The holder of the lock gives the block new contents. */
  function Edited(s: Store, b: int, data: Block): Store
    requires 0 <= b < |s.modified| < |s.bufs| && s.bufs[b].blockno < |s.latest|
  {
    Changed(s, b, s.bufs[b].(data := data))
      .(modified := s.modified[b := true], latest := s.latest[s.bufs[b].blockno := data])
  }

  /** `log_write` pins the buffer. */
  function Marked(s: Store, b: int): Store
    requires 0 <= b < |s.modified| < |s.bufs|
  {
    Changed(s, b, s.bufs[b].(dirty := true)).(modified := s.modified[b := false])
  }

  /** `bwrite` */
  function Written(s: Store, b: int): Store
    requires 0 <= b < |s.modified| < |s.bufs| && s.bufs[b].blockno < |s.disk|
  {
    Changed(s, b, s.bufs[b].(dirty := false, valid := true))
      .(modified := s.modified[b := false], disk := s.disk[s.bufs[b].blockno := s.bufs[b].data])
  }

  predicate Unused(b: Buf) {
    b.refcnt == 0 && !b.dirty
  }

  ghost predicate Cached(s: Store, dev: nat, blockno: nat) {
    exists b :: 0 <= b < |s.others| < |s.bufs| && Matches(s.bufs[b], dev, blockno)
  }

  /** `b` is the unused buffer that was released longest ago. */
  ghost predicate LeastRecent(s: Store, b: int) {
    exists i :: 1 <= i < |s.ring| && s.ring[i] == b && 0 <= b < |s.bufs| && Unused(s.bufs[b])
      && forall j :: i < j < |s.ring| && 0 <= s.ring[j] < |s.bufs| ==> !Unused(s.bufs[s.ring[j]])
  }

  /** No buffer is left for another block. */
  ghost predicate Exhausted(s: Store) {
    forall b :: 0 <= b < |s.others| && b < |s.bufs| ==> !Unused(s.bufs[b])
  }

  // ---- what they keep ----

  /** Changing a buffer but for its links leaves the ring alone. */
  lemma ChangedShaped(s: Store, b: int, to: Buf, others: seq<nat>)
    requires Shaped(s) && 0 <= b < Count(s) && to.prev == s.bufs[b].prev && to.next == s.bufs[b].next
    requires |others| == Count(s)
    ensures Shaped(Changed(s, b, to).(others := others))
  {
    var r := Changed(s, b, to);
    forall i: nat | i < |s.ring|
      ensures LinkAt(r.bufs, s.ring, i)
    {
      assert LinkAt(s.bufs, s.ring, i);
    }
  }

  lemma HitKeeps(s: Store, b: int)
    requires Sound(s) && 0 <= b < Count(s)
    ensures Sound(Hit(s, b))
  {
    ChangedShaped(s, b, s.bufs[b].(refcnt := s.bufs[b].refcnt + 1), s.others[b := s.others[b] + 1]);
    HitCounts(s, b);
  }

  lemma HitCounts(s: Store, b: int)
    requires Counted(s) && Single(s) && Coherent(s) && 0 <= b < Count(s)
    ensures Counted(Hit(s, b)) && Single(Hit(s, b)) && Coherent(Hit(s, b))
  {
    var r := Hit(s, b);
    forall k | 0 <= k < |r.disk| && r.disk[k] != r.latest[k]
      ensures exists c :: Ahead(r, c, k)
    {
      var c :| Ahead(s, c, k);
      assert Ahead(r, c, k);
    }
  }

  /** An unused buffer holds nothing that would be lost. */
  lemma RecycledKeeps(s: Store, b: int, dev: nat, blockno: nat)
    requires Sound(s) && 0 <= b < Count(s) && Unused(s.bufs[b]) && !Cached(s, dev, blockno)
    ensures Sound(Recycled(s, b, dev, blockno))
  {
    ChangedShaped(s, b, s.bufs[b].(dev := dev, blockno := blockno, valid := false, dirty := false, refcnt := 1),
      s.others[b := 1]);
    RecycledCounts(s, b, dev, blockno);
  }

  lemma RecycledCounts(s: Store, b: int, dev: nat, blockno: nat)
    requires Counted(s) && Single(s) && Coherent(s) && 0 <= b < Count(s) && Unused(s.bufs[b])
    requires !Cached(s, dev, blockno)
    ensures var r := Recycled(s, b, dev, blockno); Counted(r) && Single(r) && Coherent(r)
  {
    var r := Recycled(s, b, dev, blockno);
    forall k | 0 <= k < |r.disk| && r.disk[k] != r.latest[k]
      ensures exists c :: Ahead(r, c, k)
    {
      var c :| Ahead(s, c, k);
      assert c != b;
      assert Ahead(r, c, k);
    }
  }

  lemma LockKeeps(s: Store, b: int, locked: bool)
    requires Sound(s) && 0 <= b < Count(s) && s.bufs[b].locked != locked
    requires if locked then s.others[b] > 0 else !s.modified[b]
    ensures Sound(LockSet(s, b, locked))
  {
    ChangedShaped(s, b, s.bufs[b].(locked := locked), LockSet(s, b, locked).others);
    LockCounts(s, b, locked);
  }

  lemma LockCounts(s: Store, b: int, locked: bool)
    requires Counted(s) && Single(s) && Coherent(s) && 0 <= b < Count(s) && s.bufs[b].locked != locked
    requires if locked then s.others[b] > 0 else !s.modified[b]
    ensures var r := LockSet(s, b, locked); Counted(r) && Single(r) && Coherent(r)
  {
    AheadStill(s, LockSet(s, b, locked));
  }

  /** What is ahead of the disk stays ahead. */
  lemma AheadStill(s: Store, r: Store)
    requires |s.bufs| == |s.others| + 1 == |s.modified| + 1 && |r.bufs| == |r.others| + 1 == |r.modified| + 1
    requires |r.others| == |s.others| && r.disk == s.disk && r.latest == s.latest && |s.latest| == |s.disk|
    requires forall b :: 0 <= b < |s.others| ==> r.bufs[b].blockno == s.bufs[b].blockno
    requires forall b :: 0 <= b < |s.others| && s.bufs[b].valid && (s.bufs[b].dirty || s.modified[b]) ==>
      r.bufs[b].valid && (r.bufs[b].dirty || r.modified[b])
    requires forall k :: 0 <= k < |s.disk| && s.disk[k] != s.latest[k] ==> exists b :: Ahead(s, b, k)
    ensures forall k :: 0 <= k < |r.disk| && r.disk[k] != r.latest[k] ==> exists b :: Ahead(r, b, k)
  {
    forall k | 0 <= k < |r.disk| && r.disk[k] != r.latest[k]
      ensures exists b :: Ahead(r, b, k)
    {
      var b :| Ahead(s, b, k);
      assert Ahead(r, b, k);
    }
  }

  /** Reading a block that no buffer is ahead of gives its latest contents. */
  lemma FilledKeeps(s: Store, b: int)
    requires Sound(s) && 0 <= b < Count(s) && !s.bufs[b].valid && s.bufs[b].dev == 1 && s.bufs[b].blockno < |s.disk|
    ensures Sound(Filled(s, b)) && Filled(s, b).bufs[b].data == s.latest[s.bufs[b].blockno]
  {
    ChangedShaped(s, b, s.bufs[b].(valid := true, data := s.disk[s.bufs[b].blockno]), s.others);
    FilledCounts(s, b);
  }

  lemma FilledCounts(s: Store, b: int)
    requires Counted(s) && Single(s) && Coherent(s) && 0 <= b < Count(s)
    requires !s.bufs[b].valid && s.bufs[b].dev == 1 && s.bufs[b].blockno < |s.disk|
    ensures var r := Filled(s, b);
      Counted(r) && Single(r) && Coherent(r) && r.bufs[b].data == s.latest[s.bufs[b].blockno]
  {
    var k := s.bufs[b].blockno;
    forall c
      ensures !Ahead(s, c, k)
    {
      if 0 <= c < |s.others| {
        var clash := Matches(s.bufs[c], s.bufs[b].dev, k) || Matches(s.bufs[b], s.bufs[c].dev, s.bufs[c].blockno);
      }
    }
    AheadStill(s, Filled(s, b));
  }

  lemma EditedKeeps(s: Store, b: int, data: Block)
    requires Sound(s) && 0 <= b < Count(s) && s.bufs[b].valid && s.bufs[b].locked
    ensures Sound(Edited(s, b, data))
  {
    ChangedShaped(s, b, s.bufs[b].(data := data), s.others);
    EditedCounts(s, b, data);
  }

  lemma EditedCounts(s: Store, b: int, data: Block)
    requires Counted(s) && Single(s) && Coherent(s) && 0 <= b < Count(s) && s.bufs[b].valid && s.bufs[b].locked
    ensures var r := Edited(s, b, data); Counted(r) && Single(r) && Coherent(r)
  {
    var r := Edited(s, b, data);
    forall k | 0 <= k < |r.disk| && r.disk[k] != r.latest[k]
      ensures exists c :: Ahead(r, c, k)
    {
      if k == s.bufs[b].blockno {
        assert Ahead(r, b, k);
      } else {
        var c :| Ahead(s, c, k);
        assert Ahead(r, c, k);
      }
    }
    forall c | 0 <= c < |r.others| && r.bufs[c].valid && c != b
      ensures r.bufs[c].data == r.latest[r.bufs[c].blockno]
    {
      assert !Matches(s.bufs[if b < c then c else b], 1, s.bufs[if b < c then b else c].blockno);
    }
  }

  lemma MarkedKeeps(s: Store, b: int)
    requires Sound(s) && 0 <= b < Count(s) && s.bufs[b].valid
    ensures Sound(Marked(s, b))
  {
    ChangedShaped(s, b, s.bufs[b].(dirty := true), s.others);
    MarkedCounts(s, b);
  }

  lemma MarkedCounts(s: Store, b: int)
    requires Counted(s) && Single(s) && Coherent(s) && 0 <= b < Count(s) && s.bufs[b].valid
    ensures var r := Marked(s, b); Counted(r) && Single(r) && Coherent(r)
  {
    AheadStill(s, Marked(s, b));
  }

  lemma WrittenKeeps(s: Store, b: int)
    requires Sound(s) && 0 <= b < Count(s) && s.bufs[b].valid
    ensures Sound(Written(s, b))
  {
    ChangedShaped(s, b, s.bufs[b].(dirty := false, valid := true), s.others);
    WrittenCounts(s, b);
  }

  lemma WrittenCounts(s: Store, b: int)
    requires Counted(s) && Single(s) && Coherent(s) && 0 <= b < Count(s) && s.bufs[b].valid
    ensures var r := Written(s, b); Counted(r) && Single(r) && Coherent(r)
  {
    var r := Written(s, b);
    forall k | 0 <= k < |r.disk| && r.disk[k] != r.latest[k]
      ensures exists c :: Ahead(r, c, k)
    {
      var c :| Ahead(s, c, k);
      assert Ahead(r, c, k);
    }
  }

  // ---- brelse ----

  /** The last reference to `b`, at position `i` of the ring, is dropped: it becomes the
      most recently used buffer. */
  function Fronted(bufs: seq<Buf>, head: int, b: int): seq<Buf>
    requires InRange(bufs, b) && InRange(bufs, head) && b != head
  {
    if InRange(bufs, bufs[b].next) && InRange(bufs, bufs[b].prev) then
      var r := Unlinked(bufs, b);
      if |r| == |bufs| && InRange(r, r[head].next) then Linked(r, head, b) else r
    else bufs
  }

  function OneLess(s: Store, b: int): Store
    requires 0 <= b < |s.others| < |s.bufs| && s.others[b] > 0 && s.bufs[b].refcnt > 0
  {
    Changed(s, b, s.bufs[b].(refcnt := s.bufs[b].refcnt - 1)).(others := s.others[b := s.others[b] - 1])
  }

  function Dropped(s: Store, b: int, i: nat): Store
    requires 0 <= b < |s.others| < |s.bufs| && s.others[b] > 0 && s.bufs[b].refcnt > 0 && 1 <= i < |s.ring|
  {
    var t := OneLess(s, b);
    if t.bufs[b].refcnt > 0 then t
    else t.(bufs := Fronted(t.bufs, |s.others|, b), ring := Put(Removed(s.ring, i), 1, b))
  }

  lemma OneLessKeeps(s: Store, b: int)
    requires Sound(s) && 0 <= b < Count(s) && s.others[b] > 0
    ensures s.bufs[b].refcnt > 0 && Sound(OneLess(s, b))
  {
    ChangedShaped(s, b, s.bufs[b].(refcnt := s.bufs[b].refcnt - 1), s.others[b := s.others[b] - 1]);
    OneLessCounts(s, b);
  }

  lemma OneLessCounts(s: Store, b: int)
    requires Counted(s) && Single(s) && Coherent(s) && 0 <= b < Count(s) && s.others[b] > 0
    ensures s.bufs[b].refcnt > 0
    ensures var r := OneLess(s, b); Counted(r) && Single(r) && Coherent(r)
  {
    AheadStill(s, OneLess(s, b));
  }

  /** Moving buffer `b` to the front keeps the ring whole. */
  lemma FrontedRing(bufs: seq<Buf>, ring: seq<int>, i: nat)
    requires Ring(bufs, ring) && 1 <= i < |ring|
    ensures InRange(bufs, ring[0]) && InRange(bufs, ring[i]) && ring[0] != ring[i]
    ensures InRange(bufs, bufs[ring[i]].next) && InRange(bufs, bufs[ring[i]].prev)
    ensures var r := Unlinked(bufs, ring[i]); |r| == |bufs| && InRange(r, r[ring[0]].next)
    ensures var r := Fronted(bufs, ring[0], ring[i]);
      Ring(r, Put(Removed(ring, i), 1, ring[i])) && SameBufs(bufs, r)
  {
    hide Unlinked, Linked;
    UnlinkedRing(bufs, ring, i);
    var u := Unlinked(bufs, ring[i]);
    assert Removed(ring, i)[0] == ring[0];
    LinkedRing(u, Removed(ring, i), ring[i]);
  }

  /** Links are all that a move to the front changes. */
  lemma SameCounts(s: Store, r: Store)
    requires Counted(s) && Single(s) && Coherent(s) && SameBufs(s.bufs, r.bufs)
    requires r == s.(bufs := r.bufs, ring := r.ring)
    ensures Counted(r) && Single(r) && Coherent(r)
  {
    AheadStill(s, r);
  }

  lemma StillOn(ring: seq<int>, i: nat)
    requires 1 <= i < |ring|
    ensures forall b :: b in ring ==> b in Put(Removed(ring, i), 1, ring[i])
    ensures Put(Removed(ring, i), 1, ring[i])[0] == ring[0]
  {
    var p := Put(Removed(ring, i), 1, ring[i]);
    assert p[1] == ring[i];
    forall j | 0 <= j < |ring|
      ensures ring[j] in p
    {
      if j == 0 {
        assert p[0] == ring[0];
      } else if j < i {
        assert p[j + 1] == ring[j];
      } else if j > i {
        assert p[j] == ring[j];
      }
    }
  }

  lemma DroppedKeeps(s: Store, b: int, i: nat)
    requires Sound(s) && 0 <= b < Count(s) && s.others[b] > 0 && 1 <= i < |s.ring| && s.ring[i] == b
    ensures s.bufs[b].refcnt > 0 && Sound(Dropped(s, b, i))
  {
    hide Ring, Counted, Single, Coherent, OneLess, Fronted, SameBufs;
    OneLessKeeps(s, b);
    var t := OneLess(s, b);
    OneLessSame(s, b);
    FrontedRing(t.bufs, s.ring, i);
    StillOn(s.ring, i);
    FrontSize(t.bufs, Fronted(t.bufs, Count(s), b));
    SameCounts(t, t.(bufs := Fronted(t.bufs, Count(s), b), ring := Put(Removed(s.ring, i), 1, b)));
  }

  lemma OneLessSame(s: Store, b: int)
    requires 0 <= b < |s.others| < |s.bufs| && s.others[b] > 0 && s.bufs[b].refcnt > 0
    ensures OneLess(s, b).ring == s.ring && |OneLess(s, b).others| == |s.others| && |OneLess(s, b).bufs| == |s.bufs|
  {
  }

  lemma FrontSize(bufs: seq<Buf>, r: seq<Buf>)
    requires SameBufs(bufs, r)
    ensures |r| == |bufs|
  {
  }

  // ---- the code ----

  class Cache {
    var bufs: seq<Buf>         // `bcache.buf`, then `bcache.head`
    const nbuf: nat            // RNBUF
    var disk: seq<Block>
    ghost var s: Store

    ghost predicate Valid()
      reads this
    {
      s.bufs == bufs && s.disk == disk && |s.others| == nbuf && Sound(s)
    }

    /** `binit`, with nothing read yet. */
    constructor (nbuf: nat, disk: seq<Block>)
      ensures Valid() && this.nbuf == nbuf && this.disk == disk && s.latest == disk
      ensures Fresh(s)
    {
      this.nbuf, this.disk := nbuf, disk;
      var bs := seq(nbuf + 1, i => Buf(false, false, 0, 0, false, 0, nbuf, nbuf, ZeroBlock()));
      ghost var ring: seq<int> := [nbuf];
      assert LinkAt(bs, ring, 0);
      var b := 0;
      while b < nbuf
        invariant b <= nbuf && |bs| == nbuf + 1 && Ring(bs, ring) && ring[0] == nbuf
        invariant forall j :: 1 <= j < |ring| ==> 0 <= ring[j] < b
        invariant forall c :: 0 <= c < b || c == nbuf ==> c in ring
        invariant Blank(bs)
      {
        LinkedRing(bs, ring, b);
        OnRing(ring, b);
        LinkBlank(bs, nbuf, b);
        bs := bs[b := bs[b].(next := bs[nbuf].next)];
        bs := bs[b := bs[b].(prev := nbuf)];
        bs := bs[bs[nbuf].next := bs[bs[nbuf].next].(prev := b)];
        bs := bs[nbuf := bs[nbuf].(next := b)];
        ring := Put(ring, 1, b);
        b := b + 1;
      }
      bufs := bs;
      s := Store(bs, ring, seq(nbuf, i => 0), seq(nbuf, i => false), disk, disk);
    }

    /** `bget` up to the sleep lock; NONE where it panics. */
    method Bget(dev: nat, blockno: nat) returns (b: int)
      requires Valid()
      modifies this`bufs, this`s
      ensures Valid()
      ensures if Cached(old(s), dev, blockno) then
          0 <= b < nbuf && Matches(old(s).bufs[b], dev, blockno) && s == Hit(old(s), b)
        else if Exhausted(old(s)) then b == NONE && s == old(s)
        else 0 <= b < nbuf && LeastRecent(old(s), b) && s == Recycled(old(s), b, dev, blockno)
    {
      hide Sound, Shaped, Ring, LinkAt;
      RingFacts(s);
      b := bufs[nbuf].next;
      ghost var i := 1;
      while b != nbuf
        invariant unchanged(this) && 1 <= i <= |s.ring| && b == (if i < |s.ring| then s.ring[i] else nbuf)
        invariant forall j :: 1 <= j < i ==> !Matches(bufs[s.ring[j]], dev, blockno)
        decreases |s.ring| - i
      {
        if bufs[b].dev == dev && bufs[b].blockno == blockno {
          HitKeeps(s, b);
          assert Cached(s, dev, blockno);
          ghost var r := Hit(s, b);
          bufs := bufs[b := bufs[b].(refcnt := bufs[b].refcnt + 1)];
          s := r;
          return;
        }
        NextIs(s, i);
        b := bufs[b].next;
        i := i + 1;
      }
      NotCached(s, dev, blockno);
      b := bufs[nbuf].prev;
      i := |s.ring| - 1;
      while b != nbuf
        invariant unchanged(this) && 0 <= i < |s.ring| && b == s.ring[i]
        invariant forall j :: i < j < |s.ring| ==> !Unused(bufs[s.ring[j]])
        decreases i
      {
        if bufs[b].refcnt == 0 && !bufs[b].dirty {
          RecycledKeeps(s, b, dev, blockno);
          assert LeastRecent(s, b);
          ghost var r := Recycled(s, b, dev, blockno);
          bufs := bufs[b := bufs[b].(dev := dev, blockno := blockno, valid := false, dirty := false, refcnt := 1)];
          s := r;
          return;
        }
        PrevIs(s, i);
        b := bufs[b].prev;
        i := i - 1;
      }
      NoneUnused(s);
      return NONE;
    }

    /** `acquiresleep(&b->lock)`, once the lock is free */
    method Lock(b: nat)
      requires Valid() && b < nbuf && !s.bufs[b].locked && s.others[b] > 0
      modifies this`bufs, this`s
      ensures Valid() && s == LockSet(old(s), b, true)
    {
      hide Sound;
      SoundSize(s);
      LockKeeps(s, b, true);
      ghost var r := LockSet(s, b, true);
      bufs := bufs[b := bufs[b].(locked := true)];
      s := r;
    }

    /** `iderw`: the buffer has to be locked, have something to do, and be of a block of
        disk 1. */
    method Iderw(b: nat)
      requires Valid() && b < nbuf && s.bufs[b].locked && !(s.bufs[b].valid && !s.bufs[b].dirty)
      requires s.bufs[b].dev == 1 && s.bufs[b].blockno < |s.disk|
      modifies this`bufs, this`disk, this`s
      ensures Valid()
      ensures s == if old(s).bufs[b].dirty then Written(old(s), b) else Filled(old(s), b)
    {
      hide Sound;
      SoundSize(s);
      ValidLatest(s, b);
      if bufs[b].dirty {
        WrittenKeeps(s, b);
        ghost var r := Written(s, b);
        disk := disk[bufs[b].blockno := bufs[b].data];
        bufs := bufs[b := bufs[b].(dirty := false, valid := true)];
        s := r;
      } else {
        FilledKeeps(s, b);
        ghost var r := Filled(s, b);
        bufs := bufs[b := bufs[b].(valid := true, data := disk[bufs[b].blockno])];
        s := r;
      }
    }

    /** The end of `bread`, with the lock held: whatever went on before, the data are what
        the block was last given. */
    method ReadIn(b: nat)
      requires Valid() && b < nbuf && s.bufs[b].locked && s.bufs[b].dev == 1 && s.bufs[b].blockno < |s.disk|
      modifies this`bufs, this`disk, this`s
      ensures Valid() && s.bufs[b].valid && s.bufs[b].data == s.latest[s.bufs[b].blockno]
      ensures s == if old(s).bufs[b].valid then old(s) else Filled(old(s), b)
    {
      hide Sound;
      SoundSize(s);
      ValidLatest(s, b);
      if !bufs[b].valid {
        FilledKeeps(s, b);
        Iderw(b);
      }
    }

    /** The holder of the lock changes the data. */
    method Edit(b: nat, data: Block)
      requires Valid() && b < nbuf && s.bufs[b].locked && s.bufs[b].valid
      modifies this`bufs, this`s
      ensures Valid() && s.bufs[b].blockno < |old(s).latest| && s == Edited(old(s), b, data)
    {
      hide Sound;
      SoundSize(s);
      ValidLatest(s, b);
      EditedKeeps(s, b, data);
      ghost var r := Edited(s, b, data);
      bufs := bufs[b := bufs[b].(data := data)];
      s := r;
    }

    /** `log_write`, as far as the cache is concerned */
    method Pin(b: nat)
      requires Valid() && b < nbuf && s.bufs[b].locked && s.bufs[b].valid
      modifies this`bufs, this`s
      ensures Valid() && s == Marked(old(s), b)
    {
      hide Sound;
      SoundSize(s);
      MarkedKeeps(s, b);
      ghost var r := Marked(s, b);
      bufs := bufs[b := bufs[b].(dirty := true)];
      s := r;
    }

    method Bwrite(b: nat)
      requires Valid() && b < nbuf && s.bufs[b].locked && s.bufs[b].valid
      modifies this`bufs, this`disk, this`s
      ensures Valid() && s.bufs[b].blockno < |old(s).disk| && s == Written(old(s), b)
    {
      hide Sound;
      SoundSize(s);
      ValidLatest(s, b);
      Pin(b);
      ghost var m := s;
      Iderw(b);
      WrittenMarked(old(s), b);
    }

    /** The first half of `brelse`: give back the sleep lock, with no change unmarked. */
    method Unlock(b: nat)
      requires Valid() && b < nbuf && s.bufs[b].locked && !s.modified[b]
      modifies this`bufs, this`s
      ensures Valid() && s == LockSet(old(s), b, false)
    {
      hide Sound;
      SoundSize(s);
      LockKeeps(s, b, false);
      ghost var r := LockSet(s, b, false);
      bufs := bufs[b := bufs[b].(locked := false)];
      s := r;
    }

    /** The second half of `brelse`, under `bcache.lock`. */
    method Drop(b: nat)
      requires Valid() && b < nbuf && s.others[b] > 0
      modifies this`bufs, this`s
      ensures Valid() && exists i ::
        && 1 <= i < |old(s).ring| && old(s).ring[i] == b && old(s).bufs[b].refcnt > 0
        && s == Dropped(old(s), b, i)
    {
      hide Sound, Ring;
      SoundSize(s);
      ghost var i := PlaceOf(s, b);
      DroppedKeeps(s, b, i);
      ghost var r := Dropped(s, b, i);
      OneLessFront(s, b, i);
      bufs := bufs[b := bufs[b].(refcnt := bufs[b].refcnt - 1)];
      if bufs[b].refcnt == 0 {
        var n, p := bufs[b].next, bufs[b].prev;
        bufs := bufs[n := bufs[n].(prev := p)];
        bufs := bufs[p := bufs[p].(next := bufs[b].next)];
        bufs := bufs[b := bufs[b].(next := bufs[nbuf].next)];
        bufs := bufs[b := bufs[b].(prev := nbuf)];
        bufs := bufs[bufs[nbuf].next := bufs[bufs[nbuf].next].(prev := b)];
        bufs := bufs[nbuf := bufs[nbuf].(next := b)];
      }
      s := r;
    }
  }

  predicate Blank(bufs: seq<Buf>) {
    forall b :: 0 <= b < |bufs| ==>
      bufs[b].(prev := 0, next := 0) == Buf(false, false, 0, 0, false, 0, 0, 0, ZeroBlock())
  }

  /** What putting `b` in behind the head makes of the members. */
  lemma OnRing(ring: seq<int>, b: int)
    requires |ring| >= 1
    ensures forall c :: c in ring || c == b ==> c in Put(ring, 1, b)
    ensures Put(ring, 1, b)[0] == ring[0]
  {
    var p := Put(ring, 1, b);
    assert p[1] == b && p[0] == ring[0];
    forall j | 0 <= j < |ring|
      ensures ring[j] in p
    {
      if j > 0 {
        assert p[j + 1] == ring[j];
      }
    }
  }

  lemma LinkBlank(bufs: seq<Buf>, head: nat, b: nat)
    requires Blank(bufs) && b < head < |bufs| && InRange(bufs, bufs[head].next)
    ensures Blank(Linked(bufs, head, b)) && |Linked(bufs, head, b)| == |bufs|
  {
  }

  lemma SoundSize(s: Store)
    requires Sound(s)
    ensures |s.bufs| == |s.others| + 1 == |s.modified| + 1 && |s.latest| == |s.disk|
    ensures forall b :: 0 <= b < |s.others| ==> s.bufs[b].refcnt == s.others[b] + if s.bufs[b].locked then 1 else 0
  {
  }

  /** A valid buffer has the latest contents of its block. */
  lemma ValidLatest(s: Store, b: nat)
    requires Sound(s) && b < |s.others| && |s.bufs| == |s.others| + 1
    ensures s.bufs[b].valid ==>
      s.bufs[b].dev == 1 && s.bufs[b].blockno < |s.disk| == |s.latest| && s.bufs[b].data == s.latest[s.bufs[b].blockno]
    ensures s.bufs[b].dirty ==> s.bufs[b].valid
  {
  }

  lemma WrittenMarked(s: Store, b: nat)
    requires b < |s.modified| < |s.bufs| && s.bufs[b].blockno < |s.disk|
    ensures Written(Marked(s, b), b) == Written(s, b)
  {
    assert Marked(s, b).bufs[b := Written(Marked(s, b), b).bufs[b]] == Written(s, b).bufs;
    assert s.modified[b := false][b := false] == s.modified[b := false];
  }

  /** The ring, as the loops of `bget` see it. */
  lemma RingFacts(s: Store)
    requires Sound(s)
    ensures |s.bufs| == |s.others| + 1 && |s.ring| >= 1 && s.ring[0] == |s.others|
    ensures forall i :: 0 <= i < |s.ring| ==> 0 <= s.ring[i] < |s.bufs|
    ensures forall i :: 1 <= i < |s.ring| ==> 0 <= s.ring[i] < |s.others|
    ensures s.bufs[|s.others|].next == (if 1 < |s.ring| then s.ring[1] else |s.others|)
    ensures s.bufs[|s.others|].prev == s.ring[|s.ring| - 1]
  {
    assert LinkAt(s.bufs, s.ring, 0);
    assert LinkAt(s.bufs, s.ring, |s.ring| - 1);
  }

  lemma NextIs(s: Store, i: nat)
    requires Sound(s) && 1 <= i < |s.ring| && InRange(s.bufs, s.ring[i])
    ensures s.bufs[s.ring[i]].next == if i + 1 < |s.ring| then s.ring[i + 1] else |s.others|
  {
    assert LinkAt(s.bufs, s.ring, i);
  }

  lemma PrevIs(s: Store, i: nat)
    requires Sound(s) && 1 <= i < |s.ring| && InRange(s.bufs, s.ring[i])
    ensures s.bufs[s.ring[i]].prev == s.ring[i - 1]
  {
    assert LinkAt(s.bufs, s.ring, i - 1);
  }

  lemma PlaceOf(s: Store, b: nat) returns (i: nat)
    requires Sound(s) && b < |s.others|
    ensures 1 <= i < |s.ring| && s.ring[i] == b && |s.bufs| == |s.others| + 1
  {
    assert b in s.ring;
    i :| 0 <= i < |s.ring| && s.ring[i] == b;
    assert i != 0;
  }

  /** The first loop of `bget` has looked at every buffer. */
  lemma NotCached(s: Store, dev: nat, blockno: nat)
    requires Sound(s) && (forall i :: 0 <= i < |s.ring| ==> 0 <= s.ring[i] < |s.bufs|)
    requires forall j :: 1 <= j < |s.ring| ==> !Matches(s.bufs[s.ring[j]], dev, blockno)
    ensures !Cached(s, dev, blockno)
  {
    forall b: nat | b < |s.others|
      ensures |s.bufs| == |s.others| + 1 && !Matches(s.bufs[b], dev, blockno)
    {
      var i := PlaceOf(s, b);
    }
  }

  /** And so has the second. */
  lemma NoneUnused(s: Store)
    requires Sound(s) && (forall i :: 0 <= i < |s.ring| ==> 0 <= s.ring[i] < |s.bufs|)
    requires forall j :: 1 <= j < |s.ring| ==> !Unused(s.bufs[s.ring[j]])
    ensures Exhausted(s)
  {
    forall b: nat | b < |s.others|
      ensures |s.bufs| == |s.others| + 1 && !Unused(s.bufs[b])
    {
      var i := PlaceOf(s, b);
    }
  }

  /** What dropping the last reference reads and writes. */
  lemma OneLessFront(s: Store, b: nat, i: nat)
    requires Sound(s) && b < |s.others| && s.others[b] > 0 && 1 <= i < |s.ring| && s.ring[i] == b
    ensures |s.bufs| == |s.others| + 1 && s.bufs[b].refcnt > 0
    ensures var t := s.bufs[b := s.bufs[b].(refcnt := s.bufs[b].refcnt - 1)];
      && InRange(t, t[b].next) && InRange(t, t[b].prev)
      && |Unlinked(t, b)| == |t| && InRange(t, Unlinked(t, b)[|s.others|].next)
      && Dropped(s, b, i).bufs == if t[b].refcnt == 0 then Linked(Unlinked(t, b), |s.others|, b) else t
  {
    OneLessKeeps(s, b);
    FrontedRing(OneLess(s, b).bufs, s.ring, i);
    assert s.ring[0] == |s.others|;
  }

  /** The only holder of buffer `b` has changed the data and not marked the buffer. */
  ghost predicate Careless(s: Store, b: nat, i: nat) {
    && Sound(s) && b < |s.others| < |s.bufs| && s.bufs[b].locked && s.modified[b] && !s.bufs[b].dirty
    && s.others[b] == 0
    && 1 <= i < |s.ring| && s.ring[i] == b && s.bufs[b].blockno < |s.disk| == |s.latest|
    && s.disk[s.bufs[b].blockno] != s.latest[s.bufs[b].blockno]
  }

  /** How a client gets there: it reads a block and changes it. */
  method ReadAndEdit(nbuf: nat, disk: seq<Block>, blockno: nat, data: Block) returns (c: Cache, b: nat, ghost i: nat)
    requires nbuf > 0 && blockno < |disk| && disk[blockno] != data
    ensures c.Valid() && Careless(c.s, b, i) && c.s.bufs[b].blockno == blockno && c.s.latest[blockno] == data
  {
    hide Sound, LeastRecent, Cached, Exhausted;
    c := new Cache(nbuf, disk);
    FreshUnused(c.s);
    b := c.Bget(1, blockno);
    c.Lock(b);
    c.ReadIn(b);
    ghost var r := c.s;
    SoundSize(r);
    c.Edit(b, data);
    EditedAt(r, b, data);
    SoundSize(c.s);
    i := PlaceOf(c.s, b);
  }

  lemma EditedAt(s: Store, b: nat, data: Block)
    requires b < |s.modified| < |s.bufs| && s.bufs[b].blockno < |s.latest|
    ensures Edited(s, b, data).modified[b] && Edited(s, b, data).latest[s.bufs[b].blockno] == data
  {
  }

  /** No buffer is in use. */
  ghost predicate Fresh(s: Store) {
    |s.others| < |s.bufs| && forall b :: 0 <= b < |s.others| ==>
      s.others[b] == 0 && !s.bufs[b].locked && !s.bufs[b].valid
  }

  lemma FreshUnused(s: Store)
    requires Sound(s) && Fresh(s) && |s.others| > 0
    ensures !Exhausted(s)
    ensures forall b :: 0 <= b < |s.others| ==> !s.bufs[b].dirty
  {
    assert Unused(s.bufs[0]);
  }

  /** Why every change has to be marked: released unmarked, the buffer may be given to
      another block, and then neither a buffer nor the disk has the latest contents. */
  lemma UnmarkedIsLost(s: Store, b: nat, i: nat, dev: nat, blockno: nat)
    requires Careless(s, b, i)
    ensures var t := OneLess(LockSet(s, b, false), b); Unused(t.bufs[b])
    ensures var t := Recycled(OneLess(LockSet(s, b, false), b), b, dev, blockno);
      t.disk[s.bufs[b].blockno] != t.latest[s.bufs[b].blockno]
      && forall c :: 0 <= c < |t.others| && t.bufs[c].valid ==> t.bufs[c].blockno != s.bufs[b].blockno
  {
    var t := Recycled(OneLess(LockSet(s, b, false), b), b, dev, blockno);
    forall c | 0 <= c < |t.others| && t.bufs[c].valid
      ensures t.bufs[c].blockno != s.bufs[b].blockno
    {
      assert c != b && s.bufs[c] == t.bufs[c];
      var clash := Matches(s.bufs[c], s.bufs[b].dev, s.bufs[b].blockno)
        || Matches(s.bufs[b], s.bufs[c].dev, s.bufs[c].blockno);
    }
  }
}

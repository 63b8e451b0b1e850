/** The blocks of a file as `itrunc` meets them: table by table, entry by entry. */
module Teardown {
  import opened Words
  import opened BlockTree

  /** `q` lies strictly below `p`. */
  predicate Under(p: Pos, q: Pos) {
    q.Kid? && Above(p, q.up)
  }

  /** The entry of the table at `p` that leads to `q`. */
  function Entry(p: Pos, q: Pos): nat
    requires Under(p, q)
  {
    if q.up == p then q.i else Entry(p, q.up)
  }

  /** The inode slot that leads to `q`. */
  function Slot(q: Pos): nat {
    match q
    case Root(k) => k
    case Kid(p, _) => Slot(p)
  }

  /** Every block of a file: its data and all its tables. */
  ghost function Reachable(t: Tree, inum: nat): set<nat> {
    set b | b in t.owner && t.owner[b].inum == inum
  }

  lemma ReachableExact(t: Tree, inum: nat, b: nat)
    requires Separated(t) && inum < |t.inodes|
    ensures b in Reachable(t, inum) <==>
      exists p :: ValidSite(t, Site(inum, p)) && At(t, Site(inum, p)) != 0 && At(t, Site(inum, p)) == b
  {
    if b in Reachable(t, inum) {
      assert t.owner[b] == Site(inum, t.owner[b].pos);
    }
  }

  /** The blocks below the first `i` entries of the table at `s`. */
  ghost function Entries(t: Tree, s: Site, i: nat): set<nat> {
    set b | b in t.owner && t.owner[b].inum == s.inum && Under(s.pos, t.owner[b].pos)
      && Entry(s.pos, t.owner[b].pos) < i
  }

  /** The blocks at or below the first `k` slots of an inode. */
  ghost function Slots(t: Tree, inum: nat, k: nat): set<nat> {
    set b | b in t.owner && t.owner[b].inum == inum && Slot(t.owner[b].pos) < k
  }

  lemma {:induction false} AboveSet(t: Tree, inum: nat, p: Pos, q: Pos)
    requires ValidSite(t, Site(inum, q)) && Above(p, q)
    ensures ValidPos(p)
    ensures At(t, Site(inum, q)) != 0 ==> At(t, Site(inum, p)) != 0
    ensures Slot(q) == Slot(p)
    ensures p != q ==> Under(p, q) && Height(p) > Height(q) && Entry(p, q) < NINDIRECT
    decreases q
  {
    if p == q {
    } else {
      AboveSet(t, inum, p, q.up);
    }
  }

  /** A position below `p` is below the entry that leads to it, and only that one. */
  lemma {:induction false} UnderEntry(p: Pos, q: Pos, i: nat)
    ensures Above(Kid(p, i), q) <==> Under(p, q) && Entry(p, q) == i
    decreases q
  {
    if q.Kid? && q.up != p {
      UnderEntry(p, q.up, i);
    }
    if q.Kid? && q.up == p {
      NotAboveParent(p, i);
    }
  }

  lemma {:induction false} AboveSmaller(p: Pos, q: Pos)
    requires Above(p, q)
    ensures Depth(p) <= Depth(q) && (Depth(p) == Depth(q) ==> p == q)
    decreases q
  {
    if p == q {
    } else {
      AboveSmaller(p, q.up);
    }
  }

  function Depth(p: Pos): nat {
    match p
    case Root(_) => 0
    case Kid(q, _) => Depth(q) + 1
  }

  lemma NotAboveParent(p: Pos, i: nat)
    ensures !Above(Kid(p, i), p)
  {
    if Above(Kid(p, i), p) {
      AboveSmaller(Kid(p, i), p);
    }
  }

  /** One more entry adds the block it refers to and what lies below that block. */
  lemma EntriesNext(t: Tree, s: Site, i: nat)
    requires Separated(t) && ValidSite(t, s) && Height(s.pos) > 0 && i < NINDIRECT && At(t, s) != 0
    ensures var kid := Site(s.inum, Kid(s.pos, i));
      && (At(t, kid) == 0 ==> Entries(t, s, i + 1) == Entries(t, s, i))
      && (At(t, kid) != 0 ==>
            && Entries(t, s, i + 1) == Entries(t, s, i) + Entries(t, kid, NINDIRECT) + {At(t, kid) as nat}
            && At(t, kid) in t.owner
            && At(t, kid) !in Entries(t, s, i) + Entries(t, kid, NINDIRECT)
            && Entries(t, kid, NINDIRECT) !! Entries(t, s, i)
            && (Height(s.pos) == 1 ==> Entries(t, kid, NINDIRECT) == {}))
      && At(t, s) !in Entries(t, s, i + 1)
  {
    var kid := Site(s.inum, Kid(s.pos, i));
    assert ValidSite(t, kid);
    forall b | b in t.owner && t.owner[b].inum == s.inum
      ensures b in Entries(t, s, i + 1) <==> b in Entries(t, s, i) || Above(kid.pos, t.owner[b].pos)
      ensures Above(kid.pos, t.owner[b].pos) ==>
        b !in Entries(t, s, i) && At(t, kid) != 0 && (b == At(t, kid) || b in Entries(t, kid, NINDIRECT))
      ensures Above(kid.pos, t.owner[b].pos) && Height(s.pos) == 1 ==> b == At(t, kid)
      ensures b in Entries(t, kid, NINDIRECT) ==> Above(kid.pos, t.owner[b].pos) && b != At(t, kid)
    {
      var q := t.owner[b].pos;
      assert ValidSite(t, Site(s.inum, q)) && At(t, Site(s.inum, q)) == b && b != 0;
      UnderEntry(s.pos, q, i);
      if Above(kid.pos, q) {
        AboveSet(t, s.inum, kid.pos, q);
        DepthBound(q);
      }
      if b in Entries(t, kid, NINDIRECT) {
        AboveTransitive(kid.pos, q.up, q);
        AboveSet(t, s.inum, kid.pos, q);
        NotAboveParent(kid.pos, 0);
        AboveSmaller(kid.pos, q.up);
      }
    }
    assert t.owner[At(t, s)] == s;
    if Under(s.pos, s.pos) {
      AboveSmaller(s.pos, s.pos.up);
    }
  }

  /** One more slot adds the block it refers to and what lies below that block. */
  lemma SlotsNext(t: Tree, inum: nat, k: nat)
    requires Separated(t) && inum < |t.inodes| && k < NDIRECT + 2
    ensures var root := Site(inum, Root(k));
      && (At(t, root) == 0 ==> Slots(t, inum, k + 1) == Slots(t, inum, k))
      && (At(t, root) != 0 ==>
            && Slots(t, inum, k + 1) == Slots(t, inum, k) + Entries(t, root, NINDIRECT) + {At(t, root) as nat}
            && At(t, root) in t.owner
            && At(t, root) !in Slots(t, inum, k) + Entries(t, root, NINDIRECT)
            && Entries(t, root, NINDIRECT) !! Slots(t, inum, k)
            && (k < NDIRECT ==> Entries(t, root, NINDIRECT) == {}))
  {
    var root := Site(inum, Root(k));
    assert ValidSite(t, root);
    forall b | b in t.owner && t.owner[b].inum == inum
      ensures Slot(t.owner[b].pos) == k ==> At(t, root) != 0 && (b == At(t, root) || b in Entries(t, root, NINDIRECT))
      ensures Slot(t.owner[b].pos) == k && k < NDIRECT ==> b == At(t, root)
      ensures b in Entries(t, root, NINDIRECT) ==> Slot(t.owner[b].pos) == k && b != At(t, root)
    {
      var q := t.owner[b].pos;
      assert ValidSite(t, Site(inum, q)) && At(t, Site(inum, q)) == b && b != 0;
      if Slot(q) == k {
        RootAbove(q);
        AboveSet(t, inum, Root(k), q);
        DepthBound(q);
      }
      if b in Entries(t, root, NINDIRECT) {
        AboveSet(t, inum, Root(k), q);
      }
    }
  }

  lemma {:induction false} RootAbove(q: Pos)
    ensures Above(Root(Slot(q)), q)
  {
    match q
    case Root(_) =>
    case Kid(p, _) => RootAbove(p);
  }

  lemma SlotsAll(t: Tree, inum: nat)
    requires Separated(t) && inum < |t.inodes|
    ensures Slots(t, inum, 0) == {}
    ensures Slots(t, inum, NDIRECT + 2) == Reachable(t, inum)
  {
    forall b | b in Reachable(t, inum)
      ensures Slot(t.owner[b].pos) < NDIRECT + 2
    {
      SlotValid(t.owner[b].pos);
    }
  }

  lemma {:induction false} SlotValid(q: Pos)
    requires ValidPos(q)
    ensures Slot(q) < NDIRECT + 2
  {
    match q
    case Root(_) =>
    case Kid(p, _) => SlotValid(p);
  }

  /** `r` is `t` without the blocks of file `inum`: its slots are null and the other
      files' blocks are what they were. */
  ghost predicate TornDown(t: Tree, r: Tree, inum: nat) {
    && inum < |t.inodes| == |r.inodes| && |r.blocks| == |t.blocks| && r.nmeta == t.nmeta
    && r.inodes == t.inodes[inum := Inode(seq(NDIRECT + 2, i => 0), 0)]
    && r.owner == t.owner - Reachable(t, inum)
    && (forall b :: b in r.owner && b < |r.blocks| ==> r.blocks[b] == t.blocks[b])
  }

  lemma {:induction false} NullFile(r: Tree, inum: nat, p: Pos)
    requires ValidSite(r, Site(inum, p)) && forall k :: 0 <= k < NDIRECT + 2 ==> r.inodes[inum].addrs[k] == 0
    ensures At(r, Site(inum, p)) == 0
  {
    match p
    case Root(_) =>
    case Kid(q, _) => NullFile(r, inum, q);
  }

  lemma TornDownSeparated(t: Tree, r: Tree, inum: nat)
    requires Separated(t) && TornDown(t, r, inum)
    ensures Separated(r)
    ensures forall x :: ValidSite(t, x) ==> At(r, x) == if x.inum == inum then 0 else At(t, x)
  {
    forall x | ValidSite(t, x)
      ensures At(r, x) == if x.inum == inum then 0 else At(t, x)
    {
      if x.inum == inum {
        NullFile(r, inum, x.pos);
      } else {
        SameTablesAt(t, r, x);
      }
    }
  }

  /** Between two points of `itrunc`: the blocks in `freed` lost their bitmap bit, no
      other bit changed, and only blocks in `touched` were overwritten. */
  ghost predicate Freed(used0: seq<bool>, blocks0: seq<Block>, used: seq<bool>, blocks: seq<Block>,
                        freed: set<nat>, touched: set<nat>)
  {
    && |used| == |used0| == |blocks| == |blocks0|
    && (forall b :: 0 <= b < |used| ==> used[b] == (used0[b] && b !in freed))
    && (forall b :: 0 <= b < |blocks| && b !in touched ==> blocks[b] == blocks0[b])
  }

  lemma EntriesGrow(t: Tree, s: Site, i: nat, j: nat)
    requires i <= j
    ensures Entries(t, s, i) <= Entries(t, s, j)
  {
  }

  lemma EntriesZero(t: Tree, s: Site)
    ensures Entries(t, s, 0) == {}
  {
  }

  /** `inodes` is `t.inodes` with the first `k` slots of inode `inum` cleared. */
  ghost predicate Cleared(t: Tree, inodes: seq<Inode>, inum: nat, k: nat)
    requires k <= NDIRECT + 2
  {
    && inum < |t.inodes| == |inodes|
    && (forall j :: 0 <= j < |inodes| && j != inum ==> inodes[j] == t.inodes[j])
    && (forall i :: 0 <= i < k ==> inodes[inum].addrs[i] == 0)
    && (forall i :: k <= i < NDIRECT + 2 ==> inodes[inum].addrs[i] == t.inodes[inum].addrs[i])
  }

  lemma AllCleared(t: Tree, inodes: seq<Inode>, inum: nat)
    requires Cleared(t, inodes, inum, NDIRECT + 2)
    ensures inodes[inum := inodes[inum].(size := 0)] == t.inodes[inum := Inode(seq(NDIRECT + 2, i => 0), 0)]
  {
    assert inodes[inum].addrs == seq(NDIRECT + 2, i => 0);
  }
}

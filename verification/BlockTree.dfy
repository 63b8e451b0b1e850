/** The pointer tree of project3 files: eleven direct slots, one double-indirect
    and one triple-indirect table, shared by the kernel and the image builder. */
module BlockTree {
  import opened Words

  const NDIRECT: nat := 11
  const MAXFILE: nat := NDIRECT + NINDIRECT * NINDIRECT + NINDIRECT * NINDIRECT * NINDIRECT

  type Addrs = s: seq<Word> | |s| == NDIRECT + 2 witness seq(NDIRECT + 2, i => 0)

  /** The fields of an inode that describe its content. */
  datatype Inode = Inode(addrs: Addrs, size: nat)

  /** A place where a block pointer is stored: a slot of the inode, or entry `i`
      of the table block that another pointer refers to. */
  datatype Pos = Root(k: nat) | Kid(up: Pos, i: nat)

  datatype Site = Site(inum: nat, pos: Pos)

  /** A file system image. `owner` records, for the proofs, which site refers to
      each allocated block; blocks below `nmeta` are never allocated. */
  datatype Tree = Tree(blocks: seq<Block>, inodes: seq<Inode>, owner: map<nat, Site>, nmeta: nat)

  /** How many levels of tables lie below the block stored at `p`; 0 is data. */
  function Height(p: Pos): int {
    match p
    case Root(k) => if k < NDIRECT then 0 else k - NDIRECT + 2
    case Kid(q, _) => Height(q) - 1
  }

  predicate ValidPos(p: Pos) {
    match p
    case Root(k) => k < NDIRECT + 2
    case Kid(q, i) => ValidPos(q) && Height(q) > 0 && i < NINDIRECT
  }

  /** The pointer stored at a position, 0 when it or a pointer above it is null. */
  function Ptr(blocks: seq<Block>, addrs: Addrs, p: Pos): Word
    requires ValidPos(p)
  {
    match p
    case Root(k) => addrs[k]
    case Kid(q, i) =>
      var a := Ptr(blocks, addrs, q);
      if a == 0 || a >= |blocks| then 0 else GetWord(blocks[a], i)
  }

  predicate ValidSite(t: Tree, s: Site) {
    s.inum < |t.inodes| && ValidPos(s.pos)
  }

  function At(t: Tree, s: Site): Word
    requires ValidSite(t, s)
  {
    Ptr(t.blocks, t.inodes[s.inum].addrs, s.pos)
  }

  /** Tree separation: `owner` names the one site that refers to each block. */
  ghost predicate Separated(t: Tree) {
    && 0 < t.nmeta
    && (forall b :: b in t.owner ==>
          t.nmeta <= b < |t.blocks| && ValidSite(t, t.owner[b]) && At(t, t.owner[b]) == b)
    && (forall s :: ValidSite(t, s) && At(t, s) != 0 ==> At(t, s) in t.owner && t.owner[At(t, s)] == s)
  }

  /** The non-null pointers of all inodes, at every level, are pairwise distinct
      and refer to blocks outside the metadata area. */
  lemma PointersDistinct(t: Tree, r: Site, s: Site)
    requires Separated(t)
    requires ValidSite(t, r) && ValidSite(t, s) && At(t, r) != 0
    ensures t.nmeta <= At(t, r) < |t.blocks|
    ensures At(t, r) == At(t, s) ==> r == s
  {
    assert At(t, r) in t.owner;
  }

  lemma SiteOwned(t: Tree, s: Site)
    requires Separated(t) && ValidSite(t, s) && At(t, s) != 0
    ensures At(t, s) in t.owner && t.owner[At(t, s)] == s && t.nmeta <= At(t, s) < |t.blocks|
  {
  }

  // ---- block number <-> position ----

  /** The position `bmap` resolves file block `bn` to. */
  function PosOf(bn: nat): (p: Pos)
    requires bn < MAXFILE
    ensures ValidPos(p) && Height(p) == 0 && BlockNo(p) == bn
  {
    if bn < NDIRECT then Root(bn)
    else if bn < NDIRECT + NINDIRECT * NINDIRECT then
      var n := bn - NDIRECT;
      var d := Kid(Root(NDIRECT), n / NINDIRECT);
      assert Height(d) == 1 && ValidPos(d);
      Kid(d, n % NINDIRECT)
    else
      var n := bn - NDIRECT - NINDIRECT * NINDIRECT;
      FromDigits(n);
      var d := Kid(Root(NDIRECT + 1), n / (NINDIRECT * NINDIRECT));
      assert Height(d) == 2 && ValidPos(d);
      var e := Kid(d, n % (NINDIRECT * NINDIRECT) / NINDIRECT);
      assert Height(e) == 1 && ValidPos(e);
      Kid(e, n % NINDIRECT)
  }

  lemma FromDigits(n: nat)
    requires n < NINDIRECT * NINDIRECT * NINDIRECT
    ensures n / (NINDIRECT * NINDIRECT) < NINDIRECT && n % (NINDIRECT * NINDIRECT) / NINDIRECT < NINDIRECT
    ensures n == (n / (NINDIRECT * NINDIRECT) * NINDIRECT + n % (NINDIRECT * NINDIRECT) / NINDIRECT) * NINDIRECT
                 + n % NINDIRECT
  {
  }

  function BlockNo(p: Pos): nat
    requires ValidPos(p) && Height(p) == 0
  {
    match p
    case Root(k) => k
    case Kid(Kid(Root(_), d), i) => NDIRECT + d * NINDIRECT + i
    case Kid(Kid(Kid(_, t), d), i) => NDIRECT + NINDIRECT * NINDIRECT + (t * NINDIRECT + d) * NINDIRECT + i
    case _ => 0
  }

  lemma DirectPos(bn: nat)
    requires bn < NDIRECT
    ensures PosOf(bn) == Root(bn)
  {
  }

  lemma RootAt(t: Tree, inum: nat, k: nat)
    requires inum < |t.inodes| && k < NDIRECT + 2
    ensures At(t, Site(inum, Root(k))) == t.inodes[inum].addrs[k]
  {
  }

  lemma DoublePos(n: nat)
    requires n < NINDIRECT * NINDIRECT
    ensures PosOf(NDIRECT + n) == Kid(Kid(Root(NDIRECT), n / NINDIRECT), n % NINDIRECT)
    ensures Height(Kid(Root(NDIRECT), n / NINDIRECT)) == 1
  {
  }

  lemma TriplePos(n: nat)
    requires n < NINDIRECT * NINDIRECT * NINDIRECT
    ensures var p1 := Kid(Root(NDIRECT + 1), n / (NINDIRECT * NINDIRECT));
      var p2 := Kid(p1, n % (NINDIRECT * NINDIRECT) / NINDIRECT);
      && PosOf(NDIRECT + NINDIRECT * NINDIRECT + n) == Kid(p2, n % NINDIRECT)
      && Height(p1) == 2 && Height(p2) == 1
  {
  }

  /** With the contract of `PosOf`: `bmap` is a bijection between the block
      numbers below MAXFILE and the data positions of the tree. */
  lemma BlockNoInverse(p: Pos)
    requires ValidPos(p) && Height(p) == 0
    ensures BlockNo(p) < MAXFILE && PosOf(BlockNo(p)) == p
  {
    hide PosOf;
    if p.Root? {
      DirectPos(p.k);
    } else {
      var q := p.up;
      assert Height(q) == 1 && ValidPos(q) && q.Kid?;
      var r := q.up;
      assert Height(r) == 2 && ValidPos(r);
      if r.Root? {
        DoubleDigits(q.i, p.i);
        DoublePos(q.i * NINDIRECT + p.i);
      } else {
        DepthBound(r.up);
        assert Height(r.up) == 3 && r.up == Root(NDIRECT + 1);
        TripleDigits(r.i, q.i, p.i);
        TriplePos((r.i * NINDIRECT + q.i) * NINDIRECT + p.i);
      }
    }
  }

  lemma DoubleDigits(i: nat, j: nat)
    requires i < NINDIRECT && j < NINDIRECT
    ensures var n := i * NINDIRECT + j;
      n < NINDIRECT * NINDIRECT && n / NINDIRECT == i && n % NINDIRECT == j
  {
  }

  lemma TripleDigits(i: nat, j: nat, k: nat)
    requires i < NINDIRECT && j < NINDIRECT && k < NINDIRECT
    ensures var n := (i * NINDIRECT + j) * NINDIRECT + k;
      && n < NINDIRECT * NINDIRECT * NINDIRECT && n / (NINDIRECT * NINDIRECT) == i
      && n % (NINDIRECT * NINDIRECT) / NINDIRECT == j && n % NINDIRECT == k
  {
    var n := i * (NINDIRECT * NINDIRECT) + (j * NINDIRECT + k);
    assert (i * NINDIRECT + j) * NINDIRECT + k == n;
    assert 0 <= j * NINDIRECT + k < NINDIRECT * NINDIRECT;
  }

  /** Tables sit at most three levels above data. */
  lemma {:induction false} DepthBound(p: Pos)
    requires ValidPos(p)
    ensures 0 <= Height(p) <= 3 && (p.Kid? ==> Height(p) <= 2)
  {
    match p
    case Root(_) =>
    case Kid(q, _) => DepthBound(q);
  }

  lemma PathSet(t: Tree, inum: nat, p: Pos)
    requires ValidSite(t, Site(inum, p)) && p.Kid?
    ensures At(t, Site(inum, p)) != 0 ==> At(t, Site(inum, p.up)) != 0
  {
  }

  lemma KidAt(t: Tree, s: Site, i: nat)
    requires ValidSite(t, s) && 0 < At(t, s) < |t.blocks| && i < NINDIRECT && Height(s.pos) > 0
    ensures At(t, Site(s.inum, Kid(s.pos, i))) == GetWord(t.blocks[At(t, s)], i)
  {
  }

  /** `p` is `q` or a table entry on the way down to `q`. */
  predicate Above(p: Pos, q: Pos) {
    p == q || (q.Kid? && Above(p, q.up))
  }

  // ---- hanging a fresh, zeroed block into the tree ----

  /** Zero block `b`, then store it in entry `i` of the table at site `s`. */
  function AttachedWord(t: Tree, s: Site, i: nat, b: Word): (r: Tree)
    requires ValidSite(t, s) && At(t, s) < |t.blocks| && b < |t.blocks| && At(t, s) != b && i < NINDIRECT
    ensures |r.blocks| == |t.blocks|
  {
    var a := At(t, s);
    t.(blocks := t.blocks[b := ZeroBlock()][a := SetWord(t.blocks[a], i, b)],
       owner := t.owner[b := Site(s.inum, Kid(s.pos, i))])
  }

  /** Zero block `b`, then store it in slot `k` of inode `inum`. */
  function AttachedRoot(t: Tree, inum: nat, k: nat, b: Word): (r: Tree)
    requires inum < |t.inodes| && k < NDIRECT + 2 && b < |t.blocks|
    ensures |r.blocks| == |t.blocks| && |r.inodes| == |t.inodes|
  {
    t.(blocks := t.blocks[b := ZeroBlock()],
       inodes := t.inodes[inum := t.inodes[inum].(addrs := t.inodes[inum].addrs[k := b])],
       owner := t.owner[b := Site(inum, Root(k))])
  }

  /** Block `b` is unused and may be handed out. */
  ghost predicate Fresh(t: Tree, b: Word) {
    t.nmeta <= b < |t.blocks| && b !in t.owner
  }

  /** Exactly one pointer changes: the entry that was set. In particular the new
      block, being zero, brings no pointers of its own. */
  lemma {:induction false} AttachWordAt(t: Tree, s: Site, i: nat, b: Word, x: Site)
    requires Separated(t) && Fresh(t, b)
    requires ValidSite(t, s) && Height(s.pos) > 0 && i < NINDIRECT
    requires At(t, s) != 0 && At(t, Site(s.inum, Kid(s.pos, i))) == 0
    requires ValidSite(t, x)
    ensures At(t, s) in t.owner
    ensures At(AttachedWord(t, s, i, b), x) == if x == Site(s.inum, Kid(s.pos, i)) then b else At(t, x)
    decreases x.pos
  {
    var a := At(t, s);
    assert a in t.owner && t.owner[a] == s;
    match x.pos
    case Root(_) =>
    case Kid(q, j) =>
      var u := Site(x.inum, q);
      AttachWordAt(t, s, i, b, u);
      if u == Site(s.inum, Kid(s.pos, i)) {
        ZeroWords();
      } else {
        var c := At(t, u);
        assert c != 0 ==> c in t.owner && t.owner[c] == u;
      }
  }

  lemma AttachWord(t: Tree, s: Site, i: nat, b: Word)
    requires Separated(t) && Fresh(t, b)
    requires ValidSite(t, s) && Height(s.pos) > 0 && i < NINDIRECT
    requires At(t, s) != 0 && At(t, Site(s.inum, Kid(s.pos, i))) == 0
    ensures At(t, s) in t.owner && b != 0
    ensures var r := AttachedWord(t, s, i, b);
      && Separated(r)
      && Grown(t, r, s.inum, Kid(s.pos, i))
      && At(r, Site(s.inum, Kid(s.pos, i))) == b
  {
    hide At, GetWord, SetWord;
    assert At(t, s) in t.owner;
    var r := AttachedWord(t, s, i, b);
    var kid := Site(s.inum, Kid(s.pos, i));
    forall x | ValidSite(t, x)
      ensures At(r, x) == if x == kid then b else At(t, x)
    {
      AttachWordAt(t, s, i, b, x);
    }
    assert ValidSite(t, kid) && ValidSite(r, kid);
  }

  lemma {:induction false} AttachRootAt(t: Tree, inum: nat, k: nat, b: Word, x: Site)
    requires Separated(t) && Fresh(t, b)
    requires inum < |t.inodes| && k < NDIRECT + 2 && t.inodes[inum].addrs[k] == 0
    requires ValidSite(t, x)
    ensures At(AttachedRoot(t, inum, k, b), x) == if x == Site(inum, Root(k)) then b else At(t, x)
    decreases x.pos
  {
    match x.pos
    case Root(_) =>
    case Kid(q, j) =>
      var u := Site(x.inum, q);
      AttachRootAt(t, inum, k, b, u);
      if u == Site(inum, Root(k)) {
        ZeroWords();
      } else {
        var c := At(t, u);
        assert c != 0 ==> c in t.owner && t.owner[c] == u;
      }
  }

  lemma AttachRoot(t: Tree, inum: nat, k: nat, b: Word)
    requires Separated(t) && Fresh(t, b)
    requires inum < |t.inodes| && k < NDIRECT + 2 && t.inodes[inum].addrs[k] == 0
    ensures var r := AttachedRoot(t, inum, k, b);
      && Separated(r)
      && Grown(t, r, inum, Root(k))
      && At(r, Site(inum, Root(k))) == b
  {
    var r := AttachedRoot(t, inum, k, b);
    forall x | ValidSite(t, x)
      ensures At(r, x) == if x == Site(inum, Root(k)) then b else At(t, x)
    {
      AttachRootAt(t, inum, k, b, x);
    }
    assert ValidSite(t, Site(inum, Root(k))) && ValidSite(r, Site(inum, Root(k)));
  }

  // ---- what resolving a file block may change ----

  /** `r` is `t` with blocks added on the path to `p` in file `inum` and nowhere
      else: no mapping is lost or moved, no data block is touched, and a new data
      block is all zeroes. */
  ghost predicate Grown(t: Tree, r: Tree, inum: nat, p: Pos) {
    && |r.blocks| == |t.blocks| && |r.inodes| == |t.inodes| && r.nmeta == t.nmeta
    && inum < |t.inodes| && r.inodes[inum].size == t.inodes[inum].size
    && (forall j :: 0 <= j < |t.inodes| && j != inum ==> r.inodes[j] == t.inodes[j])
    && (forall x :: ValidSite(t, x) && At(t, x) != 0 ==> At(r, x) == At(t, x))
    && (forall x :: ValidSite(t, x) && At(t, x) != At(r, x) ==> x.inum == inum && Above(x.pos, p))
    && (forall b :: b in t.owner ==> b in r.owner && r.owner[b] == t.owner[b])
    && (forall b :: b in t.owner && Height(t.owner[b].pos) == 0 && b < |t.blocks| ==> r.blocks[b] == t.blocks[b])
    && (forall b :: b in r.owner && b !in t.owner && Height(r.owner[b].pos) == 0 && b < |r.blocks|
          ==> r.blocks[b] == ZeroBlock())
  }

  lemma GrownNothing(t: Tree, inum: nat, p: Pos)
    requires inum < |t.inodes|
    ensures Grown(t, t, inum, p)
  {
  }

  lemma {:induction false} AboveTransitive(p: Pos, q: Pos, r: Pos)
    requires Above(p, q) && Above(q, r)
    ensures Above(p, r)
    decreases r
  {
    if q == r {
    } else {
      AboveTransitive(p, q, r.up);
    }
  }

  lemma GrownThenGrown(t: Tree, u: Tree, v: Tree, inum: nat, p: Pos, q: Pos)
    requires Grown(t, u, inum, p) && Grown(u, v, inum, q) && Above(p, q)
    requires Separated(u)
    ensures Grown(t, v, inum, q)
  {
    forall x | ValidSite(t, x) && At(t, x) != At(v, x)
      ensures x.inum == inum && Above(x.pos, q)
    {
      assert ValidSite(u, x);
      if At(t, x) != At(u, x) {
        AboveTransitive(x.pos, p, q);
      }
    }
    forall x | ValidSite(t, x) && At(t, x) != 0
      ensures At(v, x) == At(t, x)
    {
      assert ValidSite(u, x);
    }
  }

  /** The pointers of a file depend only on its inode and its own tables. */
  lemma {:induction false} SameTablesAt(t: Tree, r: Tree, x: Site)
    requires Separated(t) && |r.blocks| == |t.blocks|
    requires ValidSite(t, x) && ValidSite(r, x) && r.inodes[x.inum].addrs == t.inodes[x.inum].addrs
    requires forall b :: b in t.owner && t.owner[b].inum == x.inum && Height(t.owner[b].pos) > 0 ==>
      r.blocks[b] == t.blocks[b]
    ensures At(r, x) == At(t, x)
    decreases x.pos
  {
    match x.pos
    case Root(_) =>
    case Kid(q, j) =>
      var u := Site(x.inum, q);
      SameTablesAt(t, r, u);
      var c := At(t, u);
      assert c != 0 ==> c in t.owner && t.owner[c] == u;
  }
}

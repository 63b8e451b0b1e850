/** project1/project1_mlfq.c: one queue as the kernel stores it, a list threaded through
    a fixed array of nodes. */
module MlfqNodes {
  import opened Lists
  import opened Mlfq

  const NIL: int := -1

  /** `struct queue`; pointers to nodes are indices into `procqueue`. */
  datatype Node = Node(next: int, procwrap: Wrap, isused: bool)

  /** `struct mlfq` */
  datatype Level = Level(procqueue: seq<Node>, head: int, tail: int)

  ghost predicate Has(order: seq<int>, n: int) {
    exists i :: 0 <= i < |order| && order[i] == n
  }

  /** The nodes in `order`, and no others, are in use. */
  ghost predicate InUse(nodes: seq<Node>, order: seq<int>) {
    && |nodes| == QUESIZE
    && (forall i :: 0 <= i < |order| ==> 0 <= order[i] < QUESIZE && nodes[order[i]].isused)
    && (forall n :: 0 <= n < QUESIZE && nodes[n].isused ==> Has(order, n))
  }

  /** The node at position `i` points to the one at `i + 1`. */
  predicate NextAt(nodes: seq<Node>, order: seq<int>, i: int)
    requires 0 <= i < |order| && 0 <= order[i] < |nodes|
  {
    nodes[order[i]].next == if i + 1 < |order| then order[i + 1] else NIL
  }

  /** The nodes in `order` are linked, from `head` to `tail`. */
  ghost predicate Linked(l: Level, order: seq<int>) {
    && |l.procqueue| == QUESIZE
    && (forall i :: 0 <= i < |order| ==> 0 <= order[i] < |l.procqueue|)
    && l.head == (if |order| == 0 then NIL else order[0])
    && l.tail == (if |order| == 0 then NIL else order[|order| - 1])
    && (forall i :: 0 <= i < |order| ==> NextAt(l.procqueue, order, i))
  }

  ghost predicate Chain(l: Level, order: seq<int>) {
    NoRepeat(order) && InUse(l.procqueue, order) && Linked(l, order)
  }

  /** The queue a chain stands for. */
  function Wraps(l: Level, order: seq<int>): (r: seq<Wrap>)
    requires forall i :: 0 <= i < |order| ==> 0 <= order[i] < |l.procqueue|
    ensures |r| == |order|
    ensures forall i :: 0 <= i < |r| ==> r[i] == l.procqueue[order[i]].procwrap
  {
    seq(|order|, i requires 0 <= i < |order| => l.procqueue[order[i]].procwrap)
  }

  /** `l` holds the queue `q`, in the nodes `order`. */
  ghost predicate Holds(l: Level, order: seq<int>, q: seq<Wrap>) {
    Chain(l, order) && Wraps(l, order) == q
  }

  /** `push` into node `n` */
  function Appended(l: Level, n: int, w: Wrap): Level
    requires 0 <= n < |l.procqueue| && (l.head != NIL ==> 0 <= l.tail < |l.procqueue|)
  {
    var nodes := l.procqueue[n := Node(NIL, w, true)];
    if l.head != NIL then
      Level(nodes[l.tail := nodes[l.tail].(next := n)], l.head, n)
    else
      Level(nodes, n, n)
  }

  /** `headpush` into node `n` */
  function Prepended(l: Level, n: int, w: Wrap): Level
    requires 0 <= n < |l.procqueue|
  {
    if l.head != NIL then
      l.(procqueue := l.procqueue[n := Node(l.head, w, true)], head := n)
    else
      Level(l.procqueue[n := Node(NIL, w, true)], n, n)
  }

  /** `pop` and `statepop` taking node `now`, whose predecessor is `prev`, out of the list */
  function Unlinked(l: Level, prev: int, now: int): Level
    requires 0 <= now < |l.procqueue| && (now != l.head ==> 0 <= prev < |l.procqueue|)
  {
    var gone := l.procqueue[now].(isused := false, next := NIL);
    if now == l.head then
      if now == l.tail then Level(l.procqueue[now := gone], NIL, NIL)
      else l.(head := l.procqueue[now].next, procqueue := l.procqueue[now := gone])
    else if now == l.tail then
      var nodes := l.procqueue[now := gone];
      l.(procqueue := nodes[prev := nodes[prev].(next := NIL)], tail := prev)
    else
      var nodes := l.procqueue[prev := l.procqueue[prev].(next := l.procqueue[now].next)];
      l.(procqueue := nodes[now := nodes[now].(isused := false, next := NIL)])
  }

  /** What `r` changes in `nodes`: node `n` is now in use for `w`. */
  ghost predicate OnlyUsed(nodes: seq<Node>, r: seq<Node>, n: int, w: Wrap) {
    && |r| == |nodes| && 0 <= n < |nodes| && r[n].isused && r[n].procwrap == w
    && (forall m :: 0 <= m < |nodes| && m != n ==> r[m].isused == nodes[m].isused && r[m].procwrap == nodes[m].procwrap)
  }

  lemma PutInUse(nodes: seq<Node>, r: seq<Node>, order: seq<int>, i: nat, n: int, w: Wrap)
    requires InUse(nodes, order) && NoRepeat(order) && OnlyUsed(nodes, r, n, w) && !nodes[n].isused && i <= |order|
    ensures InUse(r, Put(order, i, n)) && NoRepeat(Put(order, i, n))
  {
    var p := Put(order, i, n);
    forall m | 0 <= m < QUESIZE && r[m].isused
      ensures Has(p, m)
    {
      if m == n {
        assert p[i] == n;
      } else {
        assert Has(order, m);
        var j :| 0 <= j < |order| && order[j] == m;
        assert p[if j < i then j else j + 1] == m;
      }
    }
  }

  lemma AppendedLinked(l: Level, order: seq<int>, q: seq<Wrap>, n: int, w: Wrap)
    requires Linked(l, order) && Wraps(l, order) == q && NoRepeat(order) && 0 <= n < QUESIZE
    requires forall i :: 0 <= i < |order| ==> order[i] != n
    ensures Linked(Appended(l, n, w), order + [n]) && Wraps(Appended(l, n, w), order + [n]) == q + [w]
    ensures OnlyUsed(l.procqueue, Appended(l, n, w).procqueue, n, w)
  {
    var r := Appended(l, n, w);
    if order != [] {
      assert l.tail == order[|order| - 1];
      assert forall i :: 0 <= i < |order| - 1 ==> order[i] != l.tail;
    }
    var p := order + [n];
    forall i | 0 <= i < |p|
      ensures NextAt(r.procqueue, p, i)
    {
      if i < |order| {
        assert NextAt(l.procqueue, order, i);
      }
    }
  }

  lemma AppendedHolds(l: Level, order: seq<int>, q: seq<Wrap>, n: int, w: Wrap)
    requires Holds(l, order, q) && 0 <= n < QUESIZE && !l.procqueue[n].isused
    ensures Holds(Appended(l, n, w), order + [n], q + [w])
  {
    hide InUse, NoRepeat, Linked, Appended;
    UnusedNotIn(l.procqueue, order, n);
    LinkedEnds(l, order);
    AppendedLinked(l, order, q, n, w);
    assert Put(order, |order|, n) == order + [n];
    PutInUse(l.procqueue, Appended(l, n, w).procqueue, order, |order|, n, w);
  }

  lemma LinkedEnds(l: Level, order: seq<int>)
    requires Linked(l, order)
    ensures l.head != NIL ==> 0 <= l.tail < |l.procqueue|
    ensures l.head == NIL <==> order == []
    ensures |l.procqueue| == QUESIZE
  {
  }

  lemma UnusedNotIn(nodes: seq<Node>, order: seq<int>, n: int)
    requires InUse(nodes, order) && 0 <= n < QUESIZE && !nodes[n].isused
    ensures forall i :: 0 <= i < |order| ==> order[i] != n
    ensures forall i :: 0 <= i < |order| ==> 0 <= order[i] < |nodes| == QUESIZE
  {
  }

  lemma PrependedLinked(l: Level, order: seq<int>, q: seq<Wrap>, n: int, w: Wrap)
    requires Linked(l, order) && Wraps(l, order) == q && 0 <= n < QUESIZE
    requires forall i :: 0 <= i < |order| ==> order[i] != n
    ensures Linked(Prepended(l, n, w), [n] + order) && Wraps(Prepended(l, n, w), [n] + order) == [w] + q
    ensures OnlyUsed(l.procqueue, Prepended(l, n, w).procqueue, n, w)
  {
    var r, p := Prepended(l, n, w), [n] + order;
    assert |order| > 0 ==> l.head == order[0] && l.tail == order[|order| - 1];
    forall i | 0 <= i < |p|
      ensures NextAt(r.procqueue, p, i)
    {
      if i > 0 {
        assert p[i] == order[i - 1] && NextAt(l.procqueue, order, i - 1);
      }
    }
  }

  lemma PrependedHolds(l: Level, order: seq<int>, q: seq<Wrap>, n: int, w: Wrap)
    requires Holds(l, order, q) && 0 <= n < QUESIZE && !l.procqueue[n].isused
    ensures Holds(Prepended(l, n, w), [n] + order, [w] + q)
  {
    hide InUse, NoRepeat, Linked, Prepended;
    UnusedNotIn(l.procqueue, order, n);
    LinkedEnds(l, order);
    PrependedLinked(l, order, q, n, w);
    assert Put(order, 0, n) == [n] + order;
    PutInUse(l.procqueue, Prepended(l, n, w).procqueue, order, 0, n, w);
  }

  /** From `l` to `r` the node at position `i` is freed, and the one before it points
      past it. */
  ghost predicate TakenOut(l: Level, r: Level, order: seq<int>, i: nat)
    requires i < |order| && forall j :: 0 <= j < |order| ==> 0 <= order[j] < |l.procqueue|
  {
    var now := order[i];
    && |r.procqueue| == |l.procqueue| && !r.procqueue[now].isused
    && (forall m :: 0 <= m < |l.procqueue| && m != now ==>
          r.procqueue[m].isused == l.procqueue[m].isused && r.procqueue[m].procwrap == l.procqueue[m].procwrap)
    && (forall m :: 0 <= m < |l.procqueue| && m != now ==>
          r.procqueue[m].next == if i > 0 && m == order[i - 1] then l.procqueue[now].next else l.procqueue[m].next)
    && r.head == (if i > 0 then l.head else l.procqueue[now].next)
    && r.tail == (if i + 1 < |order| then l.tail else if i > 0 then order[i - 1] else NIL)
  }

  lemma UnlinkedNodes(l: Level, order: seq<int>, i: nat, prev: int)
    requires Linked(l, order) && NoRepeat(order) && i < |order| && (i > 0 ==> prev == order[i - 1])
    ensures TakenOut(l, Unlinked(l, prev, order[i]), order, i)
  {
    assert l.head == order[0] && (order[i] == l.head <==> i == 0);
    assert l.tail == order[|order| - 1] && (order[i] == l.tail <==> i + 1 == |order|);
    assert NextAt(l.procqueue, order, i);
  }

  lemma UnlinkedInUse(l: Level, r: Level, order: seq<int>, i: nat)
    requires InUse(l.procqueue, order) && NoRepeat(order) && i < |order| && TakenOut(l, r, order, i)
    ensures InUse(r.procqueue, Removed(order, i)) && NoRepeat(Removed(order, i))
  {
    var p := Removed(order, i);
    forall m | 0 <= m < QUESIZE && r.procqueue[m].isused
      ensures Has(p, m)
    {
      assert Has(order, m);
      var j :| 0 <= j < |order| && order[j] == m;
      assert p[if j < i then j else j - 1] == m;
    }
  }

  lemma UnlinkedLinked(l: Level, r: Level, order: seq<int>, i: nat)
    requires Linked(l, order) && NoRepeat(order) && i < |order| && TakenOut(l, r, order, i)
    ensures Linked(r, Removed(order, i))
  {
    assert NextAt(l.procqueue, order, i);
    var p := Removed(order, i);
    forall j | 0 <= j < |p|
      ensures NextAt(r.procqueue, p, j)
    {
      assert NextAt(l.procqueue, order, if j < i then j else j + 1);
    }
  }

  lemma UnlinkedWraps(l: Level, r: Level, order: seq<int>, i: nat)
    requires Linked(l, order) && NoRepeat(order) && i < |order| && TakenOut(l, r, order, i)
    ensures forall j :: 0 <= j < |Removed(order, i)| ==> 0 <= Removed(order, i)[j] < |r.procqueue|
    ensures Wraps(r, Removed(order, i)) == Removed(Wraps(l, order), i)
  {
  }

  lemma UnlinkedHolds(l: Level, order: seq<int>, q: seq<Wrap>, i: nat, prev: int)
    requires Holds(l, order, q) && i < |order| && (i > 0 ==> prev == order[i - 1])
    ensures 0 <= order[i] < |l.procqueue| && (order[i] != l.head ==> 0 <= prev < |l.procqueue|)
    ensures Holds(Unlinked(l, prev, order[i]), Removed(order, i), Removed(q, i))
  {
    hide InUse, Linked, NoRepeat, Unlinked, TakenOut;
    InOrder(l, order);
    UnlinkedNodes(l, order, i, prev);
    var r := Unlinked(l, prev, order[i]);
    UnlinkedInUse(l, r, order, i);
    UnlinkedLinked(l, r, order, i);
    UnlinkedWraps(l, r, order, i);
  }

  lemma InOrder(l: Level, order: seq<int>)
    requires Linked(l, order)
    ensures |l.procqueue| == QUESIZE && forall i :: 0 <= i < |order| ==> 0 <= order[i] < QUESIZE
    ensures |order| > 0 ==> l.head == order[0]
  {
  }

  /** With fewer than QUESIZE processes queued some node is free. */
  lemma FreeNode(l: Level, order: seq<int>) returns (n: int)
    requires Chain(l, order) && |order| < QUESIZE
    ensures 0 <= n < QUESIZE && !l.procqueue[n].isused
  {
    n := 0;
    while n < QUESIZE && l.procqueue[n].isused
      invariant 0 <= n <= QUESIZE
      invariant forall m :: 0 <= m < n ==> Has(order, m)
    {
      n := n + 1;
    }
    if n == QUESIZE {
      AllTaken(order, QUESIZE);
    }
  }

  lemma {:induction false} AllTaken(order: seq<int>, n: nat)
    requires forall m :: 0 <= m < n ==> Has(order, m)
    ensures |order| >= n
  {
    if n == 0 {
    } else {
      assert Has(order, n - 1);
      var i :| 0 <= i < |order| && order[i] == n - 1;
      var rest := Removed(order, i);
      forall m | 0 <= m < n - 1
        ensures Has(rest, m)
      {
        assert Has(order, m);
        var j :| 0 <= j < |order| && order[j] == m;
        assert rest[if j < i then j else j - 1] == m;
      }
      AllTaken(rest, n - 1);
    }
  }
}

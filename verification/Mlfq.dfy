/** project1/project1_mlfq.c, proc.c, trap.c and project1_schedulerLocker.c: the
    multi-level feedback queue and the scheduler around it, on sequences. `MlfqKernel`
    shows that the linked queues do the same. */
module Mlfq {
  import opened Lists

  const NPROC: nat := 64
  const QUESIZE: nat := 128
  const LEVELSIZE: nat := 6
  const NOPROC: int := -1

  datatype ProcState = UNUSED | EMBRYO | SLEEPING | RUNNABLE | RUNNING | ZOMBIE

  /** `struct proc_w`: a process and its place in the scheduling rules. */
  datatype Wrap = Wrap(proc: nat, priority: int, quelevel: int, timequantum: int)

  /** `schedmlfq` and the parts of the process table it works on. */
  datatype Sched = Sched(
    queues: seq<seq<Wrap>>, state: seq<ProcState>, isinmlfq: seq<bool>,
    nowproc: int, lockproc: int, priority: int, quelevel: int, timequantum: int,
    islock: int, isTimeinterrupt: bool, ticks: int)

  predicate Live(st: ProcState) {
    st == RUNNABLE || st == SLEEPING
  }

  predicate Sized(s: Sched) {
    |s.queues| == LEVELSIZE && |s.state| == NPROC == |s.isinmlfq|
    && (s.nowproc == NOPROC || 0 <= s.nowproc < NPROC)
  }

  /** The ranges of a wrap's fields. */
  predicate Placed(w: Wrap) {
    w.proc < NPROC && 0 <= w.priority <= 3 && 0 <= w.quelevel <= 2
  }

  /** There is time left, and no more than the level allows. */
  predicate Paid(w: Wrap) {
    1 <= w.timequantum <= 2 * w.quelevel + 4
  }

  /** `procwrapinit` */
  function WrapInit(proc: nat, level: int, priority: int, timequantum: int, isset: bool): Wrap {
    if isset then
      Wrap(proc, priority, level, timequantum)
    else if level == 2 then
      Wrap(proc, if priority == 0 then 0 else priority - 1, level, level * 2 + 4)
    else
      Wrap(proc, priority, level + 1, (level + 1) * 2 + 4)
  }

  /** A process as it enters L0. */
  function New(proc: nat): Wrap {
    WrapInit(proc, 0, 3, 4, true)
  }

  /** The queue a wrap belongs to: level 2 has one queue for each priority. */
  function QueueOf(w: Wrap): int {
    if w.quelevel == 2 then w.quelevel + w.priority else w.quelevel
  }

  /** `push` */
  function Pushed(s: Sched, w: Wrap): Sched
    requires Sized(s) && Placed(w)
  {
    if s.isinmlfq[w.proc] then s
    else s.(queues := s.queues[QueueOf(w) := s.queues[QueueOf(w)] + [w]], isinmlfq := s.isinmlfq[w.proc := true])
  }

  /** `headpush` */
  function HeadPushed(s: Sched, w: Wrap): Sched
    requires Sized(s) && Placed(w)
  {
    if s.isinmlfq[w.proc] then s
    else s.(queues := s.queues[0 := [w] + s.queues[0]], isinmlfq := s.isinmlfq[w.proc := true])
  }

  /** Where `pop` finds its process in one queue; `|q|` if there is none. */
  function FirstRunnable(q: seq<Wrap>, state: seq<ProcState>): (i: nat)
    requires forall j :: 0 <= j < |q| ==> q[j].proc < |state|
    ensures i <= |q|
    ensures forall j :: 0 <= j < i ==> state[q[j].proc] != RUNNABLE
    ensures i < |q| ==> state[q[i].proc] == RUNNABLE
  {
    if q == [] then 0
    else if state[q[0].proc] == RUNNABLE then 0
    else 1 + FirstRunnable(q[1..], state)
  }

  predicate KnownProcs(s: Sched) {
    Sized(s) && forall k, i :: 0 <= k < LEVELSIZE && 0 <= i < |s.queues[k]| ==> s.queues[k][i].proc < NPROC
  }

  /** The first queue from `k` on in which `pop` finds a process; LEVELSIZE if none. */
  function FirstQueue(s: Sched, k: nat): (r: nat)
    requires KnownProcs(s) && k <= LEVELSIZE
    ensures k <= r <= LEVELSIZE
    ensures forall j :: k <= j < r ==> FirstRunnable(s.queues[j], s.state) == |s.queues[j]|
    ensures r < LEVELSIZE ==> FirstRunnable(s.queues[r], s.state) < |s.queues[r]|
    decreases LEVELSIZE - k
  {
    if k == LEVELSIZE || FirstRunnable(s.queues[k], s.state) < |s.queues[k]| then k
    else FirstQueue(s, k + 1)
  }

  /** `pop` from queue `k` of the process at position `i` */
  function Popped(s: Sched, k: nat, i: nat): Sched
    requires Sized(s) && k < LEVELSIZE && i < |s.queues[k]| && s.queues[k][i].proc < NPROC
  {
    s.(queues := s.queues[k := Removed(s.queues[k], i)], isinmlfq := s.isinmlfq[s.queues[k][i].proc := false])
  }

  /** All queues from `k` on, in queue order. */
  function Flat(qs: seq<seq<Wrap>>, k: nat): (r: seq<Wrap>)
    requires k <= |qs|
    decreases |qs| - k
  {
    if k == |qs| then [] else qs[k] + Flat(qs, k + 1)
  }

  /** The processes of `q` other than `skip`, each as new. */
  function Reset(q: seq<Wrap>, skip: int): seq<Wrap> {
    if q == [] then []
    else (if q[0].proc == skip then [] else [New(q[0].proc)]) + Reset(q[1..], skip)
  }

  /** `boosting`: everything into L0 as new, in queue order, the process that holds the
      scheduler lock first; and the lock is gone. */
  function Boosted(s: Sched): Sched
    requires Sized(s) && (s.islock != 0 ==> s.nowproc != NOPROC)
  {
    var all := Flat(s.queues, 0);
    var l0 := if s.islock != 0 then [New(s.nowproc)] + Reset(all, s.nowproc) else Reset(all, NOPROC);
    s.(queues := [l0, [], [], [], [], []],
       isinmlfq := if s.islock != 0 then s.isinmlfq[s.nowproc := true] else s.isinmlfq,
       islock := 0, lockproc := NOPROC, ticks := 1)
  }

  /** `nowproc` with what the scheduler remembers about it. */
  function Current(s: Sched, isset: bool): Wrap
    requires s.nowproc >= 0
  {
    WrapInit(s.nowproc, s.quelevel, s.priority, s.timequantum, isset)
  }

  predicate InRange(s: Sched) {
    0 <= s.quelevel <= 2 && 0 <= s.priority <= 3
  }

  /** What `scheduler` does with the process that has just given up the processor. */
  function Requeued(s: Sched): Sched
    requires Sized(s) && s.nowproc != NOPROC && InRange(s)
  {
    var p := s.nowproc;
    if s.ticks % 100 == 0 then
      Boosted(if Live(s.state[p]) then Pushed(s, Current(s, true)) else s)
    else if s.islock == -1 then
      HeadPushed(s, New(p)).(islock := 0)
    else if s.islock == 0 then
      if s.timequantum == 0 then
        if Live(s.state[p]) then Pushed(s, Current(s, false)) else s
      else if s.quelevel == 2 then
        if s.isTimeinterrupt then
          if Live(s.state[p]) then HeadPushed(s, Current(s, true)) else s
        else
          if Live(s.state[p]) then Pushed(s, Current(s, true)) else s
      else
        if Live(s.state[p]) then Pushed(s, Current(s, true)) else s
    else
      if s.state[p] == ZOMBIE then
        s.(islock := 0, lockproc := NOPROC)
      else if s.state[p] == SLEEPING then
        HeadPushed(s.(islock := 0, lockproc := NOPROC), New(p))
      else
        s.(timequantum := s.timequantum + 1)
  }

  /** Give the processor to the next process, if there is one. */
  function Dispatched(s: Sched): Sched
    requires KnownProcs(s) && (s.islock != 0 ==> s.nowproc != NOPROC)
  {
    if s.islock != 0 then s.(state := s.state[s.nowproc := RUNNING])
    else
      var k := FirstQueue(s, 0);
      if k == LEVELSIZE then s
      else
        var i := FirstRunnable(s.queues[k], s.state);
        var w := s.queues[k][i];
        Popped(s, k, i).(priority := w.priority, quelevel := w.quelevel, timequantum := w.timequantum,
          nowproc := w.proc, state := s.state[w.proc := RUNNING])
  }

  /** The process that gets the processor is the first RUNNABLE one in queue order, then
      in the order of its queue; if there is none, none gets it. The other queued
      processes stay as they are. */
  lemma PicksFirst(s: Sched)
    requires KnownProcs(s) && s.islock == 0
    ensures Dispatched(s) == s <==> forall k, i :: 0 <= k < LEVELSIZE && 0 <= i < |s.queues[k]| ==>
      s.state[s.queues[k][i].proc] != RUNNABLE
    ensures Dispatched(s) != s ==>
      exists k, i :: 0 <= k < LEVELSIZE && 0 <= i < |s.queues[k]| && PickedAt(s, Dispatched(s), k, i)
  {
    hide FirstQueue, FirstRunnable;
    var k := FirstQueue(s, 0);
    if k < LEVELSIZE {
      var i := FirstRunnable(s.queues[k], s.state);
      var r := Dispatched(s);
      assert |r.queues[k]| < |s.queues[k]|;
      assert PickedAt(s, r, k, i);
    } else {
      forall l, j | 0 <= l < LEVELSIZE && 0 <= j < |s.queues[l]|
        ensures s.state[s.queues[l][j].proc] != RUNNABLE
      {
        assert FirstRunnable(s.queues[l], s.state) == |s.queues[l]|;
      }
    }
  }

  ghost predicate PickedAt(s: Sched, r: Sched, k: int, i: int)
    requires KnownProcs(s) && 0 <= k < LEVELSIZE && 0 <= i < |s.queues[k]|
  {
    && s.state[s.queues[k][i].proc] == RUNNABLE
    && (forall l, j :: 0 <= l < LEVELSIZE && 0 <= j < |s.queues[l]| && (l < k || (l == k && j < i)) ==>
          s.state[s.queues[l][j].proc] != RUNNABLE)
    && r.nowproc == s.queues[k][i].proc
    && |r.queues| == LEVELSIZE && r.queues[k] == s.queues[k][..i] + s.queues[k][i + 1..]
    && (forall l :: 0 <= l < LEVELSIZE && l != k ==> r.queues[l] == s.queues[l])
  }

  /** The scheduler loop up to the dispatch. */
  function Settled(s: Sched): Sched
    requires Sized(s) && InRange(s) && (s.nowproc == NOPROC ==> s.islock == 0)
  {
    var t := if s.isTimeinterrupt then s else s.(timequantum := s.timequantum - 1);
    var u := if t.nowproc != NOPROC then Requeued(t) else if t.ticks % 100 == 0 then Boosted(t) else t;
    u.(isTimeinterrupt := false)
  }

  // ---- the invariant of the queues ----

  /** `p` is queued, at position `i` of queue `k`. */
  predicate At(qs: seq<seq<Wrap>>, k: int, i: int, p: int) {
    0 <= k < |qs| && 0 <= i < |qs[k]| && qs[k][i].proc == p
  }

  ghost predicate Queued(qs: seq<seq<Wrap>>, p: int) {
    exists k, i :: At(qs, k, i, p)
  }

  /** No process is in two places. */
  ghost predicate Unique(qs: seq<seq<Wrap>>) {
    forall k, i, l, j, p {:trigger At(qs, k, i, p), At(qs, l, j, p)} :: At(qs, k, i, p) && At(qs, l, j, p) ==>
      k == l && i == j
  }

  predicate FitsQueue(w: Wrap, k: int) {
    k == QueueOf(w) || (k == 0 && w.quelevel == 2)
  }

  /** Every queued process is in one place only, is RUNNABLE or SLEEPING, and is in the
      queue its wrap asks for, or at L0 after a preemption at level 2; and `isinmlfq`
      says exactly which processes are queued. */
  ghost predicate Listed(s: Sched) {
    && KnownProcs(s)
    && Unique(s.queues)
    && (forall k, i :: 0 <= k < LEVELSIZE && 0 <= i < |s.queues[k]| ==>
          Placed(s.queues[k][i]) && FitsQueue(s.queues[k][i], k) && Live(s.state[s.queues[k][i].proc]))
    && (forall p :: 0 <= p < NPROC ==> (s.isinmlfq[p] <==> Queued(s.queues, p)))
  }

  /** Every queued process has between 1 and `2 * quelevel + 4` ticks left. */
  ghost predicate AllPaid(s: Sched) {
    forall k, i :: 0 <= k < |s.queues| && 0 <= i < |s.queues[k]| ==> Paid(s.queues[k][i])
  }

  lemma Listing(s: Sched, k: int, i: int)
    requires Listed(s) && 0 <= k < LEVELSIZE && 0 <= i < |s.queues[k]|
    ensures s.isinmlfq[s.queues[k][i].proc]
  {
    assert At(s.queues, k, i, s.queues[k][i].proc);
  }

  lemma PushKeeps(s: Sched, w: Wrap)
    requires Listed(s) && Placed(w) && !s.isinmlfq[w.proc] && Live(s.state[w.proc])
    ensures Listed(Pushed(s, w))
    ensures AllPaid(s) && Paid(w) ==> AllPaid(Pushed(s, w))
  {
    var q := s.queues[QueueOf(w)];
    InsertKeeps(s, QueueOf(w), |q|, w);
    assert q[..|q|] + [w] + q[|q|..] == q + [w];
  }

  lemma HeadPushKeeps(s: Sched, w: Wrap)
    requires Listed(s) && Placed(w) && !s.isinmlfq[w.proc] && Live(s.state[w.proc]) && FitsQueue(w, 0)
    ensures Listed(HeadPushed(s, w))
    ensures AllPaid(s) && Paid(w) ==> AllPaid(HeadPushed(s, w))
  {
    var q := s.queues[0];
    InsertKeeps(s, 0, 0, w);
    assert q[..0] + [w] + q[0..] == [w] + q;
  }

  function Inserted(s: Sched, k: nat, i: nat, w: Wrap): Sched
    requires Sized(s) && k < LEVELSIZE && i <= |s.queues[k]| && w.proc < NPROC
  {
    s.(queues := s.queues[k := s.queues[k][..i] + [w] + s.queues[k][i..]], isinmlfq := s.isinmlfq[w.proc := true])
  }

  /** `r` is `q` with one element more, at `i`. */
  ghost predicate OneMore(q: seq<Wrap>, r: seq<Wrap>, i: int) {
    && 0 <= i <= |q| && |r| == |q| + 1
    && (forall j :: 0 <= j < i ==> r[j] == q[j])
    && (forall j :: i <= j < |q| ==> r[j + 1] == q[j])
  }

  /** The same queues but for one element more in queue `k`, at `i`. */
  ghost predicate Widened(qs: seq<seq<Wrap>>, rs: seq<seq<Wrap>>, k: int, i: int) {
    && 0 <= k < |qs| == |rs| && OneMore(qs[k], rs[k], i)
    && (forall l :: 0 <= l < |qs| && l != k ==> rs[l] == qs[l])
  }

  lemma PlaceBack(qs: seq<seq<Wrap>>, rs: seq<seq<Wrap>>, k: int, i: int, l: int, j: int, p: int)
    requires Widened(qs, rs, k, i) && At(rs, l, j, p)
    ensures (l == k && j == i && p == rs[k][i].proc)
      || (At(qs, l, if l == k && j > i then j - 1 else j, p) && !(l == k && j == i))
  {
    if l == k && j > i {
      assert rs[k][j - 1 + 1] == qs[k][j - 1];
    }
  }

  lemma PlaceForth(qs: seq<seq<Wrap>>, rs: seq<seq<Wrap>>, k: int, i: int, l: int, j: int, p: int)
    requires Widened(qs, rs, k, i) && At(qs, l, j, p)
    ensures At(rs, l, if l == k && j >= i then j + 1 else j, p)
  {
  }

  /** Which processes are queued with one element more. */
  lemma WidenedQueued(qs: seq<seq<Wrap>>, rs: seq<seq<Wrap>>, k: int, i: int)
    requires Widened(qs, rs, k, i)
    ensures forall p :: Queued(rs, p) <==> Queued(qs, p) || p == rs[k][i].proc
  {
    forall p
      ensures Queued(rs, p) <==> Queued(qs, p) || p == rs[k][i].proc
    {
      if Queued(rs, p) {
        var l, j :| At(rs, l, j, p);
        PlaceBack(qs, rs, k, i, l, j, p);
      }
      if Queued(qs, p) {
        var l, j :| At(qs, l, j, p);
        PlaceForth(qs, rs, k, i, l, j, p);
      }
      assert At(rs, k, i, rs[k][i].proc);
    }
  }

  /** One element more keeps every process in one place exactly when its process was not
      queued before. */
  lemma WidenedUnique(qs: seq<seq<Wrap>>, rs: seq<seq<Wrap>>, k: int, i: int)
    requires Widened(qs, rs, k, i)
    ensures Unique(rs) <==> Unique(qs) && !Queued(qs, rs[k][i].proc)
  {
    if Unique(qs) && !Queued(qs, rs[k][i].proc) {
      forall l, j, m, n, p | At(rs, l, j, p) && At(rs, m, n, p)
        ensures l == m && j == n
      {
        PlaceBack(qs, rs, k, i, l, j, p);
        PlaceBack(qs, rs, k, i, m, n, p);
      }
    }
    if Unique(rs) {
      forall l, j, m, n, p | At(qs, l, j, p) && At(qs, m, n, p)
        ensures l == m && j == n
      {
        PlaceForth(qs, rs, k, i, l, j, p);
        PlaceForth(qs, rs, k, i, m, n, p);
      }
      if Queued(qs, rs[k][i].proc) {
        var l, j :| At(qs, l, j, rs[k][i].proc);
        PlaceForth(qs, rs, k, i, l, j, rs[k][i].proc);
        assert At(rs, k, i, rs[k][i].proc);
      }
    }
  }

  lemma InsertKeeps(s: Sched, k: nat, i: nat, w: Wrap)
    requires Listed(s) && k < LEVELSIZE && i <= |s.queues[k]|
    requires Placed(w) && !s.isinmlfq[w.proc] && Live(s.state[w.proc]) && FitsQueue(w, k)
    ensures Listed(Inserted(s, k, i, w))
    ensures AllPaid(s) && Paid(w) ==> AllPaid(Inserted(s, k, i, w))
  {
    hide Unique, Queued, At;
    var r := Inserted(s, k, i, w);
    WidenedQueued(s.queues, r.queues, k, i);
    WidenedUnique(s.queues, r.queues, k, i);
  }

  /** Taking a process out of its queue keeps everything else listed. */
  lemma PopKeeps(s: Sched, k: nat, i: nat)
    requires Listed(s) && k < LEVELSIZE && i < |s.queues[k]|
    ensures Listed(Popped(s, k, i)) && !Popped(s, k, i).isinmlfq[s.queues[k][i].proc]
    ensures AllPaid(s) ==> AllPaid(Popped(s, k, i))
  {
    hide Unique, Queued, At;
    var r := Popped(s, k, i);
    WidenedQueued(r.queues, s.queues, k, i);
    WidenedUnique(r.queues, s.queues, k, i);
  }

  // ---- boosting ----

  ghost predicate In(q: seq<Wrap>, p: int) {
    exists i :: 0 <= i < |q| && q[i].proc == p
  }

  ghost predicate Distinct(q: seq<Wrap>) {
    forall i, j :: 0 <= i < j < |q| ==> q[i].proc != q[j].proc
  }

  ghost predicate QueuedFrom(qs: seq<seq<Wrap>>, k: int, p: int) {
    exists l, i :: k <= l && At(qs, l, i, p)
  }

  lemma {:induction false} FlatMeans(qs: seq<seq<Wrap>>, k: nat)
    requires k <= |qs| && Unique(qs)
    ensures Distinct(Flat(qs, k))
    ensures forall p :: In(Flat(qs, k), p) <==> QueuedFrom(qs, k, p)
    decreases |qs| - k
  {
    if k == |qs| {
    } else {
      FlatMeans(qs, k + 1);
      var rest := Flat(qs, k + 1);
      forall p
        ensures In(qs[k] + rest, p) <==> QueuedFrom(qs, k, p)
      {
        JoinIn(qs[k], rest, p);
        QueuedStep(qs, k, p);
      }
      forall i, j | 0 <= i < |qs[k]| && 0 <= j < |rest|
        ensures qs[k][i].proc != rest[j].proc
      {
        assert In(rest, rest[j].proc);
        if qs[k][i].proc == rest[j].proc {
          var l, m :| k + 1 <= l && At(qs, l, m, rest[j].proc);
          assert At(qs, k, i, qs[k][i].proc);
        }
      }
      assert Distinct(qs[k]) by {
        forall i, j | 0 <= i < j < |qs[k]|
          ensures qs[k][i].proc != qs[k][j].proc
        {
          assert At(qs, k, i, qs[k][i].proc) && At(qs, k, j, qs[k][j].proc);
        }
      }
    }
  }

  lemma JoinIn(a: seq<Wrap>, b: seq<Wrap>, p: int)
    ensures In(a + b, p) <==> In(a, p) || In(b, p)
  {
    if In(a, p) {
      var i :| 0 <= i < |a| && a[i].proc == p;
      assert (a + b)[i].proc == p;
    }
    if In(b, p) {
      var i :| 0 <= i < |b| && b[i].proc == p;
      assert (a + b)[|a| + i].proc == p;
    }
  }

  lemma QueuedStep(qs: seq<seq<Wrap>>, k: int, p: int)
    requires 0 <= k < |qs|
    ensures QueuedFrom(qs, k, p) <==> In(qs[k], p) || QueuedFrom(qs, k + 1, p)
  {
    if QueuedFrom(qs, k, p) {
      var l, i :| k <= l && At(qs, l, i, p);
    }
    if In(qs[k], p) {
      var i :| 0 <= i < |qs[k]| && qs[k][i].proc == p;
      assert At(qs, k, i, p);
    }
  }

  /** `Reset` keeps every process but `skip`, in order, each once. */
  lemma {:induction false} ResetMeans(q: seq<Wrap>, skip: int)
    requires Distinct(q)
    ensures Distinct(Reset(q, skip))
    ensures forall p :: In(Reset(q, skip), p) <==> In(q, p) && p != skip
    ensures forall i :: 0 <= i < |Reset(q, skip)| ==> Reset(q, skip)[i] == New(Reset(q, skip)[i].proc)
  {
    if q == [] {
    } else {
      ResetMeans(q[1..], skip);
      var first := if q[0].proc == skip then [] else [New(q[0].proc)];
      var rest := Reset(q[1..], skip);
      assert [q[0]] + q[1..] == q;
      forall p
        ensures In(first + rest, p) <==> In(q, p) && p != skip
      {
        JoinIn(first, rest, p);
        JoinIn([q[0]], q[1..], p);
        assert In([q[0]], p) <==> [q[0]][0].proc == p;
        assert p != skip ==> (In(first, p) <==> p == q[0].proc) by {
          if q[0].proc != skip {
            assert first[0].proc == q[0].proc;
          }
        }
      }
      if q[0].proc != skip {
        forall j | 0 <= j < |rest|
          ensures rest[j].proc != q[0].proc
        {
          assert In(rest, rest[j].proc);
        }
      }
    }
  }

  /** L0 after boosting. */
  function L0(s: Sched): seq<Wrap>
    requires Sized(s) && (s.islock != 0 ==> s.nowproc != NOPROC)
  {
    Boosted(s).queues[0]
  }

  /** Boosting puts every queued process into L0, each once and as new; with the lock
      held, `nowproc` is the first of them. */
  lemma BoostGathers(s: Sched)
    requires Listed(s) && (s.islock != 0 ==> s.nowproc != NOPROC)
    ensures Distinct(L0(s))
    ensures forall p :: In(L0(s), p) <==> Queued(s.queues, p) || (s.islock != 0 && p == s.nowproc)
    ensures forall i :: 0 <= i < |L0(s)| ==> L0(s)[i] == New(L0(s)[i].proc)
    ensures s.islock != 0 ==> L0(s)[0] == New(s.nowproc)
  {
    var all := Flat(s.queues, 0);
    FlatMeans(s.queues, 0);
    forall p
      ensures In(all, p) <==> Queued(s.queues, p)
    {
      if Queued(s.queues, p) {
        var k, i :| At(s.queues, k, i, p);
        assert QueuedFrom(s.queues, 0, p);
      }
    }
    if s.islock != 0 {
      var rest := Reset(all, s.nowproc);
      ResetMeans(all, s.nowproc);
      forall p
        ensures In([New(s.nowproc)] + rest, p) <==> p == s.nowproc || In(rest, p)
      {
        JoinIn([New(s.nowproc)], rest, p);
        assert In([New(s.nowproc)], p) <==> [New(s.nowproc)][0].proc == p;
      }
      forall j | 0 <= j < |rest|
        ensures rest[j].proc != s.nowproc
      {
        assert In(rest, rest[j].proc);
      }
    } else {
      ResetMeans(all, NOPROC);
      forall p
        ensures In(all, p) ==> p != NOPROC
      {
        if In(all, p) {
          var k, i :| At(s.queues, k, i, p);
        }
      }
    }
  }

  lemma {:induction false} FlatAt(qs: seq<seq<Wrap>>, c: nat, k: nat, i: nat) returns (m: nat)
    requires c <= k < |qs| && i < |qs[k]|
    ensures m < |Flat(qs, c)| && Flat(qs, c)[m] == qs[k][i]
    decreases |qs| - c
  {
    if c == k {
      m := i;
    } else {
      m := FlatAt(qs, c + 1, k, i);
      m := |qs[c]| + m;
    }
  }

  lemma {:induction false} FlatOrder(qs: seq<seq<Wrap>>, c: nat, k: nat, i: nat, l: nat, j: nat)
    returns (m: nat, n: nat)
    requires c <= k <= l < |qs| && i < |qs[k]| && j < |qs[l]| && (k < l || i < j)
    ensures m < n < |Flat(qs, c)| && Flat(qs, c)[m] == qs[k][i] && Flat(qs, c)[n] == qs[l][j]
    decreases |qs| - c
  {
    if c == l {
      m, n := i, j;
    } else if c == k {
      n := FlatAt(qs, c + 1, l, j);
      m, n := i, |qs[c]| + n;
    } else {
      m, n := FlatOrder(qs, c + 1, k, i, l, j);
      m, n := |qs[c]| + m, |qs[c]| + n;
    }
  }

  lemma {:induction false} ResetAt(q: seq<Wrap>, skip: int, a: nat) returns (m: nat)
    requires a < |q| && q[a].proc != skip
    ensures m < |Reset(q, skip)| && Reset(q, skip)[m] == New(q[a].proc)
  {
    if a == 0 {
      m := 0;
    } else {
      m := ResetAt(q[1..], skip, a - 1);
      m := if q[0].proc == skip then m else m + 1;
    }
  }

  lemma {:induction false} ResetOrder(q: seq<Wrap>, skip: int, a: nat, b: nat) returns (m: nat, n: nat)
    requires a < b < |q| && q[a].proc != skip && q[b].proc != skip
    ensures m < n < |Reset(q, skip)| && Reset(q, skip)[m] == New(q[a].proc) && Reset(q, skip)[n] == New(q[b].proc)
  {
    if a == 0 {
      n := ResetAt(q[1..], skip, b - 1);
      m, n := 0, n + 1;
    } else {
      m, n := ResetOrder(q[1..], skip, a - 1, b - 1);
      m, n := if q[0].proc == skip then m else m + 1, if q[0].proc == skip then n else n + 1;
    }
  }

  /** Boosting keeps the order: of two processes, other than one that holds the lock, the
      one in the better queue, or ahead in the same queue, is ahead in L0. */
  lemma BoostKeepsOrder(s: Sched, k: nat, i: nat, l: nat, j: nat) returns (m: nat, n: nat)
    requires Listed(s) && k <= l < LEVELSIZE && i < |s.queues[k]| && j < |s.queues[l]| && (k < l || i < j)
    requires s.islock != 0 ==> s.nowproc != NOPROC && s.nowproc !in {s.queues[k][i].proc, s.queues[l][j].proc}
    ensures m < n < |L0(s)|
    ensures L0(s)[m].proc == s.queues[k][i].proc && L0(s)[n].proc == s.queues[l][j].proc
  {
    var a, b := FlatOrder(s.queues, 0, k, i, l, j);
    m, n := ResetOrder(Flat(s.queues, 0), if s.islock != 0 then s.nowproc else NOPROC, a, b);
    if s.islock != 0 {
      m, n := m + 1, n + 1;
    }
  }

  lemma OneQueue(l0: seq<Wrap>)
    requires Distinct(l0)
    ensures var qs := [l0, [], [], [], [], []]; Unique(qs) && forall p :: Queued(qs, p) <==> In(l0, p)
  {
    var qs := [l0, [], [], [], [], []];
    forall p
      ensures Queued(qs, p) <==> In(l0, p)
    {
      if In(l0, p) {
        var i :| 0 <= i < |l0| && l0[i].proc == p;
        assert At(qs, 0, i, p);
      }
    }
  }

  lemma QueuedLive(s: Sched, p: int)
    requires Listed(s) && Queued(s.queues, p)
    ensures 0 <= p < NPROC && Live(s.state[p])
  {
    var k, j :| At(s.queues, k, j, p);
    assert Live(s.state[s.queues[k][j].proc]);
  }

  /** A state all of whose queued processes are in L0, as new. */
  lemma OnlyL0(r: Sched, l0: seq<Wrap>)
    requires Sized(r) && r.queues == [l0, [], [], [], [], []] && Distinct(l0)
    requires forall i :: 0 <= i < |l0| ==> l0[i] == New(l0[i].proc)
    requires forall p :: In(l0, p) ==> 0 <= p < NPROC && Live(r.state[p])
    requires forall p :: 0 <= p < NPROC ==> (r.isinmlfq[p] <==> In(l0, p))
    ensures Listed(r) && AllPaid(r)
  {
    hide Unique, Queued, Distinct, In;
    OneQueue(l0);
    forall k, i | 0 <= k < LEVELSIZE && 0 <= i < |r.queues[k]|
      ensures r.queues[k][i] == New(r.queues[k][i].proc) && k == 0
      ensures In(l0, r.queues[k][i].proc)
    {
      InAt(l0, i);
    }
  }

  lemma InAt(q: seq<Wrap>, i: int)
    requires 0 <= i < |q|
    ensures In(q, q[i].proc)
  {
  }

  lemma BoostKeeps(s: Sched)
    requires Listed(s) && (s.islock != 0 ==> s.nowproc != NOPROC && Live(s.state[s.nowproc]))
    ensures Listed(Boosted(s)) && AllPaid(Boosted(s))
  {
    hide Unique, Queued, Distinct, In;
    BoostGathers(s);
    var r := Boosted(s);
    forall p | In(L0(s), p)
      ensures 0 <= p < NPROC && Live(r.state[p])
    {
      if Queued(s.queues, p) {
        QueuedLive(s, p);
      }
    }
    OnlyL0(r, L0(s));
  }

  // ---- the scheduler ----

  /** Every process other than `nowproc` that can run or sleeps is queued, and none runs. */
  ghost predicate OthersQueued(s: Sched) {
    Sized(s) && forall p :: 0 <= p < NPROC && p != s.nowproc ==>
      s.state[p] != RUNNING && (Live(s.state[p]) ==> s.isinmlfq[p])
  }

  ghost predicate Sane(s: Sched) {
    Listed(s) && AllPaid(s) && InRange(s) && OthersQueued(s)
  }

  /** A process has the processor. */
  ghost predicate Runs(s: Sched) {
    && Sane(s) && s.nowproc != NOPROC && s.state[s.nowproc] == RUNNING
    && s.islock in {0, 1} && (s.islock == 1 ==> s.lockproc == s.nowproc)
    && (s.islock == 0 ==> 1 <= s.timequantum <= 2 * s.quelevel + 4)
    && 1 <= s.ticks <= 99 && !s.isTimeinterrupt
  }

  /** The scheduler goes round without finding a process. */
  ghost predicate Idle(s: Sched) {
    && Sane(s) && s.islock == 0 && 1 <= s.ticks <= 99 && !s.isTimeinterrupt
    && (s.nowproc != NOPROC ==> s.state[s.nowproc] != RUNNING && (Live(s.state[s.nowproc]) ==> s.isinmlfq[s.nowproc]))
  }

  /** The scheduler has just been entered by `nowproc`. */
  ghost predicate Entered(s: Sched) {
    && Sane(s) && s.nowproc != NOPROC && s.state[s.nowproc] in {RUNNABLE, SLEEPING, ZOMBIE} && !s.isinmlfq[s.nowproc]
    && s.islock in {-1, 0, 1} && (s.islock == 1 && s.ticks < 100 ==> s.lockproc == s.nowproc)
    && (s.islock == 0 ==> (if s.isTimeinterrupt then 0 else 1) <= s.timequantum <= 2 * s.quelevel + 4)
    && (s.islock == -1 ==> s.state[s.nowproc] == RUNNABLE)
    && 1 <= s.ticks <= 100 && (s.ticks == 100 ==> s.state[s.nowproc] == RUNNABLE)
  }

  /** The scheduler is about to dispatch. */
  ghost predicate Ready(s: Sched) {
    && Sane(s) && s.islock in {0, 1} && 1 <= s.ticks <= 99
    && (s.islock == 0 && s.nowproc != NOPROC ==>
          s.state[s.nowproc] != RUNNING && (Live(s.state[s.nowproc]) ==> s.isinmlfq[s.nowproc]))
    && (s.islock == 1 ==>
          s.nowproc != NOPROC && s.lockproc == s.nowproc && s.state[s.nowproc] == RUNNABLE && !s.isinmlfq[s.nowproc])
  }

  /** The time and lock fields have no part in `Sane`. */
  lemma SaneTimes(s: Sched, t: Sched)
    requires Sane(s) && t.queues == s.queues && t.state == s.state && t.isinmlfq == s.isinmlfq
    requires t.nowproc == s.nowproc && t.quelevel == s.quelevel && t.priority == s.priority
    ensures Sane(t)
  {
  }

  lemma PushSane(s: Sched, w: Wrap)
    requires Sane(s) && Placed(w) && Paid(w) && w.proc == s.nowproc && !s.isinmlfq[w.proc] && Live(s.state[w.proc])
    ensures Sane(Pushed(s, w)) && Pushed(s, w).isinmlfq[w.proc]
  {
    PushKeeps(s, w);
  }

  lemma HeadPushSane(s: Sched, w: Wrap)
    requires Sane(s) && Placed(w) && Paid(w) && w.proc == s.nowproc && !s.isinmlfq[w.proc] && Live(s.state[w.proc])
    requires FitsQueue(w, 0)
    ensures Sane(HeadPushed(s, w)) && HeadPushed(s, w).isinmlfq[w.proc]
  {
    HeadPushKeeps(s, w);
  }

  /** Boosting queues `nowproc` too, if it was queued or held the lock. */
  lemma BoostSane(s: Sched)
    requires Sane(s) && s.nowproc != NOPROC && Live(s.state[s.nowproc]) && !s.isinmlfq[s.nowproc]
    ensures Sane(Boosted(Pushed(s, Current(s, true)))) && Boosted(Pushed(s, Current(s, true))).isinmlfq[s.nowproc]
  {
    PushKeeps(s, Current(s, true));
    BoostKeeps(Pushed(s, Current(s, true)));
  }

  /** Going round again changes nothing but the time left. */
  lemma RequeueIdle(s: Sched)
    requires Sized(s) && InRange(s) && s.nowproc != NOPROC && s.islock == 0 && 1 <= s.ticks <= 99
    requires Live(s.state[s.nowproc]) ==> s.isinmlfq[s.nowproc]
    ensures Requeued(s) == s
  {
  }

  /** A process that gives up the processor before the next boost is queued with time
      left, unless it is a zombie or holds the lock. */
  lemma RequeueKeeps(s: Sched)
    requires Sane(s) && s.nowproc != NOPROC && s.state[s.nowproc] in {RUNNABLE, SLEEPING, ZOMBIE}
    requires !s.isinmlfq[s.nowproc]
    requires s.islock in {-1, 0, 1} && (s.islock == 1 ==> s.lockproc == s.nowproc) && 1 <= s.ticks <= 99
    requires s.islock == 0 ==> 0 <= s.timequantum <= 2 * s.quelevel + 4
    requires s.islock == -1 ==> s.state[s.nowproc] == RUNNABLE
    ensures Ready(Requeued(s))
  {
    hide Listed, AllPaid;
    var p := s.nowproc;
    var u := s.(islock := 0, lockproc := NOPROC);
    if s.islock == 0 && Live(s.state[p]) {
      var w := Current(s, s.timequantum != 0);
      if s.timequantum != 0 && s.quelevel == 2 && s.isTimeinterrupt {
        HeadPushSane(s, w);
      } else {
        PushSane(s, w);
      }
    } else if s.islock == -1 {
      HeadPushSane(s, New(p));
      SaneTimes(HeadPushed(s, New(p)), Requeued(s));
    } else if s.islock == 1 && s.state[p] == SLEEPING {
      SaneTimes(s, u);
      HeadPushSane(u, New(p));
    } else {
      SaneTimes(s, Requeued(s));
    }
  }

  lemma SettledIdle(s: Sched)
    requires Idle(s)
    ensures Ready(Settled(s))
  {
    hide Listed, AllPaid;
    var t := s.(timequantum := s.timequantum - 1);
    if t.nowproc != NOPROC {
      RequeueIdle(t);
    }
    SaneTimes(s, Settled(s));
  }

  lemma BoostReady(s: Sched)
    requires Sane(s) && s.nowproc != NOPROC && s.ticks == 100 && s.state[s.nowproc] == RUNNABLE
    requires !s.isinmlfq[s.nowproc]
    ensures Ready(Requeued(s))
  {
    hide Listed, AllPaid;
    BoostSane(s);
  }

  lemma SettledEntered(s: Sched)
    requires Entered(s)
    ensures Ready(Settled(s))
  {
    hide Listed, AllPaid, Requeued;
    var t := if s.isTimeinterrupt then s else s.(timequantum := s.timequantum - 1);
    SaneTimes(s, t);
    if t.ticks == 100 {
      BoostReady(t);
    } else {
      RequeueKeeps(t);
    }
    SaneTimes(Requeued(t), Settled(s));
  }

  /** The time that the scheduler finds `nowproc` has left: giving up the processor costs a
      tick, unless the timer has taken one already. */
  function TimeLeft(s: Sched): int {
    if s.isTimeinterrupt then s.timequantum else s.timequantum - 1
  }

  /** From `s` to `r` the process of `w` has been queued as the last of queue `k`. */
  ghost predicate QueuedLast(s: Sched, r: Sched, k: int, w: Wrap) {
    && 0 <= k < |s.queues| && w.proc < |s.isinmlfq|
    && r.queues == s.queues[k := s.queues[k] + [w]] && r.isinmlfq == s.isinmlfq[w.proc := true]
  }

  /** From `s` to `r` the process of `w` has been queued as the first of L0. */
  ghost predicate QueuedFirst(s: Sched, r: Sched, w: Wrap) {
    && |s.queues| > 0 && w.proc < |s.isinmlfq|
    && r.queues == s.queues[0 := [w] + s.queues[0]] && r.isinmlfq == s.isinmlfq[w.proc := true]
  }

  /** The scheduler has just been entered by `nowproc`, which can run again or sleeps, with
      the lock free and before the next boost. */
  ghost predicate EnteredLive(s: Sched) {
    Entered(s) && s.islock == 0 && s.ticks < 100 && Live(s.state[s.nowproc])
  }

  /** A process that has used up its time goes down to the end of the next level, with the
      time of that level. Level 2 has a queue for each priority. */
  lemma Demotes(s: Sched)
    requires EnteredLive(s) && TimeLeft(s) == 0
    ensures s.quelevel == 0 ==> QueuedLast(s, Settled(s), 1, Wrap(s.nowproc, s.priority, 1, 6))
    ensures s.quelevel == 1 ==> QueuedLast(s, Settled(s), 2 + s.priority, Wrap(s.nowproc, s.priority, 2, 8))
  {
    hide Listed, AllPaid;
  }

  /** On level 2 it goes to the end of the queue of the next better priority, if there is
      a better one. */
  lemma Promotes(s: Sched)
    requires EnteredLive(s) && TimeLeft(s) == 0 && s.quelevel == 2
    ensures s.priority > 0 ==>
      QueuedLast(s, Settled(s), 2 + (s.priority - 1), Wrap(s.nowproc, s.priority - 1, 2, 8))
    ensures s.priority == 0 ==> QueuedLast(s, Settled(s), 2, Wrap(s.nowproc, 0, 2, 8))
  {
    hide Listed, AllPaid;
  }

  /** With time left it keeps its level and priority and the time it has: on level 2 the
      timer makes it the first of L0; else it is the last of its own queue. */
  lemma StaysPut(s: Sched)
    requires EnteredLive(s) && TimeLeft(s) > 0
    ensures var w := Wrap(s.nowproc, s.priority, s.quelevel, TimeLeft(s));
      && (s.quelevel < 2 ==> QueuedLast(s, Settled(s), s.quelevel, w))
      && (s.quelevel == 2 && !s.isTimeinterrupt ==> QueuedLast(s, Settled(s), 2 + s.priority, w))
      && (s.quelevel == 2 && s.isTimeinterrupt ==> QueuedFirst(s, Settled(s), w))
  {
    hide Listed, AllPaid;
  }

  /** A process that gives back the lock, or sleeps with it, is the first of L0, as a new
      one, and the lock is free. */
  lemma LockGivenUp(s: Sched)
    requires Entered(s) && s.ticks < 100 && (s.islock == -1 || (s.islock == 1 && s.state[s.nowproc] == SLEEPING))
    ensures QueuedFirst(s, Settled(s), Wrap(s.nowproc, 3, 0, 4)) && Settled(s).islock == 0
    ensures Settled(s).lockproc == (if s.islock == 1 then NOPROC else s.lockproc)
  {
    hide Listed, AllPaid;
  }

  /** A process that exits is not queued, and does not keep the lock; one that yields with
      the lock keeps it, and its time. */
  lemma NotQueuedAgain(s: Sched)
    requires Entered(s) && s.ticks < 100 && s.islock >= 0
    requires s.state[s.nowproc] == ZOMBIE || (s.islock == 1 && s.state[s.nowproc] == RUNNABLE && !s.isTimeinterrupt)
    ensures Settled(s).queues == s.queues && Settled(s).isinmlfq == s.isinmlfq
    ensures s.state[s.nowproc] == ZOMBIE ==> Settled(s).islock == 0 && (s.islock == 1 ==> Settled(s).lockproc == NOPROC)
    ensures s.state[s.nowproc] == RUNNABLE ==> Settled(s).islock == 1 && Settled(s).timequantum == s.timequantum
  {
    hide Listed, AllPaid;
  }

  /** Giving a process that is not queued another state, or a queued one another live
      state, keeps the queues. */
  lemma ListedState(s: Sched, p: nat, st: ProcState)
    requires Listed(s) && p < NPROC && (s.isinmlfq[p] ==> Live(st))
    ensures Listed(s.(state := s.state[p := st]))
  {
    forall k, i | 0 <= k < LEVELSIZE && 0 <= i < |s.queues[k]|
      ensures Live(s.state[p := st][s.queues[k][i].proc])
    {
      Listing(s, k, i);
    }
  }

  /** The queue fields are all that `Listed` looks at, besides the states. */
  lemma ListedSame(s: Sched, t: Sched)
    requires Listed(s) && t.queues == s.queues && t.state == s.state && t.isinmlfq == s.isinmlfq
    requires t.nowproc == NOPROC || 0 <= t.nowproc < NPROC
    ensures Listed(t)
  {
  }

  lemma PopRuns(s: Sched, k: nat, i: nat)
    requires Ready(s) && s.islock == 0 && !s.isTimeinterrupt && k < LEVELSIZE && i < |s.queues[k]|
    ensures var w := s.queues[k][i];
      Runs(Popped(s, k, i).(priority := w.priority, quelevel := w.quelevel, timequantum := w.timequantum,
        nowproc := w.proc, state := s.state[w.proc := RUNNING]))
  {
    var w := s.queues[k][i];
    assert Placed(w) && Paid(w);
    PopKeeps(s, k, i);
    var t := Popped(s, k, i);
    ListedState(t, w.proc, RUNNING);
    var u := t.(state := t.state[w.proc := RUNNING]);
    var r := u.(priority := w.priority, quelevel := w.quelevel, timequantum := w.timequantum, nowproc := w.proc);
    ListedSame(u, r);
  }

  lemma DispatchedKeeps(s: Sched)
    requires Ready(s) && !s.isTimeinterrupt
    ensures Runs(Dispatched(s)) || Idle(Dispatched(s))
  {
    if s.islock == 1 {
      ListedState(s, s.nowproc, RUNNING);
    } else {
      var k := FirstQueue(s, 0);
      if k < LEVELSIZE {
        PopRuns(s, k, FirstRunnable(s.queues[k], s.state));
      }
    }
  }

  // ---- statepop ----

  datatype Swept = Fault | Swept(queue: seq<Wrap>, isinmlfq: seq<bool>, cnt: nat)

  /** What is left after the first processes, `kept`, have been looked at. */
  function Behind(kept: seq<Wrap>, cnt: nat, r: Swept): Swept {
    if r.Fault? then Fault else Swept(kept + r.queue, r.isinmlfq, cnt + r.cnt)
  }

  /** `statepop`: drop what is neither RUNNABLE nor SLEEPING. The flag it clears is that
      of the process behind the dropped one, through a null pointer if there is none. */
  function Sweep(q: seq<Wrap>, state: seq<ProcState>, flags: seq<bool>): Swept
    requires |state| == |flags| && forall i :: 0 <= i < |q| ==> q[i].proc < |flags|
  {
    if q == [] then Swept([], flags, 0)
    else if Live(state[q[0].proc]) then Behind([q[0]], 0, Sweep(q[1..], state, flags))
    else if |q| == 1 then Fault
    else Behind([], 1, Sweep(q[1..], state, flags[q[1].proc := false]))
  }

  ghost predicate AllLive(q: seq<Wrap>, state: seq<ProcState>) {
    forall i :: 0 <= i < |q| ==> q[i].proc < |state| && Live(state[q[i].proc])
  }

  /** The flags of the processes of `q` say which of them are in `r`. */
  ghost predicate FlagsTell(q: seq<Wrap>, r: seq<Wrap>, flags: seq<bool>) {
    forall i :: 0 <= i < |q| ==> q[i].proc < |flags| && (flags[q[i].proc] <==> In(r, q[i].proc))
  }

  lemma {:induction false} SweepNothing(q: seq<Wrap>, state: seq<ProcState>, flags: seq<bool>)
    requires |state| == |flags| && AllLive(q, state)
    ensures Sweep(q, state, flags) == Swept(q, flags, 0)
  {
    if q == [] {
    } else {
      SweepNothing(q[1..], state, flags);
      assert [q[0]] + q[1..] == q;
    }
  }

  /** `statepop` neither brings back a process nor touches the flag of one it does not
      meet. */
  lemma {:induction false} SweepAbsent(q: seq<Wrap>, state: seq<ProcState>, flags: seq<bool>, p: nat)
    requires |state| == |flags| && (forall i :: 0 <= i < |q| ==> q[i].proc < |flags|) && p < |flags|
    requires !In(q, p) && Sweep(q, state, flags).Swept?
    ensures var r := Sweep(q, state, flags); |r.isinmlfq| == |flags| && r.isinmlfq[p] == flags[p] && !In(r.queue, p)
  {
    if q == [] {
    } else {
      NotInTail(q, p);
      if Live(state[q[0].proc]) {
        SweepAbsent(q[1..], state, flags, p);
        JoinIn([q[0]], Sweep(q[1..], state, flags).queue, p);
      } else {
        SweepAbsent(q[1..], state, flags[q[1].proc := false], p);
        assert [] + Sweep(q[1..], state, flags[q[1].proc := false]).queue
          == Sweep(q[1..], state, flags[q[1].proc := false]).queue;
      }
    }
  }

  lemma NotInTail(q: seq<Wrap>, p: int)
    requires q != [] && !In(q, p)
    ensures !In(q[1..], p) && !In([q[0]], p) && q[0].proc != p
  {
    JoinIn([q[0]], q[1..], p);
    assert [q[0]] + q[1..] == q;
    assert q[0].proc != p;
  }

  /** If `statepop` drops anything, some process ends up flagged but not queued. */
  lemma {:induction false} SweepFails(q: seq<Wrap>, state: seq<ProcState>, flags: seq<bool>) returns (i: nat)
    requires |state| == |flags| && (forall j :: 0 <= j < |q| ==> q[j].proc < |flags| && flags[q[j].proc])
    requires Distinct(q) && !AllLive(q, state) && Sweep(q, state, flags).Swept?
    ensures i < |q|
    ensures var r := Sweep(q, state, flags); |r.isinmlfq| == |flags| && r.isinmlfq[q[i].proc] && !In(r.queue, q[i].proc)
  {
    var p := q[0].proc;
    assert !In(q[1..], p);
    if Live(state[p]) {
      var j := SweepFails(q[1..], state, flags);
      i := j + 1;
      JoinIn([q[0]], Sweep(q[1..], state, flags).queue, q[i].proc);
      assert [q[0]][0].proc == p;
    } else {
      i := 0;
      SweepAbsent(q[1..], state, flags[q[1].proc := false], p);
      assert [] + Sweep(q[1..], state, flags[q[1].proc := false]).queue
        == Sweep(q[1..], state, flags[q[1].proc := false]).queue;
    }
  }

  /** `statepop` on a queue whose processes are all flagged: it goes through and leaves
      flags that say what is queued exactly when it has nothing to drop. */
  lemma SweepExactly(q: seq<Wrap>, state: seq<ProcState>, flags: seq<bool>)
    requires |state| == |flags| && (forall j :: 0 <= j < |q| ==> q[j].proc < |flags| && flags[q[j].proc]) && Distinct(q)
    ensures AllLive(q, state) <==>
      var r := Sweep(q, state, flags); r.Swept? && FlagsTell(q, r.queue, r.isinmlfq)
  {
    if AllLive(q, state) {
      SweepNothing(q, state, flags);
    } else if Sweep(q, state, flags).Swept? {
      var i := SweepFails(q, state, flags);
    }
  }
}

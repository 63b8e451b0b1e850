/** project1's `fork` in its steps: `allocproc` queues the new process while it is
    EMBRYO, and only later it becomes RUNNABLE, or UNUSED again where `fork` fails. In
    between, `newproc` for another process drops it from the queue. */
module MlfqForks {
  import opened Mlfq
  import opened MlfqRuns

  /** The kernel goes on, or it has followed a null pointer. */
  datatype Fate = Crashed | Goes(s: Sched)

  /** `statepop` of queue `k` */
  function StatePopped(s: Sched, k: nat): Sched
    requires KnownProcs(s) && k < LEVELSIZE
  {
    var r := Sweep(s.queues[k], s.state, s.isinmlfq);
    if r.Fault? then s else s.(queues := s.queues[k := r.queue], isinmlfq := r.isinmlfq)
  }

  lemma {:induction false} SweptKnown(q: seq<Wrap>, state: seq<ProcState>, flags: seq<bool>)
    requires |state| == |flags| && forall i :: 0 <= i < |q| ==> q[i].proc < |flags|
    requires Sweep(q, state, flags).Swept?
    ensures var r := Sweep(q, state, flags);
      |r.isinmlfq| == |flags| && |r.queue| <= |q| && forall i :: 0 <= i < |r.queue| ==> r.queue[i].proc < |flags|
  {
    if q == [] {
      return;
    }
    if Live(state[q[0].proc]) {
      SweptKnown(q[1..], state, flags);
    } else {
      SweptKnown(q[1..], state, flags[q[1].proc := false]);
    }
  }

  lemma PoppedKnown(s: Sched, k: nat)
    requires KnownProcs(s) && k < LEVELSIZE
    ensures KnownProcs(StatePopped(s, k)) && |StatePopped(s, k).queues[0]| <= |s.queues[0]|
  {
    if Sweep(s.queues[k], s.state, s.isinmlfq).Swept? {
      SweptKnown(s.queues[k], s.state, s.isinmlfq);
    }
  }

  /** `clearmlfq` from queue `k` on */
  function ClearFrom(s: Sched, k: nat): (r: Fate)
    requires KnownProcs(s) && k <= LEVELSIZE
    ensures r.Goes? ==> KnownProcs(r.s) && |r.s.queues[0]| <= |s.queues[0]| && r.s.state == s.state
    decreases LEVELSIZE - k
  {
    if k == LEVELSIZE then Goes(s)
    else if Sweep(s.queues[k], s.state, s.isinmlfq).Fault? then Crashed
    else
      PoppedKnown(s, k);
      ClearFrom(StatePopped(s, k), k + 1)
  }

  /** `allocproc` up to the kernel stack: the first unused process becomes EMBRYO, and
      `newproc` queues it. */
  function Alloc(s: Sched): Fate
    requires KnownProcs(s)
  {
    var p := FirstUnused(s.state);
    if p == NPROC then Goes(s)
    else
      var r := ClearFrom(s.(state := s.state[p := EMBRYO]), 0);
      if r.Crashed? then Crashed else Goes(Pushed(r.s, New(p)))
  }

  /** Process `p` changes its state: to RUNNABLE where `fork` succeeds, to UNUSED where it
      fails. */
  function Become(s: Sched, p: nat, st: ProcState): Sched
    requires Sized(s) && p < NPROC
  {
    s.(state := s.state[p := st])
  }

  /** Each process is queued at most once, and the flags tell which are. */
  ghost predicate Queues(s: Sched) {
    && KnownProcs(s) && Unique(s.queues)
    && (forall p :: 0 <= p < NPROC ==> (s.isinmlfq[p] <==> Queued(s.queues, p)))
  }

  ghost predicate Flagged(s: Sched) {
    Sized(s) && forall p :: 0 <= p < NPROC ==> (s.isinmlfq[p] <==> Queued(s.queues, p))
  }

  /** Nobody queued is dead. */
  ghost predicate NoneDead(s: Sched) {
    Sized(s) && forall k :: 0 <= k < LEVELSIZE ==> AllLive(s.queues[k], s.state)
  }

  lemma {:induction false} ClearNothing(s: Sched, k: nat)
    requires KnownProcs(s) && k <= LEVELSIZE
    requires forall l :: k <= l < LEVELSIZE ==> AllLive(s.queues[l], s.state)
    ensures ClearFrom(s, k) == Goes(s)
    decreases LEVELSIZE - k
  {
    if k == LEVELSIZE {
      return;
    }
    SweepNothing(s.queues[k], s.state, s.isinmlfq);
    assert StatePopped(s, k) == s;
    ClearNothing(s, k + 1);
  }

  lemma ClearEmpty(s: Sched, k: nat)
    requires KnownProcs(s) && k < LEVELSIZE && s.queues[k] == []
    ensures ClearFrom(s, k) == ClearFrom(s, k + 1)
  {
    assert StatePopped(s, k) == s;
  }

  lemma ListedNothing(s: Sched, k: nat)
    requires Listed(s) && k <= LEVELSIZE
    ensures KnownProcs(s) && ClearFrom(s, k) == Goes(s)
    ensures k < LEVELSIZE ==>
      StatePopped(s, k) == s && Sweep(s.queues[k], s.state, s.isinmlfq) == Swept(s.queues[k], s.isinmlfq, 0)
  {
    ClearNothing(s, k);
    if k < LEVELSIZE {
      SweepNothing(s.queues[k], s.state, s.isinmlfq);
      assert s.queues[k := s.queues[k]] == s.queues;
    }
  }

  /** A process that is not in the queues from `k` on keeps its flag, and does not come
      back. */
  lemma {:induction false} ClearAbsent(s: Sched, k: nat, p: nat)
    requires KnownProcs(s) && k <= LEVELSIZE && p < NPROC && ClearFrom(s, k).Goes?
    requires forall l :: 0 <= l < LEVELSIZE ==> !In(s.queues[l], p)
    ensures var t := ClearFrom(s, k).s;
      t.isinmlfq[p] == s.isinmlfq[p] && forall l :: 0 <= l < LEVELSIZE ==> !In(t.queues[l], p)
    decreases LEVELSIZE - k
  {
    hide In, Sweep;
    if k == LEVELSIZE {
      return;
    }
    SweepAbsent(s.queues[k], s.state, s.isinmlfq, p);
    PoppedKnown(s, k);
    ClearAbsent(StatePopped(s, k), k + 1, p);
  }

  /** Where somebody queued is dead `clearmlfq` crashes, or leaves a process that is
      flagged and not queued. */
  lemma {:induction false} ClearFails(s: Sched, k: nat) returns (p: nat)
    requires Queues(s) && k <= LEVELSIZE && ClearFrom(s, k).Goes?
    requires exists l :: k <= l < LEVELSIZE && !AllLive(s.queues[l], s.state)
    ensures p < NPROC
    ensures var t := ClearFrom(s, k).s; t.isinmlfq[p] && forall l :: 0 <= l < LEVELSIZE ==> !In(t.queues[l], p)
    decreases LEVELSIZE - k
  {
    if AllLive(s.queues[k], s.state) {
      SweepNothing(s.queues[k], s.state, s.isinmlfq);
      assert StatePopped(s, k) == s;
      p := ClearFails(s, k + 1);
    } else {
      p := ClearStrands(s, k);
    }
  }

  lemma ClearStrands(s: Sched, k: nat) returns (p: nat)
    requires Queues(s) && k < LEVELSIZE && ClearFrom(s, k).Goes? && !AllLive(s.queues[k], s.state)
    ensures p < NPROC
    ensures var t := ClearFrom(s, k).s; t.isinmlfq[p] && forall l :: 0 <= l < LEVELSIZE ==> !In(t.queues[l], p)
  {
    hide Sweep;
    var q := s.queues[k];
    QueueDistinct(s, k);
    var i := SweepFails(q, s.state, s.isinmlfq);
    p := q[i].proc;
    PoppedKnown(s, k);
    forall l | 0 <= l < LEVELSIZE && l != k
      ensures !In(s.queues[l], p)
    {
      OneQueue(s, k, i, l);
    }
    ClearAbsent(StatePopped(s, k), k + 1, p);
  }

  lemma QueueDistinct(s: Sched, k: nat)
    requires Queues(s) && k < LEVELSIZE
    ensures Distinct(s.queues[k]) && forall i :: 0 <= i < |s.queues[k]| ==> s.isinmlfq[s.queues[k][i].proc]
  {
    forall i, j | 0 <= i < j < |s.queues[k]|
      ensures s.queues[k][i].proc != s.queues[k][j].proc
    {
      if s.queues[k][i].proc == s.queues[k][j].proc {
        assert At(s.queues, k, i, s.queues[k][i].proc) && At(s.queues, k, j, s.queues[k][i].proc);
      }
    }
    forall i | 0 <= i < |s.queues[k]|
      ensures s.isinmlfq[s.queues[k][i].proc]
    {
      assert At(s.queues, k, i, s.queues[k][i].proc);
    }
  }

  lemma OneQueue(s: Sched, k: nat, i: nat, l: nat)
    requires Queues(s) && k < LEVELSIZE && i < |s.queues[k]| && l < LEVELSIZE && l != k
    ensures !In(s.queues[l], s.queues[k][i].proc)
  {
    var p := s.queues[k][i].proc;
    if In(s.queues[l], p) {
      var j :| 0 <= j < |s.queues[l]| && s.queues[l][j].proc == p;
      assert At(s.queues, k, i, p) && At(s.queues, l, j, p);
    }
  }

  /** In the runs of `MlfqRuns`, where `fork` is one step, it goes through. */
  lemma AllocRuns(s: Sched)
    requires Runs(s)
    ensures KnownProcs(s) && Alloc(s).Goes? && |s.queues[0]| < QUESIZE
    ensures var p := FirstUnused(s.state);
      p < NPROC ==> Sized(Alloc(s).s) && Become(Alloc(s).s, p, RUNNABLE) == Forked(s)
  {
    hide FirstUnused;
    RoomForAll(s);
    var p := FirstUnused(s.state);
    if p == NPROC {
      return;
    }
    ListedDead(s);
    if s.isinmlfq[p] {
      QueuedLive(s, p);
    }
    AllocQueues(s, p);
    assert s.state[p := EMBRYO][p := RUNNABLE] == s.state[p := RUNNABLE];
  }

  lemma ListedDead(s: Sched)
    requires Listed(s)
    ensures NoneDead(s)
  {
  }

  /** `allocproc` goes through with exact flags if and only if there is no process to
      allocate, or nobody queued is dead. */
  lemma AllocExactly(s: Sched)
    requires Queues(s)
    ensures FirstUnused(s.state) == NPROC || NoneDead(s) <==> Alloc(s).Goes? && Flagged(Alloc(s).s)
  {
    var p := FirstUnused(s.state);
    if p == NPROC {
      return;
    }
    var t := s.(state := s.state[p := EMBRYO]);
    EmbryoDead(s, p);
    if NoneDead(s) {
      ClearNothing(t, 0);
      PushedFlagged(t, New(p));
    } else if Alloc(s).Goes? {
      var x := ClearFails(t, 0);
      var r := ClearFrom(t, 0).s;
      PushedStranded(r, New(p), x);
    }
  }

  /** An UNUSED process is as dead as an EMBRYO one. */
  lemma EmbryoDead(s: Sched, p: nat)
    requires Queues(s) && p < NPROC && s.state[p] == UNUSED
    ensures var t := s.(state := s.state[p := EMBRYO]); Queues(t) && (NoneDead(t) <==> NoneDead(s))
  {
    var t := s.(state := s.state[p := EMBRYO]);
    forall k | 0 <= k < LEVELSIZE
      ensures AllLive(t.queues[k], t.state) <==> AllLive(s.queues[k], s.state)
    {
      assert forall i :: 0 <= i < |s.queues[k]| ==>
        (Live(t.state[s.queues[k][i].proc]) <==> Live(s.state[s.queues[k][i].proc]));
    }
  }

  lemma PushedFlagged(s: Sched, w: Wrap)
    requires Flagged(s) && Placed(w)
    ensures Flagged(Pushed(s, w))
  {
    var r := Pushed(s, w);
    if !s.isinmlfq[w.proc] {
      var k := QueueOf(w);
      forall p | 0 <= p < NPROC
        ensures r.isinmlfq[p] <==> Queued(r.queues, p)
      {
        if Queued(s.queues, p) {
          var l, i :| At(s.queues, l, i, p);
          assert At(r.queues, l, i, p);
        }
        if p == w.proc {
          assert At(r.queues, k, |s.queues[k]|, p);
        } else if Queued(r.queues, p) {
          var l, i :| At(r.queues, l, i, p);
          assert At(s.queues, l, i, p);
        }
      }
    }
  }

  lemma PushedStranded(s: Sched, w: Wrap, p: nat)
    requires Sized(s) && Placed(w) && p < NPROC && s.isinmlfq[p]
    requires forall l :: 0 <= l < LEVELSIZE ==> !In(s.queues[l], p)
    ensures !Flagged(Pushed(s, w))
  {
    var r := Pushed(s, w);
    forall l, i | 0 <= l < LEVELSIZE && 0 <= i < |r.queues[l]|
      ensures r.queues[l][i].proc != p
    {
      assert i < |s.queues[l]| ==> r.queues[l][i] == s.queues[l][i];
    }
    assert r.isinmlfq[p];
    assert !Queued(r.queues, p);
  }

  // ---- runs that get there ----

  /** The first process runs, alone. */
  function First(): Sched {
    Sched([[], [], [], [], [], []], seq(NPROC, i => if i == 0 then RUNNING else UNUSED), seq(NPROC, i => false),
      0, NOPROC, 3, 0, 4, 0, false, 1)
  }

  lemma FirstReached()
    ensures RunTo(Start(), [Spin], First()) && Runs(First())
  {
    StartIdle();
    FirstRuns();
    SettledStart();
    var b := Settled(Start());
    var t := Step(Start(), Spin);
    assert t.state == First().state && t.isinmlfq == First().isinmlfq && t.queues == First().queues;
    assert [Spin][1..] == [];
  }

  /** Where nobody queued is dead `allocproc` queues the new process behind L0. */
  lemma AllocQueues(s: Sched, p: nat)
    requires KnownProcs(s) && NoneDead(s) && p == FirstUnused(s.state) < NPROC && !s.isinmlfq[p]
    ensures Alloc(s) == Goes(s.(state := s.state[p := EMBRYO], queues := s.queues[0 := s.queues[0] + [New(p)]],
                                isinmlfq := s.isinmlfq[p := true]))
  {
    var t := s.(state := s.state[p := EMBRYO]);
    forall k | 0 <= k < LEVELSIZE
      ensures AllLive(t.queues[k], t.state)
    {
      assert AllLive(s.queues[k], s.state);
    }
    ClearNothing(t, 0);
  }

  /** `fork` of the first process, as far as `allocproc` goes. */
  lemma FirstAlloc()
    ensures KnownProcs(First()) && FirstUnused(First().state) == 1
    ensures Alloc(First()) == Goes(First().(state := First().state[1 := EMBRYO],
      queues := [[New(1)], [], [], [], [], []], isinmlfq := First().isinmlfq[1 := true]))
  {
    hide Alloc, ClearFrom;
    FoundUnused(First().state, 1);
    AllocQueues(First(), 1);
    SetL0([], [New(1)]);
  }

  lemma SetL0(q: seq<Wrap>, r: seq<Wrap>)
    ensures [q, [], [], [], [], []][0 := q + r] == [q + r, [], [], [], [], []]
    ensures [] + r == r
  {
  }

  lemma FoundUnused(state: seq<ProcState>, p: nat)
    requires p <= |state| && (forall j :: 0 <= j < p ==> state[j] != UNUSED) && (p < |state| ==> state[p] == UNUSED)
    ensures FirstUnused(state) == p
  {
  }

  /** The unused process that comes next is alone in L0. */
  lemma AllocCrashes(s: Sched, p: nat, w: Wrap)
    requires KnownProcs(s) && p == FirstUnused(s.state) < NPROC && s.queues[0] == [w] && w.proc == p
    ensures Alloc(s) == Crashed
  {
    hide FirstUnused;
    var u := s.(state := s.state[p := EMBRYO]);
    assert Sweep(u.queues[0], u.state, u.isinmlfq) == Fault;
  }

  /** A `fork` that fails for lack of memory leaves its process queued, and the next `fork`
      follows a null pointer. */
  lemma FailedForkCrashes()
    ensures RunTo(Start(), [Spin], First()) && KnownProcs(First()) && Alloc(First()).Goes?
    ensures var t := Become(Alloc(First()).s, 1, UNUSED); KnownProcs(t) && Alloc(t) == Crashed
  {
    hide Alloc, FirstUnused;
    FirstReached();
    FirstAlloc();
    var t := Become(Alloc(First()).s, 1, UNUSED);
    FoundUnused(t.state, 1);
    AllocCrashes(t, 1, New(1));
  }

  // two calls of `fork`, the second while the first is under way

  /** The states of the first four processes; the others are unused. */
  function States(a: ProcState, b: ProcState, c: ProcState, d: ProcState): (r: seq<ProcState>)
    ensures |r| == NPROC && r[0] == a && r[1] == b && r[2] == c && r[3] == d
    ensures forall i :: 4 <= i < NPROC ==> r[i] == UNUSED
  {
    [a, b, c, d] + seq(NPROC - 4, i => UNUSED)
  }

  function FlagsOf(a: bool, b: bool, c: bool, d: bool): (r: seq<bool>)
    ensures |r| == NPROC && r[0] == a && r[1] == b && r[2] == c && r[3] == d
    ensures forall i :: 4 <= i < NPROC ==> !r[i]
  {
    [a, b, c, d] + seq(NPROC - 4, i => false)
  }

  function Only(l0: seq<Wrap>): seq<seq<Wrap>> {
    [l0, [], [], [], [], []]
  }

  /** Process 0 with 3 ticks left. */
  const LATER := Wrap(0, 3, 0, 3)

  /** Process 0 has forked 1, and `fork` of 2 is as far as `allocproc` goes. */
  function Forking(): Sched {
    Sched(Only([New(1), New(2)]), States(RUNNING, RUNNABLE, EMBRYO, UNUSED), FlagsOf(false, true, true, false),
      0, NOPROC, 3, 0, 4, 0, false, 1)
  }

  /** Process 0 has forked 1. */
  function Two(): Sched {
    Sched(Only([New(1)]), States(RUNNING, RUNNABLE, UNUSED, UNUSED), FlagsOf(false, true, false, false),
      0, NOPROC, 3, 0, 4, 0, false, 1)
  }

  lemma TwoReached()
    ensures RunTo(Start(), [Spin, Fork], Two())
  {
    hide Runs, Forked;
    FirstReached();
    RunAppend(Start(), [Spin], First(), Fork);
    assert [Spin] + [Fork] == [Spin, Fork];
    FirstForked();
  }

  lemma FirstForked()
    ensures Sized(First()) && Forked(First()) == Two()
  {
    hide FirstUnused;
    FoundUnused(First().state, 1);
    SetL0([], [New(1)]);
    assert Forked(First()).state == Two().state && Forked(First()).isinmlfq == Two().isinmlfq;
  }

  lemma ForkingReached()
    ensures KnownProcs(Two()) && Alloc(Two()) == Goes(Forking())
  {
    hide Alloc, FirstUnused;
    FoundUnused(Two().state, 2);
    AllocQueues(Two(), 2);
    SetL0([New(1)], [New(2)]);
    assert [New(1)] + [New(2)] == [New(1), New(2)];
    var s := Alloc(Two()).s;
    assert s.state == Forking().state && s.isinmlfq == Forking().isinmlfq;
  }

  /** A timer interrupt gives the processor to process 1. */
  function Switched(): Sched {
    Sched(Only([New(2), LATER]), States(RUNNABLE, RUNNING, EMBRYO, UNUSED), FlagsOf(true, false, true, false),
      1, NOPROC, 3, 0, 4, 0, false, 2)
  }

  /** The scheduler about to dispatch. */
  function Waiting(): Sched {
    Sched(Only([New(1), New(2), LATER]), States(RUNNABLE, RUNNABLE, EMBRYO, UNUSED), FlagsOf(true, true, true, false),
      0, NOPROC, 3, 0, 3, 0, false, 2)
  }

  lemma WaitingReached()
    ensures Sized(Preempted(Forking())) && InRange(Preempted(Forking())) && Forking().nowproc == 0
    ensures Settled(Preempted(Forking())) == Waiting()
  {
    hide States, FlagsOf;
    SetL0([New(1), New(2)], [LATER]);
    assert [New(1), New(2)] + [LATER] == [New(1), New(2), LATER];
    var b := Settled(Preempted(Forking()));
    assert b.state == Waiting().state && b.isinmlfq == Waiting().isinmlfq;
  }

  lemma WaitingDispatched()
    ensures KnownProcs(Waiting()) && Dispatched(Waiting()) == Switched()
  {
    hide States, FlagsOf;
    var b := Waiting();
    assert FirstRunnable(b.queues[0], b.state) == 0 && FirstQueue(b, 0) == 0;
    var d := Dispatched(b);
    assert d.queues[0] == [New(2), LATER];
    assert d.queues == Only([New(2), LATER]);
    assert d.state == Switched().state && d.isinmlfq == Switched().isinmlfq;
  }

  lemma SwitchedReached()
    ensures Sized(Preempted(Forking())) && InRange(Preempted(Forking())) && Forking().nowproc == 0
    ensures KnownProcs(Settled(Preempted(Forking()))) && Settled(Preempted(Forking())).islock == 0
    ensures Dispatched(Settled(Preempted(Forking()))) == Switched()
  {
    hide Settled, Dispatched, Preempted, KnownProcs, Forking, Switched;
    WaitingReached();
    WaitingDispatched();
  }

  /** Process 1 forks too. */
  function Stranded(): Sched {
    Sched(Only([LATER, New(3)]), States(RUNNABLE, RUNNING, EMBRYO, EMBRYO), FlagsOf(false, false, true, true),
      1, NOPROC, 3, 0, 4, 0, false, 2)
  }

  lemma StrandedReached()
    ensures KnownProcs(Switched()) && Alloc(Switched()) == Goes(Stranded())
  {
    hide FirstUnused, ClearFrom;
    FoundUnused(Switched().state, 3);
    var t := Switched().(state := Switched().state[3 := EMBRYO]);
    SweepSecond(t);
    var r := ClearFrom(t, 0).s;
    SetL0([LATER], [New(3)]);
    assert [LATER] + [New(3)] == [LATER, New(3)];
    var s := Alloc(Switched()).s;
    assert s.state == Stranded().state && s.isinmlfq == Stranded().isinmlfq;
  }

  /** `clearmlfq` drops process 2, and clears the flag of process 0, which is behind it. */
  lemma SweepSecond(t: Sched)
    requires Sized(t) && t.queues == Only([New(2), LATER]) && t.state[2] == EMBRYO && t.state[0] == RUNNABLE
    ensures KnownProcs(t)
    ensures ClearFrom(t, 0) == Goes(t.(queues := Only([LATER]), isinmlfq := t.isinmlfq[0 := false]))
  {
    hide Sweep;
    var f := t.isinmlfq[0 := false];
    SweepTwo(t.state, t.isinmlfq);
    var u := StatePopped(t, 0);
    assert u.queues == Only([LATER]);
    forall l | 1 <= l < LEVELSIZE
      ensures AllLive(u.queues[l], u.state)
    {
    }
    ClearNothing(u, 1);
  }

  lemma SweepTwo(state: seq<ProcState>, flags: seq<bool>)
    requires |state| == |flags| == NPROC && state[2] == EMBRYO && state[0] == RUNNABLE
    ensures Sweep([New(2), LATER], state, flags) == Swept([LATER], flags[0 := false], 1)
  {
    var f := flags[0 := false];
    assert [New(2), LATER][1..] == [LATER] && [LATER][1..] == [];
    assert Sweep([LATER], state, f) == Swept([LATER], f, 0);
  }

  /** Two calls of `fork` that overlap lose a process: the first one's, when it becomes
      RUNNABLE, is in no queue, and as it is flagged no `push` will queue it; and a queued
      process is not flagged. */
  lemma OverlapLosesProcess()
    ensures RunTo(Start(), [Spin, Fork], Two())
    ensures KnownProcs(Two()) && Alloc(Two()) == Goes(Forking())
    ensures Sized(Preempted(Forking())) && InRange(Preempted(Forking())) && Forking().nowproc == 0
    ensures KnownProcs(Settled(Preempted(Forking()))) && Settled(Preempted(Forking())).islock == 0
    ensures Dispatched(Settled(Preempted(Forking()))) == Switched()
    ensures KnownProcs(Switched()) && Alloc(Switched()) == Goes(Stranded())
    ensures var t := Become(Stranded(), 2, RUNNABLE);
      && t.state[2] == RUNNABLE && t.isinmlfq[2] && !Queued(t.queues, 2)
      && !t.isinmlfq[0] && Queued(t.queues, 0)
  {
    hide Alloc, Settled, Dispatched, Preempted;
    TwoReached();
    ForkingReached();
    SwitchedReached();
    StrandedReached();
    assert At(Stranded().queues, 0, 0, 0);
  }
}

/** What happens to the scheduler of project1, one event at a time: what `trap`, `yield`,
    `sleep`, `exit`, `fork`, `wakeup`, `wait`, `setPriority` and the scheduler lock do to
    `schedmlfq` and the process states. One processor. */
module MlfqRuns {
  import opened Mlfq

  /** `Wake` is `wakeup1` or `kill` reaching one process; `Reap` is `wait` finding a
      zombie; `Spin` is the scheduler going round with no process to run. `Lock` and
      `Unlock` have the right password; with a wrong one they are `Exit`. `LockTick` is
      `Lock` with a timer interrupt after its first assignment; if that gives the processor
      away, `LockRest` is the rest, when the process is back. `UnlockTick` is `Unlock` with
      a timer interrupt before its `yield`, which is then a `Yield` later; `early` if also
      its last assignment is still to be done, by `UnlockRest`. */
  datatype Event =
    | Tick | Yield | Sleep | Exit | Lock | LockTick | LockRest | Unlock | UnlockTick(early: bool) | UnlockRest
    | SetPriority(priority: int) | Fork | Wake(proc: nat) | Reap(proc: nat) | Spin

  ghost predicate State(s: Sched) {
    Runs(s) || Idle(s)
  }

  /** One way round the scheduler loop. */
  ghost function Scheduled(s: Sched): Sched
    requires Entered(s) || Idle(s)
  {
    SettledKeeps(s);
    Dispatched(Settled(s))
  }

  lemma SettledKeeps(s: Sched)
    requires Entered(s) || Idle(s)
    ensures Ready(Settled(s)) && !Settled(s).isTimeinterrupt
  {
    if Idle(s) {
      SettledIdle(s);
    } else {
      SettledEntered(s);
    }
  }

  /** `nowproc` leaves the processor in state `st`. */
  function Left(s: Sched, st: ProcState): Sched
    requires Sized(s) && s.nowproc != NOPROC
  {
    s.(state := s.state[s.nowproc := st])
  }

  lemma LeftEntered(s: Sched, st: ProcState)
    requires Runs(s) && st in {RUNNABLE, SLEEPING, ZOMBIE}
    ensures Entered(Left(s, st))
  {
    NowNotQueued(s);
    ListedState(s, s.nowproc, st);
  }

  /** A running process is in no queue. */
  lemma NowNotQueued(s: Sched)
    requires Runs(s)
    ensures !s.isinmlfq[s.nowproc]
  {
    if s.isinmlfq[s.nowproc] {
      QueuedLive(s, s.nowproc);
    }
  }

  /** A timer interrupt, as the trap handler sees it before it yields. */
  function Ticked(s: Sched): Sched {
    s.(ticks := s.ticks + 1, timequantum := s.timequantum - 1)
  }

  /** A timer interrupt makes `nowproc` yield. */
  function Preempted(s: Sched): Sched
    requires Sized(s) && s.nowproc != NOPROC
  {
    Left(Ticked(s).(isTimeinterrupt := true), RUNNABLE)
  }

  lemma TickEntered(s: Sched)
    requires Runs(s) && (s.ticks == 99 || s.islock == 0)
    ensures Entered(Preempted(s))
  {
    hide Listed, AllPaid;
    LeftEntered(s, RUNNABLE);
    SaneTimes(Left(s, RUNNABLE), Preempted(s));
  }

  /** `schedulerUnlock` up to its `yield`. */
  function Unlocked(s: Sched): Sched {
    s.(islock := -1, lockproc := NOPROC)
  }

  /** `schedulerUnlock` up to the interrupt. */
  function UnlockBegun(s: Sched, early: bool): Sched {
    if early then s.(islock := -1) else Unlocked(s)
  }

  lemma UnlockEntered(s: Sched)
    requires Runs(s) && s.islock == 1
    ensures Entered(Left(Unlocked(s), RUNNABLE))
    ensures forall early :: Entered(Preempted(UnlockBegun(s, early)))
  {
    hide Listed, AllPaid;
    LeftEntered(s, RUNNABLE);
    SaneTimes(Left(s, RUNNABLE), Left(Unlocked(s), RUNNABLE));
    forall early
      ensures Entered(Preempted(UnlockBegun(s, early)))
    {
      SaneTimes(Left(s, RUNNABLE), Preempted(UnlockBegun(s, early)));
    }
  }

  /** `schedulerLock` up to the interrupt. */
  function LockBegun(s: Sched): Sched {
    s.(islock := 1)
  }

  lemma LockEntered(s: Sched)
    requires Runs(s) && s.ticks == 99
    ensures Entered(Preempted(LockBegun(s)))
  {
    hide Listed, AllPaid;
    LeftEntered(s, RUNNABLE);
    SaneTimes(Left(s, RUNNABLE), Preempted(LockBegun(s)));
  }

  function FirstUnused(state: seq<ProcState>): (i: nat)
    ensures i <= |state|
    ensures i < |state| ==> state[i] == UNUSED
    ensures forall j :: 0 <= j < i ==> state[j] != UNUSED
  {
    if state == [] || state[0] == UNUSED then 0 else 1 + FirstUnused(state[1..])
  }

  /** `fork`, as one step that succeeds: the first unused process becomes RUNNABLE and
      enters L0. */
  function Forked(s: Sched): Sched
    requires Sized(s)
  {
    var p := FirstUnused(s.state);
    if p == NPROC then s else Pushed(s.(state := s.state[p := RUNNABLE]), New(p))
  }

  ghost predicate Enabled(s: Sched, e: Event) {
    match e
    case Spin => Idle(s)
    case Wake(p) => State(s) && p < NPROC
    case Reap(p) => Runs(s) && p < NPROC
    case LockTick => Runs(s) && s.islock == 0 && s.lockproc == NOPROC
    case LockRest => Runs(s) && s.islock == 0
    case UnlockTick(_) => Runs(s) && s.islock == 1 && s.lockproc == s.nowproc
    case UnlockRest => Runs(s) && s.islock == 0
    case _ => Runs(s)
  }

  ghost function Step(s: Sched, e: Event): Sched
    requires Enabled(s, e)
  {
    match e
    case Tick =>
      if (s.ticks + 1) % 100 == 0 || s.islock < 1 then
        TickEntered(s);
        Scheduled(Preempted(s))
      else
        Ticked(s)
    case Yield =>
      LeftEntered(s, RUNNABLE);
      Scheduled(Left(s, RUNNABLE))
    case Sleep =>
      LeftEntered(s, SLEEPING);
      Scheduled(Left(s, SLEEPING))
    case Exit =>
      LeftEntered(s, ZOMBIE);
      Scheduled(Left(s, ZOMBIE))
    case Lock =>
      if s.islock == 0 && s.lockproc == NOPROC then s.(islock := 1, ticks := 1, lockproc := s.nowproc) else s
    case LockTick =>
      if s.ticks == 99 then
        LockEntered(s);
        Scheduled(Preempted(LockBegun(s)))
      else Ticked(s).(islock := 1, ticks := 1, lockproc := s.nowproc)
    case LockRest => s.(ticks := 1, lockproc := s.nowproc)
    case SetPriority(priority) => if 0 <= priority <= 3 then s.(priority := priority) else s
    case UnlockRest => s.(lockproc := NOPROC)
    case Unlock =>
      if s.islock == 1 && s.lockproc == s.nowproc then
        UnlockEntered(s);
        Scheduled(Left(Unlocked(s), RUNNABLE))
      else s
    case UnlockTick(early) =>
      UnlockEntered(s);
      Scheduled(Preempted(UnlockBegun(s, early)))
    case Fork => Forked(s)
    case Wake(p) => if s.state[p] == SLEEPING then s.(state := s.state[p := RUNNABLE]) else s
    case Reap(p) => if s.state[p] == ZOMBIE then s.(state := s.state[p := UNUSED]) else s
    case Spin => Scheduled(s)
  }

  lemma ScheduledKeeps(s: Sched)
    requires Entered(s) || Idle(s)
    ensures State(Scheduled(s))
  {
    SettledKeeps(s);
    DispatchedKeeps(Settled(s));
  }

  lemma ForkKeeps(s: Sched)
    requires Runs(s)
    ensures Runs(Forked(s))
  {
    var p := FirstUnused(s.state);
    if p < NPROC {
      if s.isinmlfq[p] {
        QueuedLive(s, p);
      }
      var t := s.(state := s.state[p := RUNNABLE]);
      ListedState(s, p, RUNNABLE);
      PushKeeps(t, New(p));
      hide Listed, AllPaid;
    }
  }

  lemma WakeKeeps(s: Sched, p: nat)
    requires State(s) && p < NPROC && s.state[p] == SLEEPING
    ensures State(s.(state := s.state[p := RUNNABLE]))
  {
    ListedState(s, p, RUNNABLE);
    hide Listed;
  }

  lemma ReapKeeps(s: Sched, p: nat)
    requires Runs(s) && p < NPROC && s.state[p] == ZOMBIE
    ensures Runs(s.(state := s.state[p := UNUSED]))
  {
    if s.isinmlfq[p] {
      QueuedLive(s, p);
    }
    ListedState(s, p, UNUSED);
    hide Listed;
  }

  lemma QuietKeeps(s: Sched)
    requires Runs(s)
    ensures s.ticks < 99 && s.islock == 1 ==> Runs(Ticked(s))
    ensures s.islock == 0 ==> Runs(s.(islock := 1, ticks := 1, lockproc := s.nowproc))
    ensures s.islock == 0 ==> Runs(Ticked(s).(islock := 1, ticks := 1, lockproc := s.nowproc))
    ensures s.islock == 0 ==> Runs(s.(ticks := 1, lockproc := s.nowproc)) && Runs(s.(lockproc := NOPROC))
  {
    hide Listed, AllPaid;
    SaneTimes(s, Ticked(s));
    SaneTimes(s, s.(islock := 1, ticks := 1, lockproc := s.nowproc));
    SaneTimes(s, Ticked(s).(islock := 1, ticks := 1, lockproc := s.nowproc));
    SaneTimes(s, s.(ticks := 1, lockproc := s.nowproc));
    SaneTimes(s, s.(lockproc := NOPROC));
  }

  lemma PriorityKeeps(s: Sched, priority: int)
    requires Runs(s) && 0 <= priority <= 3
    ensures Runs(s.(priority := priority))
  {
    ListedSame(s, s.(priority := priority));
    hide Listed;
  }

  lemma StateSized(s: Sched)
    ensures State(s) ==> Sized(s)
    ensures Runs(s) ==> s.nowproc != NOPROC
  {
  }

  /** Every event leaves a process running, or the scheduler idle, with the queues in
      order. */
  lemma StepKeeps(s: Sched, e: Event)
    requires Enabled(s, e)
    ensures State(Step(s, e))
  {
    hide Runs, Idle, Entered, Scheduled, Forked;
    StateSized(s);
    match e
    case Tick =>
      StepTick(s);
    case Yield =>
      LeftEntered(s, RUNNABLE);
      ScheduledKeeps(Left(s, RUNNABLE));
    case Sleep =>
      LeftEntered(s, SLEEPING);
      ScheduledKeeps(Left(s, SLEEPING));
    case Exit =>
      LeftEntered(s, ZOMBIE);
      ScheduledKeeps(Left(s, ZOMBIE));
    case Lock => QuietKeeps(s);
    case LockTick => StepLockTick(s);
    case LockRest => QuietKeeps(s);
    case UnlockRest => QuietKeeps(s);
    case SetPriority(priority) =>
      if 0 <= priority <= 3 {
        PriorityKeeps(s, priority);
      }
    case Unlock =>
      StepUnlock(s);
    case UnlockTick(early) =>
      StepUnlockTick(s, early);
    case Fork => ForkKeeps(s);
    case Wake(p) =>
      if s.state[p] == SLEEPING {
        WakeKeeps(s, p);
      }
    case Reap(p) =>
      if s.state[p] == ZOMBIE {
        ReapKeeps(s, p);
      }
    case Spin => ScheduledKeeps(s);
  }

  lemma StepTick(s: Sched)
    requires Runs(s)
    ensures State(Step(s, Tick))
  {
    hide Entered, Scheduled;
    if s.ticks == 99 || s.islock < 1 {
      TickEntered(s);
      ScheduledKeeps(Preempted(s));
    } else {
      QuietKeeps(s);
    }
  }

  lemma StepUnlock(s: Sched)
    requires Runs(s)
    ensures State(Step(s, Unlock))
  {
    hide Entered, Scheduled;
    if s.islock == 1 {
      UnlockEntered(s);
      ScheduledKeeps(Left(Unlocked(s), RUNNABLE));
    }
  }

  lemma StepUnlockTick(s: Sched, early: bool)
    requires Enabled(s, UnlockTick(early))
    ensures State(Step(s, UnlockTick(early)))
  {
    hide Entered, Scheduled;
    UnlockEntered(s);
    ScheduledKeeps(Preempted(UnlockBegun(s, early)));
  }

  lemma StepLockTick(s: Sched)
    requires Enabled(s, LockTick)
    ensures State(Step(s, LockTick))
  {
    hide Entered, Scheduled;
    QuietKeeps(s);
    if s.ticks == 99 {
      LockEntered(s);
      ScheduledKeeps(Preempted(LockBegun(s)));
    }
  }

  // ---- runs ----

  /** When the scheduler starts, `userinit` has queued the first process. */
  function Start(): Sched {
    var none := seq(NPROC, i => false);
    Sched([[New(0)], [], [], [], [], []], seq(NPROC, i => if i == 0 then RUNNABLE else UNUSED), none[0 := true],
      NOPROC, NOPROC, 0, 0, 0, 0, false, 1)
  }

  lemma StartIdle()
    ensures Idle(Start())
  {
    var s := Start();
    assert forall p :: In([New(0)], p) ==> p == 0;
    assert [New(0)][0].proc == 0;
    OnlyL0(s, [New(0)]);
  }

  /** The events `es` take `s` to `t`. */
  ghost predicate RunTo(s: Sched, es: seq<Event>, t: Sched)
    decreases |es|
  {
    if es == [] then t == s else Enabled(s, es[0]) && RunTo(Step(s, es[0]), es[1..], t)
  }

  lemma {:induction false} RunKeeps(s: Sched, es: seq<Event>, t: Sched)
    requires State(s) && RunTo(s, es, t)
    ensures State(t)
    decreases |es|
  {
    if es == [] {
    } else {
      StepKeeps(s, es[0]);
      RunKeeps(Step(s, es[0]), es[1..], t);
    }
  }

  /** The scheduler invariant, after any events: a process that can run or sleeps is
      queued exactly once, or runs as `nowproc` and is not queued; nothing else is
      queued; `isinmlfq` tells which are; and what is queued has a priority in 0..3 and
      between 1 and `2 * quelevel + 4` ticks left. */
  lemma EveryRun(es: seq<Event>, t: Sched)
    requires RunTo(Start(), es, t)
    ensures |t.queues| == LEVELSIZE && |t.state| == NPROC == |t.isinmlfq|
    ensures forall p :: 0 <= p < NPROC && t.state[p] in {RUNNABLE, SLEEPING, RUNNING} ==>
      Queued(t.queues, p) != (t.state[p] == RUNNING && p == t.nowproc)
    ensures forall k, i, l, j, p {:trigger At(t.queues, k, i, p), At(t.queues, l, j, p)} ::
      At(t.queues, k, i, p) && At(t.queues, l, j, p) ==> k == l && i == j
    ensures forall p :: 0 <= p < NPROC ==> (t.isinmlfq[p] <==> Queued(t.queues, p))
    ensures forall k, i :: 0 <= k < LEVELSIZE && 0 <= i < |t.queues[k]| ==>
      var w := t.queues[k][i];
      w.proc < NPROC && Live(t.state[w.proc]) && 1 <= w.timequantum <= 2 * w.quelevel + 4 && 0 <= w.priority <= 3
  {
    StartIdle();
    RunKeeps(Start(), es, t);
    if Runs(t) {
      NowNotQueued(t);
    }
  }

  /** `n` distinct processes number at most NPROC. */
  lemma {:induction false} DistinctBound(q: seq<Wrap>, room: set<int>)
    requires Distinct(q) && forall i :: 0 <= i < |q| ==> q[i].proc in room
    ensures |q| <= |room|
    decreases |q|
  {
    if q == [] {
    } else {
      var last := |q| - 1;
      DistinctBound(q[..last], room - {q[last].proc});
    }
  }

  ghost function Below(n: nat): (r: set<int>)
    ensures forall i :: i in r <==> 0 <= i < n
    ensures |r| == n
  {
    if n == 0 then {} else Below(n - 1) + {n - 1}
  }

  /** All queues together hold at most NPROC processes: `push` always finds one of the
      QUESIZE nodes of a queue free, and the array of `boosting` is large enough. */
  lemma RoomForAll(s: Sched)
    requires Listed(s)
    ensures |Flat(s.queues, 0)| <= NPROC < QUESIZE
    ensures forall k :: 0 <= k < LEVELSIZE ==> |s.queues[k]| <= NPROC
  {
    var all := Flat(s.queues, 0);
    FlatMeans(s.queues, 0);
    forall i | 0 <= i < |all|
      ensures all[i].proc in Below(NPROC)
    {
      assert In(all, all[i].proc);
      var k, j :| At(s.queues, k, j, all[i].proc);
      QueuedLive(s, all[i].proc);
    }
    DistinctBound(all, Below(NPROC));
    forall k | 0 <= k < LEVELSIZE
      ensures |s.queues[k]| <= |all|
    {
      FlatLonger(s.queues, 0, k);
    }
  }

  lemma {:induction false} FlatLonger(qs: seq<seq<Wrap>>, j: nat, k: nat)
    requires j <= k < |qs|
    ensures |qs[k]| <= |Flat(qs, j)|
    decreases k - j
  {
    if j < k {
      FlatLonger(qs, j + 1, k);
    }
  }

  // ---- what boosting and the lock promise ----

  function Ticks(es: seq<Event>): (n: nat)
    decreases |es|
  {
    if es == [] then 0 else (if es[0].Tick? || es[0].UnlockTick? then 1 else 0) + Ticks(es[1..])
  }

  /** The event gives up the processor or the lock for good. */
  predicate Frees(e: Event) {
    e.Sleep? || e.Exit? || e.Unlock? || e.UnlockTick?
  }

  /** The event takes the scheduler lock, or goes on taking it, which sets `ticks`. */
  predicate Locks(e: Event) {
    e.Lock? || e.LockTick? || e.LockRest?
  }

  ghost predicate NoneFrees(es: seq<Event>) {
    forall i :: 0 <= i < |es| ==> !Frees(es[i])
  }

  ghost predicate NoneLocks(es: seq<Event>) {
    forall i :: 0 <= i < |es| ==> !Locks(es[i])
  }

  /** A process that holds the scheduler lock. */
  ghost predicate Locked(s: Sched) {
    Runs(s) && s.islock == 1
  }

  /** A yield while the lock is held changes nothing. */
  lemma LockedYield(s: Sched)
    requires Locked(s)
    ensures Entered(Left(s, RUNNABLE)) && Scheduled(Left(s, RUNNABLE)) == s
  {
    LeftEntered(s, RUNNABLE);
    assert s.state[s.nowproc := RUNNABLE][s.nowproc := RUNNING] == s.state;
    hide Sane, Entered, Idle;
  }

  lemma LockedStep(s: Sched, e: Event)
    requires Locked(s) && Enabled(s, e) && !Frees(e) && (e == Tick ==> s.ticks < 99)
    ensures Locked(Step(s, e)) && Step(s, e).nowproc == s.nowproc
    ensures Step(s, e).ticks == s.ticks + Ticks([e])
  {
    hide Sane, Entered, Scheduled, Forked;
    StateSized(s);
    StepKeeps(s, e);
    LockedYield(s);
    ForkedRest(s);
  }

  /** The process that holds the lock keeps the processor until it sleeps, exits or
      unlocks, or until the boost at tick 100, whatever else happens. */
  lemma {:induction false} LockHolds(s: Sched, es: seq<Event>, t: Sched)
    requires Locked(s) && RunTo(s, es, t)
    requires NoneFrees(es) && s.ticks + Ticks(es) < 100
    ensures Locked(t) && t.nowproc == s.nowproc && t.ticks == s.ticks + Ticks(es)
    decreases |es|
  {
    if es == [] {
    } else {
      LockedStep(s, es[0]);
      LockHolds(Step(s, es[0]), es[1..], t);
    }
  }

  /** Every queued process is in L0, as new, and so is the one that runs. */
  ghost predicate AllNew(s: Sched) {
    && Runs(s) && s.ticks == 1 && s.islock == 0
    && s.quelevel == 0 && s.priority == 3 && s.timequantum == 4
    && (forall k :: 1 <= k < LEVELSIZE ==> s.queues[k] == [])
    && (forall i :: 0 <= i < |s.queues[0]| ==> s.queues[0][i] == New(s.queues[0][i].proc))
  }

  /** The scheduler at tick 100, about to dispatch. */
  lemma SettledBoost(a: Sched)
    requires Entered(a) && a.ticks == 100
    ensures var b := Settled(a);
      Sized(b) && b.islock == 0 && b.ticks == 1 && b.nowproc == a.nowproc && b.state == a.state
    ensures var l0 := Settled(a).queues[0];
      && Settled(a).queues == [l0, [], [], [], [], []] && In(l0, a.nowproc)
      && (forall i :: 0 <= i < |l0| ==> l0[i] == New(l0[i].proc))
      && (a.islock != 0 ==> l0[0].proc == a.nowproc)
  {
    hide Sane, Entered, Listed, In, Boosted, Queued, Settled, Pushed;
    EnteredRange(a);
    EnteredAt100(a);
    SettledAt100(a);
    var t := if a.isTimeinterrupt then a else a.(timequantum := a.timequantum - 1);
    EnteredListed(a);
    ListedSame(a, t);
    PushKeeps(t, Current(t, true));
    PushedRest(t, Current(t, true));
    BoostedL0(Pushed(t, Current(t, true)), a.nowproc);
  }

  lemma SettledAt100(a: Sched)
    requires Sized(a) && InRange(a) && 0 <= a.nowproc < NPROC && a.ticks == 100 && Live(a.state[a.nowproc])
    ensures var t := if a.isTimeinterrupt then a else a.(timequantum := a.timequantum - 1);
      Settled(a) == Boosted(Pushed(t, Current(t, true))).(isTimeinterrupt := false)
  {
    hide Boosted, Pushed;
  }

  lemma PushedRest(s: Sched, w: Wrap)
    requires Sized(s) && Placed(w)
    ensures var u := Pushed(s, w);
      && Sized(u) && u.state == s.state && u.nowproc == s.nowproc && u.islock == s.islock && u.isinmlfq[w.proc]
  {
  }

  lemma EnteredAt100(a: Sched)
    requires Entered(a) && a.ticks == 100
    ensures Sized(a) && 0 <= a.nowproc < NPROC && a.state[a.nowproc] == RUNNABLE && !a.isinmlfq[a.nowproc]
  {
  }

  /** What boosting leaves, for a process `p` that is queued. */
  lemma BoostedL0(u: Sched, p: int)
    requires Sized(u) && Listed(u) && (u.islock != 0 ==> u.nowproc != NOPROC) && 0 <= p < NPROC && u.isinmlfq[p]
    ensures var b := Boosted(u);
      Sized(b) && b.islock == 0 && b.ticks == 1 && b.nowproc == u.nowproc && b.state == u.state
    ensures var l0 := Boosted(u).queues[0];
      && Boosted(u).queues == [l0, [], [], [], [], []] && In(l0, p)
      && (forall i :: 0 <= i < |l0| ==> l0[i] == New(l0[i].proc))
      && (u.islock != 0 ==> |l0| > 0 && l0[0].proc == u.nowproc)
  {
    BoostGathers(u);
    ListedFlag(u, p);
  }

  lemma EnteredListed(a: Sched)
    requires Entered(a)
    ensures Listed(a) && InRange(a)
  {
  }

  lemma ReadyKnown(s: Sched)
    requires Ready(s)
    ensures KnownProcs(s)
  {
  }

  lemma RunsRange(s: Sched)
    requires Runs(s)
    ensures Sized(s) && InRange(s) && s.nowproc != NOPROC && s.islock in {0, 1}
  {
  }

  lemma ListedFlag(s: Sched, p: int)
    requires Listed(s) && 0 <= p < NPROC && s.isinmlfq[p]
    ensures Queued(s.queues, p)
  {
  }

  /** Dispatch with everything in L0. */
  lemma DispatchedL0(b: Sched, l0: seq<Wrap>, p: int)
    requires KnownProcs(b) && b.islock == 0 && b.ticks == 1 && b.queues == [l0, [], [], [], [], []]
    requires In(l0, p) && 0 <= p < NPROC && b.state[p] == RUNNABLE
    requires forall i :: 0 <= i < |l0| ==> l0[i] == New(l0[i].proc)
    requires Runs(Dispatched(b)) || Idle(Dispatched(b))
    ensures AllNew(Dispatched(b))
    ensures l0[0].proc == p ==> Dispatched(b).nowproc == p
  {
    hide Sane, KnownProcs;
    FirstInL0(b, l0, p);
    DispatchedNew(b, l0);
  }

  lemma FirstInL0(b: Sched, l0: seq<Wrap>, p: int)
    requires KnownProcs(b) && b.queues == [l0, [], [], [], [], []]
    requires In(l0, p) && 0 <= p < NPROC && b.state[p] == RUNNABLE
    ensures FirstQueue(b, 0) == 0 && FirstRunnable(l0, b.state) < |l0|
    ensures l0[0].proc == p ==> FirstRunnable(l0, b.state) == 0
  {
    var i :| 0 <= i < |l0| && l0[i].proc == p;
    assert b.state[b.queues[0][i].proc] == RUNNABLE;
  }

  lemma PoppedNew(b: Sched, l0: seq<Wrap>, i: nat)
    requires KnownProcs(b) && b.queues == [l0, [], [], [], [], []] && i < |l0|
    requires forall j :: 0 <= j < |l0| ==> l0[j] == New(l0[j].proc)
    ensures var q := Popped(b, 0, i).queues[0]; forall j :: 0 <= j < |q| ==> q[j] == New(q[j].proc)
  {
  }

  /** The process that runs leaves L0 as it was, but for itself. */
  lemma DispatchedNew(b: Sched, l0: seq<Wrap>)
    requires KnownProcs(b) && b.islock == 0 && b.queues == [l0, [], [], [], [], []]
    requires FirstQueue(b, 0) == 0 && FirstRunnable(l0, b.state) < |l0|
    requires forall i :: 0 <= i < |l0| ==> l0[i] == New(l0[i].proc)
    ensures var r := Dispatched(b); var w := l0[FirstRunnable(l0, b.state)];
      && |r.queues| == LEVELSIZE && (forall k :: 1 <= k < LEVELSIZE ==> r.queues[k] == [])
      && (forall i :: 0 <= i < |r.queues[0]| ==> r.queues[0][i] == New(r.queues[0][i].proc))
      && r.quelevel == 0 && r.priority == 3 && r.timequantum == 4 && r.nowproc == w.proc
      && r.ticks == b.ticks && r.islock == 0 && r.state[w.proc] == RUNNING
  {
    hide FirstRunnable, FirstQueue;
    var i := FirstRunnable(l0, b.state);
    PoppedNew(b, l0, i);
  }

  /** The tick that makes `ticks` 100 puts every process into L0 as new; if the lock was
      held, it is released, and the process that held it runs first. */
  lemma BoostTick(s: Sched)
    requires Runs(s) && s.ticks == 99
    ensures AllNew(Step(s, Tick))
    ensures s.islock == 1 ==> Step(s, Tick).nowproc == s.nowproc
    ensures forall early :: Enabled(s, UnlockTick(early)) ==>
      AllNew(Step(s, UnlockTick(early))) && Step(s, UnlockTick(early)).nowproc == s.nowproc
    ensures Enabled(s, LockTick) ==> AllNew(Step(s, LockTick)) && Step(s, LockTick).nowproc == s.nowproc
  {
    hide Sane, Entered, Dispatched, Settled, Listed, Runs, Ready, KnownProcs, AllNew;
    RunsRange(s);
    TickEntered(s);
    BoostEntered(Preempted(s));
    if s.islock == 1 {
      UnlockEntered(s);
      forall early | Enabled(s, UnlockTick(early))
        ensures AllNew(Step(s, UnlockTick(early))) && Step(s, UnlockTick(early)).nowproc == s.nowproc
      {
        BoostEntered(Preempted(UnlockBegun(s, early)));
      }
    } else {
      LockEntered(s);
      BoostEntered(Preempted(LockBegun(s)));
    }
  }

  lemma BoostEntered(a: Sched)
    requires Entered(a) && a.ticks == 100 && a.state[a.nowproc] == RUNNABLE
    ensures AllNew(Scheduled(a))
    ensures a.islock != 0 ==> Scheduled(a).nowproc == a.nowproc
  {
    hide Sane, Entered, Dispatched, Settled, Listed, Runs, Ready, KnownProcs;
    EnteredRange(a);
    SettledBoost(a);
    EnteredListed(a);
    SettledKeeps(a);
    DispatchedKeeps(Settled(a));
    ReadyKnown(Settled(a));
    DispatchedL0(Settled(a), Settled(a).queues[0], a.nowproc);
  }

  lemma EnteredRange(a: Sched)
    requires Entered(a)
    ensures Sized(a) && InRange(a) && a.nowproc != NOPROC
  {
  }

  /** Without a new lock, ticks only count up to the next boost, one for each timer
      interrupt; */
  lemma {:induction false} TicksCount(s: Sched, es: seq<Event>, t: Sched)
    requires State(s) && RunTo(s, es, t) && NoneLocks(es) && s.ticks + Ticks(es) < 100
    ensures State(t) && t.ticks == s.ticks + Ticks(es)
    decreases |es|
  {
    if es == [] {
    } else {
      StepKeeps(s, es[0]);
      StepTicks(s, es[0]);
      TicksCount(Step(s, es[0]), es[1..], t);
    }
  }

  lemma RequeuedTicks(s: Sched)
    requires Sized(s) && s.nowproc != NOPROC && InRange(s) && s.ticks % 100 != 0
    ensures Requeued(s).ticks == s.ticks
  {
  }

  /** Between boosts the scheduler leaves `ticks` alone. */
  lemma ScheduledTicks(s: Sched)
    requires Entered(s) || Idle(s)
    ensures s.ticks < 100 ==> Scheduled(s).ticks == s.ticks
  {
    hide Listed, AllPaid, Requeued, Boosted, Ready;
    SettledKeeps(s);
    var t := if s.isTimeinterrupt then s else s.(timequantum := s.timequantum - 1);
    if t.nowproc != NOPROC && t.ticks < 100 {
      RequeuedTicks(t);
    }
  }

  lemma StepTicks(s: Sched, e: Event)
    requires Enabled(s, e) && !Locks(e) && (e.Tick? || e.UnlockTick? ==> s.ticks < 99)
    ensures Step(s, e).ticks == s.ticks + Ticks([e])
  {
    hide Scheduled, Entered, Runs, Idle, Forked;
    StateSized(s);
    RunsTicks(s);
    match e
    case Tick =>
      if s.islock == 0 {
        TickEntered(s);
        ScheduledTicks(Preempted(s));
      }
    case Yield =>
      LeftEntered(s, RUNNABLE);
      ScheduledTicks(Left(s, RUNNABLE));
    case Sleep =>
      LeftEntered(s, SLEEPING);
      ScheduledTicks(Left(s, SLEEPING));
    case Exit =>
      LeftEntered(s, ZOMBIE);
      ScheduledTicks(Left(s, ZOMBIE));
    case Unlock =>
      if s.islock == 1 {
        UnlockEntered(s);
        ScheduledTicks(Left(Unlocked(s), RUNNABLE));
      }
    case UnlockTick(early) =>
      UnlockEntered(s);
      ScheduledTicks(Preempted(UnlockBegun(s, early)));
    case Fork => ForkedRest(s);
    case Spin => ScheduledTicks(s);
    case _ =>
  }

  lemma RunsTicks(s: Sched)
    ensures State(s) ==> 1 <= s.ticks <= 99
    ensures Runs(s) ==> s.islock in {0, 1}
  {
  }

  lemma ForkedRest(s: Sched)
    requires Sized(s)
    ensures Forked(s).ticks == s.ticks && Forked(s).islock == s.islock && Forked(s).nowproc == s.nowproc
  {
  }

  /** so no process that is queued waits more than 100 ticks to be in L0 again. */
  lemma BoostComes(s: Sched, es: seq<Event>, t: Sched)
    requires State(s) && RunTo(s, es, t) && Runs(t) && NoneLocks(es) && s.ticks + Ticks(es) == 99
    ensures AllNew(Step(t, Tick))
    ensures forall early :: Enabled(t, UnlockTick(early)) ==> AllNew(Step(t, UnlockTick(early)))
  {
    TicksCount(s, es, t);
    BoostTick(t);
  }

  // ---- where a turn leads ----

  /** `w` is in a queue, or the processor has been given to its process as it says. */
  ghost predicate Standing(r: Sched, w: Wrap) {
    || (r.nowproc == w.proc < |r.state| && r.state[w.proc] == RUNNING && r.priority == w.priority
        && r.quelevel == w.quelevel && r.timequantum == w.timequantum)
    || exists k, i :: 0 <= k < |r.queues| && 0 <= i < |r.queues[k]| && r.queues[k][i] == w
  }

  /** A process whose turn ends before the next boost, without the lock, by a timer
      interrupt, by `yield` or by going to sleep, has paid a tick. If that was its last it
      is on the next level, with the time of that level, or, on level 2, one step up in
      priority; else it is where it was with the time it has left. */
  lemma TurnEnds(s: Sched, e: Event)
    requires Runs(s) && s.islock == 0 && e in {Tick, Yield, Sleep} && s.ticks < 99
    ensures var r := Step(s, e);
      if s.timequantum > 1 then Standing(r, Wrap(s.nowproc, s.priority, s.quelevel, s.timequantum - 1))
      else if s.quelevel == 0 then Standing(r, Wrap(s.nowproc, s.priority, 1, 6))
      else if s.quelevel == 1 then Standing(r, Wrap(s.nowproc, s.priority, 2, 8))
      else Standing(r, Wrap(s.nowproc, if s.priority == 0 then 0 else s.priority - 1, 2, 8))
  {
    hide Sane, Entered, Settled, Dispatched, Ready, Listed, Standing;
    RunsRange(s);
    var a := TurnOver(s, e);
    TurnEntered(s, e, a);
    EnteredRange(a);
    var b := Settled(a);
    SettledTick(a);
    SettledKeeps(a);
    if TimeLeft(a) > 0 {
      StaysPut(a);
      QueuedStands(a, b, if s.quelevel == 2 then 2 + s.priority else s.quelevel,
        Wrap(s.nowproc, s.priority, s.quelevel, TimeLeft(a)));
    } else if s.quelevel == 2 {
      Promotes(a);
      QueuedStands(a, b, 2 + (if s.priority == 0 then 0 else s.priority - 1),
        Wrap(s.nowproc, if s.priority == 0 then 0 else s.priority - 1, 2, 8));
    } else {
      Demotes(a);
      QueuedStands(a, b, if s.quelevel == 0 then 1 else 2 + s.priority,
        Wrap(s.nowproc, s.priority, s.quelevel + 1, if s.quelevel == 0 then 6 else 8));
    }
  }

  /** `nowproc` enters the scheduler by such an event. */
  function TurnOver(s: Sched, e: Event): Sched
    requires Sized(s) && s.nowproc != NOPROC
  {
    if e == Tick then Preempted(s) else Left(s, if e == Yield then RUNNABLE else SLEEPING)
  }

  lemma TurnEntered(s: Sched, e: Event, a: Sched)
    requires Runs(s) && s.islock == 0 && e in {Tick, Yield, Sleep} && s.ticks < 99 && a == TurnOver(s, e)
    ensures EnteredLive(a) && Step(s, e) == Scheduled(a) && TimeLeft(a) == s.timequantum - 1 >= 0
    ensures a.nowproc == s.nowproc >= 0 && a.quelevel == s.quelevel && a.priority == s.priority && InRange(s)
  {
    hide Listed, AllPaid, Settled, Dispatched, Ready;
    if e == Tick {
      TickEntered(s);
    } else {
      LeftEntered(s, if e == Yield then RUNNABLE else SLEEPING);
    }
  }

  /** What has been queued stands, whoever is dispatched. */
  lemma QueuedStands(a: Sched, b: Sched, k: int, w: Wrap)
    requires Ready(b) && b.islock == 0 && (QueuedLast(a, b, k, w) || QueuedFirst(a, b, w))
    ensures Standing(Dispatched(b), w)
  {
    hide Listed, AllPaid, OthersQueued;
    ReadyKnown(b);
    if QueuedLast(a, b, k, w) {
      DispatchedStands(b, k, |a.queues[k]|);
    } else {
      DispatchedStands(b, 0, 0);
    }
  }

  lemma DispatchedStands(b: Sched, k: nat, i: nat)
    requires KnownProcs(b) && b.islock == 0 && k < LEVELSIZE && i < |b.queues[k]|
    ensures Standing(Dispatched(b), b.queues[k][i])
  {
    hide FirstQueue, FirstRunnable;
    var f := FirstQueue(b, 0);
    if f < LEVELSIZE {
      var j := FirstRunnable(b.queues[f], b.state);
      var r := Dispatched(b);
      var h := if f == k && j < i then i - 1 else i;
      if f != k || j != i {
        assert r.queues[k][h] == b.queues[k][i];
      }
    }
  }

  /** A new process is the last of L0, with four ticks; without a free place nothing happens. */
  lemma ForkEnters(s: Sched)
    requires Runs(s)
    ensures var p, r := FirstUnused(s.state), Step(s, Fork);
      if p < NPROC then QueuedLast(s, r, 0, Wrap(p, 3, 0, 4)) && r.state == s.state[p := RUNNABLE] else r == s
  {
    hide AllPaid;
    if FirstUnused(s.state) < NPROC && s.isinmlfq[FirstUnused(s.state)] {
      QueuedLive(s, FirstUnused(s.state));
    }
  }

  /** The lock, when it is free, is taken, and the ticks start over. */
  lemma LockTaken(s: Sched)
    requires Runs(s) && s.islock == 0 && s.lockproc == NOPROC
    ensures Locked(Step(s, Lock)) && Step(s, Lock).nowproc == s.nowproc && Step(s, Lock).ticks == 1
    ensures Enabled(s, LockTick) && s.ticks < 99 ==>
      Locked(Step(s, LockTick)) && Step(s, LockTick).nowproc == s.nowproc && Step(s, LockTick).ticks == 1
  {
    hide Listed, AllPaid;
    QuietKeeps(s);
  }

  /** A holder that gives the lock back goes on running, as a new process of L0; the lock is
      free for the next. */
  lemma UnlockRuns(s: Sched)
    requires Locked(s)
    ensures var r := Step(s, Unlock);
      && Runs(r) && r.nowproc == s.nowproc && r.islock == 0 && r.lockproc == NOPROC
      && r.quelevel == 0 && r.priority == 3 && r.timequantum == 4
  {
    hide Listed, AllPaid, OthersQueued, Settled, Dispatched;
    RunsRange(s);
    UnlockEntered(s);
    var a := Left(Unlocked(s), RUNNABLE);
    var b := Settled(a);
    LockGivenUp(a);
    EnteredRange(a);
    SettledKeeps(a);
    SettledStates(a);
    FirstDispatched(b, Wrap(s.nowproc, 3, 0, 4));
  }

  lemma SettledStates(a: Sched)
    requires Sized(a) && InRange(a) && a.nowproc != NOPROC && 1 <= a.ticks < 100
    ensures Settled(a).state == a.state && Settled(a).nowproc == a.nowproc && Settled(a).ticks == a.ticks
  {
  }

  /** The first of L0 is dispatched, if it can run. */
  lemma FirstDispatched(b: Sched, w: Wrap)
    requires Ready(b) && b.islock == 0 && !b.isTimeinterrupt && |b.queues[0]| > 0 && b.queues[0][0] == w
    requires 0 <= w.proc < NPROC && b.state[w.proc] == RUNNABLE
    ensures var r := Dispatched(b);
      && Runs(r) && r.nowproc == w.proc && r.islock == 0 && r.lockproc == b.lockproc
      && r.quelevel == w.quelevel && r.priority == w.priority && r.timequantum == w.timequantum
  {
    hide Listed, AllPaid, OthersQueued;
    ReadyKnown(b);
    DispatchRuns(b, 0, 0);
    assert FirstQueue(b, 0) == 0 && FirstRunnable(b.queues[0], b.state) == 0;
  }

  /** `setPriority` decides where a process goes that comes to level 2. */
  lemma PriorityPlaces(s: Sched, n: int)
    requires Runs(s) && s.islock == 0 && s.ticks < 99 && s.quelevel == 1 && s.timequantum == 1 && 0 <= n <= 3
    ensures Runs(Step(s, SetPriority(n)))
    ensures Standing(Step(Step(s, SetPriority(n)), Tick), Wrap(s.nowproc, n, 2, 8))
  {
    hide Listed, AllPaid, OthersQueued, Standing, Settled, Dispatched, Ready, Preempted;
    PriorityKeeps(s, n);
    TurnEnds(s.(priority := n), Tick);
  }

  /** A process that is woken while nobody can run gets the processor. */
  lemma WokenRuns(s: Sched, p: nat, k: nat, i: nat)
    requires Idle(s) && p < NPROC && s.state[p] == SLEEPING && k < LEVELSIZE && i < |s.queues[k]|
    requires s.queues[k][i].proc == p
    requires forall q :: 0 <= q < NPROC ==> s.state[q] != RUNNABLE
    ensures var t := Step(s, Wake(p)); Idle(t) && Runs(Step(t, Spin)) && Step(t, Spin).nowproc == p
  {
    hide Listed, AllPaid, Settled, Dispatched, Ready, Runs;
    var t := s.(state := s.state[p := RUNNABLE]);
    WokenIdle(s, p);
    SettledKeeps(t);
    IdleSettled(t);
    DispatchRuns(Settled(t), k, i);
    OnlyRunnable(Settled(t), p);
  }

  lemma WokenIdle(s: Sched, p: nat)
    requires Idle(s) && p < NPROC && s.state[p] == SLEEPING
    ensures Idle(s.(state := s.state[p := RUNNABLE]))
  {
    hide Listed;
    ListedState(s, p, RUNNABLE);
  }

  lemma IdleSettled(t: Sched)
    requires Idle(t)
    ensures var b := Settled(t); b.queues == t.queues && b.state == t.state && b.islock == 0 && !b.isTimeinterrupt
  {
    hide Listed, AllPaid;
    if t.nowproc != NOPROC {
      RequeueIdle(t.(timequantum := t.timequantum - 1));
    }
  }

  lemma OnlyRunnable(b: Sched, p: nat)
    requires Ready(b) && b.islock == 0 && Runs(Dispatched(b))
    requires forall q :: 0 <= q < NPROC && q != p ==> b.state[q] != RUNNABLE
    ensures Dispatched(b).nowproc == p
  {
    hide Listed, AllPaid, Dispatched;
    ReadyKnown(b);
    PicksFirst(b);
  }

  // ---- a lock that is lost to the boost ----

  /** `lockproc` is set though nobody has the lock, so that nobody can take it. */
  ghost predicate Jammed(s: Sched) {
    State(s) && s.islock == 0 && s.lockproc != NOPROC
  }

  /** The event sets `lockproc` though it is not the one to take or free the lock. */
  predicate Rest(e: Event) {
    e.LockRest? || e.UnlockRest?
  }

  ghost predicate NoneRests(es: seq<Event>) {
    forall i :: 0 <= i < |es| ==> !Rest(es[i])
  }

  /** Without the lock and a boost the scheduler leaves the lock fields alone. */
  lemma ScheduledLock(s: Sched)
    requires (Entered(s) || Idle(s)) && s.islock == 0 && s.ticks < 100
    ensures Scheduled(s).islock == 0 && Scheduled(s).lockproc == s.lockproc
  {
    hide Listed, AllPaid, Boosted, Ready;
    SettledKeeps(s);
    var t := if s.isTimeinterrupt then s else s.(timequantum := s.timequantum - 1);
    if t.nowproc != NOPROC {
      RequeuedLock(t);
    }
  }

  lemma RequeuedLock(s: Sched)
    requires Sized(s) && s.nowproc != NOPROC && InRange(s) && s.ticks % 100 != 0 && s.islock == 0
    ensures Requeued(s).islock == 0 && Requeued(s).lockproc == s.lockproc
  {
  }

  lemma JammedStep(s: Sched, e: Event)
    requires Jammed(s) && Enabled(s, e) && !Rest(e) && (e.Tick? ==> s.ticks < 99)
    ensures Jammed(Step(s, e)) && Step(s, e).lockproc == s.lockproc
  {
    hide Scheduled, Entered, Runs, Idle, Forked;
    StateSized(s);
    RunsTicks(s);
    StepKeeps(s, e);
    match e
    case Tick =>
      TickEntered(s);
      ScheduledLock(Preempted(s));
    case Yield =>
      LeftEntered(s, RUNNABLE);
      ScheduledLock(Left(s, RUNNABLE));
    case Sleep =>
      LeftEntered(s, SLEEPING);
      ScheduledLock(Left(s, SLEEPING));
    case Exit =>
      LeftEntered(s, ZOMBIE);
      ScheduledLock(Left(s, ZOMBIE));
    case Fork => ForkedLock(s);
    case Spin => ScheduledLock(s);
    case _ =>
  }

  lemma ForkedLock(s: Sched)
    requires Sized(s)
    ensures Forked(s).islock == s.islock && Forked(s).lockproc == s.lockproc
  {
  }

  /** Until the next boost nobody gets the lock, unless an interrupted call goes on. */
  lemma {:induction false} JammedStays(s: Sched, es: seq<Event>, t: Sched)
    requires Jammed(s) && RunTo(s, es, t) && NoneRests(es) && s.ticks + Ticks(es) < 100
    ensures Jammed(t) && t.lockproc == s.lockproc && t.ticks == s.ticks + Ticks(es)
    decreases |es|
  {
    if es == [] {
      return;
    }
    JammedStep(s, es[0]);
    JammedTicks(s, es[0]);
    JammedStays(Step(s, es[0]), es[1..], t);
  }

  /** While the lock is jammed even `Lock` leaves `ticks` alone. */
  lemma JammedTicks(s: Sched, e: Event)
    requires Jammed(s) && Enabled(s, e) && !Rest(e) && (e.Tick? ==> s.ticks < 99)
    ensures Step(s, e).ticks == s.ticks + Ticks([e])
  {
    if !Locks(e) {
      StepTicks(s, e);
    }
  }

  /** Where a queued process is RUNNABLE the dispatch finds one. */
  lemma DispatchRuns(b: Sched, k: nat, i: nat)
    requires Ready(b) && b.islock == 0 && !b.isTimeinterrupt
    requires k < LEVELSIZE && i < |b.queues[k]| && b.state[b.queues[k][i].proc] == RUNNABLE
    ensures Runs(Dispatched(b)) && Dispatched(b).islock == 0 && Dispatched(b).lockproc == b.lockproc
    ensures Dispatched(b).ticks == b.ticks
  {
    hide Sane, Popped, PickedAt, Runs;
    ReadyKnown(b);
    PicksFirst(b);
    DispatchedKeeps(b);
    var f := FirstQueue(b, 0);
    DispatchedRest(b, f);
    PopRuns(b, f, FirstRunnable(b.queues[f], b.state));
  }

  lemma DispatchedRest(b: Sched, f: nat)
    requires KnownProcs(b) && b.islock == 0 && Dispatched(b) != b && f == FirstQueue(b, 0)
    ensures f < LEVELSIZE && Dispatched(b).islock == 0 && Dispatched(b).lockproc == b.lockproc
    ensures Dispatched(b).ticks == b.ticks
  {
  }

  /** A tick before the boost finds a process to run, as the one it interrupts can. */
  lemma TickRuns(s: Sched)
    requires Runs(s) && s.islock == 0 && s.ticks < 99
    ensures Runs(Step(s, Tick)) && Step(s, Tick).islock == 0
    ensures Step(s, Tick).lockproc == s.lockproc && Step(s, Tick).ticks == s.ticks + 1
  {
    hide Sane, Entered, Settled, Dispatched, Ready, Listed;
    RunsRange(s);
    TickEntered(s);
    EnteredRange(Preempted(s));
    SettledKeeps(Preempted(s));
    SettledTick(Preempted(s));
    var b := Settled(Preempted(s));
    var k, i := ReadyQueued(b);
    DispatchRuns(b, k, i);
  }

  lemma ReadyQueued(b: Sched) returns (k: nat, i: nat)
    requires Ready(b) && b.islock == 0 && b.nowproc != NOPROC && b.state[b.nowproc] == RUNNABLE
    ensures k < LEVELSIZE && k < |b.queues| && i < |b.queues[k]| && |b.state| == NPROC
    ensures 0 <= b.queues[k][i].proc < NPROC && b.state[b.queues[k][i].proc] == RUNNABLE
  {
    hide AllPaid, OthersQueued;
    ListedFlag(b, b.nowproc);
    k, i :| 0 <= k < |b.queues| && 0 <= i < |b.queues[k]| && At(b.queues, k, i, b.nowproc);
  }

  lemma SettledTick(a: Sched)
    requires Entered(a) && a.islock == 0 && a.ticks < 100
    ensures var b := Settled(a);
      && b.islock == 0 && b.lockproc == a.lockproc && b.ticks == a.ticks && b.nowproc == a.nowproc && b.state == a.state
  {
  }

  lemma {:induction false} RunAppend(s: Sched, es: seq<Event>, t: Sched, e: Event)
    requires RunTo(s, es, t) && Enabled(t, e)
    ensures RunTo(s, es + [e], Step(t, e))
    decreases |es|
  {
    if es == [] {
      assert [e][1..] == [];
    } else {
      assert (es + [e])[0] == es[0] && (es + [e])[1..] == es[1..] + [e];
      RunAppend(Step(s, es[0]), es[1..], t, e);
    }
  }

  /** The first process, interrupted `n` times. */
  lemma {:induction false} TicksRun(n: nat) returns (es: seq<Event>, t: Sched)
    requires n <= 98
    ensures RunTo(Start(), es, t) && Runs(t) && t.islock == 0 && t.lockproc == NOPROC && t.ticks == 1 + n
  {
    if n == 0 {
      StartIdle();
      FirstRuns();
      es, t := [Spin], Step(Start(), Spin);
      assert es[1..] == [];
    } else {
      es, t := TicksRun(n - 1);
      TickRuns(t);
      RunAppend(Start(), es, t, Tick);
      es, t := es + [Tick], Step(t, Tick);
    }
  }

  lemma FirstRuns()
    requires Idle(Start())
    ensures var t := Step(Start(), Spin); Runs(t) && t.islock == 0 && t.lockproc == NOPROC && t.ticks == 1
  {
    hide Sane, Idle, Ready, Dispatched;
    SettledKeeps(Start());
    SettledStart();
    DispatchRuns(Settled(Start()), 0, 0);
  }

  lemma SettledStart()
    ensures Sized(Start()) && InRange(Start()) && Start().islock == 0
    ensures var b := Settled(Start());
      && b.queues == [[New(0)], [], [], [], [], []] && |b.state| > 0 && b.state[0] == RUNNABLE
      && b.islock == 0 && b.lockproc == NOPROC && b.ticks == 1
  {
    hide Requeued, Boosted;
  }

  /** A run that jams the lock: the process is interrupted in `schedulerLock` by the tick
      of the boost, and goes on after it. */
  lemma JammedReached() returns (es: seq<Event>, t: Sched)
    ensures RunTo(Start(), es, t) && Jammed(t)
  {
    es, t := TicksRun(98);
    BoostTick(t);
    RunAppend(Start(), es, t, LockTick);
    es, t := es + [LockTick], Step(t, LockTick);
    QuietKeeps(t);
    RunAppend(Start(), es, t, LockRest);
    es, t := es + [LockRest], Step(t, LockRest);
  }
}

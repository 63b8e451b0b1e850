/** project3/sleeplock.c over `sleep` and `wakeup` of proc.c: one sleep lock and any number
    of processes that acquire and release it, each action a step of its own. */
module SleepLock {

  const NONE: int := -1
  /** The scheduler, as holder of `ptable.lock` after a process has gone to sleep. */
  const SCHEDULER: int := -2

  /** What a process does next. `acquiresleep`: Enter, Test, SetPid, Leave, then Holding.
      `sleep`: LockTable, Unlock, SetChan, SetSleeping, Switch; Asleep until the scheduler
      runs it again; ClearChan, UnlockTable, then Enter. `releasesleep`: from Holding
      ReEnter, Clear, ClearPid, TableForWakeup, Wakeup, TableDone, Exit. */
  datatype Pc =
    | Outside | Enter | Test | SetPid | Leave | Holding
    | LockTable | Unlock | SetChan | SetSleeping | Switch | Asleep | ClearChan | UnlockTable
    | ReEnter | Clear | ClearPid | TableForWakeup | Wakeup | TableDone | Exit

  /** `lk` and `pt` hold who has `lk->lk` and `ptable.lock`; `sleeping` and `chan` say whose
      state is SLEEPING and whose channel is the lock. */
  datatype State = State(locked: bool, pid: int, lk: int, pt: int, pc: seq<Pc>, sleeping: seq<bool>, chan: seq<bool>)

  predicate Sized(s: State) {
    |s.pc| == |s.sleeping| == |s.chan|
  }

  function At(s: State, p: nat, pc: Pc): State
    requires p < |s.pc|
  {
    s.(pc := s.pc[p := pc])
  }

  /** `wakeup1(lk)` */
  function Woken(s: State): (r: seq<bool>)
    requires Sized(s)
    ensures |r| == |s.sleeping|
    ensures forall p :: 0 <= p < |r| ==> r[p] == (s.sleeping[p] && !s.chan[p])
  {
    seq(|s.sleeping|, p requires 0 <= p < |s.sleeping| => s.sleeping[p] && !s.chan[p])
  }

  /** Process `p` takes its next step. The scheduler lets go of `ptable.lock`; and `kill` may wake a
      process at any time that `ptable.lock` is free. */
  datatype Event = Proc(p: nat) | Scheduler | Kill(p: nat)

  ghost predicate Enabled(s: State, e: Event) {
    Sized(s) &&
    match e
    case Scheduler => s.pt == SCHEDULER
    case Kill(p) => p < |s.pc| && s.pt == NONE
    case Proc(p) =>
      p < |s.pc| &&
      match s.pc[p]
      case Enter | ReEnter => s.lk == NONE
      case LockTable | TableForWakeup => s.pt == NONE
      case Asleep => !s.sleeping[p] && s.pt == NONE
      case _ => true
  }

  function Step(s: State, e: Event): State
    requires Sized(s) && (e.Proc? || e.Kill? ==> e.p < |s.pc|)
  {
    match e
    case Scheduler => s.(pt := NONE)
    case Kill(p) => s.(sleeping := s.sleeping[p := false])
    case Proc(p) =>
      match s.pc[p]
      case Outside => At(s, p, Enter)
      case Enter => At(s.(lk := p), p, Test)
      case Test => if s.locked then At(s, p, LockTable) else At(s.(locked := true), p, SetPid)
      case SetPid => At(s.(pid := p), p, Leave)
      case Leave => At(s.(lk := NONE), p, Holding)
      case Holding => At(s, p, ReEnter)
      case LockTable => At(s.(pt := p), p, Unlock)
      case Unlock => At(s.(lk := NONE), p, SetChan)
      case SetChan => At(s.(chan := s.chan[p := true]), p, SetSleeping)
      case SetSleeping => At(s.(sleeping := s.sleeping[p := true]), p, Switch)
      case Switch => At(s.(pt := SCHEDULER), p, Asleep)
      case Asleep => At(s.(pt := p), p, ClearChan)
      case ClearChan => At(s.(chan := s.chan[p := false]), p, UnlockTable)
      case UnlockTable => At(s.(pt := NONE), p, Enter)
      case ReEnter => At(s.(lk := p), p, Clear)
      case Clear => At(s.(locked := false), p, ClearPid)
      case ClearPid => At(s.(pid := NONE), p, TableForWakeup)
      case TableForWakeup => At(s.(pt := p), p, Wakeup)
      case Wakeup => At(s.(sleeping := Woken(s)), p, TableDone)
      case TableDone => At(s.(pt := NONE), p, Exit)
      case Exit => At(s.(lk := NONE), p, Outside)
  }

  // ---- the invariant ----

  predicate HasLk(pc: Pc) {
    pc in {Test, SetPid, Leave, LockTable, Unlock, Clear, ClearPid, TableForWakeup, Wakeup, TableDone, Exit}
  }

  predicate HasPt(pc: Pc) {
    pc in {Unlock, SetChan, SetSleeping, Switch, ClearChan, UnlockTable, Wakeup, TableDone}
  }

  /** Where a process owns the sleep lock. */
  predicate Owns(pc: Pc) {
    pc in {SetPid, Leave, Holding, ReEnter, Clear}
  }

  /** Where a releaser has unlocked and not yet woken anybody. */
  predicate WillWake(pc: Pc) {
    pc in {ClearPid, TableForWakeup, Wakeup}
  }

  /** Where a releaser, with `lk->lk` held, has unlocked. */
  predicate Released(pc: Pc) {
    pc in {ClearPid, TableForWakeup, Wakeup, TableDone, Exit}
  }

  /** Where a process has given up `lk->lk` to sleep. */
  predicate Waits(s: State, p: nat)
    requires Sized(s) && p < |s.pc|
  {
    s.pc[p] in {SetChan, SetSleeping, Switch} || (s.pc[p] == Asleep && s.sleeping[p])
  }

  /** A spin lock is held by the process that is where it holds it. */
  ghost predicate SpinLocks(s: State) {
    && Sized(s)
    && (s.lk == NONE || 0 <= s.lk < |s.pc|) && (s.pt == SCHEDULER || s.pt == NONE || 0 <= s.pt < |s.pc|)
    && (forall p :: 0 <= p < |s.pc| ==> (HasLk(s.pc[p]) <==> s.lk == p))
    && (forall p :: 0 <= p < |s.pc| ==> (HasPt(s.pc[p]) <==> s.pt == p))
  }

  ghost predicate SomeOwner(s: State) {
    exists p :: 0 <= p < |s.pc| && Owns(s.pc[p])
  }

  /** At most one process owns the sleep lock, and one does exactly when it is locked. */
  ghost predicate Mutex(s: State) {
    && (forall p, q :: 0 <= p < |s.pc| && 0 <= q < |s.pc| && Owns(s.pc[p]) && Owns(s.pc[q]) ==> p == q)
    && (s.locked <==> SomeOwner(s))
    && (forall p :: 0 <= p < |s.pc| && Owns(s.pc[p]) && s.pc[p] != SetPid ==> s.pid == p)
    && (forall p :: 0 <= p < |s.pc| && Released(s.pc[p]) ==> !s.locked)
  }

  ghost predicate SomeWaker(s: State) {
    exists q :: 0 <= q < |s.pc| && WillWake(s.pc[q])
  }

  /** A process that sleeps on the lock, or is about to, will be woken: the lock is held,
      or whoever released it is still to call `wakeup`. */
  ghost predicate NoLostWakeup(s: State) {
    && Sized(s)
    && (forall p :: 0 <= p < |s.pc| && s.pc[p] in {LockTable, Unlock} ==> s.locked)
    && (forall p :: 0 <= p < |s.pc| && s.pc[p] in {SetSleeping, Switch, Asleep, ClearChan} ==> s.chan[p])
    && (forall p :: 0 <= p < |s.pc| && s.sleeping[p] ==> s.pc[p] in {Switch, Asleep})
    && (forall p: nat :: p < |s.pc| && Waits(s, p) ==> s.locked || SomeWaker(s))
  }

  ghost predicate Good(s: State) {
    SpinLocks(s) && Mutex(s) && NoLostWakeup(s)
  }

  /** A step of `p` moves `p` only, and takes or gives back at most one spin lock. */
  lemma StepLocks(s: State, p: nat)
    requires Enabled(s, Proc(p)) && (HasLk(s.pc[p]) <==> s.lk == p) && (HasPt(s.pc[p]) <==> s.pt == p)
    ensures var r := Step(s, Proc(p));
      && Sized(r) && |r.pc| == |s.pc| && (forall q :: 0 <= q < |s.pc| && q != p ==> r.pc[q] == s.pc[q])
      && ((r.lk == s.lk && (HasLk(r.pc[p]) <==> HasLk(s.pc[p])))
          || (s.lk == NONE && r.lk == p && HasLk(r.pc[p]))
          || (s.lk == p && r.lk == NONE && !HasLk(r.pc[p])))
      && ((r.pt == s.pt && (HasPt(r.pc[p]) <==> HasPt(s.pc[p])))
          || (s.pt == NONE && r.pt == p && HasPt(r.pc[p]))
          || (s.pt == p && r.pt in {NONE, SCHEDULER} && !HasPt(r.pc[p])))
  {
  }

  lemma LocksStep(s: State, p: nat)
    requires SpinLocks(s) && Enabled(s, Proc(p))
    ensures SpinLocks(Step(s, Proc(p)))
  {
    hide Step, HasLk, HasPt, Enabled;
    EnabledProc(s, p);
    StepLocks(s, p);
  }

  lemma LocksKept(s: State, e: Event)
    requires SpinLocks(s) && Enabled(s, e)
    ensures SpinLocks(Step(s, e))
  {
    if e.Proc? {
      LocksStep(s, e.p);
    }
  }

  /** A step of `p` makes `p` the owner when nobody is, or takes the ownership from it, or
      leaves the lock alone. */
  lemma StepOwner(s: State, p: nat)
    requires Enabled(s, Proc(p))
    ensures var r := Step(s, Proc(p));
      && ((r.locked == s.locked && r.pid == s.pid && (Owns(r.pc[p]) <==> Owns(s.pc[p])) && s.pc[p] != SetPid
           && (Released(r.pc[p]) ==> Released(s.pc[p])) && r.pc[p] != SetPid)
          || (s.pc[p] == SetPid && r.pc[p] == Leave && r.locked == s.locked && r.pid == p)
          || (s.pc[p] == ClearPid && r.pc[p] == TableForWakeup && r.locked == s.locked && r.pid == NONE)
          || (s.pc[p] == Test && !s.locked && r.locked && r.pc[p] == SetPid && r.pid == s.pid)
          || (s.pc[p] == Clear && !r.locked && r.pc[p] == ClearPid && r.pid == s.pid))
  {
  }

  lemma MutexStep(s: State, p: nat)
    requires SpinLocks(s) && Mutex(s) && Enabled(s, Proc(p))
    ensures Mutex(Step(s, Proc(p)))
  {
    hide Step, Enabled;
    EnabledProc(s, p);
    var r := Step(s, Proc(p));
    StepLocks(s, p);
    StepOwner(s, p);
    if SomeOwner(s) {
      var o :| 0 <= o < |s.pc| && Owns(s.pc[o]);
      assert Owns(r.pc[o]) || (o == p && s.pc[o] == Clear);
    }
    assert Owns(r.pc[p]) ==> SomeOwner(r);
  }

  lemma EnabledProc(s: State, p: nat)
    requires Enabled(s, Proc(p))
    ensures Sized(s) && p < |s.pc|
  {
  }

  lemma MutexKept(s: State, e: Event)
    requires SpinLocks(s) && Mutex(s) && Enabled(s, e)
    ensures Mutex(Step(s, e))
  {
    if e.Proc? {
      MutexStep(s, e.p);
    } else {
      var r := Step(s, e);
      assert r.pc == s.pc;
      assert SomeOwner(r) <==> SomeOwner(s);
    }
  }

  /** What a step of `p` does to who sleeps. */
  lemma StepSleep(s: State, p: nat)
    requires Enabled(s, Proc(p)) && NoLostWakeup(s)
    ensures var r := Step(s, Proc(p));
      && (r.sleeping == s.sleeping
        || (s.pc[p] == SetSleeping && r.pc[p] == Switch && r.sleeping == s.sleeping[p := true])
          || (s.pc[p] == Wakeup && r.sleeping == Woken(s)))
      && (s.pc[p] == Wakeup ==> r.pc[p] == TableDone && r.sleeping == Woken(s))
      && (r.chan == s.chan || (s.pc[p] == SetChan && r.pc[p] == SetSleeping && r.chan == s.chan[p := true])
          || (s.pc[p] == ClearChan && r.pc[p] == UnlockTable && r.chan == s.chan[p := false]))
      && (r.pc[p] in {SetSleeping, Switch, Asleep, ClearChan} ==> r.chan[p])
      && (r.pc[p] in {LockTable, Unlock} ==> s.pc[p] == LockTable || (s.pc[p] == Test && s.locked))
      && (r.sleeping[p] ==> r.pc[p] in {Switch, Asleep})
      && (Waits(r, p) ==> Waits(s, p) || s.pc[p] == Unlock)
      && (WillWake(s.pc[p]) && s.pc[p] != Wakeup ==> WillWake(r.pc[p]))
      && (s.pc[p] == Clear ==> WillWake(r.pc[p]))
  {
  }

  /** Whoever waits after a step of `p` will be woken. */
  lemma WaiterKept(s: State, p: nat, q: nat)
    requires SpinLocks(s) && Mutex(s) && NoLostWakeup(s) && Enabled(s, Proc(p)) && q < |s.pc|
    requires Waits(Step(s, Proc(p)), q)
    ensures Step(s, Proc(p)).locked || SomeWaker(Step(s, Proc(p)))
  {
    hide Step, Mutex, Enabled;
    EnabledProc(s, p);
    var r := Step(s, Proc(p));
    StepLocks(s, p);
    StepOwner(s, p);
    StepSleep(s, p);
    if s.pc[p] == Wakeup {
      WakerWakes(s, r, p, q);
    } else {
      assert Waits(s, q) || s.pc[q] == Unlock;
      if SomeWaker(s) {
        var w :| 0 <= w < |s.pc| && WillWake(s.pc[w]);
        assert WillWake(r.pc[w]);
      } else if s.pc[p] == Clear {
        assert WillWake(r.pc[p]);
      }
    }
  }

  /** `wakeup`, with `ptable.lock` held, leaves nobody asleep on the lock or falling asleep. */
  lemma WakerWakes(s: State, r: State, p: nat, q: nat)
    requires SpinLocks(s) && NoLostWakeup(s) && p < |s.pc| && q < |s.pc| && s.pc[p] == Wakeup
    requires Sized(r) && |r.pc| == |s.pc| && r.sleeping == Woken(s) && (q != p ==> r.pc[q] == s.pc[q])
      && r.pc[p] == TableDone
    ensures !Waits(r, q)
  {
    assert HasPt(s.pc[p]) && (q != p ==> !HasPt(s.pc[q]));
  }

  lemma OthersKept(s: State, p: nat)
    requires SpinLocks(s) && NoLostWakeup(s) && Enabled(s, Proc(p))
    ensures var r := Step(s, Proc(p));
      && Sized(r) && |r.pc| == |s.pc|
      && (forall q :: 0 <= q < |r.pc| && r.pc[q] in {LockTable, Unlock} ==> r.locked)
      && (forall q :: 0 <= q < |r.pc| && r.pc[q] in {SetSleeping, Switch, Asleep, ClearChan} ==> r.chan[q])
      && (forall q :: 0 <= q < |r.pc| && r.sleeping[q] ==> r.pc[q] in {Switch, Asleep})
  {
    hide Step, Enabled;
    EnabledProc(s, p);
    var r := Step(s, Proc(p));
    StepLocks(s, p);
    StepOwner(s, p);
    StepSleep(s, p);
    forall q | 0 <= q < |r.pc| && r.pc[q] in {LockTable, Unlock}
      ensures r.locked
    {
      assert HasLk(s.pc[q]) || s.pc[q] == LockTable || q == p;
    }
  }

  lemma WakeupKept(s: State, e: Event)
    requires SpinLocks(s) && Mutex(s) && NoLostWakeup(s) && Enabled(s, e)
    ensures NoLostWakeup(Step(s, e))
  {
    var r := Step(s, e);
    if e.Proc? {
      OthersKept(s, e.p);
      hide Step;
      forall q: nat | q < |r.pc| && Waits(r, q)
        ensures r.locked || SomeWaker(r)
      {
        WaiterKept(s, e.p, q);
      }
    } else {
      forall q: nat | q < |r.pc| && Waits(r, q)
        ensures r.locked || SomeWaker(r)
      {
        assert Waits(s, q);
        if SomeWaker(s) {
          var w :| 0 <= w < |s.pc| && WillWake(s.pc[w]);
          assert WillWake(r.pc[w]);
        }
      }
    }
  }

  lemma GoodKept(s: State, e: Event)
    requires Good(s) && Enabled(s, e)
    ensures Good(Step(s, e))
  {
    LocksKept(s, e);
    MutexKept(s, e);
    WakeupKept(s, e);
  }

  // ---- runs ----

  /** `initsleeplock`, and `n` processes that have not touched the lock. */
  function Start(n: nat): State {
    State(false, NONE, NONE, NONE, seq(n, i => Outside), seq(n, i => false), seq(n, i => false))
  }

  ghost predicate RunTo(s: State, es: seq<Event>, t: State)
    decreases |es|
  {
    if es == [] then t == s else Enabled(s, es[0]) && RunTo(Step(s, es[0]), es[1..], t)
  }

  lemma {:induction false} RunKeeps(s: State, es: seq<Event>, t: State)
    requires Good(s) && RunTo(s, es, t)
    ensures Good(t) && |t.pc| == |s.pc|
    decreases |es|
  {
    if es == [] {
    } else {
      GoodKept(s, es[0]);
      RunKeeps(Step(s, es[0]), es[1..], t);
    }
  }

  lemma StartGood(n: nat)
    ensures Good(Start(n))
  {
  }

  /** At most one process holds the lock, after any steps of any processes in any order. */
  lemma AtMostOneHolder(n: nat, es: seq<Event>, t: State, p: nat, q: nat)
    requires RunTo(Start(n), es, t) && p < n && q < n
    ensures |t.pc| == n && (t.pc[p] == Holding && t.pc[q] == Holding ==> p == q)
  {
    StartGood(n);
    RunKeeps(Start(n), es, t);
  }

  /** No wakeup is lost: when both spin locks are free, a process that sleeps on the lock
      means that the lock is held, by a process that will release it. */
  lemma NoWakeupLost(n: nat, es: seq<Event>, t: State, p: nat)
    requires RunTo(Start(n), es, t) && p < n && t.lk == NONE && t.pt == NONE
    ensures |t.pc| == n == |t.sleeping| == |t.chan|
    ensures t.sleeping[p] && t.chan[p] ==> t.locked && exists q :: 0 <= q < n && t.pc[q] in {Holding, ReEnter}
  {
    StartGood(n);
    RunKeeps(Start(n), es, t);
    if t.sleeping[p] {
      assert HasPt(Switch) && Waits(t, p);
      forall q | 0 <= q < n
        ensures !WillWake(t.pc[q]) && !HasLk(t.pc[q])
      {
      }
      var o :| 0 <= o < |t.pc| && Owns(t.pc[o]);
      assert t.pc[o] in {Holding, ReEnter};
    }
  }

  /** `holdingsleep`, once it has `lk->lk`, tells the holder from all others. */
  lemma HoldingSleep(n: nat, es: seq<Event>, t: State, p: nat)
    requires RunTo(Start(n), es, t) && p < n && t.lk == NONE
    ensures |t.pc| == n && (t.locked && t.pid == p <==> t.pc[p] in {Holding, ReEnter})
  {
    StartGood(n);
    RunKeeps(Start(n), es, t);
    if t.locked {
      var o :| 0 <= o < |t.pc| && Owns(t.pc[o]);
      assert !HasLk(t.pc[o]) && !HasLk(t.pc[p]);
    }
  }

  // ---- getting the lock ----

  /** `n` steps of `p`, and of nobody else, lead from `s` to `t`; `p` never has to wait. */
  ghost predicate GoesAlone(s: State, p: nat, n: nat, t: State)
    decreases n
  {
    if n == 0 then t == s else Enabled(s, Proc(p)) && GoesAlone(Step(s, Proc(p)), p, n - 1, t)
  }

  /** The steps of a process on its way to a lock that it finds free. */
  function ToHolding(pc: Pc): nat {
    match pc
    case Asleep => 7
    case ClearChan => 6
    case UnlockTable | Outside => 5
    case Enter => 4
    case Test => 3
    case SetPid => 2
    case Leave => 1
    case _ => 0
  }

  /** Nobody else is in the way of `p`: the sleep lock is free until `p` takes it, and so
      is each spin lock that `p` does not hold itself. */
  predicate WayFree(s: State, p: nat) {
    && Sized(s) && p < |s.pc| && !s.sleeping[p]
    && (s.locked <==> s.pc[p] in {SetPid, Leave, Holding}) && (s.pc[p] in {Leave, Holding} ==> s.pid == p)
    && s.lk == (if HasLk(s.pc[p]) then p else NONE) && s.pt == (if HasPt(s.pc[p]) then p else NONE)
  }

  lemma WayStep(s: State, p: nat)
    requires WayFree(s, p) && ToHolding(s.pc[p]) > 0
    ensures var r := Step(s, Proc(p));
      Enabled(s, Proc(p)) && WayFree(r, p) && |r.pc| == |s.pc| && ToHolding(r.pc[p]) == ToHolding(s.pc[p]) - 1
    ensures ToHolding(s.pc[p]) == 1 ==> Step(s, Proc(p)).pc[p] == Holding
  {
  }

  /** A process that finds the lock free, or has been woken when it is, and runs alone,
      gets it. */
  lemma {:induction false} TakesFreeLock(s: State, p: nat) returns (t: State)
    requires WayFree(s, p) && ToHolding(s.pc[p]) > 0
    ensures GoesAlone(s, p, ToHolding(s.pc[p]), t) && Sized(t) && |t.pc| == |s.pc|
    ensures t.pc[p] == Holding && t.locked && t.pid == p && t.lk == NONE == t.pt
    decreases ToHolding(s.pc[p])
  {
    hide Step, Enabled, ToHolding;
    WayStep(s, p);
    t := Step(s, Proc(p));
    if ToHolding(s.pc[p]) == 1 {
      assert GoesAlone(t, p, 0, t);
    } else {
      t := TakesFreeLock(t, p);
    }
  }

  /** The steps of a holder to the end of `releasesleep`. */
  function ToOutside(pc: Pc): nat {
    match pc
    case Holding => 8
    case ReEnter => 7
    case Clear => 6
    case ClearPid => 5
    case TableForWakeup => 4
    case Wakeup => 3
    case TableDone => 2
    case Exit => 1
    case _ => 0
  }

  /** Nobody else is in the way of `q`, which holds the sleep lock or is releasing it. */
  predicate ReleaseFree(s: State, q: nat) {
    && Sized(s) && q < |s.pc|
    && s.lk == (if HasLk(s.pc[q]) then q else NONE) && s.pt == (if HasPt(s.pc[q]) then q else NONE)
    && (s.pc[q] !in {Holding, ReEnter, Clear} ==> !s.locked)
    && (s.pc[q] in {TableDone, Exit, Outside} ==> s.sleeping == Woken(s))
  }

  lemma ReleaseStep(s: State, q: nat)
    requires ReleaseFree(s, q) && ToOutside(s.pc[q]) > 0
    ensures var r := Step(s, Proc(q));
      && Enabled(s, Proc(q)) && ReleaseFree(r, q) && r.pc == s.pc[q := r.pc[q]]
      && ToOutside(r.pc[q]) == ToOutside(s.pc[q]) - 1 && Woken(r) == Woken(s)
    ensures ToOutside(s.pc[q]) == 1 ==> Step(s, Proc(q)).pc[q] == Outside
  {
  }

  /** A holder that runs alone releases the lock, and wakes everybody who sleeps on it. */
  lemma {:induction false} ReleasesLock(s: State, q: nat) returns (t: State)
    requires ReleaseFree(s, q) && ToOutside(s.pc[q]) > 0
    ensures GoesAlone(s, q, ToOutside(s.pc[q]), t) && Sized(t) && t.pc == s.pc[q := Outside]
    ensures !t.locked && t.lk == NONE == t.pt && t.sleeping == Woken(s)
    decreases ToOutside(s.pc[q])
  {
    hide Step, Enabled, ToOutside, Woken;
    ReleaseStep(s, q);
    t := Step(s, Proc(q));
    if ToOutside(s.pc[q]) == 1 {
      assert GoesAlone(t, q, 0, t);
    } else {
      t := ReleasesLock(t, q);
    }
  }

  /** From the holder to a sleeper: the one releases, and the other, woken, gets the lock. */
  lemma HandedOver(s: State, q: nat, p: nat) returns (t: State, u: State)
    requires Good(s) && q < |s.pc| && p < |s.pc| && s.lk == NONE == s.pt
    requires s.pc[q] == Holding && s.pc[p] == Asleep && s.sleeping[p]
    ensures GoesAlone(s, q, 8, t) && GoesAlone(t, p, 7, u) && |u.pc| == |s.pc| && u.pc[p] == Holding
  {
    t := ReleasesLock(s, q);
    u := TakesFreeLock(t, p);
  }
}

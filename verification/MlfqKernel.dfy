/** The scheduler of project1 as the kernel runs it, on the linked queues: it does what
    `Mlfq` and `MlfqRuns` say. `ptable.lock` is held throughout each method. */
module MlfqKernel {
  import opened Lists
  import opened Mlfq
  import opened MlfqForks
  import opened MlfqNodes
  import opened MlfqRuns
  import opened Options

  /** `l` holds `q` in the nodes `o`, for each of the queues. */
  ghost predicate AllHold(ls: seq<Level>, os: seq<seq<int>>, qs: seq<seq<Wrap>>) {
    |ls| == |os| == |qs| == LEVELSIZE && forall k :: 0 <= k < LEVELSIZE ==> Holds(ls[k], os[k], qs[k])
  }

  lemma HoldSet(ls: seq<Level>, os: seq<seq<int>>, qs: seq<seq<Wrap>>, k: nat, l: Level, o: seq<int>, q: seq<Wrap>)
    requires AllHold(ls, os, qs) && k < LEVELSIZE && Holds(l, o, q)
    ensures AllHold(ls[k := l], os[k := o], qs[k := q])
  {
    hide Holds;
  }

  /** What the code reads of a queue. */
  lemma HoldsFacts(l: Level, o: seq<int>, q: seq<Wrap>)
    requires Holds(l, o, q)
    ensures |o| == |q| && |l.procqueue| == QUESIZE
    ensures l.head == NIL <==> q == []
    ensures q != [] ==> 0 <= l.tail < QUESIZE && l.head == o[0]
    ensures forall i :: 0 <= i < |o| ==> 0 <= o[i] < QUESIZE && l.procqueue[o[i]].procwrap == q[i]
    ensures forall i :: 0 <= i < |o| ==> NextAt(l.procqueue, o, i)
  {
  }

  class Kernel {
    var mlfql: seq<Level>
    var state: seq<ProcState>
    var isinmlfq: seq<bool>
    var nowproc: int
    var lockproc: int
    var priority: int
    var quelevel: int
    var timequantum: int
    var islock: int
    var isTimeinterrupt: bool
    var ticks: int
    ghost var s: Sched
    ghost var order: seq<seq<int>>

    ghost predicate Fields()
      reads this
    {
      && state == s.state && isinmlfq == s.isinmlfq && nowproc == s.nowproc && lockproc == s.lockproc
      && priority == s.priority && quelevel == s.quelevel && timequantum == s.timequantum
      && islock == s.islock && isTimeinterrupt == s.isTimeinterrupt && ticks == s.ticks
    }

    ghost predicate Valid()
      reads this
    {
      Fields() && Sized(s) && AllHold(mlfql, order, s.queues)
    }

    /** The search for a free node in `push` and `headpush`; QUESIZE if there is none. */
    method FindFree(k: nat) returns (n: nat)
      requires k < |mlfql| && |mlfql[k].procqueue| == QUESIZE
      ensures n <= QUESIZE && (n < QUESIZE ==> !mlfql[k].procqueue[n].isused)
      ensures n == QUESIZE ==> forall m :: 0 <= m < QUESIZE ==> mlfql[k].procqueue[m].isused
    {
      n := 0;
      while n < QUESIZE && mlfql[k].procqueue[n].isused
        invariant n <= QUESIZE
        invariant forall m :: 0 <= m < n ==> mlfql[k].procqueue[m].isused
      {
        n := n + 1;
      }
    }

    /** `push`: never finds the queue full when fewer than QUESIZE processes are in it. */
    method Push(w: Wrap) returns (failed: bool)
      requires Valid() && Placed(w) && |s.queues[QueueOf(w)]| < QUESIZE
      modifies this`mlfql, this`isinmlfq, this`s, this`order
      ensures Valid() && s == Pushed(old(s), w) && failed == old(s).isinmlfq[w.proc]
    {
      hide AllHold;
      if isinmlfq[w.proc] {
        return true;
      }
      var level: nat := if w.quelevel == 2 then w.quelevel + w.priority else w.quelevel;
      LevelFacts(mlfql, order, s.queues, level);
      NeverFull(mlfql, order, s.queues, level);
      var node := FindFree(level);
      assert node != QUESIZE;
      AppendAll(mlfql, order, s.queues, level, node, w);
      var l := mlfql[level];
      if l.head != NIL {
        l := l.(procqueue := l.procqueue[node := Node(NIL, w, true)]);
        l := Level(l.procqueue[l.tail := l.procqueue[l.tail].(next := node)], l.head, node);
      } else {
        l := Level(l.procqueue[node := Node(NIL, w, true)], node, node);
      }
      mlfql := mlfql[level := l];
      isinmlfq := isinmlfq[w.proc := true];
      order := order[level := order[level] + [node]];
      s := Pushed(s, w);
      return false;
    }

    /** `headpush` */
    method HeadPush(w: Wrap) returns (failed: bool)
      requires Valid() && Placed(w) && |s.queues[0]| < QUESIZE
      modifies this`mlfql, this`isinmlfq, this`s, this`order
      ensures Valid() && s == HeadPushed(old(s), w) && failed == old(s).isinmlfq[w.proc]
    {
      hide AllHold;
      if isinmlfq[w.proc] {
        return true;
      }
      LevelFacts(mlfql, order, s.queues, 0);
      NeverFull(mlfql, order, s.queues, 0);
      var node := FindFree(0);
      assert node != QUESIZE;
      PrependAll(mlfql, order, s.queues, node, w);
      var l := mlfql[0];
      if l.head != NIL {
        l := l.(procqueue := l.procqueue[node := Node(l.head, w, true)], head := node);
      } else {
        l := Level(l.procqueue[node := Node(NIL, w, true)], node, node);
      }
      mlfql := mlfql[0 := l];
      isinmlfq := isinmlfq[w.proc := true];
      order := order[0 := [node] + order[0]];
      s := HeadPushed(s, w);
      return false;
    }

    /** `pop` and `statepop` taking a node, at position `i` of queue `k`, out of its list. */
    method Unlink(k: nat, prev: int, now: int, ghost i: nat)
      requires Valid() && k < LEVELSIZE && i < |s.queues[k]| && i < |order[k]| && now == order[k][i]
      requires i > 0 ==> prev == order[k][i - 1]
      modifies this`mlfql, this`s, this`order
      ensures Valid() && order == old(order)[k := Removed(old(order)[k], i)]
      ensures s == old(s).(queues := old(s).queues[k := Removed(old(s).queues[k], i)])
    {
      hide AllHold, Unlinked;
      UnlinkAll(mlfql, order, s.queues, k, i, prev);
      mlfql := mlfql[k := Unlinked(mlfql[k], prev, now)];
      order := order[k := Removed(order[k], i)];
      s := s.(queues := s.queues[k := Removed(s.queues[k], i)]);
    }

    /** `pop`: take the first RUNNABLE process out of a queue that is not empty. */
    method Pop(k: nat) returns (w: Option<Wrap>)
      requires Valid() && KnownProcs(s) && k < LEVELSIZE && s.queues[k] != []
      modifies this`mlfql, this`isinmlfq, this`s, this`order
      ensures Valid()
      ensures var i := FirstRunnable(old(s).queues[k], old(s).state);
        if i == |old(s).queues[k]| then s == old(s) && w == None
        else s == Popped(old(s), k, i) && w == Some(old(s).queues[k][i])
    {
      hide AllHold, KnownProcs;
      ghost var q := s.queues[k];
      QueueProcs(s, k);
      LevelFacts(mlfql, order, s.queues, k);
      var now, prev := mlfql[k].head, NIL;
      ghost var i: nat := 0;
      while true
        invariant unchanged(this)
        invariant i < |q| && now == order[k][i] && (i > 0 ==> prev == order[k][i - 1])
        invariant forall j :: 0 <= j < i ==> state[q[j].proc] != RUNNABLE
        decreases |q| - i
      {
        NodeFacts(mlfql, order, s.queues, k, i);
        var wrap := mlfql[k].procqueue[now].procwrap;
        if state[wrap.proc] == RUNNABLE {
          FoundFirst(q, state, i);
          Unlink(k, prev, now, i);
          isinmlfq := isinmlfq[wrap.proc := false];
          s := s.(isinmlfq := s.isinmlfq[wrap.proc := false]);
          return Some(wrap);
        }
        prev := now;
        now := mlfql[k].procqueue[now].next;
        if now == NIL {
          break;
        }
        i := i + 1;
      }
      FoundFirst(q, state, |q|);
      w := None;
    }

    /** `statepop` on a queue that is not empty. It fails where the code follows a null
        pointer. */
    method StatePop(k: nat) returns (ok: bool, cnt: nat)
      requires Valid() && KnownProcs(s) && k < LEVELSIZE && s.queues[k] != []
      modifies this`mlfql, this`isinmlfq, this`s, this`order
      ensures ok <==> Sweep(old(s).queues[k], old(s).state, old(s).isinmlfq).Swept?
      ensures ok ==>
        Valid() && s == StatePopped(old(s), k) && cnt == Sweep(old(s).queues[k], old(s).state, old(s).isinmlfq).cnt
    {
      hide AllHold, Walking, Sweep, StatePopped, KnownProcs, Removed;
      ghost var s0 := s;
      WalkStart(s0, k);
      LevelFacts(mlfql, order, s.queues, k);
      var now, prev := mlfql[k].head, NIL;
      cnt := 0;
      ghost var i: nat := 0;
      while now != NIL
        invariant Valid() && Walking(s0, s, k, i, cnt)
        invariant i <= |s.queues[k]| && |order| == LEVELSIZE && |s.queues[k]| == |order[k]|
        invariant now == if i < |order[k]| then order[k][i] else NIL
        invariant i < |order[k]| ==> now != NIL
        invariant i > 0 ==> prev == order[k][i - 1]
        decreases |s.queues[k]| - i
      {
        LevelFacts(mlfql, order, s.queues, k);
        NodeFacts(mlfql, order, s.queues, k, i);
        WalkOn(s0, s, k, i, cnt);
        var wrap := mlfql[k].procqueue[now].procwrap;
        if state[wrap.proc] != RUNNABLE && state[wrap.proc] != SLEEPING {
          var next := mlfql[k].procqueue[now].next;
          Unlink(k, prev, now, i);
          now := next;
          if now == NIL {
            return false, cnt;
          }
          LevelFacts(mlfql, order, s.queues, k);
          NodeFacts(mlfql, order, s.queues, k, i);
          var behind := mlfql[k].procqueue[now].procwrap.proc;
          isinmlfq := isinmlfq[behind := false];
          s := s.(isinmlfq := s.isinmlfq[behind := false]);
          cnt := cnt + 1;
        } else {
          prev := now;
          now := mlfql[k].procqueue[now].next;
          i := i + 1;
        }
      }
      WalkEnd(s0, s, k, cnt);
      ok := true;
    }

    /** `clearmlfq`. It fails where `statepop` follows a null pointer; with the queues in
        order it removes nothing. */
    method ClearMlfq() returns (ok: bool, cnt: nat)
      requires Valid() && KnownProcs(s)
      modifies this`mlfql, this`isinmlfq, this`s, this`order
      ensures ok <==> ClearFrom(old(s), 0).Goes?
      ensures ok ==> Valid() && s == ClearFrom(old(s), 0).s
      ensures Listed(old(s)) ==> ok && cnt == 0 && s == old(s)
    {
      hide AllHold, StatePopped, Listed, KnownProcs, ClearFrom, Sweep;
      ghost var s0 := s;
      cnt := 0;
      var k := 0;
      while k < LEVELSIZE
        invariant k <= LEVELSIZE && Valid() && KnownProcs(s) && ClearFrom(s, k) == ClearFrom(s0, 0)
        invariant Listed(s0) ==> s == s0 && cnt == 0
      {
        LevelFacts(mlfql, order, s.queues, k);
        if Listed(s0) {
          ListedNothing(s0, k);
          ListedNothing(s0, k + 1);
        }
        if mlfql[k].head != NIL {
          PoppedKnown(s, k);
          ClearStep(s, k);
          var swept, c := StatePop(k);
          if !swept {
            return false, cnt;
          }
          cnt := cnt + c;
        } else {
          ClearEmpty(s, k);
        }
        k := k + 1;
      }
      ClearEnd(s);
      ok := true;
    }

    /** The part of `boosting` that empties queue `k` into `temp`. */
    method Drain(k: nat, temp: seq<nat>) returns (r: seq<nat>)
      requires Valid() && KnownProcs(s) && k < LEVELSIZE && s.queues[k] != [] && |temp| + |s.queues[k]| <= QUESIZE
      modifies this`mlfql, this`isinmlfq, this`s, this`order
      ensures Valid() && r == temp + Procs(old(s).queues[k])
      ensures s == old(s).(queues := old(s).queues[k := []], isinmlfq := s.isinmlfq)
      ensures forall p :: 0 <= p < NPROC ==> (s.isinmlfq[p] <==> old(s).isinmlfq[p] && p !in Procs(old(s).queues[k]))
    {
      hide AllHold, KnownProcs, Emptying;
      ghost var q := s.queues[k];
      QueueProcs(s, k);
      LevelFacts(mlfql, order, s.queues, k);
      EmptyingStart(mlfql, order, s.queues, k);
      r := temp;
      var l := mlfql[k];
      var node := l.head;
      ghost var i: nat := 0;
      while node != NIL
        invariant Sized(s) && unchanged(`mlfql) && unchanged(`s) && unchanged(`order) && |isinmlfq| == NPROC
        invariant i <= |q| && node == (if i < |q| then order[k][i] else NIL) && |l.procqueue| == QUESIZE
        invariant Emptying(l, order[k], q, i)
        invariant r == temp + Procs(q[..i])
        invariant forall p :: 0 <= p < NPROC ==> (isinmlfq[p] <==> s.isinmlfq[p] && p !in Procs(q[..i]))
        decreases |q| - i
      {
        EmptyingNext(l, order[k], q, i);
        var p := l.procqueue[node].procwrap.proc;
        assert |r| < QUESIZE;
        r := r + [p];
        isinmlfq := isinmlfq[p := false];
        var now := l.procqueue[node].next;
        l := l.(procqueue := l.procqueue[node := Node(NIL, Wrap(0, 0, 0, 0), false)]);
        node := now;
        i := i + 1;
      }
      l := Level(l.procqueue, NIL, NIL);
      EmptyingEnd(mlfql, order, s.queues, k, l);
      mlfql := mlfql[k := l];
      order := order[k := []];
      s := s.(queues := s.queues[k := []], isinmlfq := isinmlfq);
    }

    /** The first loop of `boosting`: all processes, in order, out of the queues. */
    method Gather() returns (temp: seq<nat>)
      requires Valid() && Listed(s)
      modifies this`mlfql, this`isinmlfq, this`s, this`order
      ensures Valid() && Drained(old(s), s, LEVELSIZE, temp)
    {
      hide AllHold, Listed, Drained, KnownProcs;
      ghost var s0 := s;
      temp := [];
      var k := 0;
      DrainStart(s);
      while k < LEVELSIZE
        invariant k <= LEVELSIZE && Valid() && Drained(s0, s, k, temp)
      {
        DrainedFacts(s0, s, k, temp);
        LevelFacts(mlfql, order, s.queues, k);
        if mlfql[k].head != NIL {
          ghost var t, was := s, temp;
          temp := Drain(k, temp);
          DrainStep(s0, t, k, was, s);
        } else {
          DrainSkip(s0, s, k, temp);
        }
        k := k + 1;
      }
    }

    /** The second loop of `boosting`: back into L0, without a process that holds the lock. */
    method Refill(ghost s0: Sched, temp: seq<nat>, ghost skip: int)
      requires Valid() && Listed(s0) && temp == Procs(Flat(s0.queues, 0)) && Refilled(s0, s, 0, skip)
      modifies this`mlfql, this`isinmlfq, this`s, this`order
      ensures Valid() && Refilled(s0, s, |temp|, skip)
    {
      hide AllHold, Listed, Refilled;
      var i := 0;
      while i < |temp|
        invariant i <= |temp| && Valid() && Refilled(s0, s, i, skip)
      {
        RefilledFacts(s0, s, i, skip);
        if !(islock != 0 && temp[i] == nowproc) {
          var failed := Push(WrapInit(temp[i], 0, 3, 4, true));
        }
        i := i + 1;
      }
    }

    /** `boosting` */
    method Boosting()
      requires Valid() && Listed(s) && (islock != 0 ==> nowproc != NOPROC)
      modifies this`mlfql, this`isinmlfq, this`s, this`order, this`islock, this`lockproc, this`ticks
      ensures Valid() && s == Boosted(old(s))
    {
      hide AllHold, Listed, Drained, Refilled, Boosted, HeadPushed, Flat, ClearFrom, KnownProcs;
      ghost var s0 := s;
      ListedNothing(s, 0);
      ghost var skip := if islock != 0 then nowproc else NOPROC;
      var ok, cnt := ClearMlfq();
      var temp := Gather();
      DrainEnd(s0, s, temp, skip);
      Refill(s0, temp, skip);
      RefillEnd(s0, s, skip);
      EndBoosting();
    }

    /** The end of `boosting`: the lock holder goes to the head of L0 and loses the lock. */
    method EndBoosting()
      requires Valid() && (s.islock != 0 ==> s.nowproc >= 0 && Placed(New(s.nowproc)) && |s.queues[0]| < QUESIZE)
      modifies this`mlfql, this`isinmlfq, this`s, this`order, this`islock, this`lockproc, this`ticks
      ensures Valid()
      ensures var r := if old(s).islock != 0 then HeadPushed(old(s), New(old(s).nowproc)) else old(s);
        s == r.(islock := 0, lockproc := NOPROC, ticks := 1)
    {
      hide AllHold, HeadPushed;
      HeadFields(s);
      if islock != 0 {
        var failed := HeadPush(WrapInit(nowproc, 0, 3, 4, true));
      }
      islock, lockproc, ticks := 0, NOPROC, 1;
      s := s.(islock := 0, lockproc := NOPROC, ticks := 1);
    }

    /** `popproc`: the same over all queues, in order. */
    method PopProc() returns (w: Option<Wrap>)
      requires Valid() && KnownProcs(s)
      modifies this`mlfql, this`isinmlfq, this`s, this`order
      ensures Valid()
      ensures var k := FirstQueue(old(s), 0);
        if k == LEVELSIZE then s == old(s) && w == None
        else var i := FirstRunnable(old(s).queues[k], old(s).state);
          s == Popped(old(s), k, i) && w == Some(old(s).queues[k][i])
    {
      hide AllHold;
      var k := 0;
      while k < LEVELSIZE
        invariant k <= LEVELSIZE && Valid() && s == old(s)
        invariant FirstQueue(s, 0) == FirstQueue(s, k)
      {
        LevelFacts(mlfql, order, s.queues, k);
        if mlfql[k].head != NIL {
          w := Pop(k);
          if w.Some? {
            return;
          }
        }
        k := k + 1;
      }
      w := None;
    }

    /** What `scheduler` does with the process that has just given up the processor. */
    method Requeue()
      requires Valid() && Listed(s) && InRange(s) && nowproc != NOPROC
      requires s.islock != 0 && s.ticks % 100 == 0 ==> Live(s.state[s.nowproc])
      requires s.ticks % 100 == 0 ==> Live(s.state[s.nowproc]) && !s.isinmlfq[s.nowproc]
      modifies this`mlfql, this`isinmlfq, this`s, this`order, this`islock, this`lockproc, this`ticks, this`timequantum
      ensures Valid() && s == Requeued(old(s))
    {
      hide AllHold, Listed, Boosted, Pushed, HeadPushed;
      var p := nowproc;
      var failed: bool;
      RoomToPush(s);
      if ticks % 100 == 0 {
        if state[p] == RUNNABLE || state[p] == SLEEPING {
          PushKeeps(s, Current(s, true));
          failed := Push(WrapInit(p, quelevel, priority, timequantum, true));
        }
        PushedFields(old(s), Current(old(s), true));
        Boosting();
      } else if islock == -1 {
        failed := HeadPush(WrapInit(p, 0, 3, 4, true));
        islock := 0;
        s := s.(islock := 0);
      } else if islock == 0 {
        if timequantum == 0 {
          if state[p] == RUNNABLE || state[p] == SLEEPING {
            failed := Push(WrapInit(p, quelevel, priority, -1, false));
          }
        } else if quelevel == 2 {
          if isTimeinterrupt {
            if state[p] == RUNNABLE || state[p] == SLEEPING {
              failed := HeadPush(WrapInit(p, 2, priority, timequantum, true));
            }
          } else {
            if state[p] == RUNNABLE || state[p] == SLEEPING {
              failed := Push(WrapInit(p, 2, priority, timequantum, true));
            }
          }
        } else {
          if state[p] == RUNNABLE || state[p] == SLEEPING {
            failed := Push(WrapInit(p, quelevel, priority, timequantum, true));
          }
        }
      } else {
        if state[p] == ZOMBIE {
          islock, lockproc := 0, NOPROC;
          s := s.(islock := 0, lockproc := NOPROC);
        } else if state[p] == SLEEPING {
          islock, lockproc := 0, NOPROC;
          s := s.(islock := 0, lockproc := NOPROC);
          failed := HeadPush(WrapInit(p, 0, 3, 4, true));
        } else {
          timequantum := timequantum + 1;
          s := s.(timequantum := s.timequantum + 1);
        }
      }
    }

    /** The boost of a scheduler that has not run any process yet. */
    method BoostIfDue()
      requires Valid() && Listed(s) && islock == 0
      modifies this`mlfql, this`isinmlfq, this`s, this`order, this`islock, this`lockproc, this`ticks
      ensures Valid() && s == if old(s).ticks % 100 == 0 then Boosted(old(s)) else old(s)
    {
      hide AllHold, Listed, Boosted;
      if ticks % 100 == 0 {
        Boosting();
      }
    }

    /** The round of `scheduler` before it looks for a process. */
    method Settle()
      requires Valid() && (Entered(s) || Idle(s))
      modifies this`mlfql, this`isinmlfq, this`s, this`order, this`islock, this`lockproc, this`ticks,
        this`timequantum, this`isTimeinterrupt
      ensures Valid() && RoundSized(old(s)) && s == Settled(old(s))
    {
      hide AllHold, Listed, Requeued, Boosted, Entered, Idle;
      RoundStart(s);
      if !isTimeinterrupt {
        timequantum := timequantum - 1;
        s := s.(timequantum := s.timequantum - 1);
      }
      if nowproc != NOPROC {
        Requeue();
      } else {
        BoostIfDue();
      }
      isTimeinterrupt := false;
      s := s.(isTimeinterrupt := false);
    }

    /** The round of `scheduler` from there to the context switch. */
    method Dispatch()
      requires Valid() && KnownProcs(s) && (s.islock != 0 ==> s.nowproc != NOPROC)
      modifies this
      ensures Valid() && s == Dispatched(old(s))
    {
      hide AllHold, KnownProcs, FirstQueue, FirstRunnable, Popped, Dispatched;
      KnownSized(s);
      DispatchedMeans(s);
      if islock == 0 {
        var wp := PopProc();
        if wp == None {
          return;
        }
        var w := wp.value;
        ghost var t := Chosen(s, w);
        priority, quelevel, timequantum, nowproc := w.priority, w.quelevel, w.timequantum, w.proc;
        state := state[nowproc := RUNNING];
        s := t;
      } else {
        state := state[nowproc := RUNNING];
        s := s.(state := s.state[s.nowproc := RUNNING]);
      }
    }

    /** One round of the loop of `scheduler`, up to the context switch. */
    method Scheduler()
      requires Valid() && (Entered(s) || Idle(s))
      modifies this
      ensures Valid() && s == Scheduled(old(s))
    {
      hide AllHold, Entered, Idle, Settled, Dispatched, Ready;
      SettledKeeps(s);
      Settle();
      ReadyKnown(s);
      Dispatch();
    }

    /** The kernel when the scheduler starts: `userinit` has queued the first process. */
    constructor ()
      ensures Valid() && s == Start()
    {
      var free := seq(QUESIZE, i => Node(NIL, Wrap(0, 0, 0, 0), false));
      var empty := Level(free, NIL, NIL);
      var first := Level(free[0 := Node(NIL, New(0), true)], 0, 0);
      mlfql := [first, empty, empty, empty, empty, empty];
      state := seq(NPROC, i => if i == 0 then RUNNABLE else UNUSED);
      isinmlfq := seq(NPROC, i => false)[0 := true];
      nowproc, lockproc, priority, quelevel, timequantum := NOPROC, NOPROC, 0, 0, 0;
      islock, isTimeinterrupt, ticks := 0, false, 1;
      order := [[0], [], [], [], [], []];
      s := Start();
      new;
      EmptyHolds(free);
    }

    /** `nowproc` goes into the scheduler, in state `st`. */
    method Sched(st: ProcState)
      requires Valid() && s.nowproc != NOPROC && Entered(Left(s, st))
      modifies this
      ensures Valid() && s == Scheduled(Left(old(s), st))
    {
      hide AllHold, Entered, Scheduled;
      state := state[nowproc := st];
      s := Left(s, st);
      Scheduler();
    }

    /** The timer branch of `trap`. */
    method TimerBranch()
      requires Valid() && s.nowproc != NOPROC
      requires (s.ticks + 1) % 100 == 0 || s.islock < 1 ==> Entered(Preempted(s))
      modifies this
      ensures Valid()
      ensures s == if (old(s).ticks + 1) % 100 == 0 || old(s).islock < 1
                   then Scheduled(Preempted(old(s))) else Ticked(old(s))
    {
      hide AllHold, Entered, Scheduled, Sane;
      ticks, timequantum := ticks + 1, timequantum - 1;
      s := Ticked(s);
      if ticks % 100 == 0 || islock < 1 {
        isTimeinterrupt := true;
        s := s.(isTimeinterrupt := true);
        Sched(RUNNABLE);
      }
    }

    /** A timer interrupt while `nowproc` runs. */
    method TimerInterrupt()
      requires Valid() && Runs(s)
      modifies this
      ensures Valid() && s == Step(old(s), Tick)
    {
      hide AllHold, Entered, Scheduled, Sane;
      TickDue(s);
      TimerBranch();
    }

    method Yield()
      requires Valid() && Runs(s)
      modifies this
      ensures Valid() && s == Step(old(s), MlfqRuns.Yield)
    {
      hide AllHold, Entered, Scheduled;
      LeftEntered(s, RUNNABLE);
      Sched(RUNNABLE);
    }

    method Sleep()
      requires Valid() && Runs(s)
      modifies this
      ensures Valid() && s == Step(old(s), MlfqRuns.Sleep)
    {
      hide AllHold, Entered, Scheduled;
      LeftEntered(s, SLEEPING);
      Sched(SLEEPING);
    }

    method Exit()
      requires Valid() && Runs(s)
      modifies this
      ensures Valid() && s == Step(old(s), MlfqRuns.Exit)
    {
      hide AllHold, Entered, Scheduled;
      LeftEntered(s, ZOMBIE);
      Sched(ZOMBIE);
    }

    /** `schedulerLock`, called by the process that runs. With `interrupted`, a timer
        interrupt comes after the first assignment; if it gives the processor away, the
        rest, `FinishLock`, comes when the process is back. */
    method SchedulerLock(password: int, interrupted: bool)
      requires Valid() && Runs(s)
      modifies this
      ensures Valid()
      ensures s == Step(old(s), if password != PSWORD then MlfqRuns.Exit
                                else if interrupted && Enabled(old(s), LockTick) then LockTick else Lock)
    {
      hide AllHold, Entered, Scheduled, Sane;
      if password != PSWORD {
        Exit();
      } else if islock == 0 && lockproc == NOPROC {
        ghost var s0 := s;
        islock := 1;
        s := LockBegun(s);
        if interrupted {
          LockDue(s0);
          var boosts := ticks == 99;
          TimerBranch();
          if boosts {
            return;
          }
        }
        FinishLock();
      }
    }

    /** The rest of `schedulerLock`. */
    method FinishLock()
      requires Valid() && s.nowproc != NOPROC
      modifies this`ticks, this`lockproc, this`s
      ensures Valid() && s == old(s).(ticks := 1, lockproc := old(s).nowproc)
    {
      hide AllHold;
      ticks := 1;
      lockproc := nowproc;
      s := s.(ticks := 1, lockproc := s.nowproc);
    }

    /** `schedulerUnlock`, called by the process that runs. With `interrupted`, up to a
        timer interrupt just before its `yield`, or, if `early`, between its assignments;
        the rest comes when the process is back. */
    method SchedulerUnlock(password: int, interrupted: bool, early: bool)
      requires Valid() && Runs(s)
      modifies this
      ensures Valid()
      ensures s == Step(old(s), if password != PSWORD then MlfqRuns.Exit
                                else if interrupted && Enabled(old(s), UnlockTick(early)) then UnlockTick(early)
                                else Unlock)
    {
      hide AllHold, Entered, Scheduled, Sane;
      if password != PSWORD {
        Exit();
      } else if islock == 1 && lockproc == nowproc {
        UnlockEntered(s);
        islock := -1;
        ghost var s0 := s;
        s := s.(islock := -1);
        if interrupted && early {
          assert s == UnlockBegun(s0, true);
          TimerBranch();
          return;
        }
        lockproc := NOPROC;
        s := Unlocked(s0);
        if interrupted {
          assert s == UnlockBegun(s0, false);
          TimerBranch();
        } else {
          Sched(RUNNABLE);
        }
      }
    }

    /** The rest of `schedulerUnlock` before its `yield`. */
    method FinishUnlock()
      requires Valid()
      modifies this`lockproc, this`s
      ensures Valid() && s == old(s).(lockproc := NOPROC)
    {
      hide AllHold;
      lockproc := NOPROC;
      s := s.(lockproc := NOPROC);
    }

    /** `setPriority` for the process that runs; for any other it does nothing. */
    method ChangePriority(newPriority: int)
      requires Valid() && Runs(s)
      modifies this`priority, this`s
      ensures Valid() && s == Step(old(s), SetPriority(newPriority))
    {
      hide AllHold, Sane;
      if 0 <= newPriority <= 3 {
        priority := newPriority;
        s := s.(priority := newPriority);
      }
    }

    /** `allocproc`, with `newproc`; NPROC if all processes are in use. It fails where
        `statepop` follows a null pointer. */
    method AllocProc() returns (ok: bool, p: nat)
      requires Valid() && KnownProcs(s) && |s.queues[0]| < QUESIZE
      modifies this`mlfql, this`isinmlfq, this`s, this`order, this`state
      ensures p == FirstUnused(old(s).state)
      ensures ok <==> Alloc(old(s)).Goes?
      ensures ok ==> Valid() && s == Alloc(old(s)).s
    {
      hide AllHold, ClearFrom, Pushed;
      p := 0;
      while p < NPROC && state[p] != UNUSED
        invariant p <= NPROC && unchanged(this)
        invariant forall j :: 0 <= j < p ==> state[j] != UNUSED
      {
        p := p + 1;
      }
      FoundUnused(state, p);
      if p == NPROC {
        return true, p;
      }
      state := state[p := EMBRYO];
      s := s.(state := s.state[p := EMBRYO]);
      var cnt;
      ok, cnt := ClearMlfq();
      if !ok {
        return;
      }
      var failed := Push(WrapInit(p, 0, 3, 4, true));
    }

    /** `fork`, when it succeeds or finds no free process, as one step */
    method ForkProcess() returns (p: nat)
      requires Valid() && Runs(s)
      modifies this
      ensures Valid() && s == Step(old(s), Fork)
    {
      hide AllHold, Runs, Alloc, Forked;
      ghost var s0 := s;
      AllocRuns(s);
      ForkedNone(s);
      var ok;
      ok, p := AllocProc();
      if p == NPROC {
        AllocNone(s0);
        return;
      }
      state := state[p := RUNNABLE];
      s := Become(s, p, RUNNABLE);
    }
  }

  lemma SweepStep(kept: seq<Wrap>, cnt: nat, rest: seq<Wrap>, state: seq<ProcState>, flags: seq<bool>)
    requires |state| == |flags| && (forall j :: 0 <= j < |rest| ==> rest[j].proc < |flags|) && rest != []
    ensures Live(state[rest[0].proc]) ==>
      Behind(kept, cnt, Sweep(rest, state, flags)) == Behind(kept + [rest[0]], cnt, Sweep(rest[1..], state, flags))
    ensures !Live(state[rest[0].proc]) && |rest| == 1 ==> Behind(kept, cnt, Sweep(rest, state, flags)) == Fault
    ensures !Live(state[rest[0].proc]) && |rest| > 1 ==>
      Behind(kept, cnt, Sweep(rest, state, flags))
        == Behind(kept, cnt + 1, Sweep(rest[1..], state, flags[rest[1].proc := false]))
  {
    if Live(state[rest[0].proc]) {
      var r := Sweep(rest[1..], state, flags);
      if r.Swept? {
        assert kept + ([rest[0]] + r.queue) == kept + [rest[0]] + r.queue;
      }
    } else if |rest| > 1 {
      var r := Sweep(rest[1..], state, flags[rest[1].proc := false]);
      if r.Swept? {
        assert [] + r.queue == r.queue;
      }
    }
  }

  /** `statepop` of queue `k`, begun in `s0`, has kept `i` processes, dropped `cnt` and
      reached `s`. */
  ghost predicate Walking(s0: Sched, s: Sched, k: nat, i: nat, cnt: nat) {
    && KnownProcs(s0) && KnownProcs(s) && k < LEVELSIZE && i <= |s.queues[k]|
    && s == s0.(queues := s0.queues[k := s.queues[k]], isinmlfq := s.isinmlfq)
    && Sweep(s0.queues[k], s0.state, s0.isinmlfq) ==
       Behind(s.queues[k][..i], cnt, Sweep(s.queues[k][i..], s.state, s.isinmlfq))
  }

  lemma WalkStart(s: Sched, k: nat)
    requires KnownProcs(s) && k < LEVELSIZE
    ensures Walking(s, s, k, 0, 0)
  {
    SweepStart(s.queues[k], s.state, s.isinmlfq);
  }

  lemma WalkOn(s0: Sched, s: Sched, k: nat, i: nat, cnt: nat)
    requires Walking(s0, s, k, i, cnt) && i < |s.queues[k]|
    ensures Sized(s) && s.queues[k][i].proc < NPROC
    ensures Live(s.state[s.queues[k][i].proc]) ==> Walking(s0, s, k, i + 1, cnt)
    ensures !Live(s.state[s.queues[k][i].proc]) && i + 1 == |s.queues[k]| ==>
      Sweep(s0.queues[k], s0.state, s0.isinmlfq) == Fault
    ensures !Live(s.state[s.queues[k][i].proc]) && i + 1 < |s.queues[k]| ==>
      s.queues[k][i + 1].proc < NPROC && Walking(s0, WalkedPast(s, k, i), k, i, cnt + 1)
  {
    var q := s.queues[k];
    Parts(q, i);
    SweepStep(q[..i], cnt, q[i..], s.state, s.isinmlfq);
  }

  /** `s` without the process at `i`, the flag of the next one cleared. */
  function WalkedPast(s: Sched, k: nat, i: nat): Sched
    requires Sized(s) && k < LEVELSIZE && i + 1 < |s.queues[k]| && s.queues[k][i + 1].proc < NPROC
  {
    s.(queues := s.queues[k := Removed(s.queues[k], i)], isinmlfq := s.isinmlfq[s.queues[k][i + 1].proc := false])
  }

  lemma WalkEnd(s0: Sched, s: Sched, k: nat, cnt: nat)
    requires k < |s.queues| && Walking(s0, s, k, |s.queues[k]|, cnt)
    ensures Sweep(s0.queues[k], s0.state, s0.isinmlfq).Swept? && cnt == Sweep(s0.queues[k], s0.state, s0.isinmlfq).cnt
    ensures s == StatePopped(s0, k)
  {
    SweepEnd(s.queues[k], cnt, s.state, s.isinmlfq);
  }

  lemma LevelFacts(ls: seq<Level>, os: seq<seq<int>>, qs: seq<seq<Wrap>>, k: nat)
    requires AllHold(ls, os, qs) && k < LEVELSIZE
    ensures |ls| == |os| == |qs| == LEVELSIZE && |os[k]| == |qs[k]| && |ls[k].procqueue| == QUESIZE
    ensures ls[k].head == if |os[k]| == 0 then NIL else os[k][0]
    ensures |os[k]| > 0 ==> ls[k].head != NIL && 0 <= ls[k].tail < QUESIZE
  {
    HoldsFacts(ls[k], os[k], qs[k]);
  }

  lemma NodeFacts(ls: seq<Level>, os: seq<seq<int>>, qs: seq<seq<Wrap>>, k: nat, i: nat)
    requires AllHold(ls, os, qs) && k < LEVELSIZE && i < |qs[k]|
    ensures i < |os[k]| && 0 <= os[k][i] < |ls[k].procqueue|
    ensures ls[k].procqueue[os[k][i]].procwrap == qs[k][i]
    ensures if i + 1 < |os[k]| then ls[k].procqueue[os[k][i]].next == os[k][i + 1] && os[k][i + 1] != NIL
            else ls[k].procqueue[os[k][i]].next == NIL
  {
    HoldsFacts(ls[k], os[k], qs[k]);
    NextFacts(ls[k], os[k], qs[k], i);
  }

  lemma SweepEnd(q: seq<Wrap>, cnt: nat, state: seq<ProcState>, flags: seq<bool>)
    requires |state| == |flags| && (forall j :: 0 <= j < |q| ==> q[j].proc < |flags|)
    ensures Behind(q[..|q|], cnt, Sweep(q[|q|..], state, flags)) == Swept(q, flags, cnt)
  {
  }

  lemma SweepStart(q: seq<Wrap>, state: seq<ProcState>, flags: seq<bool>)
    requires |state| == |flags| && (forall j :: 0 <= j < |q| ==> q[j].proc < |flags|)
    ensures Behind(q[..0], 0, Sweep(q[0..], state, flags)) == Sweep(q, state, flags)
  {
    assert q[0..] == q;
    var r := Sweep(q, state, flags);
    if r.Swept? {
      assert [] + r.queue == r.queue;
    }
  }

  /** The two parts of a queue before and behind `now`, as the walk goes on. */
  lemma Parts(q: seq<Wrap>, i: nat)
    requires i < |q|
    ensures q[i..] != [] && q[i..][0] == q[i] && q[i..][1..] == q[i + 1..] && q[..i] + [q[i]] == q[..i + 1]
    ensures |q[i..]| == |q| - i
    ensures Removed(q, i)[..i] == q[..i] && Removed(q, i)[i..] == q[i + 1..]
  {
  }

  lemma FoundFirst(q: seq<Wrap>, state: seq<ProcState>, i: nat)
    requires i <= |q| && (forall j :: 0 <= j < |q| ==> q[j].proc < |state|)
    requires (forall j :: 0 <= j < i ==> state[q[j].proc] != RUNNABLE) && (i < |q| ==> state[q[i].proc] == RUNNABLE)
    ensures FirstRunnable(q, state) == i
  {
  }

  lemma NextFacts(l: Level, o: seq<int>, q: seq<Wrap>, i: nat)
    requires Holds(l, o, q) && i < |o|
    ensures 0 <= o[i] < |l.procqueue|
    ensures if i + 1 < |o| then l.procqueue[o[i]].next == o[i + 1] && o[i + 1] != NIL else l.procqueue[o[i]].next == NIL
  {
    assert NextAt(l.procqueue, o, i);
  }

  lemma AppendAll(ls: seq<Level>, os: seq<seq<int>>, qs: seq<seq<Wrap>>, k: nat, n: nat, w: Wrap)
    requires AllHold(ls, os, qs) && k < LEVELSIZE && n < QUESIZE && |ls[k].procqueue| == QUESIZE
    requires !ls[k].procqueue[n].isused
    requires ls[k].head != NIL ==> 0 <= ls[k].tail < QUESIZE
    ensures AllHold(ls[k := Appended(ls[k], n, w)], os[k := os[k] + [n]], qs[k := qs[k] + [w]])
  {
    hide Holds, Appended;
    AppendedHolds(ls[k], os[k], qs[k], n, w);
    HoldSet(ls, os, qs, k, Appended(ls[k], n, w), os[k] + [n], qs[k] + [w]);
  }

  lemma PrependAll(ls: seq<Level>, os: seq<seq<int>>, qs: seq<seq<Wrap>>, n: nat, w: Wrap)
    requires AllHold(ls, os, qs) && n < QUESIZE && |ls[0].procqueue| == QUESIZE && !ls[0].procqueue[n].isused
    ensures AllHold(ls[0 := Prepended(ls[0], n, w)], os[0 := [n] + os[0]], qs[0 := [w] + qs[0]])
  {
    hide Holds, Prepended;
    PrependedHolds(ls[0], os[0], qs[0], n, w);
    HoldSet(ls, os, qs, 0, Prepended(ls[0], n, w), [n] + os[0], [w] + qs[0]);
  }

  lemma UnlinkAll(ls: seq<Level>, os: seq<seq<int>>, qs: seq<seq<Wrap>>, k: nat, i: nat, prev: int)
    requires AllHold(ls, os, qs) && k < LEVELSIZE && i < |os[k]| && (i > 0 ==> prev == os[k][i - 1])
    ensures |ls| == |os| == LEVELSIZE && i < |qs[k]| && 0 <= os[k][i] < |ls[k].procqueue|
      && (os[k][i] != ls[k].head ==> 0 <= prev < |ls[k].procqueue|)
    ensures AllHold(ls[k := Unlinked(ls[k], prev, os[k][i])], os[k := Removed(os[k], i)], qs[k := Removed(qs[k], i)])
  {
    hide Linked, InUse, NoRepeat, Unlinked;
    HoldsFacts(ls[k], os[k], qs[k]);
    UnlinkedHolds(ls[k], os[k], qs[k], i, prev);
    HoldSet(ls, os, qs, k, Unlinked(ls[k], prev, os[k][i]), Removed(os[k], i), Removed(qs[k], i));
  }

  lemma QueueProcs(s: Sched, k: nat)
    requires KnownProcs(s) && k < LEVELSIZE
    ensures forall i :: 0 <= i < |s.queues[k]| ==> s.queues[k][i].proc < NPROC
  {
  }

  /** Not all nodes of a queue are in use. */
  lemma NeverFull(ls: seq<Level>, os: seq<seq<int>>, qs: seq<seq<Wrap>>, k: nat)
    requires AllHold(ls, os, qs) && k < LEVELSIZE && |qs[k]| < QUESIZE
    ensures |ls[k].procqueue| == QUESIZE
    ensures exists n :: 0 <= n < QUESIZE && !ls[k].procqueue[n].isused
  {
    HoldsFacts(ls[k], os[k], qs[k]);
    var n := FreeNode(ls[k], os[k]);
  }

  /** `statepop` of a queue in order changes nothing. */

  /** The processes of a queue, in order. */
  function Procs(q: seq<Wrap>): (r: seq<nat>)
    ensures |r| == |q| && forall i :: 0 <= i < |q| ==> r[i] == q[i].proc
  {
    seq(|q|, i requires 0 <= i < |q| => q[i].proc)
  }

  /** The first `i` nodes of `order` are free again. */
  ghost predicate Emptying(l: Level, order: seq<int>, q: seq<Wrap>, i: nat) {
    && |l.procqueue| == QUESIZE && |order| == |q| && NoRepeat(order) && i <= |order|
    && (forall j :: 0 <= j < |order| ==> 0 <= order[j] < QUESIZE && order[j] != NIL)
    && (forall j :: i <= j < |order| ==> NextAt(l.procqueue, order, j) && l.procqueue[order[j]].procwrap == q[j])
    && (forall n :: 0 <= n < QUESIZE && l.procqueue[n].isused ==> exists j :: i <= j < |order| && order[j] == n)
  }

  lemma EmptyingStart(ls: seq<Level>, os: seq<seq<int>>, qs: seq<seq<Wrap>>, k: nat)
    requires AllHold(ls, os, qs) && k < LEVELSIZE
    ensures Emptying(ls[k], os[k], qs[k], 0)
  {
    HoldsFacts(ls[k], os[k], qs[k]);
    assert Holds(ls[k], os[k], qs[k]);
  }

  lemma EmptyingNext(l: Level, order: seq<int>, q: seq<Wrap>, i: nat)
    requires Emptying(l, order, q, i) && i < |q|
    ensures 0 <= order[i] < |l.procqueue| && l.procqueue[order[i]].procwrap == q[i]
    ensures l.procqueue[order[i]].next == (if i + 1 < |order| then order[i + 1] else NIL)
    ensures i + 1 < |order| ==> order[i + 1] != NIL
    ensures Emptying(l.(procqueue := l.procqueue[order[i] := Node(NIL, Wrap(0, 0, 0, 0), false)]), order, q, i + 1)
    ensures Procs(q[..i]) + [q[i].proc] == Procs(q[..i + 1])
  {
    hide Procs;
    assert NextAt(l.procqueue, order, i);
    var r := l.(procqueue := l.procqueue[order[i] := Node(NIL, Wrap(0, 0, 0, 0), false)]);
    EmptyingUsed(l.procqueue, r.procqueue, order, i);
    forall j | i + 1 <= j < |order|
      ensures NextAt(r.procqueue, order, j) && r.procqueue[order[j]].procwrap == q[j]
    {
      assert NextAt(l.procqueue, order, j);
    }
    ProcsOneMore(q, i);
  }

  lemma ProcsOneMore(q: seq<Wrap>, i: nat)
    requires i < |q|
    ensures Procs(q[..i]) + [q[i].proc] == Procs(q[..i + 1])
  {
  }

  /** With the node at `i` freed, those in use are behind it. */
  lemma EmptyingUsed(nodes: seq<Node>, r: seq<Node>, order: seq<int>, i: nat)
    requires |nodes| == |r| == QUESIZE && i < |order| && 0 <= order[i] < QUESIZE && !r[order[i]].isused
    requires forall n :: 0 <= n < QUESIZE && n != order[i] ==> r[n] == nodes[n]
    requires forall n :: 0 <= n < QUESIZE && nodes[n].isused ==> exists j :: i <= j < |order| && order[j] == n
    ensures forall n :: 0 <= n < QUESIZE && r[n].isused ==> exists j :: i + 1 <= j < |order| && order[j] == n
  {
    forall n | 0 <= n < QUESIZE && r[n].isused
      ensures exists j :: i + 1 <= j < |order| && order[j] == n
    {
      assert nodes[n].isused;
      var j :| i <= j < |order| && order[j] == n;
    }
  }

  lemma EmptyingEnd(ls: seq<Level>, os: seq<seq<int>>, qs: seq<seq<Wrap>>, k: nat, l: Level)
    requires AllHold(ls, os, qs) && k < LEVELSIZE && l.head == l.tail == NIL
    requires exists r: Level :: Emptying(r, os[k], qs[k], |qs[k]|) && r.procqueue == l.procqueue
    ensures AllHold(ls[k := l], os[k := []], qs[k := []])
    ensures Procs(qs[k][..|qs[k]|]) == Procs(qs[k])
  {
    assert qs[k][..|qs[k]|] == qs[k];
    assert forall n :: 0 <= n < QUESIZE ==> !l.procqueue[n].isused;
    assert Wraps(l, []) == [];
    assert Holds(l, [], []);
    HoldSet(ls, os, qs, k, l, [], []);
  }

  // ---- the two loops of boosting ----

  lemma ProcsJoin(a: seq<Wrap>, b: seq<Wrap>)
    ensures Procs(a + b) == Procs(a) + Procs(b)
  {
  }

  /** Begun in `s0`, the queues before `k` have been emptied into `temp`. */
  ghost predicate Drained(s0: Sched, s: Sched, k: nat, temp: seq<nat>) {
    && Listed(s0) && KnownProcs(s) && k <= LEVELSIZE
    && s == s0.(queues := s.queues, isinmlfq := s.isinmlfq)
    && (forall j :: 0 <= j < LEVELSIZE ==> s.queues[j] == if j < k then [] else s0.queues[j])
    && Procs(Flat(s0.queues, 0)) == temp + Procs(Flat(s0.queues, k))
    && (forall p :: 0 <= p < NPROC ==> (s.isinmlfq[p] <==> s0.isinmlfq[p] && p !in temp))
  }

  lemma DrainStart(s: Sched)
    requires Listed(s)
    ensures Drained(s, s, 0, [])
  {
  }

  lemma DrainedFacts(s0: Sched, s: Sched, k: nat, temp: seq<nat>)
    requires Drained(s0, s, k, temp) && k < LEVELSIZE
    ensures KnownProcs(s) && Sized(s) && |temp| + |s.queues[k]| <= QUESIZE
  {
    RoomForAll(s0);
    assert Flat(s0.queues, k) == s0.queues[k] + Flat(s0.queues, k + 1);
  }

  lemma DrainStep(s0: Sched, s: Sched, k: nat, temp: seq<nat>, t: Sched)
    requires Drained(s0, s, k, temp) && k < LEVELSIZE
    requires t == s.(queues := s.queues[k := []], isinmlfq := t.isinmlfq) && |t.isinmlfq| == NPROC
    requires forall p :: 0 <= p < NPROC ==> (t.isinmlfq[p] <==> s.isinmlfq[p] && p !in Procs(s.queues[k]))
    ensures Drained(s0, t, k + 1, temp + Procs(s.queues[k]))
  {
    ProcsJoin(s.queues[k], Flat(s0.queues, k + 1));
  }

  lemma DrainSkip(s0: Sched, s: Sched, k: nat, temp: seq<nat>)
    requires Drained(s0, s, k, temp) && k < LEVELSIZE && s.queues[k] == []
    ensures Drained(s0, s, k + 1, temp)
  {
    assert Flat(s0.queues, k) == [] + Flat(s0.queues, k + 1);
  }

  /** Begun in `s0`, the first `i` processes of all are back, in L0. */
  ghost predicate Refilled(s0: Sched, s: Sched, i: nat, skip: int) {
    && Listed(s0) && Sized(s) && i <= |Flat(s0.queues, 0)| && skip == (if s0.islock != 0 then s0.nowproc else NOPROC)
    && var l0 := Reset(Flat(s0.queues, 0)[..i], skip);
      && s == s0.(queues := [l0, [], [], [], [], []], isinmlfq := s.isinmlfq)
      && (forall p :: 0 <= p < NPROC ==> (s.isinmlfq[p] <==> In(l0, p)))
  }

  lemma DrainEnd(s0: Sched, s: Sched, temp: seq<nat>, skip: int)
    requires Drained(s0, s, LEVELSIZE, temp) && skip == (if s0.islock != 0 then s0.nowproc else NOPROC)
    ensures Refilled(s0, s, 0, skip) && temp == Procs(Flat(s0.queues, 0))
  {
    var all := Flat(s0.queues, 0);
    FlatMeans(s0.queues, 0);
    assert s.queues == [[], [], [], [], [], []];
    forall p | 0 <= p < NPROC && s0.isinmlfq[p]
      ensures p in temp
    {
      var k, i :| At(s0.queues, k, i, p);
      assert QueuedFrom(s0.queues, 0, p) && In(all, p);
      var j :| 0 <= j < |all| && all[j].proc == p;
      assert temp[j] == p;
    }
  }

  lemma {:induction false} ResetJoin(a: seq<Wrap>, b: seq<Wrap>, skip: int)
    ensures Reset(a + b, skip) == Reset(a, skip) + Reset(b, skip)
  {
    if a == [] {
      assert a + b == b;
    } else {
      ResetJoin(a[1..], b, skip);
      assert (a + b)[1..] == a[1..] + b;
      ConcatThree(if a[0].proc == skip then [] else [New(a[0].proc)], Reset(a[1..], skip), Reset(b, skip));
    }
  }

  lemma ConcatThree<T>(a: seq<T>, b: seq<T>, c: seq<T>)
    ensures (a + b) + c == a + (b + c)
  {
  }

  lemma {:induction false} ResetShorter(q: seq<Wrap>, skip: int)
    ensures |Reset(q, skip)| <= |q|
  {
    if q == [] {
    } else {
      ResetShorter(q[1..], skip);
    }
  }

  lemma ResetOneMore(all: seq<Wrap>, i: nat, skip: int)
    requires Distinct(all) && i < |all|
    ensures Reset(all[..i + 1], skip) == Reset(all[..i], skip) + if all[i].proc == skip then [] else [New(all[i].proc)]
    ensures |Reset(all[..i], skip)| <= i && !In(Reset(all[..i], skip), all[i].proc)
    ensures forall p :: In(Reset(all[..i + 1], skip), p) <==>
      In(Reset(all[..i], skip), p) || (p == all[i].proc && p != skip)
  {
    var p := all[i].proc;
    ResetJoin(all[..i], [all[i]], skip);
    assert Reset([all[i]], skip) == if p == skip then [] else [New(p)];
    assert all[..i + 1] == all[..i] + [all[i]];
    ResetShorter(all[..i], skip);
    ResetMeans(all[..i], skip);
    assert !In(all[..i], p);
    forall o
      ensures In(Reset(all[..i + 1], skip), o) <==> In(Reset(all[..i], skip), o) || (o == p && p != skip)
    {
      JoinIn(Reset(all[..i], skip), if p == skip then [] else [New(p)], o);
      assert In([New(p)], o) <==> [New(p)][0].proc == o;
    }
  }

  lemma FlatProcs(s: Sched, i: nat)
    requires Listed(s) && i < |Flat(s.queues, 0)|
    ensures Flat(s.queues, 0)[i].proc < NPROC && Distinct(Flat(s.queues, 0)) && i < NPROC
  {
    var all := Flat(s.queues, 0);
    FlatMeans(s.queues, 0);
    RoomForAll(s);
    assert In(all, all[i].proc);
    var k, j :| 0 <= k && At(s.queues, k, j, all[i].proc);
    QueuedLive(s, all[i].proc);
  }

  /** One more process goes back into L0, unless it is the one that holds the lock. */
  lemma RefilledFacts(s0: Sched, s: Sched, i: nat, skip: int)
    requires Refilled(s0, s, i, skip) && i < |Flat(s0.queues, 0)|
    ensures Sized(s) && s.islock == s0.islock && s.nowproc == s0.nowproc
    ensures skip == if s.islock != 0 then s.nowproc else NOPROC
    ensures var w := New(Flat(s0.queues, 0)[i].proc);
      && Placed(w) && |s.queues[0]| < QUESIZE
      && Refilled(s0, if w.proc == skip then s else Pushed(s, w), i + 1, skip)
  {
    hide Listed, Distinct, In, Reset, Flat;
    var all := Flat(s0.queues, 0);
    FlatProcs(s0, i);
    ResetOneMore(all, i, skip);
    var l0, p := Reset(all[..i], skip), all[i].proc;
    assert l0 + [] == l0;
    assert [l0, [], [], [], [], []][0 := l0 + [New(p)]] == [l0 + [New(p)], [], [], [], [], []];
  }

  lemma RefillEnd(s0: Sched, s: Sched, skip: int)
    requires Refilled(s0, s, |Flat(s0.queues, 0)|, skip) && (s0.islock != 0 ==> s0.nowproc != NOPROC)
    ensures Sized(s) && s.islock == s0.islock && s.nowproc == s0.nowproc
    ensures s.islock != 0 ==> Placed(New(s.nowproc)) && |s.queues[0]| < QUESIZE
    ensures var r := if s.islock != 0 then HeadPushed(s, New(s.nowproc)) else s;
      r.(islock := 0, lockproc := NOPROC, ticks := 1) == Boosted(s0)
  {
    var all := Flat(s0.queues, 0);
    RoomForAll(s0);
    ResetShorter(all, skip);
    assert all[..|all|] == all;
    BoostGathers(s0);
    FlatMeans(s0.queues, 0);
    ResetMeans(all, skip);
    var r := (if s.islock != 0 then HeadPushed(s, New(s.nowproc)) else s).(islock := 0, lockproc := NOPROC, ticks := 1);
    var b := Boosted(s0);
    assert r.queues == b.queues;
    forall p | 0 <= p < NPROC
      ensures r.isinmlfq[p] == b.isinmlfq[p]
    {
      assert b.isinmlfq[p] <==> In(L0(s0), p);
    }
    assert r.isinmlfq == b.isinmlfq;
  }

  /** No queue is ever so full that `push` cannot find a node. */
  lemma RoomToPush(s: Sched)
    requires Listed(s)
    ensures Sized(s) && forall k :: 0 <= k < LEVELSIZE ==> |s.queues[k]| < QUESIZE
  {
    RoomForAll(s);
  }

  lemma ClearStep(s: Sched, k: nat)
    requires KnownProcs(s) && k < LEVELSIZE && KnownProcs(StatePopped(s, k))
    ensures ClearFrom(s, k)
         == if Sweep(s.queues[k], s.state, s.isinmlfq).Swept? then ClearFrom(StatePopped(s, k), k + 1) else Crashed
  {
    hide Sweep, StatePopped;
  }

  lemma ClearEnd(s: Sched)
    requires KnownProcs(s)
    ensures ClearFrom(s, LEVELSIZE) == Goes(s)
  {
  }

  lemma HeadFields(s: Sched)
    ensures Sized(s) && s.islock != 0 && s.nowproc >= 0 && Placed(New(s.nowproc)) ==>
      var r := HeadPushed(s, New(s.nowproc)); r == s.(queues := r.queues, isinmlfq := r.isinmlfq) && Sized(r)
  {
  }

  lemma ForkedNone(s: Sched)
    requires Sized(s)
    ensures FirstUnused(s.state) == NPROC ==> Forked(s) == s
  {
  }

  lemma AllocNone(s: Sched)
    requires KnownProcs(s)
    ensures FirstUnused(s.state) == NPROC ==> Alloc(s) == Goes(s)
  {
  }

  lemma PushedFields(s: Sched, w: Wrap)
    requires Sized(s) && Placed(w)
    ensures var r := Pushed(s, w); r == s.(queues := r.queues, isinmlfq := r.isinmlfq)
  {
  }

  predicate RoundSized(s: Sched) {
    Sized(s) && InRange(s) && (s.nowproc == NOPROC ==> s.islock == 0)
  }

  lemma KnownSized(s: Sched)
    requires KnownProcs(s)
    ensures Sized(s)
  {
  }

  /** `s` with the process of `w` on the processor. */
  function Chosen(s: Sched, w: Wrap): Sched
    requires w.proc < |s.state|
  {
    s.(priority := w.priority, quelevel := w.quelevel, timequantum := w.timequantum, nowproc := w.proc,
       state := s.state[w.proc := RUNNING])
  }

  lemma DispatchedMeans(s: Sched)
    requires KnownProcs(s) && (s.islock != 0 ==> s.nowproc != NOPROC)
    ensures s.islock != 0 ==> Dispatched(s) == s.(state := s.state[s.nowproc := RUNNING])
    ensures s.islock == 0 && FirstQueue(s, 0) == LEVELSIZE ==> Dispatched(s) == s
    ensures s.islock == 0 && FirstQueue(s, 0) < LEVELSIZE ==>
      var k := FirstQueue(s, 0);
      var i := FirstRunnable(s.queues[k], s.state);
      i < |s.queues[k]| && s.queues[k][i].proc < NPROC == |Popped(s, k, i).state|
      && Dispatched(s) == Chosen(Popped(s, k, i), s.queues[k][i])
  {
  }

  /** What holds when the loop of `scheduler` starts a round, whatever is left of the
      time. */
  lemma RoundStart(s: Sched)
    requires Entered(s) || Idle(s)
    ensures RoundSized(s) && Listed(s) && Listed(s.(timequantum := s.timequantum - 1))
    ensures s.ticks % 100 == 0 ==> s.nowproc != NOPROC && Live(s.state[s.nowproc]) && !s.isinmlfq[s.nowproc]
  {
  }

  const PSWORD: int := 2018009116

  lemma EmptyHolds(free: seq<Node>)
    requires free == seq(QUESIZE, i => Node(NIL, Wrap(0, 0, 0, 0), false))
    ensures Holds(Level(free, NIL, NIL), [], [])
    ensures Holds(Level(free[0 := Node(NIL, New(0), true)], 0, 0), [0], [New(0)])
  {
    assert Wraps(Level(free, NIL, NIL), []) == [];
    var first := Level(free[0 := Node(NIL, New(0), true)], 0, 0);
    assert NextAt(first.procqueue, [0], 0);
    assert [0][0] == 0;
    assert Wraps(first, [0]) == [New(0)];
  }

  lemma LockDue(s: Sched)
    requires Runs(s) && s.islock == 0
    ensures Enabled(s, Tick) && s.nowproc != NOPROC && 1 <= s.ticks <= 99
    ensures s.ticks == 99 ==> Entered(Preempted(LockBegun(s)))
  {
    hide Sane, Entered;
    if s.ticks == 99 {
      LockEntered(s);
    }
  }

  lemma TickDue(s: Sched)
    requires Runs(s)
    ensures (s.ticks + 1) % 100 == 0 || s.islock < 1 ==> Entered(Preempted(s))
  {
    hide Sane, Entered;
    if s.ticks == 99 || s.islock == 0 {
      TickEntered(s);
    }
  }
}

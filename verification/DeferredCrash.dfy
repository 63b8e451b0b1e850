/** project3's log on its disk: calls run one at a time, `sync` and the `limit_check`
    of a starting call write the log to disk block by block, and the power may fail
    between any two steps and during recovery, after which the system starts over. */
module DeferredCrash {
  import opened Words
  import opened CrashLog
  import opened GroupLog
  import opened DeferredLog
  import opened Options

  /** `pending` is the `sync` or starting call that waits for its commit; `k` writes of
      that commit are on `disk`, which was `was` before it. */
  datatype Machine = Machine(s: DState, disk: seq<Block>, was: seq<Block>, pending: Option<DEvent>, k: nat)

  /** `PowerFailure(ks)`: recovery is cut short after `ks[0]`, `ks[1]`, ... of its
      writes, and then runs to the end. */
  datatype Move = Call(e: DEvent) | Enter(e: DEvent) | Put | Finish | PowerFailure(ks: seq<nat>)

  /** `e` has to commit before it can go on. */
  predicate Commits(s: DState, e: DEvent) {
    e.Sync? || (e.BeginOp? && |s.lh| >= NBUF)
  }

  ghost predicate Committable(l: Layout, base: seq<Block>, m: Machine) {
    m.pending.Some? && ValidLog(l, |m.was|, m.s.lh) && |m.was| == |base| == |m.disk|
  }

  ghost function Plan(l: Layout, base: seq<Block>, m: Machine): seq<Write>
    requires ValidLog(l, |m.was|, m.s.lh) && |m.was| == |base|
  {
    Writes(l, m.was, base, m.s.lh, m.s.history)
  }

  /** File system calls change home blocks only. */
  ghost predicate AtHome(l: Layout, base: seq<Block>, e: DEvent) {
    e.Modify? ==> e.bno < |base| && Home(l, e.bno)
  }

  ghost predicate Possible(l: Layout, base: seq<Block>, m: Machine, v: Move) {
    match v
    case Call(e) => m.pending.None? && Permitted(m.s, e) && !Commits(m.s, e) && AtHome(l, base, e)
    case Enter(e) => m.pending.None? && Permitted(m.s, e) && Commits(m.s, e)
    case Put =>
      Committable(l, base, m) && m.k < |Plan(l, base, m)| && Plan(l, base, m)[m.k].bno < |m.disk|
    case Finish => Committable(l, base, m) && m.k == |Plan(l, base, m)|
    case PowerFailure(ks) => Recoverable(l, Attempts(l, m.disk, ks))
  }

  /** How much of the history a power failure now leaves. */
  function Kept(m: Machine): nat {
    Survives(m.s.lh, m.s.history, m.s.committed, m.k)
  }

  /** The calls that ended within the first `upto` records. */
  function EndsBy(ends: seq<nat>, upto: nat): (r: seq<nat>)
    ensures |r| <= |ends| && forall i :: 0 <= i < |r| ==> r[i] == ends[i]
  {
    if ends == [] || ends[|ends| - 1] <= upto then ends else EndsBy(ends[..|ends| - 1], upto)
  }

  /** The system started over with the first `upto` records. */
  function Rebooted(s: DState, upto: nat): DState
    requires upto <= |s.history|
  {
    DState([], false, {}, s.history[..upto], EndsBy(s.ends, upto), upto)
  }

  ghost function Moved(l: Layout, base: seq<Block>, m: Machine, v: Move): Machine
    requires Possible(l, base, m, v)
  {
    match v
    case Call(e) => m.(s := Step(m.s, e))
    case Enter(e) => m.(pending := Some(e))
    case Put => var w := Plan(l, base, m)[m.k]; m.(disk := m.disk[w.bno := w.data], k := m.k + 1)
    case Finish => Machine(Step(m.s, m.pending.value), m.disk, m.disk, None, 0)
    case PowerFailure(ks) =>
      var d := Recovered(l, Attempts(l, m.disk, ks));
      if Kept(m) <= |m.s.history| then Machine(Rebooted(m.s, Kept(m)), d, d, None, 0) else m
  }

  ghost predicate Coherent(l: Layout, base: seq<Block>, m: Machine) {
    && Sound(m.s) && l.size > NBUF + MAXOPBLOCKS
    && Covers(l, m.was, base, m.s.lh, m.s.history, m.s.committed)
    && m.k <= |Plan(l, base, m)|
    && Fits(m.was, Plan(l, base, m)) && m.disk == Run(m.was, Plan(l, base, m)[..m.k])
    && (m.pending.None? ==> m.k == 0)
    && (m.pending.Some? ==> Permitted(m.s, m.pending.value) && Commits(m.s, m.pending.value))
  }

  /** Between commits the disk is the one the last commit left. */
  lemma Idle(l: Layout, base: seq<Block>, s: DState, d: seq<Block>)
    requires Sound(s) && l.size > NBUF + MAXOPBLOCKS && Covers(l, d, base, s.lh, s.history, s.committed)
    ensures Coherent(l, base, Machine(s, d, d, None, 0))
  {
    hide Sound, Clean, Effect, CommitWrites, Run;
    CommitCrash(l, d, base, s.lh, s.history, s.committed, 0, []);
    RunNone(d);
    assert Plan(l, base, Machine(s, d, d, None, 0))[..0] == [];
  }

  lemma IdleDisk(l: Layout, base: seq<Block>, m: Machine)
    requires Coherent(l, base, m) && m.k == 0
    ensures m.disk == m.was
  {
    assert Plan(l, base, m)[..0] == [];
    RunNone(m.was);
  }

  /** A call keeps to home blocks, and the log to its region. */
  lemma CallCovers(l: Layout, d: seq<Block>, base: seq<Block>, s: DState, e: DEvent)
    requires Covers(l, d, base, s.lh, s.history, s.committed) && l.size > NBUF + MAXOPBLOCKS
    requires Permitted(s, e) && !Commits(s, e) && AtHome(l, base, e) && Sound(Step(s, e))
    ensures var t := Step(s, e); Covers(l, d, base, t.lh, t.history, t.committed)
  {
    hide Clean, Effect;
    if e.Modify? {
      assert Step(s, e).history[..s.committed] == s.history[..s.committed];
    }
  }

  lemma CallKeeps(l: Layout, base: seq<Block>, m: Machine, e: DEvent)
    requires Coherent(l, base, m) && Possible(l, base, m, Call(e))
    ensures Coherent(l, base, Moved(l, base, m, Call(e)))
  {
    hide Covers, Sound, Step, AtHome, Plan, Commits, Permitted;
    StepKeepsSound(m.s, e);
    CallCovers(l, m.was, base, m.s, e);
    IdleDisk(l, base, m);
    Idle(l, base, Step(m.s, e), m.was);
  }

  lemma PutKeeps(l: Layout, base: seq<Block>, m: Machine)
    requires Coherent(l, base, m) && Possible(l, base, m, Put)
    ensures Coherent(l, base, Moved(l, base, m, Put))
  {
    hide Clean, Effect, Sound, CommitWrites, Run;
    RunNext(m.was, Plan(l, base, m), m.k, m.k + 1);
  }

  lemma FinishKeeps(l: Layout, base: seq<Block>, m: Machine)
    requires Coherent(l, base, m) && Possible(l, base, m, Finish)
    ensures Coherent(l, base, Moved(l, base, m, Finish))
  {
    hide Covers, Sound, Run, CommitWrites;
    CommitWhole(l, m.was, base, m.s.lh, m.s.history, m.s.committed);
    var w := Plan(l, base, m);
    assert w[..|w|] == w;
    StepKeepsSound(m.s, m.pending.value);
    Idle(l, base, Step(m.s, m.pending.value), m.disk);
  }

  /** The calls that survive are a prefix of all, and end where the history does. */
  lemma {:induction false} EndsByLast(ends: seq<nat>, upto: nat)
    requires forall i, j :: 0 <= i < j < |ends| ==> ends[i] <= ends[j]
    requires upto == 0 || upto in ends
    ensures upto == if EndsBy(ends, upto) == [] then 0 else EndsBy(ends, upto)[|EndsBy(ends, upto)| - 1]
    ensures upto == 0 || upto in EndsBy(ends, upto)
    decreases |ends|
  {
    if ends != [] && ends[|ends| - 1] > upto {
      EndsByLast(ends[..|ends| - 1], upto);
    }
  }

  lemma RebootedSound(s: DState, upto: nat)
    requires Sound(s) && upto <= |s.history| && (upto == 0 || upto in s.ends)
    ensures Sound(Rebooted(s, upto))
  {
    EndsByLast(s.ends, upto);
  }

  /** What a power failure in `m` leads to. */
  lemma FailureLeads(l: Layout, base: seq<Block>, m: Machine, ks: seq<nat>)
    requires Coherent(l, base, m)
    ensures m.s.committed <= Kept(m) <= |m.s.history| && (Kept(m) == 0 || Kept(m) in m.s.ends)
    ensures Kept(m) != m.s.committed ==> m.pending.Some? && Kept(m) == |m.s.history| == LastEnd(m.s)
    ensures Recoverable(l, Attempts(l, m.disk, ks))
    ensures Clean(l, Recovered(l, Attempts(l, m.disk, ks)), Effect(base, m.s.history[..Kept(m)]))
  {
    hide Clean, Effect, Run, CommitWrites, Recoverable, Attempts, Recovered;
    CommitCrash(l, m.was, base, m.s.lh, m.s.history, m.s.committed, m.k, ks);
  }

  lemma FailureKeeps(l: Layout, base: seq<Block>, m: Machine, ks: seq<nat>)
    requires Coherent(l, base, m) && Possible(l, base, m, PowerFailure(ks))
    ensures Coherent(l, base, Moved(l, base, m, PowerFailure(ks)))
  {
    hide Sound, Clean, Effect, Run, CommitWrites, Recoverable, Attempts, Recovered;
    FailureLeads(l, base, m, ks);
    RebootedSound(m.s, Kept(m));
    var s := Rebooted(m.s, Kept(m));
    assert s.history[..Kept(m)] == s.history;
    Idle(l, base, s, Recovered(l, Attempts(l, m.disk, ks)));
  }

  /** Every step keeps the disk and the log together. */
  lemma MoveKeeps(l: Layout, base: seq<Block>, m: Machine, v: Move)
    requires Coherent(l, base, m) && Possible(l, base, m, v)
    ensures Coherent(l, base, Moved(l, base, m, v))
  {
    match v
    case Call(e) => CallKeeps(l, base, m, e);
    case Enter(e) =>
      hide Sound, Covers, Writes, Run;
    case Put => PutKeeps(l, base, m);
    case Finish => FinishKeeps(l, base, m);
    case PowerFailure(ks) => FailureKeeps(l, base, m, ks);
  }

  // ---- runs ----

  ghost predicate RunTo(l: Layout, base: seq<Block>, m: Machine, vs: seq<Move>, t: Machine)
    decreases |vs|
  {
    if vs == [] then t == m
    else Possible(l, base, m, vs[0]) && RunTo(l, base, Moved(l, base, m, vs[0]), vs[1..], t)
  }

  /** The system is started on a disk with the home blocks of `base` and an empty log
      in a region of sufficient size (`DeferredLog.OverflowExactly`). */
  ghost predicate Started(l: Layout, base: seq<Block>, m: Machine) {
    l.size > NBUF + MAXOPBLOCKS && Clean(l, m.disk, base) && m == Machine(START, m.disk, m.disk, None, 0)
  }

  lemma StartCoherent(l: Layout, base: seq<Block>, m: Machine)
    requires Started(l, base, m)
    ensures Coherent(l, base, m)
  {
    Idle(l, base, START, m.disk);
  }

  lemma {:induction false} RunCoherent(l: Layout, base: seq<Block>, m: Machine, vs: seq<Move>, t: Machine)
    requires Coherent(l, base, m) && RunTo(l, base, m, vs, t)
    ensures Coherent(l, base, t)
    decreases |vs|
  {
    hide Coherent, Possible, Moved;
    if vs == [] {
    } else {
      MoveKeeps(l, base, m, vs[0]);
      RunCoherent(l, base, Moved(l, base, m, vs[0]), vs[1..], t);
    }
  }

  /** For every run and every crash point: if the power fails in any state a run
      reaches, and again any number of times during recovery, the recovery that
      finishes leaves the effect of a prefix of the calls: those up to the last
      commit, or up to the one under way. */
  lemma CrashKeepsPrefix(l: Layout, base: seq<Block>, m0: Machine, vs: seq<Move>, m: Machine, ks: seq<nat>)
    requires Started(l, base, m0) && RunTo(l, base, m0, vs, m)
    ensures m.s.committed <= Kept(m) <= |m.s.history| && (Kept(m) == 0 || Kept(m) in m.s.ends)
    ensures Kept(m) != m.s.committed ==> m.pending.Some? && Kept(m) == |m.s.history| == LastEnd(m.s)
    ensures Recoverable(l, Attempts(l, m.disk, ks))
    ensures Clean(l, Recovered(l, Attempts(l, m.disk, ks)), Effect(base, m.s.history[..Kept(m)]))
  {
    hide Clean, Recoverable, Attempts, Recovered, Effect, RunTo, Started, Coherent;
    StartCoherent(l, base, m0);
    RunCoherent(l, base, m0, vs, m);
    FailureLeads(l, base, m, ks);
  }

  /** A commit never gets stuck: its next write, or its end, is always possible. */
  lemma CommitGoesOn(l: Layout, base: seq<Block>, m0: Machine, vs: seq<Move>, m: Machine)
    requires Started(l, base, m0) && RunTo(l, base, m0, vs, m) && m.pending.Some?
    ensures Possible(l, base, m, Put) || Possible(l, base, m, Finish)
  {
    hide Clean, RunTo, Started, Sound, Effect, CommitWrites;
    StartCoherent(l, base, m0);
    RunCoherent(l, base, m0, vs, m);
  }

  // ---- what is committed stays ----

  /** Everything committed in `m` is in `t` as it was. */
  ghost predicate Retains(m: Machine, t: Machine) {
    && m.s.committed <= t.s.committed && m.s.committed <= |m.s.history| && m.s.committed <= |t.s.history|
    && t.s.history[..m.s.committed] == m.s.history[..m.s.committed]
  }

  lemma MoveRetains(l: Layout, base: seq<Block>, m: Machine, v: Move)
    requires Coherent(l, base, m) && Possible(l, base, m, v)
    ensures Retains(m, Moved(l, base, m, v))
  {
    hide Clean, Effect, Recoverable, Attempts, Recovered, Run, Plan, ValidLog;
    var t := Moved(l, base, m, v);
    assert t.s.history[..m.s.committed] == m.s.history[..m.s.committed];
  }

  lemma RetainsThrough(m: Machine, t: Machine, u: Machine)
    requires Retains(m, t) && Retains(t, u)
    ensures Retains(m, u)
  {
    assert u.s.history[..m.s.committed] == u.s.history[..t.s.committed][..m.s.committed];
    assert t.s.history[..m.s.committed] == t.s.history[..t.s.committed][..m.s.committed];
  }

  lemma {:induction false} RunRetains(l: Layout, base: seq<Block>, m: Machine, vs: seq<Move>, t: Machine)
    requires Coherent(l, base, m) && RunTo(l, base, m, vs, t)
    ensures Retains(m, t) && Coherent(l, base, t)
    decreases |vs|
  {
    hide Possible, Moved, Sound, Retains, Plan, Run, Clean, Effect;
    if vs == [] {
      RetainsItself(l, base, m);
    } else {
      var n := Moved(l, base, m, vs[0]);
      MoveKeeps(l, base, m, vs[0]);
      MoveRetains(l, base, m, vs[0]);
      RunRetains(l, base, n, vs[1..], t);
      RetainsThrough(m, n, t);
    }
  }

  lemma RetainsItself(l: Layout, base: seq<Block>, m: Machine)
    requires Coherent(l, base, m)
    ensures Retains(m, m)
  {
  }

  /** `sync` is durable, and so is the commit of a starting call: when it returns, the
      history is that of the finished calls, and whatever runs and fails after that,
      recovery gives the effect of whole calls that begin with all of these. */
  lemma SyncIsDurable(l: Layout, base: seq<Block>, m0: Machine, before: seq<Move>, m: Machine,
                      later: seq<Move>, t: Machine, ks: seq<nat>)
    requires Started(l, base, m0) && RunTo(l, base, m0, before, m)
    requires Possible(l, base, m, Finish) && RunTo(l, base, Moved(l, base, m, Finish), later, t)
    ensures !m.s.running && |m.s.history| == LastEnd(m.s)
    ensures |m.s.history| <= Kept(t) <= |t.s.history| && (Kept(t) == 0 || Kept(t) in t.s.ends)
    ensures t.s.history[..|m.s.history|] == m.s.history
    ensures Recoverable(l, Attempts(l, t.disk, ks))
    ensures Clean(l, Recovered(l, Attempts(l, t.disk, ks)), Effect(base, t.s.history[..Kept(t)]))
  {
    hide Clean, Recoverable, Attempts, Recovered, Effect, RunTo, Started, Run, Plan, Covers;
    StartCoherent(l, base, m0);
    RunCoherent(l, base, m0, before, m);
    MoveKeeps(l, base, m, Finish);
    RunRetains(l, base, Moved(l, base, m, Finish), later, t);
    FailureLeads(l, base, t, ks);
    assert m.s.history[..|m.s.history|] == m.s.history;
  }
}

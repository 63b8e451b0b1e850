/** project1's log on its disk. A run interleaves the steps of calls with the single
    block writes of commits, and the power may fail between any two of these, and
    again during recovery, after which the system starts over on the same disk. */
module GroupCrash {
  import opened Words
  import opened CrashLog
  import opened GroupLog

  /** `k` writes of the commit under way are on `disk`, which was `was` before it. */
  datatype Machine = Machine(s: State, disk: seq<Block>, was: seq<Block>, k: nat)

  /** `PowerFailure(ks)`: recovery is cut short after `ks[0]`, `ks[1]`, ... of its
      writes, and then runs to the end. */
  datatype Move = Call(e: Event) | Put | Finish | PowerFailure(ks: seq<nat>)

  /** The in-memory log can be committed to the disk. */
  ghost predicate Committable(l: Layout, base: seq<Block>, m: Machine) {
    m.s.committing && ValidLog(l, |m.was|, m.s.lh) && |m.was| == |base| == |m.disk|
  }

  ghost function Plan(l: Layout, base: seq<Block>, m: Machine): seq<Write>
    requires ValidLog(l, |m.was|, m.s.lh) && |m.was| == |base|
  {
    Writes(l, m.was, base, m.s.lh, m.s.history)
  }

  /** File system calls change home blocks only. */
  ghost predicate AtHome(l: Layout, base: seq<Block>, e: Event) {
    e.LogWrite? ==> e.bno < |base| && Home(l, e.bno)
  }

  ghost predicate Possible(l: Layout, base: seq<Block>, m: Machine, v: Move) {
    match v
    case Call(e) => !e.Commit? && Enabled(m.s, l.size, e) && AtHome(l, base, e)
    case Put =>
      Committable(l, base, m) && m.k < |Plan(l, base, m)| && Plan(l, base, m)[m.k].bno < |m.disk|
    case Finish => Committable(l, base, m) && m.k == |Plan(l, base, m)|
    case PowerFailure(ks) => Recoverable(l, Attempts(l, m.disk, ks))
  }

  /** How much of the history a power failure now leaves. */
  function Kept(m: Machine): nat {
    Survives(m.s.lh, m.s.history, m.s.committed, m.k)
  }

  /** The system started over with the first `upto` records. */
  function Rebooted(s: State, upto: nat): State
    requires upto <= |s.history|
  {
    State([], [], false, s.nextId, s.history[..upto], upto)
  }

  ghost function Moved(l: Layout, base: seq<Block>, m: Machine, v: Move): Machine
    requires Possible(l, base, m, v)
  {
    match v
    case Call(e) => m.(s := Next(m.s, e))
    case Put => var w := Plan(l, base, m)[m.k]; m.(disk := m.disk[w.bno := w.data], k := m.k + 1)
    case Finish => Machine(Next(m.s, Commit), m.disk, m.disk, 0)
    case PowerFailure(ks) =>
      var d := Recovered(l, Attempts(l, m.disk, ks));
      if Kept(m) <= |m.s.history| then Machine(Rebooted(m.s, Kept(m)), d, d, 0) else m
  }

  ghost predicate Coherent(l: Layout, base: seq<Block>, m: Machine) {
    && Valid(m.s, l.size)
    && Covers(l, m.was, base, m.s.lh, m.s.history, m.s.committed)
    && m.k <= |Plan(l, base, m)|
    && Fits(m.was, Plan(l, base, m)) && m.disk == Run(m.was, Plan(l, base, m)[..m.k])
    && (m.k > 0 ==> m.s.committing)
  }

  /** Between commits the disk is the one the last commit left. */
  lemma Idle(l: Layout, base: seq<Block>, s: State, d: seq<Block>)
    requires Valid(s, l.size) && Covers(l, d, base, s.lh, s.history, s.committed)
    ensures Coherent(l, base, Machine(s, d, d, 0))
  {
    hide Valid, Clean, Effect, CommitWrites, Run;
    CommitCrash(l, d, base, s.lh, s.history, s.committed, 0, []);
    RunNone(d);
    assert Plan(l, base, Machine(s, d, d, 0))[..0] == [];
  }

  lemma IdleDisk(l: Layout, base: seq<Block>, m: Machine)
    requires Coherent(l, base, m) && m.k == 0
    ensures m.disk == m.was
  {
    assert Plan(l, base, m)[..0] == [];
    RunNone(m.was);
  }

  /** A logged home block still fits the log region and the disk. */
  lemma CallCovers(l: Layout, d: seq<Block>, base: seq<Block>, s: State, e: Event)
    requires Covers(l, d, base, s.lh, s.history, s.committed) && Valid(s, l.size)
    requires !e.Commit? && Enabled(s, l.size, e) && AtHome(l, base, e) && Valid(Next(s, e), l.size)
    ensures var t := Next(s, e); Covers(l, d, base, t.lh, t.history, t.committed)
  {
    hide Clean, Effect, Unspent, DistinctIds;
    if e.LogWrite? {
      LogWriteCovers(l, d, base, s.lh, s.history, s.committed, e.bno, Rec(s.active[e.i].id, e.bno, e.data));
    }
  }

  lemma LogWriteCovers(l: Layout, d: seq<Block>, base: seq<Block>, lh: seq<Word>, hist: seq<Rec>, done: nat,
      bno: Word, r: Rec)
    requires Covers(l, d, base, lh, hist, done) && bno < |base| && Home(l, bno) && r.bno == bno
    requires |Absorb(lh, bno)| < l.size && |Absorb(lh, bno)| <= MAXHEADER
    ensures Covers(l, d, base, Absorb(lh, bno), hist + [r], done)
  {
    hide Clean, Effect;
    assert (hist + [r])[..done] == hist[..done];
  }

  lemma CallKeeps(l: Layout, base: seq<Block>, m: Machine, e: Event)
    requires Coherent(l, base, m) && Possible(l, base, m, Call(e))
    ensures Coherent(l, base, Moved(l, base, m, Call(e)))
  {
    hide Covers, Valid, Next, AtHome, Plan;
    StepKeepsValid(m.s, l.size, e);
    CallCovers(l, m.was, base, m.s, e);
    NotCommitting(l, m.s, e);
    IdleDisk(l, base, m);
    Idle(l, base, Next(m.s, e), m.was);
  }

  lemma NotCommitting(l: Layout, s: State, e: Event)
    requires Valid(s, l.size) && !e.Commit? && Enabled(s, l.size, e)
    ensures !s.committing
  {
  }

  lemma PutKeeps(l: Layout, base: seq<Block>, m: Machine)
    requires Coherent(l, base, m) && Possible(l, base, m, Put)
    ensures Coherent(l, base, Moved(l, base, m, Put))
  {
    hide Clean, Effect, Valid, CommitWrites, Run;
    RunNext(m.was, Plan(l, base, m), m.k, m.k + 1);
  }

  lemma FinishKeeps(l: Layout, base: seq<Block>, m: Machine)
    requires Coherent(l, base, m) && Possible(l, base, m, Finish)
    ensures Coherent(l, base, Moved(l, base, m, Finish))
  {
    hide Covers, Valid, Run, CommitWrites;
    CommitWhole(l, m.was, base, m.s.lh, m.s.history, m.s.committed);
    var w := Plan(l, base, m);
    assert w[..|w|] == w;
    StepKeepsValid(m.s, l.size, Commit);
    Idle(l, base, Next(m.s, Commit), m.disk);
  }

  lemma RebootedValid(s: State, size: nat, upto: nat)
    requires Valid(s, size) && upto <= |s.history|
    ensures Valid(Rebooted(s, upto), size)
  {
  }

  /** What a power failure in `m` leads to. */
  lemma FailureLeads(l: Layout, base: seq<Block>, m: Machine, ks: seq<nat>)
    requires Coherent(l, base, m)
    ensures m.s.committed <= Kept(m) <= |m.s.history| && Recoverable(l, Attempts(l, m.disk, ks))
    ensures Clean(l, Recovered(l, Attempts(l, m.disk, ks)), Effect(base, m.s.history[..Kept(m)]))
  {
    hide Valid, Clean, Effect, Run, CommitWrites, Recoverable, Attempts, Recovered;
    CommitCrash(l, m.was, base, m.s.lh, m.s.history, m.s.committed, m.k, ks);
  }

  lemma FailureKeeps(l: Layout, base: seq<Block>, m: Machine, ks: seq<nat>)
    requires Coherent(l, base, m) && Possible(l, base, m, PowerFailure(ks))
    ensures Coherent(l, base, Moved(l, base, m, PowerFailure(ks)))
  {
    hide Valid, Clean, Effect, Run, CommitWrites, Recoverable, Attempts, Recovered;
    FailureLeads(l, base, m, ks);
    RebootedValid(m.s, l.size, Kept(m));
    var s := Rebooted(m.s, Kept(m));
    assert s.history[..Kept(m)] == s.history;
    Idle(l, base, s, Recovered(l, Attempts(l, m.disk, ks)));
  }

  /** Every step keeps the disk and the log together. */
  lemma MoveKeeps(l: Layout, base: seq<Block>, m: Machine, v: Move)
    requires Coherent(l, base, m) && Possible(l, base, m, v)
    ensures Coherent(l, base, Moved(l, base, m, v))
  {
    hide Coherent, Possible, Moved;
    match v
    case Call(e) => CallKeeps(l, base, m, e);
    case Put => PutKeeps(l, base, m);
    case Finish => FinishKeeps(l, base, m);
    case PowerFailure(ks) => FailureKeeps(l, base, m, ks);
  }

  // ---- runs ----

  ghost predicate RunTo(l: Layout, base: seq<Block>, m: Machine, vs: seq<Move>, t: Machine)
    decreases |vs|
  {
    if vs == [] then t == m
    else Possible(l, base, m, vs[0]) && RunTo(l, base, Moved(l, base, m, vs[0]), vs[1..], t)
  }

  /** The system is started on a disk with the home blocks of `base` and an empty log. */
  ghost predicate Started(l: Layout, base: seq<Block>, m: Machine) {
    Clean(l, m.disk, base) && m == Machine(INIT, m.disk, m.disk, 0)
  }

  lemma StartCoherent(l: Layout, base: seq<Block>, m: Machine)
    requires Started(l, base, m)
    ensures Coherent(l, base, m)
  {
    Idle(l, base, INIT, m.disk);
  }

  lemma {:induction false} RunCoherent(l: Layout, base: seq<Block>, m: Machine, vs: seq<Move>, t: Machine)
    requires Coherent(l, base, m) && RunTo(l, base, m, vs, t)
    ensures Coherent(l, base, t)
    decreases |vs|
  {
    hide Coherent, Possible, Moved;
    if vs == [] {
    } else {
      MoveKeeps(l, base, m, vs[0]);
      RunCoherent(l, base, Moved(l, base, m, vs[0]), vs[1..], t);
    }
  }

  /** Isolation and atomicity together, for every run and every crash point: if the
      power fails in any state a run reaches, and again any number of times during
      recovery, the recovery that finishes leaves the effect of a set of whole calls:
      all that were committed before, and with them all others or none of them. */
  lemma CrashIsolation(l: Layout, base: seq<Block>, m0: Machine, vs: seq<Move>, m: Machine, ks: seq<nat>)
    requires Started(l, base, m0) && RunTo(l, base, m0, vs, m)
    ensures m.s.committed <= Kept(m) <= |m.s.history|
    ensures Recoverable(l, Attempts(l, m.disk, ks))
    ensures Clean(l, Recovered(l, Attempts(l, m.disk, ks)), Effect(base, m.s.history[..Kept(m)]))
    ensures WholeCalls(m.s.(committed := Kept(m)))
    ensures Kept(m) != m.s.committed ==> Kept(m) == |m.s.history| && m.s.active == []
  {
    hide Clean, Recoverable, Attempts, Recovered, Effect, RunTo, Started, Covers, Run, Plan;
    StartCoherent(l, base, m0);
    RunCoherent(l, base, m0, vs, m);
    FailureLeads(l, base, m, ks);
  }

  /** A commit never gets stuck: its next write, or its end, is always possible. */
  lemma CommitGoesOn(l: Layout, base: seq<Block>, m0: Machine, vs: seq<Move>, m: Machine)
    requires Started(l, base, m0) && RunTo(l, base, m0, vs, m) && m.s.committing
    ensures Possible(l, base, m, Put) || Possible(l, base, m, Finish)
  {
    hide Clean, RunTo, Started, Valid, Effect, CommitWrites;
    StartCoherent(l, base, m0);
    RunCoherent(l, base, m0, vs, m);
  }

  /** With no call active and no commit under way the disk itself has the effect of all
      calls so far. */
  lemma QuietIsHome(l: Layout, base: seq<Block>, m0: Machine, vs: seq<Move>, m: Machine)
    requires Started(l, base, m0) && RunTo(l, base, m0, vs, m) && m.s.active == [] && !m.s.committing
    ensures m.s.committed == |m.s.history| && Clean(l, m.disk, Effect(base, m.s.history))
  {
    hide Clean, Effect, RunTo, Started, CommitWrites, Run;
    StartCoherent(l, base, m0);
    RunCoherent(l, base, m0, vs, m);
    IdleDisk(l, base, m);
    assert m.s.history[..|m.s.history|] == m.s.history;
  }

  // ---- what is committed stays ----

  /** Everything committed in `m` is in `t` as it was. */
  ghost predicate Retains(m: Machine, t: Machine) {
    && m.s.committed <= t.s.committed && m.s.committed <= |m.s.history| && m.s.committed <= |t.s.history|
    && t.s.history[..m.s.committed] == m.s.history[..m.s.committed]
  }

  lemma MoveRetains(l: Layout, base: seq<Block>, m: Machine, v: Move)
    requires Coherent(l, base, m) && Possible(l, base, m, v)
    ensures Retains(m, Moved(l, base, m, v))
  {
    hide Clean, Effect, Recoverable, Attempts, Recovered, Run, Plan, ValidLog, Unspent;
    var t := Moved(l, base, m, v);
    assert t.s.history[..m.s.committed] == m.s.history[..m.s.committed];
  }

  lemma RetainsThrough(m: Machine, t: Machine, u: Machine)
    requires Retains(m, t) && Retains(t, u)
    ensures Retains(m, u)
  {
    assert u.s.history[..m.s.committed] == u.s.history[..t.s.committed][..m.s.committed];
    assert t.s.history[..m.s.committed] == t.s.history[..t.s.committed][..m.s.committed];
  }

  lemma {:induction false} RunRetains(l: Layout, base: seq<Block>, m: Machine, vs: seq<Move>, t: Machine)
    requires Coherent(l, base, m) && RunTo(l, base, m, vs, t)
    ensures Retains(m, t) && Coherent(l, base, t)
    decreases |vs|
  {
    hide Possible, Moved, Valid, Retains, Plan, Run, Clean, Effect;
    if vs == [] {
      RetainsItself(l, base, m);
    } else {
      var n := Moved(l, base, m, vs[0]);
      MoveKeeps(l, base, m, vs[0]);
      MoveRetains(l, base, m, vs[0]);
      RunRetains(l, base, n, vs[1..], t);
      RetainsThrough(m, n, t);
    }
  }

  lemma RetainsItself(l: Layout, base: seq<Block>, m: Machine)
    requires Coherent(l, base, m)
    ensures Retains(m, m)
  {
  }

  /** Durability: when the last `end_op` out returns, all calls so far have ended, and
      whatever runs and fails after that, recovery gives the effect of a history that
      begins with all of theirs. */
  lemma EndIsDurable(l: Layout, base: seq<Block>, m0: Machine, before: seq<Move>, m: Machine,
                     later: seq<Move>, t: Machine, ks: seq<nat>)
    requires Started(l, base, m0) && RunTo(l, base, m0, before, m)
    requires Possible(l, base, m, Finish) && RunTo(l, base, Moved(l, base, m, Finish), later, t)
    ensures m.s.active == [] && |m.s.history| <= Kept(t) <= |t.s.history|
    ensures t.s.history[..|m.s.history|] == m.s.history
    ensures Recoverable(l, Attempts(l, t.disk, ks))
    ensures Clean(l, Recovered(l, Attempts(l, t.disk, ks)), Effect(base, t.s.history[..Kept(t)]))
  {
    hide Clean, Recoverable, Attempts, Recovered, Effect, RunTo, Started, Run, Plan, Covers;
    StartCoherent(l, base, m0);
    RunCoherent(l, base, m0, before, m);
    MoveKeeps(l, base, m, Finish);
    RunRetains(l, base, Moved(l, base, m, Finish), later, t);
    FailureLeads(l, base, t, ks);
    assert m.s.history[..|m.s.history|] == m.s.history;
  }
}

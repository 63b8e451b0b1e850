/** project3/log.c: `end_op` no longer commits. The log collects the blocks of many
    calls until `sync`, or until a call starts with NBUF or more blocks logged. Calls
    run one at a time and `sync` falls between them. */
module DeferredLog {
  import opened Words
  import opened GroupLog
  import opened Lists

  // the values of project3/param.h
  const NBUF: nat := MAXOPBLOCKS * 3
  const LOGBLOCKS: nat := MAXOPBLOCKS * 3 + 20

  /** `running` holds the distinct blocks the current call has logged. `ends` is the
      length of the history after each finished call. */
  datatype DState = DState(lh: seq<Word>, running: bool, blocks: set<Word>, history: seq<Rec>, ends: seq<nat>,
      committed: nat)

  const START := DState([], false, {}, [], [], 0)

  datatype DEvent = BeginOp | Modify(bno: Word, data: Block) | EndOp | Sync

  /** The wait of `begin_op`, tested before its `limit_check`. */
  predicate Waits(s: DState) {
    |s.lh| + (0 + 1) * MAXOPBLOCKS > LOGBLOCKS
  }

  predicate Overflows(s: DState, size: nat) {
    |s.lh| >= LOGBLOCKS || |s.lh| >= size - 1
  }

  predicate Permitted(s: DState, e: DEvent) {
    match e
    case BeginOp => !s.running
    case Modify(bno, _) => s.running && (bno in s.blocks || |s.blocks| < MAXOPBLOCKS)
    case EndOp => s.running
    case Sync => !s.running
  }

  function Committed(s: DState): DState {
    s.(lh := [], committed := |s.history|)
  }

  function Step(s: DState, e: DEvent): DState {
    match e
    case BeginOp =>
      var t := if |s.lh| >= NBUF then Committed(s) else s;
      t.(running := true, blocks := {})
    case Modify(bno, data) =>
      s.(lh := Absorb(s.lh, bno), blocks := s.blocks + {bno}, history := s.history + [Rec(|s.ends|, bno, data)])
    case EndOp => s.(running := false, ends := s.ends + [|s.history|])
    case Sync => Committed(s)
  }

  /** The end of the last finished call. */
  function LastEnd(s: DState): nat {
    if s.ends == [] then 0 else s.ends[|s.ends| - 1]
  }

  ghost predicate Sound(s: DState) {
    && NoRepeat(s.lh)
    && |s.lh| <= NBUF - 1 + MAXOPBLOCKS
    && (s.running ==> |s.lh| <= NBUF - 1 + |s.blocks| && |s.blocks| <= MAXOPBLOCKS)
    && (s.running ==> forall b :: b in s.blocks ==> b in s.lh)
    && (!s.running ==> LastEnd(s) == |s.history|)
    && LastEnd(s) <= |s.history|
    && (forall i, j :: 0 <= i < j < |s.ends| ==> s.ends[i] <= s.ends[j])
    && (s.committed == 0 || s.committed in s.ends)
    && s.committed <= LastEnd(s)
    && (forall i :: s.committed <= i < |s.history| ==> s.history[i].bno in s.lh)
  }

  lemma ModifyKeepsSound(s: DState, bno: Word, data: Block)
    requires Sound(s) && Permitted(s, Modify(bno, data))
    ensures Sound(Step(s, Modify(bno, data)))
  {
    if bno in s.blocks {
      assert s.blocks + {bno} == s.blocks;
    } else {
      assert |s.blocks + {bno}| == |s.blocks| + 1;
    }
  }

  lemma EndKeepsSound(s: DState)
    requires Sound(s) && s.running
    ensures Sound(Step(s, EndOp))
  {
    assert forall c :: c in s.ends ==> c in Step(s, EndOp).ends;
  }

  lemma StepKeepsSound(s: DState, e: DEvent)
    requires Sound(s) && Permitted(s, e)
    ensures Sound(Step(s, e))
  {
    match e
    case Modify(bno, data) => ModifyKeepsSound(s, bno, data);
    case EndOp => EndKeepsSound(s);
    case BeginOp =>
    case Sync =>
  }

  // ---- runs ----

  ghost predicate Allowed(s: DState, es: seq<DEvent>)
    decreases |es|
  {
    es == [] || (Permitted(s, es[0]) && Allowed(Step(s, es[0]), es[1..]))
  }

  ghost function Final(s: DState, es: seq<DEvent>): DState
    requires Allowed(s, es)
    decreases |es|
  {
    if es == [] then s else Final(Step(s, es[0]), es[1..])
  }

  lemma {:induction false} RunKeepsSound(s: DState, es: seq<DEvent>)
    requires Sound(s) && Allowed(s, es)
    ensures Sound(Final(s, es))
    decreases |es|
  {
    if es == [] {
    } else {
      StepKeepsSound(s, es[0]);
      RunKeepsSound(Step(s, es[0]), es[1..]);
    }
  }

  /** In every run of calls that each log at most MAXOPBLOCKS distinct blocks: the log
      never holds more than NBUF - 1 + MAXOPBLOCKS, so a call never has to wait for
      space and, with a region of more than NBUF + MAXOPBLOCKS blocks (mkfs makes it
      LOGBLOCKS), `log_write` never panics; and commits fall on call boundaries. */
  lemma EveryRun(es: seq<DEvent>, size: nat)
    requires Allowed(START, es) && size > NBUF + MAXOPBLOCKS
    ensures var s := Final(START, es);
      && |s.lh| <= NBUF - 1 + MAXOPBLOCKS
      && !Waits(s) && !Overflows(s, size)
      && (s.committed == 0 || s.committed in s.ends)
  {
    RunKeepsSound(START, es);
  }

  lemma {:induction false} AllowedAppend(s: DState, es: seq<DEvent>, e: DEvent)
    requires Allowed(s, es) && Permitted(Final(s, es), e)
    ensures Allowed(s, es + [e]) && Final(s, es + [e]) == Step(Final(s, es), e)
    decreases |es|
  {
    if es == [] {
      assert [e][1..] == [];
    } else {
      assert (es + [e])[0] == es[0] && (es + [e])[1..] == es[1..] + [e];
      AllowedAppend(Step(s, es[0]), es[1..], e);
    }
  }

  /** Calls that log 10, 10, 9 and 10 fresh blocks, just before fresh block `m`. */
  ghost predicate Filling(s: DState, m: nat) {
    && s.running && |s.lh| == m && Sound(s)
    && (forall b :: 0 <= b < 40 ==> (b in s.lh <==> b < m))
    && |s.blocks| == m - (if m < 10 then 0 else if m < 20 then 10 else if m < 29 then 20 else 29)
  }

  /** One fresh block is logged, the `m`th. */
  lemma FillOne(s: DState, m: nat)
    requires Filling(s, m) && m < 39
    ensures var e := Modify(m, ZeroBlock());
      && Permitted(s, e) && Sound(Step(s, e)) && Step(s, e).running && |Step(s, e).lh| == m + 1
      && (forall b :: 0 <= b < 40 ==> (b in Step(s, e).lh <==> b < m + 1)) && |Step(s, e).blocks| == |s.blocks| + 1
  {
    var e := Modify(m, ZeroBlock());
    StepKeepsSound(s, e);
    assert |s.blocks + {e.bno}| == |s.blocks| + 1;
  }

  /** A call ends, and the next begins. */
  lemma FillCall(s: DState)
    requires Sound(s) && s.running
    ensures var t := Step(s, EndOp);
      && Permitted(s, EndOp) && Permitted(t, BeginOp) && Sound(Step(t, BeginOp))
      && Step(t, BeginOp).running && Step(t, BeginOp).blocks == {} && (|s.lh| < NBUF ==> Step(t, BeginOp).lh == s.lh)
  {
    StepKeepsSound(s, EndOp);
    StepKeepsSound(Step(s, EndOp), BeginOp);
  }

  lemma {:induction false} FillTo(m: nat) returns (es: seq<DEvent>)
    requires m <= 39
    ensures Allowed(START, es) && Filling(Final(START, es), m)
  {
    hide Sound, Step, Permitted;
    if m == 0 {
      es := [];
      FillStart();
      AllowedAppend(START, es, BeginOp);
      es := es + [BeginOp];
    } else {
      es := FillTo(m - 1);
      FillOne(Final(START, es), m - 1);
      AllowedAppend(START, es, Modify(m - 1, ZeroBlock()));
      es := es + [Modify(m - 1, ZeroBlock())];
      if m == 10 || m == 20 || m == 29 {
        FillCall(Final(START, es));
        AllowedAppend(START, es, EndOp);
        es := es + [EndOp];
        AllowedAppend(START, es, BeginOp);
        es := es + [BeginOp];
      }
    }
  }

  lemma FillStart()
    ensures Permitted(START, BeginOp) && Filling(Step(START, BeginOp), 0)
  {
  }

  ghost predicate Occurs(s: DState) {
    exists es :: Allowed(START, es) && Final(START, es) == s
  }

  /** The bound is exact: no permitted run can make `log_write` panic if and only if
      the region is larger than NBUF + MAXOPBLOCKS blocks. */
  lemma OverflowExactly(size: nat)
    ensures (forall s :: Occurs(s) ==> !Overflows(s, size)) <==> size > NBUF + MAXOPBLOCKS
  {
    if size > NBUF + MAXOPBLOCKS {
      forall s | Occurs(s)
        ensures !Overflows(s, size)
      {
        var es :| Allowed(START, es) && Final(START, es) == s;
        EveryRun(es, size);
      }
    } else {
      var es := FillTo(39);
      assert Occurs(Final(START, es)) && Overflows(Final(START, es), size);
    }
  }

  // ---- what a run has logged ----

  function Modifies(es: seq<DEvent>): nat {
    if es == [] then 0 else (if es[0].Modify? then 1 else 0) + Modifies(es[1..])
  }

  function Ended(es: seq<DEvent>): nat {
    if es == [] then 0 else (if es[0].EndOp? then 1 else 0) + Ended(es[1..])
  }

  lemma {:induction false} RunGrows(s: DState, es: seq<DEvent>)
    requires Allowed(s, es)
    ensures var t := Final(s, es);
      && |t.history| == |s.history| + Modifies(es) && s.history <= t.history
      && |t.ends| == |s.ends| + Ended(es) && s.ends <= t.ends
    decreases |es|
  {
    if es == [] {
    } else {
      RunGrows(Step(s, es[0]), es[1..]);
    }
  }

  lemma {:induction false} AllowedSplit(s: DState, es: seq<DEvent>, more: seq<DEvent>)
    requires Allowed(s, es + more)
    ensures Allowed(s, es) && Allowed(Final(s, es), more) && Final(s, es + more) == Final(Final(s, es), more)
    decreases |es|
  {
    if es == [] {
      assert es + more == more;
    } else {
      assert (es + more)[0] == es[0] && (es + more)[1..] == es[1..] + more;
      AllowedSplit(Step(s, es[0]), es[1..], more);
    }
  }

  predicate At<T(==)>(q: seq<T>, k: nat, x: T) {
    k < |q| && q[k] == x
  }

  /** However a run goes on, each of its log writes stays in the history, in its turn and
      under the number of its call; and so does the end of each call. */
  lemma EveryWriteLogged(before: seq<DEvent>, e: DEvent, more: seq<DEvent>)
    requires Allowed(START, before + ([e] + more))
    ensures e.Modify? ==> At(Final(START, before + ([e] + more)).history, Modifies(before),
      Rec(Ended(before), e.bno, e.data))
    ensures e.EndOp? ==> At(Final(START, before + ([e] + more)).ends, Ended(before), Modifies(before))
  {
    AllowedSplit(START, before, [e] + more);
    var s := Final(START, before);
    RunGrows(START, before);
    assert ([e] + more)[1..] == more;
    RunGrows(Step(s, e), more);
    var t := Final(Step(s, e), more);
    if e.Modify? {
      assert Step(s, e).history[|s.history|] == t.history[|s.history|];
    } else if e.EndOp? {
      assert Step(s, e).ends[|s.ends|] == t.ends[|s.ends|];
    }
  }

  // ---- the code ----

  class Log {
    var n: nat                     // lh.n
    const block: array<Word>       // lh.block
    const size: nat                // log.size, from the superblock
    var outstanding: nat
    var committing: bool
    var dirtyNum: nat
    ghost var s: DState

    ghost predicate Consistent()
      reads this, block
    {
      && block.Length == LOGBLOCKS && size > NBUF + MAXOPBLOCKS
      && n <= LOGBLOCKS && block[..n] == s.lh
      && outstanding == (if s.running then 1 else 0) && !committing && dirtyNum == 0
      && Sound(s)
    }

    constructor (size: nat)
      requires size > NBUF + MAXOPBLOCKS
      ensures Consistent() && s == START
    {
      block := new Word[LOGBLOCKS](i => 0);
      this.size := size;
      n, outstanding, committing, dirtyNum := 0, 0, false, 0;
      s := START;
    }

    /** What `commit` does to the fields; `write_log` counts the blocks it copies, all
        of which `log_write` marked dirty. */
    method CommitFields()
      modifies this`n, this`dirtyNum
      ensures n == 0 && dirtyNum == old(dirtyNum) + old(n)
    {
      if n > 0 {
        dirtyNum := dirtyNum + n;
        n := 0;
      }
    }

    method LimitCheck()
      requires Consistent() && !s.running
      modifies this
      ensures Consistent() && s == if |old(s).lh| >= NBUF then Committed(old(s)) else old(s)
    {
      if n >= NBUF {
        committing := true;
        CommitFields();
        committing := false;
        dirtyNum := 0;
        StepKeepsSound(s, Sync);
        s := Committed(s);
      }
    }

    /** `begin_op` never waits, and first commits when the log has grown too far. */
    method Begin() returns (waits: bool)
      requires Consistent() && Permitted(s, BeginOp)
      modifies this
      ensures Consistent() && !waits && s == Step(old(s), BeginOp)
    {
      if committing {
        return true;
      } else if n + (outstanding + 1) * MAXOPBLOCKS > LOGBLOCKS {
        return true;
      } else {
        StepKeepsSound(s, BeginOp);
        if outstanding == 0 {
          LimitCheck();
        }
        outstanding := outstanding + 1;
        s := s.(running := true, blocks := {});
        return false;
      }
    }

    method End()
      requires Consistent() && Permitted(s, EndOp)
      modifies this
      ensures Consistent() && s == Step(old(s), EndOp)
    {
      outstanding := outstanding - 1;
      assert !committing;
      StepKeepsSound(s, EndOp);
      s := Step(s, EndOp);
    }

    /** `log_write`; the panic in it is never reached. */
    method LogWrite(bno: Word, ghost data: Block) returns (ok: bool)
      requires Consistent() && Permitted(s, Modify(bno, data))
      modifies this, block
      ensures Consistent() && ok && s == Step(old(s), Modify(bno, data))
    {
      hide Sound, Step, Permitted, Absorb;
      ghost var t := Step(s, Modify(bno, data));
      ModifyFacts(s, bno, data);
      if n >= LOGBLOCKS || n >= size - 1 {
        return false;
      }
      var j := 0;
      while j < n
        invariant 0 <= j <= n
        invariant forall k :: 0 <= k < j ==> block[k] != bno
      {
        if block[j] == bno {
          break;
        }
        j := j + 1;
      }
      AbsorbAt(s.lh, bno, j);
      block[j] := bno;
      if j == n {
        n := n + 1;
      }
      s := t;
      return true;
    }

    /** `sync` returns how many blocks it brought to disk. */
    method SysSync() returns (r: nat)
      requires Consistent() && Permitted(s, Sync)
      modifies this
      ensures Consistent() && s == Step(old(s), Sync) && r == |old(s).lh|
    {
      committing := true;
      CommitFields();
      committing := false;
      r := dirtyNum;
      dirtyNum := 0;
      StepKeepsSound(s, Sync);
      s := Step(s, Sync);
    }
  }

  lemma ModifyFacts(s: DState, bno: Word, data: Block)
    requires Sound(s) && Permitted(s, Modify(bno, data))
    ensures var t := Step(s, Modify(bno, data));
      && Sound(t) && s.running && t.running && t.lh == Absorb(s.lh, bno) && |s.lh| < NBUF + MAXOPBLOCKS
  {
    StepKeepsSound(s, Modify(bno, data));
  }

  /** Where the search for the block number ends. */
  lemma AbsorbAt(lh: seq<Word>, bno: Word, j: nat)
    requires j <= |lh| && (forall k :: 0 <= k < j ==> lh[k] != bno) && (j < |lh| ==> lh[j] == bno)
    ensures |Absorb(lh, bno)| == (if j == |lh| then |lh| + 1 else |lh|)
    ensures forall k :: 0 <= k < |Absorb(lh, bno)| ==> Absorb(lh, bno)[k] == if k == j then bno else lh[k]
  {
  }
}

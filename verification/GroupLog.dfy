/** project1/log.c: file system calls run concurrently between `begin_op` and
    `end_op`; the last one out commits for all. Every section under `log.lock` is
    one step, and the steps of any number of calls interleave freely. */
module GroupLog {
  import opened Words
  import opened CrashLog
  import opened Lists

  const MAXOPBLOCKS: nat := 10
  const LOGSIZE: nat := MAXOPBLOCKS * 3

  /** A call between its `begin_op` and `end_op`, with the distinct blocks it logged. */
  datatype Op = Op(id: nat, blocks: set<Word>)

  /** One `log_write`: which call, which block, with what contents. */
  datatype Rec = Rec(op: nat, bno: Word, data: Block)

  /** `lh`, `|active|` and `committing` are the fields of `struct log`. `history` is
      everything ever logged and `committed` how much of it a commit has covered. */
  datatype State = State(lh: seq<Word>, active: seq<Op>, committing: bool, nextId: nat, history: seq<Rec>,
      committed: nat)

  const INIT := State([], [], false, 0, [], 0)

  datatype Event = Begin | LogWrite(i: nat, bno: Word, data: Block) | End(i: nat) | Commit

  /** `begin_op` gets past its wait. */
  predicate Admits(s: State) {
    !s.committing && |s.lh| + (|s.active| + 1) * MAXOPBLOCKS <= LOGSIZE
  }

  /** `log_write` panics; `size` is `log.size`. */
  predicate TooBig(s: State, size: nat) {
    |s.lh| >= LOGSIZE || |s.lh| >= size - 1
  }

  /** `log_write` by call `i`, within its allowance of MAXOPBLOCKS distinct blocks. */
  predicate MayLog(s: State, i: nat, bno: Word) {
    i < |s.active| && (bno in s.active[i].blocks || |s.active[i].blocks| < MAXOPBLOCKS)
  }

  predicate Enabled(s: State, size: nat, e: Event) {
    match e
    case Begin => Admits(s)
    case LogWrite(i, bno, _) => MayLog(s, i, bno) && !TooBig(s, size)
    case End(i) => i < |s.active| && !s.committing
    case Commit => s.committing
  }

  function Absorb(lh: seq<Word>, bno: Word): (r: seq<Word>) {
    if bno in lh then lh else lh + [bno]
  }

  function Next(s: State, e: Event): State
    requires e.LogWrite? || e.End? ==> e.i < |s.active|
  {
    match e
    case Begin => s.(active := s.active + [Op(s.nextId, {})], nextId := s.nextId + 1)
    case LogWrite(i, bno, data) =>
      var o := s.active[i];
      s.(lh := Absorb(s.lh, bno),
         active := s.active[i := Op(o.id, o.blocks + {bno})],
         history := s.history + [Rec(o.id, bno, data)])
    case End(i) =>
      s.(active := s.active[..i] + s.active[i + 1..], committing := |s.active| == 1)
    case Commit =>
      s.(lh := [], committing := false, committed := |s.history|)
  }

  /** Log blocks the active calls may still use. */
  function Unspent(ops: seq<Op>): int {
    if ops == [] then 0 else Unspent(ops[..|ops| - 1]) + MAXOPBLOCKS - |ops[|ops| - 1].blocks|
  }

  ghost predicate DistinctIds(ops: seq<Op>) {
    forall i, j :: 0 <= i < j < |ops| ==> ops[i].id != ops[j].id
  }

  /** No active call has any write in the committed part, and no call has writes on
      both sides: what is committed is a set of whole, finished calls. */
  ghost predicate WholeCalls(s: State) {
    && s.committed <= |s.history|
    && (forall i, o :: 0 <= i < s.committed && o in s.active ==> s.history[i].op != o.id)
    && (forall i, j :: 0 <= i < s.committed <= j < |s.history| ==> s.history[i].op != s.history[j].op)
  }

  ghost predicate Valid(s: State, size: nat) {
    && |s.lh| + Unspent(s.active) <= LOGSIZE
    && (s.lh == [] || |s.lh| <= size - 1)
    && (forall o :: o in s.active ==> |o.blocks| <= MAXOPBLOCKS && o.id < s.nextId)
    && (forall o, b :: o in s.active && b in o.blocks ==> b in s.lh)
    && DistinctIds(s.active)
    && NoRepeat(s.lh)
    && (s.committing ==> s.active == [])
    && (s.active == [] && !s.committing ==> s.lh == [] && s.committed == |s.history|)
    && (forall i :: 0 <= i < |s.history| ==> s.history[i].op < s.nextId)
    && (forall i :: s.committed <= i < |s.history| ==> s.history[i].bno in s.lh)
    && WholeCalls(s)
  }

  // ---- reservations ----

  lemma {:induction false} UnspentAppend(ops: seq<Op>, o: Op)
    ensures Unspent(ops + [o]) == Unspent(ops) + MAXOPBLOCKS - |o.blocks|
  {
    assert (ops + [o])[..|ops|] == ops;
  }

  lemma {:induction false} UnspentUpdate(ops: seq<Op>, i: nat, o: Op)
    requires i < |ops|
    ensures Unspent(ops[i := o]) == Unspent(ops) + |ops[i].blocks| - |o.blocks|
    decreases |ops|
  {
    var last := |ops| - 1;
    if i == last {
      assert ops[i := o][..last] == ops[..last];
    } else {
      UnspentUpdate(ops[..last], i, o);
      assert ops[i := o][..last] == ops[..last][i := o];
    }
  }

  lemma {:induction false} UnspentRemove(ops: seq<Op>, i: nat)
    requires i < |ops|
    ensures Unspent(ops[..i] + ops[i + 1..]) == Unspent(ops) - MAXOPBLOCKS + |ops[i].blocks|
    decreases |ops|
  {
    var last := |ops| - 1;
    var rest := ops[..i] + ops[i + 1..];
    if i == last {
      assert rest == ops[..last];
    } else {
      UnspentRemove(ops[..last], i);
      assert rest[..|rest| - 1] == ops[..last][..i] + ops[..last][i + 1..];
      assert rest[|rest| - 1] == ops[last];
    }
  }

  lemma {:induction false} UnspentAtMost(ops: seq<Op>)
    ensures Unspent(ops) <= MAXOPBLOCKS * |ops|
    decreases |ops|
  {
    if ops == [] {
    } else {
      UnspentAtMost(ops[..|ops| - 1]);
    }
  }

  lemma {:induction false} UnspentAtLeast(ops: seq<Op>, i: nat)
    requires i < |ops| && forall o :: o in ops ==> |o.blocks| <= MAXOPBLOCKS
    ensures 0 <= Unspent(ops) && MAXOPBLOCKS - |ops[i].blocks| <= Unspent(ops)
    decreases |ops|
  {
    var last := |ops| - 1;
    if |ops| == 1 {
    } else {
      UnspentAtLeast(ops[..last], if i < last then i else 0);
    }
  }

  // ---- the invariant over all interleavings ----

  lemma BeginKeepsValid(s: State, size: nat)
    requires Valid(s, size) && Admits(s)
    ensures Valid(Next(s, Begin), size)
  {
    hide Unspent, NoRepeat;
    UnspentAppend(s.active, Op(s.nextId, {}));
    UnspentAtMost(s.active);
  }

  lemma LogWriteKeepsValid(s: State, size: nat, i: nat, bno: Word, data: Block)
    requires Valid(s, size) && MayLog(s, i, bno) && !TooBig(s, size)
    ensures Valid(Next(s, LogWrite(i, bno, data)), size)
  {
    hide Unspent;
    var o := s.active[i];
    UnspentUpdate(s.active, i, Op(o.id, o.blocks + {bno}));
    if bno in o.blocks {
      assert o.blocks + {bno} == o.blocks;
    } else {
      assert |o.blocks + {bno}| == |o.blocks| + 1;
    }
    var t := Next(s, LogWrite(i, bno, data));
    assert forall o :: o in t.active ==> o in s.active || o == t.active[i];
  }

  lemma RemovedIds(ops: seq<Op>, i: nat)
    requires DistinctIds(ops) && i < |ops|
    ensures DistinctIds(ops[..i] + ops[i + 1..])
    ensures forall o :: o in ops[..i] + ops[i + 1..] ==> o in ops
  {
    var rest := ops[..i] + ops[i + 1..];
    forall a, b | 0 <= a < b < |rest|
      ensures rest[a].id != rest[b].id
    {
      assert rest[a] == ops[if a < i then a else a + 1] && rest[b] == ops[if b < i then b else b + 1];
    }
  }

  lemma EndKeepsValid(s: State, size: nat, i: nat)
    requires Valid(s, size) && i < |s.active| && !s.committing
    ensures Valid(Next(s, End(i)), size)
  {
    hide Unspent, DistinctIds, NoRepeat;
    UnspentRemove(s.active, i);
    RemovedIds(s.active, i);
  }

  /** Every step of every interleaving keeps the invariant. In particular the log
      entries plus all unspent reservations fit in the log, so no call can make
      another one run out of space. */
  lemma StepKeepsValid(s: State, size: nat, e: Event)
    requires Valid(s, size) && Enabled(s, size, e)
    ensures Valid(Next(s, e), size)
  {
    match e
    case Begin => BeginKeepsValid(s, size);
    case LogWrite(i, bno, data) => LogWriteKeepsValid(s, size, i, bno, data);
    case End(i) => EndKeepsValid(s, size, i);
    case Commit =>
  }

  // ---- runs ----

  ghost predicate Legal(s: State, size: nat, es: seq<Event>)
    decreases |es|
  {
    es == [] || (Enabled(s, size, es[0]) && Legal(Next(s, es[0]), size, es[1..]))
  }

  ghost function After(s: State, size: nat, es: seq<Event>): State
    requires Legal(s, size, es)
    decreases |es|
  {
    if es == [] then s else After(Next(s, es[0]), size, es[1..])
  }

  ghost predicate Reachable(s: State, size: nat) {
    exists es :: Legal(INIT, size, es) && After(INIT, size, es) == s
  }

  lemma {:induction false} RunKeepsValid(s: State, size: nat, es: seq<Event>)
    requires Valid(s, size) && Legal(s, size, es)
    ensures Valid(After(s, size, es), size)
    decreases |es|
  {
    if es == [] {
    } else {
      StepKeepsValid(s, size, es[0]);
      RunKeepsValid(Next(s, es[0]), size, es[1..]);
    }
  }

  /** What holds in every state any interleaving can reach: reservations are never
      overdrawn, logged numbers are distinct and stay inside the log region, what is
      committed is a set of whole calls, and with no call active and no commit under way
      everything is committed: the last call out commits. */
  lemma ReachableValid(s: State, size: nat)
    requires Reachable(s, size)
    ensures Valid(s, size)
    ensures |s.lh| + Unspent(s.active) <= LOGSIZE && 0 <= Unspent(s.active)
    ensures NoRepeat(s.lh) && (s.lh == [] || |s.lh| <= size - 1)
    ensures WholeCalls(s)
    ensures s.active == [] && !s.committing ==> s.lh == [] && s.committed == |s.history|
  {
    var es :| Legal(INIT, size, es) && After(INIT, size, es) == s;
    RunKeepsValid(INIT, size, es);
    if s.active != [] {
      UnspentAtLeast(s.active, 0);
    }
  }

  lemma {:induction false} LegalAppend(s: State, size: nat, es: seq<Event>, e: Event)
    requires Legal(s, size, es) && Enabled(After(s, size, es), size, e)
    ensures Legal(s, size, es + [e]) && After(s, size, es + [e]) == Next(After(s, size, es), e)
    decreases |es|
  {
    if es == [] {
      assert [e][1..] == [];
    } else {
      assert (es + [e])[0] == es[0] && (es + [e])[1..] == es[1..] + [e];
      LegalAppend(Next(s, es[0]), size, es[1..], e);
    }
  }

  // ---- what a run has logged, and who is active ----

  /** How many of the events are log writes. */
  function LogWrites(es: seq<Event>): nat {
    if es == [] then 0 else (if es[0].LogWrite? then 1 else 0) + LogWrites(es[1..])
  }

  lemma {:induction false} HistoryGrows(s: State, size: nat, es: seq<Event>)
    requires Legal(s, size, es)
    ensures |After(s, size, es).history| == |s.history| + LogWrites(es) && s.history <= After(s, size, es).history
    decreases |es|
  {
    if es == [] {
    } else {
      HistoryGrows(Next(s, es[0]), size, es[1..]);
    }
  }

  lemma {:induction false} LegalSplit(s: State, size: nat, es: seq<Event>, more: seq<Event>)
    requires Legal(s, size, es + more)
    ensures Legal(s, size, es) && Legal(After(s, size, es), size, more)
    ensures After(s, size, es + more) == After(After(s, size, es), size, more)
    decreases |es|
  {
    if es == [] {
      assert es + more == more;
    } else {
      assert (es + more)[0] == es[0] && (es + more)[1..] == es[1..] + more;
      LegalSplit(Next(s, es[0]), size, es[1..], more);
    }
  }

  /** However a run goes on, each of its log writes stays in the history, at the place
      that its turn gave it, with the call that made it. */
  lemma EveryWriteLogged(size: nat, before: seq<Event>, e: Event, more: seq<Event>)
    requires e.LogWrite? && Legal(INIT, size, before + ([e] + more))
    ensures Legal(INIT, size, before) && e.i < |After(INIT, size, before).active|
    ensures var h := After(INIT, size, before + ([e] + more)).history;
      && |h| == LogWrites(before) + 1 + LogWrites(more)
      && h[LogWrites(before)] == Rec(After(INIT, size, before).active[e.i].id, e.bno, e.data)
  {
    LegalSplit(INIT, size, before, [e] + more);
    var s := After(INIT, size, before);
    HistoryGrows(INIT, size, before);
    assert ([e] + more)[1..] == more;
    HistoryGrows(Next(s, e), size, more);
    assert Next(s, e).history[|s.history|] == After(Next(s, e), size, more).history[|s.history|];
  }

  ghost predicate Active(ops: seq<Op>, id: nat) {
    exists i :: 0 <= i < |ops| && ops[i].id == id
  }

  lemma ActiveAppend(ops: seq<Op>, o: Op, id: nat)
    ensures Active(ops + [o], id) <==> Active(ops, id) || o.id == id
  {
    assert (ops + [o])[|ops|] == o;
    if Active(ops, id) {
      var j :| 0 <= j < |ops| && ops[j].id == id;
      assert (ops + [o])[j].id == id;
    }
  }

  lemma ActiveUpdate(ops: seq<Op>, i: nat, o: Op, id: nat)
    requires i < |ops| && o.id == ops[i].id
    ensures Active(ops[i := o], id) <==> Active(ops, id)
  {
    assert forall j :: 0 <= j < |ops| ==> ops[i := o][j].id == ops[j].id;
  }

  lemma ActiveRemove(ops: seq<Op>, i: nat, id: nat)
    requires i < |ops| && DistinctIds(ops)
    ensures Active(ops[..i] + ops[i + 1..], id) <==> Active(ops, id) && ops[i].id != id
  {
    var rest := ops[..i] + ops[i + 1..];
    if Active(ops, id) && ops[i].id != id {
      var j :| 0 <= j < |ops| && ops[j].id == id;
      assert rest[if j > i then j - 1 else j].id == id;
    }
    if Active(rest, id) {
      var j :| 0 <= j < |rest| && rest[j].id == id;
      assert ops[if j >= i then j + 1 else j].id == id;
    }
  }

  /** A call is active from its `begin_op` to its own `end_op`, whatever others do. */
  lemma ActiveUntilEnd(s: State, size: nat, e: Event, id: nat)
    requires Valid(s, size) && Enabled(s, size, e)
    ensures Active(Next(s, e).active, id) <==>
      (e.Begin? && id == s.nextId) || (Active(s.active, id) && !(e.End? && s.active[e.i].id == id))
  {
    hide Active, Unspent, WholeCalls;
    match e
    case Begin => ActiveAppend(s.active, Op(s.nextId, {}), id);
    case LogWrite(i, _, _) => ActiveUpdate(s.active, i, Next(s, e).active[i], id);
    case End(i) => ActiveRemove(s.active, i, id);
    case Commit =>
  }

  // ---- when log_write panics ----

  /** A state the run "three calls begin, then log blocks 0, 1, 2, ..., ten each" is in
      after `m` log writes. */
  ghost predicate Filled(s: State, m: nat) {
    && |s.active| == 3 && !s.committing && |s.lh| == m
    && (forall b :: 0 <= b < 30 ==> (b in s.lh <==> b < m))
    && (forall k, b :: 0 <= k < 3 && b in s.active[k].blocks ==> b < m)
    && (forall k :: 0 <= k < 3 ==>
          |s.active[k].blocks| == if m <= 10 * k then 0 else if m >= 10 * k + 10 then 10 else m - 10 * k)
  }

  lemma {:induction false} Fill(m: nat, size: nat) returns (es: seq<Event>)
    requires m <= LOGSIZE && (m == 0 || m <= size - 1)
    ensures Legal(INIT, size, es) && Filled(After(INIT, size, es), m)
  {
    if m == 0 {
      es := [];
      LegalAppend(INIT, size, es, Begin);
      es := es + [Begin];
      LegalAppend(INIT, size, es, Begin);
      es := es + [Begin];
      LegalAppend(INIT, size, es, Begin);
      es := es + [Begin];
    } else {
      es := Fill(m - 1, size);
      var s := After(INIT, size, es);
      var e := LogWrite((m - 1) / 10, m - 1, ZeroBlock());
      assert |s.active[e.i].blocks| < MAXOPBLOCKS;
      LegalAppend(INIT, size, es, e);
      assert |s.active[e.i].blocks + {e.bno}| == |s.active[e.i].blocks| + 1;
      es := es + [e];
    }
  }

  /** A call that has allowance left can log without panic in every reachable state
      exactly when the log region has more than LOGSIZE blocks. mkfs makes it LOGSIZE
      blocks (header included), so the shipped configuration does not meet this. */
  lemma AllowanceIsSafe(size: nat)
    ensures (forall s, i :: Reachable(s, size) && 0 <= i < |s.active| && |s.active[i].blocks| < MAXOPBLOCKS
                 ==> !TooBig(s, size))
       <==> size > LOGSIZE
  {
    if size > LOGSIZE {
      forall s, i | Reachable(s, size) && 0 <= i < |s.active| && |s.active[i].blocks| < MAXOPBLOCKS
        ensures !TooBig(s, size)
      {
        ReachableValid(s, size);
        UnspentAtLeast(s.active, i);
      }
    } else {
      var m := if size == 0 then 0 else size - 1;
      var es := Fill(m, size);
      var s := After(INIT, size, es);
      assert Reachable(s, size) && TooBig(s, size) && |s.active[2].blocks| < MAXOPBLOCKS;
    }
  }

  /** With any larger region a call that used up its allowance can still panic on a
      block that is already in the log, because the size check comes before
      absorption. */
  lemma AbsorbedWriteCanPanic(size: nat) returns (s: State, b: Word)
    requires size > LOGSIZE
    ensures Reachable(s, size) && MayLog(s, 0, b) && b in s.lh && TooBig(s, size)
  {
    var es := Fill(LOGSIZE, size);
    s := After(INIT, size, es);
    ReachableValid(s, size);
    assert |s.active[0].blocks| == 10;
    b :| b in s.active[0].blocks;
  }

  // ---- when begin_op waits ----

  /** Calls go on logging, each within its allowance. */
  ghost predicate Uses(s: State, ws: seq<Event>)
    decreases |ws|
  {
    ws == [] || (ws[0].LogWrite? && MayLog(s, ws[0].i, ws[0].bno) && Uses(Next(s, ws[0]), ws[1..]))
  }

  ghost function Used(s: State, ws: seq<Event>): State
    requires Uses(s, ws)
    decreases |ws|
  {
    if ws == [] then s else Used(Next(s, ws[0]), ws[1..])
  }

  /** The active calls may fill the log to more than it can hold. */
  ghost predicate MayOverflow(s: State) {
    exists ws :: Uses(s, ws) && |Used(s, ws).lh| > LOGSIZE
  }

  /** The active calls keep within their allowances, and what they have logged is in the log. */
  ghost predicate Reserved(s: State) {
    && (forall o :: o in s.active ==> |o.blocks| <= MAXOPBLOCKS)
    && (forall o, b :: o in s.active && b in o.blocks ==> b in s.lh)
  }

  lemma UseStep(s: State, i: nat, bno: Word, data: Block)
    requires Reserved(s) && MayLog(s, i, bno)
    ensures var t := Next(s, LogWrite(i, bno, data));
      && Reserved(t) && |t.lh| + Unspent(t.active) <= |s.lh| + Unspent(s.active)
      && (bno !in s.lh ==> |t.lh| == |s.lh| + 1 && Unspent(t.active) == Unspent(s.active) - 1)
  {
    hide Unspent;
    var o := s.active[i];
    var t := Next(s, LogWrite(i, bno, data));
    UnspentUpdate(s.active, i, t.active[i]);
    if bno in o.blocks {
      assert o.blocks + {bno} == o.blocks;
    } else {
      assert |o.blocks + {bno}| == |o.blocks| + 1;
    }
    assert forall p :: p in t.active ==> p in s.active || p == t.active[i];
  }

  /** No use of the reservations takes more than the unspent ones. */
  lemma {:induction false} UseBounded(s: State, ws: seq<Event>)
    requires Reserved(s) && Uses(s, ws)
    ensures |Used(s, ws).lh| <= |s.lh| + Unspent(s.active)
    decreases |ws|
  {
    if ws == [] {
      if s.active == [] {
      } else {
        UnspentAtLeast(s.active, 0);
      }
    } else {
      UseStep(s, ws[0].i, ws[0].bno, ws[0].data);
      UseBounded(Next(s, ws[0]), ws[1..]);
    }
  }

  /** Some use of them takes all. */
  lemma {:induction false} UseAll(s: State) returns (ws: seq<Event>)
    requires Reserved(s) && |s.lh| + Unspent(s.active) < 0x1_0000_0000
    ensures Uses(s, ws) && |Used(s, ws).lh| == |s.lh| + Unspent(s.active)
    decreases Unspent(s.active)
  {
    if Unspent(s.active) <= 0 {
      ws := [];
      if s.active != [] {
        UnspentAtLeast(s.active, 0);
      }
    } else {
      var i := SomeUnspent(s.active);
      var bno := Fresh(s.lh);
      UseStep(s, i, bno, ZeroBlock());
      var e := LogWrite(i, bno, ZeroBlock());
      var rest := UseAll(Next(s, e));
      ws := [e] + rest;
      assert ws[1..] == rest;
    }
  }

  lemma {:induction false} SomeUnspent(ops: seq<Op>) returns (i: nat)
    requires Unspent(ops) > 0
    ensures i < |ops| && |ops[i].blocks| < MAXOPBLOCKS
    decreases |ops|
  {
    i := |ops| - 1;
    if |ops[i].blocks| >= MAXOPBLOCKS {
      i := SomeUnspent(ops[..|ops| - 1]);
    }
  }

  /** A block number that is not in the log. */
  lemma Fresh(lh: seq<Word>) returns (b: Word)
    requires |lh| < 0x1_0000_0000
    ensures b !in lh
  {
    var used: set<int> := set i | 0 <= i < |lh| :: lh[i] as int;
    ElementsBound(lh);
    b := FreshBelow(used, |lh| + 1);
    assert b in lh ==> b in used;
  }

  lemma {:induction false} ElementsBound(lh: seq<Word>)
    ensures |set i | 0 <= i < |lh| :: lh[i] as int| <= |lh|
  {
    var used: set<int> := set i | 0 <= i < |lh| :: lh[i] as int;
    if lh == [] {
      assert used == {};
    } else {
      var last := |lh| - 1;
      var rest: set<int> := set i | 0 <= i < |lh[..last]| :: lh[..last][i] as int;
      ElementsBound(lh[..last]);
      assert used == rest + {lh[last] as int};
    }
  }

  lemma {:induction false} FreshBelow(used: set<int>, n: nat) returns (b: nat)
    requires |used| < n
    ensures b < n && b !in used
  {
    b := n - 1;
    if b in used {
      b := FreshBelow(used - {n - 1}, n - 1);
    }
  }

  /** The blocks the active calls have logged, each call counted by itself. */
  function Logged(ops: seq<Op>): nat {
    if ops == [] then 0 else Logged(ops[..|ops| - 1]) + |ops[|ops| - 1].blocks|
  }

  lemma {:induction false} UnspentLogged(ops: seq<Op>)
    ensures Unspent(ops) + Logged(ops) == |ops| * MAXOPBLOCKS
    decreases |ops|
  {
    if ops == [] {
    } else {
      UnspentLogged(ops[..|ops| - 1]);
    }
  }

  /** A call is let in only if no use of all reservations, its own too, can overflow the
      log. But the test counts the reservation of an active call in full, also the part
      that is in the log by now: it makes a call wait that would do no harm exactly where
      what the active calls have logged makes the difference. */
  lemma WaitsExactly(s: State, size: nat)
    requires Valid(s, size) && !s.committing
    ensures MayOverflow(Next(s, Begin)) <==> |s.lh| + Unspent(s.active) + MAXOPBLOCKS > LOGSIZE
    ensures Admits(s) <==> |s.lh| + Unspent(s.active) + MAXOPBLOCKS + Logged(s.active) <= LOGSIZE
    ensures Logged(s.active) == 0 ==> (Admits(s) <==> !MayOverflow(Next(s, Begin)))
    ensures Admits(s) ==> !MayOverflow(Next(s, Begin))
  {
    hide Unspent, Logged;
    var t := Next(s, Begin);
    UnspentAppend(s.active, Op(s.nextId, {}));
    UnspentLogged(s.active);
    if MayOverflow(t) {
      var ws :| Uses(t, ws) && |Used(t, ws).lh| > LOGSIZE;
      UseBounded(t, ws);
    }
    var ws := UseAll(t);
  }

  /** Such a state: two calls are active, and one of them has logged a block. */
  lemma WaitsNeedlessly(size: nat) returns (s: State)
    requires size > 1
    ensures Reachable(s, size) && !s.committing && !Admits(s) && !MayOverflow(Next(s, Begin))
  {
    var es: seq<Event> := [];
    LegalAppend(INIT, size, es, Begin);
    es := es + [Begin];
    LegalAppend(INIT, size, es, Begin);
    es := es + [Begin];
    var e := LogWrite(0, 0, ZeroBlock());
    LegalAppend(INIT, size, es, e);
    es := es + [e];
    s := After(INIT, size, es);
    assert s.lh == [0] && s.active == [Op(0, {0}), Op(1, {})];
    assert Reachable(s, size);
    UnspentAppend([Op(0, {0})], Op(1, {}));
    UnspentAppend([], Op(0, {0}));
    assert [Op(0, {0})] + [Op(1, {})] == s.active && [] + [Op(0, {0})] == [Op(0, {0})];
    ReachableValid(s, size);
    WaitsExactly(s, size);
  }

  // ---- what a crash leaves ----

  /** Disk contents after the logged modifications `hist`, in order. */
  ghost function Effect(base: seq<Block>, hist: seq<Rec>): (r: seq<Block>)
    ensures |r| == |base|
  {
    if hist == [] then base
    else
      var e := Effect(base, hist[..|hist| - 1]);
      var w := hist[|hist| - 1];
      if w.bno < |base| then e[w.bno := w.data] else e
  }

  lemma {:induction false} EffectUntouched(base: seq<Block>, hist: seq<Rec>, k: nat, b: nat)
    requires k <= |hist| && b < |base| && forall i :: k <= i < |hist| ==> hist[i].bno != b
    ensures Effect(base, hist)[b] == Effect(base, hist[..k])[b]
    decreases |hist|
  {
    if k == |hist| {
      assert hist[..k] == hist;
    } else {
      var init := hist[..|hist| - 1];
      EffectUntouched(base, init, k, b);
      assert init[..k] == hist[..k];
    }
  }

  /** What the cache holds for the logged blocks when the commit copies them. */
  ghost function Cached(base: seq<Block>, hist: seq<Rec>, lh: seq<Word>): (c: Contents)
    requires forall i :: 0 <= i < |lh| ==> lh[i] < |base|
    ensures |c| == |lh|
  {
    seq(|lh|, i requires 0 <= i < |lh| => Effect(base, hist)[lh[i]])
  }

  /** When the log names every block changed since `k` records ago, installing the
      cached copies takes the effect of the first `k` records to the effect of all. */
  lemma InstallCoversAll(base: seq<Block>, hist: seq<Rec>, k: nat, lh: seq<Word>, c: Contents)
    requires k <= |hist| && NoRepeat(lh) && |c| == |lh|
    requires forall i :: 0 <= i < |lh| ==> lh[i] < |base|
    requires forall i :: 0 <= i < |lh| ==> c[i] == Effect(base, hist)[lh[i]]
    requires forall i :: k <= i < |hist| ==> hist[i].bno in lh
    ensures Updated(Effect(base, hist[..k]), lh, c) == Effect(base, hist)
  {
    var before := Effect(base, hist[..k]);
    var after := Updated(before, lh, c);
    UpdatedAt(before, lh, c);
    forall b | 0 <= b < |base|
      ensures after[b] == Effect(base, hist)[b]
    {
      InstalledAt(base, hist, k, lh, c, b);
    }
    assert after == Effect(base, hist);
  }

  lemma InstalledAt(base: seq<Block>, hist: seq<Rec>, k: nat, lh: seq<Word>, c: Contents, b: nat)
    requires k <= |hist| && NoRepeat(lh) && |c| == |lh| && b < |base|
    requires forall i :: 0 <= i < |lh| ==> lh[i] < |base|
    requires forall i :: 0 <= i < |lh| ==> c[i] == Effect(base, hist)[lh[i]]
    requires forall i :: k <= i < |hist| ==> hist[i].bno in lh
    ensures Updated(Effect(base, hist[..k]), lh, c)[b] == Effect(base, hist)[b]
  {
    var before := Effect(base, hist[..k]);
    UpdatedAt(before, lh, c);
    if b in lh {
      var i :| 0 <= i < |lh| && lh[i] == b;
      assert c[i] == Effect(base, hist)[b];
    } else {
      assert Updated(before, lh, c)[b] == before[b];
      EffectUntouched(base, hist, k, b);
    }
  }

  /** Disk `d` has the effect of the first `done` records of `hist`, its log is empty,
      and the in-memory log `lh` names every block changed since. */
  ghost predicate Covers(l: Layout, d: seq<Block>, base: seq<Block>, lh: seq<Word>, hist: seq<Rec>, done: nat) {
    && ValidLog(l, |d|, lh) && |d| == |base| && done <= |hist|
    && Clean(l, d, Effect(base, hist[..done]))
    && (forall i :: done <= i < |hist| ==> hist[i].bno in lh)
  }

  /** The writes of a commit of `lh` started on `d`, the cache holding the effect of `hist`. */
  ghost function Writes(l: Layout, d: seq<Block>, base: seq<Block>, lh: seq<Word>, hist: seq<Rec>): (ws: seq<Write>)
    requires ValidLog(l, |d|, lh) && |d| == |base|
  {
    CommitWrites(l, d[l.start], lh, Cached(base, hist, lh))
  }

  /** How much of the history a crash after `k` writes of the commit leaves. */
  function Survives(lh: seq<Word>, hist: seq<Rec>, done: nat, k: nat): nat {
    if k > |lh| then |hist| else done
  }

  /** A crash after `k` writes of a commit, and any number of crashes in recovery. */
  lemma CommitCrash(l: Layout, d: seq<Block>, base: seq<Block>, lh: seq<Word>, hist: seq<Rec>, done: nat, k: nat,
      ks: seq<nat>)
    requires Covers(l, d, base, lh, hist, done) && k <= |Writes(l, d, base, lh, hist)|
    ensures Fits(d, Writes(l, d, base, lh, hist)) && Survives(lh, hist, done, k) <= |hist|
    ensures var crashed := Run(d, Writes(l, d, base, lh, hist)[..k]);
      && Recoverable(l, Attempts(l, crashed, ks))
      && Clean(l, Recovered(l, Attempts(l, crashed, ks)), Effect(base, hist[..Survives(lh, hist, done, k)]))
  {
    hide Clean, Recoverable, Attempts, Recovered, CommitWrites, Effect, Updated, Run;
    CrashAtomicity(l, d, Effect(base, hist[..done]), lh, Cached(base, hist, lh), k, ks);
    InstallCoversAll(base, hist, done, lh, Cached(base, hist, lh));
    assert hist[..|hist|] == hist;
  }

  /** A commit that runs to the end. */
  lemma CommitWhole(l: Layout, d: seq<Block>, base: seq<Block>, lh: seq<Word>, hist: seq<Rec>, done: nat)
    requires Covers(l, d, base, lh, hist, done)
    ensures Fits(d, Writes(l, d, base, lh, hist))
    ensures Covers(l, Run(d, Writes(l, d, base, lh, hist)), base, [], hist, |hist|)
  {
    hide Clean, CommitWrites, Effect, Updated, Run, EncodeHead;
    var w := Writes(l, d, base, lh, hist);
    var c := Cached(base, hist, lh);
    InstallCoversAll(base, hist, done, lh, c);
    assert hist[..|hist|] == hist;
    if lh == [] {
      NoWrites(l, d[l.start], Effect(base, hist[..done]), lh, c);
      RunNone(d);
    } else {
      CommitLayout(l, d[l.start], lh, c, |d|);
      CommitStates(l, d, Effect(base, hist[..done]), lh, c, |w|);
      assert w[..|w|] == w;
    }
  }

  lemma NoWrites(l: Layout, head: Block, base: seq<Block>, lh: seq<Word>, c: Contents)
    requires lh == [] && |c| == |lh|
    ensures CommitWrites(l, head, lh, c) == [] && Updated(base, lh, c) == base
  {
  }

  // ---- the code ----

  /** `struct log` and the functions that update it. */
  class Log {
    var n: nat                     // lh.n
    const block: array<Word>       // lh.block
    const size: nat
    var outstanding: nat
    var committing: bool
    ghost var s: State

    ghost predicate Consistent()
      reads this, block
    {
      && block.Length == LOGSIZE && n <= LOGSIZE
      && block[..n] == s.lh && outstanding == |s.active| && committing == s.committing
      && Valid(s, size)
    }

    constructor (size: nat)
      ensures Consistent() && s == INIT && this.size == size
    {
      block := new Word[LOGSIZE](i => 0);
      this.size := size;
      n, outstanding, committing := 0, 0, false;
      s := INIT;
    }

    /** One pass of the `begin_op` loop; `false` means the caller sleeps and retries. */
    method BeginOp() returns (admitted: bool)
      requires Consistent()
      modifies this
      ensures Consistent()
      ensures admitted == Admits(old(s))
      ensures s == if admitted then Next(old(s), Begin) else old(s)
    {
      if committing {
        return false;
      } else if n + (outstanding + 1) * MAXOPBLOCKS > LOGSIZE {
        return false;
      } else {
        BeginKeepsValid(s, size);
        outstanding := outstanding + 1;
        s := Next(s, Begin);
        return true;
      }
    }

    /** The locked part of `end_op`, for active call `i`; `true` means the caller
        goes on to commit. The panic in it is never reached. */
    method EndOp(ghost i: nat) returns (doCommit: bool)
      requires Consistent() && i < |s.active|
      modifies this
      ensures Consistent() && s == Next(old(s), End(i)) && doCommit == s.committing
    {
      doCommit := false;
      outstanding := outstanding - 1;
      assert !committing;
      EndKeepsValid(s, size, i);
      s := Next(s, End(i));
      if outstanding == 0 {
        doCommit := true;
        committing := true;
      }
    }

    /** What `end_op` and `commit` do to the fields after the disk writes. */
    method CommitDone()
      requires Consistent() && committing
      modifies this
      ensures Consistent() && s == Next(old(s), Commit)
    {
      if n > 0 {
        n := 0;
      }
      committing := false;
      s := Next(s, Commit);
    }

    /** `log_write` for active call `i`; `false` is "too big a transaction". */
    method Append(bno: Word, ghost data: Block, ghost i: nat) returns (ok: bool)
      requires Consistent() && MayLog(s, i, bno)
      modifies this, block
      ensures Consistent()
      ensures ok == !TooBig(old(s), size)
      ensures s == if ok then Next(old(s), LogWrite(i, bno, data)) else old(s)
    {
      if n >= LOGSIZE || n >= size - 1 {
        return false;
      }
      LogWriteKeepsValid(s, size, i, bno, data);
      var j := 0;
      while j < n
        invariant 0 <= j <= n
        invariant forall k :: 0 <= k < j ==> block[k] != bno
      {
        if block[j] == bno {
          break;
        }
        j := j + 1;
      }
      assert bno in s.lh <==> j < n;
      block[j] := bno;
      if j == n {
        n := n + 1;
      }
      s := Next(s, LogWrite(i, bno, data));
      return true;
    }
  }
}

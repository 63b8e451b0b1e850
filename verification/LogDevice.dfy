/** `commit` and `recover_from_log` as the kernel runs them, one block write at a
    time, on a machine that loses power after `power` more writes. */
module LogDevice {
  import opened Words
  import opened CrashLog

  class Device {
    var disk: seq<Block>
    var power: nat                   // block writes left before the power fails
    const l: Layout
    var n: nat                       // log.lh.n
    const block: array<Word>         // log.lh.block
    var cache: map<nat, Block>       // dirty buffers, pinned until commit

    ghost predicate Valid()
      reads this, block
    {
      && block.Length <= MAXHEADER && n <= block.Length
      && 0 < l.size && l.start + l.size <= |disk| < 0x1_0000_0000
    }

    /** The in-memory log header. */
    ghost function Lh(): (h: seq<Word>)
      requires Valid()
      reads this, block
    {
      block[..n]
    }

    /** The device is where `ws`, started on `d` with power for `p` writes, gets it. */
    ghost predicate Ran(d: seq<Block>, p: nat, ws: seq<Write>)
      reads this
    {
      && Fits(d, ws)
      && disk == Run(d, ws[..Min(p, |ws|)])
      && power == p - Min(p, |ws|)
    }

    method Bwrite(bno: nat, data: Block) returns (alive: bool)
      requires bno < |disk|
      modifies this`disk, this`power
      ensures alive == (old(power) > 0)
      ensures alive ==> disk == old(disk)[bno := data] && power == old(power) - 1
      ensures !alive ==> disk == old(disk) && power == old(power)
    {
      if power == 0 {
        return false;
      }
      power := power - 1;
      disk := disk[bno := data];
      return true;
    }

    /** Copy the modified blocks from the cache to the log. */
    method WriteLog() returns (alive: bool)
      requires Valid() && ValidLog(l, |disk|, Lh()) && forall i :: 0 <= i < n ==> block[i] in cache
      modifies this`disk, this`power
      ensures Valid()
      ensures alive == (old(power) >= n)
      ensures Ran(old(disk), old(power), LogWrites(l, Lh(), Cached(cache, Lh())))
    {
      ghost var w := LogWrites(l, Lh(), Cached(cache, Lh()));
      assert Fits(disk, w);
      assert w[..0] == [];
      hide Run;
      RunNone(disk);
      var tail := 0;
      while tail < n
        invariant 0 <= tail <= n && Valid()
        invariant old(power) >= tail && power == old(power) - tail
        invariant disk == Run(old(disk), w[..tail])
      {
        var a := Bwrite(l.start + tail + 1, cache[block[tail]]);
        if !a {
          return false;
        }
        RunNext(old(disk), w, tail, tail + 1);
        tail := tail + 1;
      }
      return true;
    }

    /** Write the in-memory header to disk: with `n > 0` this is the commit point. */
    method WriteHead() returns (alive: bool)
      requires Valid()
      modifies this`disk, this`power
      ensures Valid()
      ensures alive == (old(power) > 0)
      ensures Ran(old(disk), old(power), [Write(l.start, EncodeHead(old(disk)[l.start], Lh()))])
    {
      var buf := disk[l.start];
      ghost var h := Lh();
      ghost var head := SetWord(buf, 0, n);
      buf := SetWord(buf, 0, n);
      hide EncodeBlocks;
      EncodeNone(head, h);
      var i := 0;
      while i < n
        invariant 0 <= i <= n && Valid() && disk == old(disk) && power == old(power)
        invariant buf == EncodeBlocks(head, h[..i])
      {
        buf := SetWord(buf, i + 1, block[i]);
        EncodeNext(head, h, i, i + 1);
        i := i + 1;
      }
      assert h[..i] == h;
      RunOne(disk, Write(l.start, buf));
      alive := Bwrite(l.start, buf);
    }

    /** Copy the log header from disk. */
    method ReadHead()
      requires Valid() && ValidHead(disk[l.start]) && |DecodeHead(disk[l.start])| <= block.Length
      modifies this`n, block
      ensures Valid() && Lh() == DecodeHead(disk[l.start])
    {
      var buf := disk[l.start];
      n := GetWord(buf, 0);
      var i := 0;
      while i < n
        invariant 0 <= i <= n && n == GetWord(buf, 0)
        invariant forall j :: 0 <= j < i ==> block[j] == DecodeHead(buf)[j]
      {
        block[i] := GetWord(buf, i + 1);
        i := i + 1;
      }
    }

    /** Copy the logged blocks from the log to where they belong. */
    method InstallTrans() returns (alive: bool)
      requires Valid() && ValidLog(l, |disk|, Lh())
      modifies this`disk, this`power
      ensures Valid()
      ensures alive == (old(power) >= n)
      ensures Ran(old(disk), old(power), InstallWrites(Lh(), LoggedData(l, old(disk), n)))
      ensures alive ==> disk[l.start] == old(disk)[l.start]
    {
      ghost var w := InstallWrites(Lh(), LoggedData(l, disk, n));
      assert Fits(disk, w);
      assert w[..0] == [];
      hide Run;
      RunNone(disk);
      var tail := 0;
      while tail < n
        invariant 0 <= tail <= n && Valid()
        invariant old(power) >= tail && power == old(power) - tail
        invariant disk == Run(old(disk), w[..tail])
        invariant forall b :: 0 <= b < |disk| && !Home(l, b) ==> disk[b] == old(disk)[b]
      {
        assert disk[l.start + tail + 1] == LogAt(l, old(disk), tail);
        var a := Bwrite(block[tail], disk[l.start + tail + 1]);
        if !a {
          return false;
        }
        RunNext(old(disk), w, tail, tail + 1);
        tail := tail + 1;
      }
      return true;
    }

    /** Install the transaction, then erase it from the log. */
    method InstallAndClear() returns (alive: bool)
      requires Valid() && ValidLog(l, |disk|, Lh())
      modifies this`disk, this`power, this`n
      ensures Valid()
      ensures alive == (old(power) >= old(n) + 1)
      ensures Ran(old(disk), old(power), InstallWrites(old(Lh()), LoggedData(l, old(disk), old(n)))
                                         + [Write(l.start, EncodeHead(old(disk)[l.start], []))])
      ensures alive ==> n == 0
    {
      ghost var a := InstallWrites(Lh(), LoggedData(l, disk, n));
      ghost var b := [Write(l.start, EncodeHead(disk[l.start], []))];
      alive := InstallTrans();
      RanThen(old(disk), old(power), a, b);
      if !alive {
        return;
      }
      assert a[..|a|] == a;
      n := 0;
      assert Lh() == [];
      alive := WriteHead();
    }

    method RecoverFromLog() returns (alive: bool)
      requires Valid() && ValidHead(disk[l.start]) && |DecodeHead(disk[l.start])| <= block.Length
      requires ValidLog(l, |disk|, DecodeHead(disk[l.start]))
      modifies this`disk, this`power, this`n, block
      ensures Valid()
      ensures alive == (old(power) >= |RecoveryWrites(l, old(disk))|)
      ensures Ran(old(disk), old(power), RecoveryWrites(l, old(disk)))
      ensures alive ==> n == 0
    {
      ReadHead();
      alive := InstallAndClear();
    }

    /** The first half of `commit`, up to and including the commit point. */
    method LogTransaction() returns (alive: bool)
      requires Valid() && ValidLog(l, |disk|, Lh()) && n > 0 && forall i :: 0 <= i < n ==> block[i] in cache
      modifies this`disk, this`power
      ensures Valid()
      ensures alive == (old(power) >= n + 1)
      ensures Ran(old(disk), old(power), LogWrites(l, Lh(), Cached(cache, Lh()))
                                         + [Write(l.start, EncodeHead(old(disk)[l.start], Lh()))])
    {
      ghost var a := LogWrites(l, Lh(), Cached(cache, Lh()));
      ghost var b := [Write(l.start, EncodeHead(disk[l.start], Lh()))];
      CommitPhases(l, disk, Lh(), Cached(cache, Lh()));
      alive := WriteLog();
      RanThen(old(disk), old(power), a, b);
      if !alive {
        return;
      }
      assert a[..|a|] == a;
      alive := WriteHead();
    }

    /** `commit`: every write of it that the power allows, in order. */
    method Commit() returns (alive: bool)
      requires Valid() && ValidLog(l, |disk|, Lh()) && forall i :: 0 <= i < n ==> block[i] in cache
      modifies this`disk, this`power, this`n
      ensures Valid()
      ensures alive == (old(power) >= |CommitWrites(l, old(disk)[l.start], old(Lh()), Cached(cache, old(Lh())))|)
      ensures Ran(old(disk), old(power), CommitWrites(l, old(disk)[l.start], old(Lh()), Cached(cache, old(Lh()))))
      ensures alive ==> n == 0
    {
      hide Run, EncodeHead, LogWrites, InstallWrites, Cached, LoggedData, CommitWrites;
      ghost var h := Lh();
      ghost var c := Cached(cache, h);
      ghost var d0, p0, head := disk, power, disk[l.start];
      CommitSizes(l, head, h, c);
      if n > 0 {
        ghost var a := LogWrites(l, h, c) + [Write(l.start, EncodeHead(head, h))];
        ghost var b := InstallWrites(h, c) + [Write(l.start, EncodeHead(EncodeHead(head, h), []))];
        CommitAsParts(l, d0, h, c);
        CommitPhases(l, d0, h, c);
        RanThen(d0, p0, a, b);
        alive := LogTransaction();
        if !alive {
          return;
        }
        assert a[..|a|] == a;
        alive := InstallAndClear();
      } else {
        RunNone(disk);
        alive := true;
      }
    }
  }

  /** What recovery needs of a disk that leads to `goal`. */
  lemma LeadsRecover(l: Layout, d: seq<Block>, base: seq<Block>, h: seq<Word>, c: Contents, goal: seq<Block>)
    requires Leads(l, d, base, h, c, goal)
    ensures 0 < l.size && l.start + l.size <= |d| && ValidHead(d[l.start])
    ensures ValidLog(l, |d|, DecodeHead(d[l.start])) && |DecodeHead(d[l.start])| <= |h|
  {
    assert Clean(l, d, goal) ==> DecodeHead(d[l.start]) == [];
  }

  /** A recovery cut short after `p` writes still leads to `goal`; one that is not
      reaches it. */
  lemma RecoveryLeads(l: Layout, d: seq<Block>, base: seq<Block>, h: seq<Word>, c: Contents, goal: seq<Block>, p: nat)
    requires Leads(l, d, base, h, c, goal) && Recoverable(l, d)
    ensures var w := RecoveryWrites(l, d);
      && Leads(l, Run(d, w[..Min(p, |w|)]), base, h, c, goal)
      && (p >= |w| ==> Clean(l, Run(d, w[..Min(p, |w|)]), goal))
      && |w| <= |h| + 1
  {
    hide Clean, Pending, RecoveryWrites, Run, Updated;
    var w := RecoveryWrites(l, d);
    if Clean(l, d, goal) {
      CleanRecovers(l, d, goal, 0);
      CleanRecovers(l, d, goal, Min(p, |w|));
    } else {
      PendingRecovers(l, d, base, h, c, 0);
      PendingRecovers(l, d, base, h, c, Min(p, |w|));
    }
  }

  lemma CommitLeads(l: Layout, d0: seq<Block>, base: seq<Block>, h: seq<Word>, c: Contents, p: nat)
    requires Clean(l, d0, base) && ValidLog(l, |d0|, h) && |h| == |c|
    ensures Fits(d0, CommitWrites(l, d0[l.start], h, c)) && |d0| == |base|
    ensures var w := CommitWrites(l, d0[l.start], h, c);
      Leads(l, Run(d0, w[..Min(p, |w|)]), base, h, c, if p > |h| then Updated(base, h, c) else base)
  {
    hide Pending, Run, EncodeHead, GetWord;
    var w := CommitWrites(l, d0[l.start], h, c);
    CommitSizes(l, d0[l.start], h, c);
    if h == [] {
      RunNone(d0);
      assert w[..Min(p, |w|)] == [];
    } else {
      CommitStates(l, d0, base, h, c, Min(p, |w|));
    }
  }

  /** Crash atomicity of the code: `commit` on a machine with power for some block
      writes, then a restart that recovers, cut short after `powers[0]`, `powers[1]`,
      ... writes, and once with power enough. All of the transaction is home if the
      power lasted past the header write, and none of it otherwise. */
  method CommitCrashRecover(dev: Device, powers: seq<nat>, ghost base: seq<Block>)
    requires dev.Valid() && ValidLog(dev.l, |dev.disk|, dev.Lh()) && forall i :: 0 <= i < dev.n ==>
      dev.block[i] in dev.cache
    requires Clean(dev.l, dev.disk, base)
    modifies dev, dev.block
    ensures dev.Valid() && dev.n == 0
    ensures Clean(dev.l, dev.disk, if old(dev.power) > old(dev.n)
                                   then Updated(base, old(dev.Lh()), Cached(old(dev.cache), old(dev.Lh()))) else base)
  {
    hide Clean, Pending, RecoveryWrites, CommitWrites, Run, Updated, EncodeHead, Cached, Leads, Recoverable;
    ghost var h, c, p0 := dev.Lh(), Cached(dev.cache, dev.Lh()), dev.power;
    CommitLeads(dev.l, dev.disk, base, h, c, p0);
    ghost var goal := if p0 > |h| then Updated(base, h, c) else base;
    var alive := dev.Commit();
    var i := 0;
    while i < |powers|
      invariant 0 <= i <= |powers| && dev.Valid() && |h| <= dev.block.Length
      invariant Leads(dev.l, dev.disk, base, h, c, goal)
    {
      alive := Restart(dev, powers[i], base, h, c, goal);
      i := i + 1;
    }
    alive := Restart(dev, dev.block.Length + 1, base, h, c, goal);
  }

  /** A restart with power for `p` block writes. */
  method Restart(dev: Device, p: nat, ghost base: seq<Block>, ghost h: seq<Word>, ghost c: Contents,
      ghost goal: seq<Block>)
    returns (alive: bool)
    requires dev.Valid() && |h| <= dev.block.Length && Leads(dev.l, dev.disk, base, h, c, goal)
    modifies dev, dev.block
    ensures dev.Valid() && Leads(dev.l, dev.disk, base, h, c, goal)
    ensures p > |h| ==> alive
    ensures alive ==> Clean(dev.l, dev.disk, goal) && dev.n == 0
  {
    hide Clean, Pending, RecoveryWrites, CommitWrites, Run, Updated, EncodeHead, Leads, ValidHead, DecodeHead, ValidLog;
    dev.power := p;
    dev.cache := map[];
    LeadsThere(dev.l, dev.disk, base, h, c, goal, []);
    LeadsRecover(dev.l, dev.disk, base, h, c, goal);
    RecoveryLeads(dev.l, dev.disk, base, h, c, goal, p);
    alive := dev.RecoverFromLog();
  }

  /** The contents `write_log` copies: the cached block of each logged number. */
  function Cached(cache: map<nat, Block>, h: seq<Word>): (c: Contents)
    ensures |c| == |h|
  {
    seq(|h|, i requires 0 <= i < |h| => if h[i] in cache then cache[h[i]] else ZeroBlock())
  }

  lemma RunOne(d: seq<Block>, w: Write)
    requires w.bno < |d|
    ensures Fits(d, [w]) && Run(d, [w]) == d[w.bno := w.data]
    ensures [w][..0] == [] && [w][..1] == [w]
  {
    assert Run(d[w.bno := w.data], []) == d[w.bno := w.data];
  }

  /** Two lists of writes one after the other: the second starts only when the
      power lasted for all of the first. */
  lemma RanThen(d: seq<Block>, p: nat, a: seq<Write>, b: seq<Write>)
    requires Fits(d, a) && Fits(d, b)
    ensures Fits(d, a + b)
    ensures p < |a| ==> Run(d, (a + b)[..Min(p, |a + b|)]) == Run(d, a[..Min(p, |a|)])
    ensures p >= |a| ==> Run(d, (a + b)[..Min(p, |a + b|)]) == Run(Run(d, a), b[..Min(p - |a|, |b|)])
  {
    if p < |a| {
      assert (a + b)[..Min(p, |a + b|)] == a[..Min(p, |a|)];
    } else {
      assert (a + b)[..Min(p, |a + b|)] == a + b[..Min(p - |a|, |b|)];
      RunThenRun(d, a, b[..Min(p - |a|, |b|)]);
    }
  }

  lemma EncodeNone(was: Block, h: seq<Word>)
    ensures EncodeBlocks(was, h[..0]) == was
  {
  }

  lemma EncodeNext(was: Block, h: seq<Word>, i: nat, next: nat)
    requires i < |h| <= MAXHEADER && next == i + 1
    ensures EncodeBlocks(was, h[..next]) == SetWord(EncodeBlocks(was, h[..i]), next, h[i])
  {
    assert h[..next][..i] == h[..i];
  }

  /** `commit` is: log the data, write the header, install, clear the header. */
  lemma CommitAsParts(l: Layout, d0: seq<Block>, h: seq<Word>, c: Contents)
    requires ValidLog(l, |d0|, h) && |h| == |c| > 0
    ensures var a := LogWrites(l, h, c);
      var b := [Write(l.start, EncodeHead(d0[l.start], h))];
      var e := InstallWrites(h, c) + [Write(l.start, EncodeHead(EncodeHead(d0[l.start], h), []))];
      var w := CommitWrites(l, d0[l.start], h, c);
      && w == a + b + e && w[..|h|] == a && w[..|h| + 1] == a + b
      && Fits(d0, a) && Fits(d0, a + b) && Fits(d0, e)
  {
    CommitLayout(l, d0[l.start], h, c, |d0|);
    hide EncodeHead, CommitWrite;
    var a := LogWrites(l, h, c);
    var b := [Write(l.start, EncodeHead(d0[l.start], h))];
    var e := InstallWrites(h, c) + [Write(l.start, EncodeHead(EncodeHead(d0[l.start], h), []))];
    assert CommitWrites(l, d0[l.start], h, c) == a + b + e;
    Stretches(a, b, e);
    FitsParts(d0, a, b, e);
  }

  /** Between the phases of a commit: writing the log leaves the header alone, and
      after the commit point the log holds what is to be installed. */
  lemma CommitPhases(l: Layout, d0: seq<Block>, h: seq<Word>, c: Contents)
    requires ValidLog(l, |d0|, h) && |h| == |c| > 0
    ensures var a := LogWrites(l, h, c);
      var b := [Write(l.start, EncodeHead(d0[l.start], h))];
      && Fits(d0, a) && Fits(d0, a + b)
      && Run(d0, a)[l.start] == d0[l.start]
      && Run(d0, a + b)[l.start] == EncodeHead(d0[l.start], h)
      && LoggedData(l, Run(d0, a + b), |h|) == c
  {
    hide EncodeHead, Run, CommitWrites, LogWrites, GetWord, SetWord, Fits;
    CommitAsParts(l, d0, h, c);
    CommitReaches(l, d0, h, c, |h|);
    CommitReaches(l, d0, h, c, |h| + 1);
    var d := Run(d0, CommitWrites(l, d0[l.start], h, c)[..|h| + 1]);
    assert forall i :: 0 <= i < |h| ==> LoggedData(l, d, |h|)[i] == LogAt(l, d, i);
  }

  lemma Stretches<T>(a: seq<T>, b: seq<T>, e: seq<T>)
    ensures (a + b + e)[..|a|] == a && (a + b + e)[..|a| + |b|] == a + b
  {
  }

  lemma FitsParts(d: seq<Block>, a: seq<Write>, b: seq<Write>, e: seq<Write>)
    requires Fits(d, a + b + e)
    ensures Fits(d, a) && Fits(d, a + b) && Fits(d, e)
  {
    var w := a + b + e;
    assert forall i :: 0 <= i < |a| ==> a[i] == w[i];
    assert forall i :: 0 <= i < |a + b| ==> (a + b)[i] == w[i];
    assert forall i :: 0 <= i < |e| ==> e[i] == w[|a + b| + i];
  }

  lemma CommitSizes(l: Layout, head: Block, h: seq<Word>, c: Contents)
    requires |h| == |c| && |h| <= MAXHEADER
    ensures h != [] ==> |CommitWrites(l, head, h, c)| == 2 * |h| + 2
    ensures h == [] ==> CommitWrites(l, head, h, c) == []
  {
  }
}

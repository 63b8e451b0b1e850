/** The write-ahead log on disk: the header block, the block writes that `commit`
    and `recover_from_log` issue, and what a power failure between any two of them
    leaves behind. Block writes are atomic. */
module CrashLog {
  import opened Words

  // ---- the header block ----

  /** More block numbers than this do not fit beside the count (`initlog` checks it). */
  const MAXHEADER: nat := NINDIRECT - 1

  /** The count and the block numbers written into the header block, which held `was`;
      words past the ones written keep what they had. */
  function EncodeHead(was: Block, h: seq<Word>): (b: Block)
    requires |h| <= MAXHEADER
  {
    EncodeBlocks(SetWord(was, 0, |h|), h)
  }

  function EncodeBlocks(was: Block, h: seq<Word>): (b: Block)
    requires |h| <= MAXHEADER
    ensures forall i: nat :: i < |h| ==> GetWord(b, i + 1) == h[i]
    ensures GetWord(b, 0) == GetWord(was, 0)
  {
    if h == [] then was
    else
      var last := |h| - 1;
      SetWord(EncodeBlocks(was, h[..last]), last + 1, h[last])
  }

  predicate ValidHead(b: Block) {
    GetWord(b, 0) <= MAXHEADER
  }

  /** What `read_head` copies out of the header block. */
  function DecodeHead(b: Block): (h: seq<Word>)
    requires ValidHead(b)
    ensures |h| == GetWord(b, 0)
  {
    seq(GetWord(b, 0), i requires 0 <= i < GetWord(b, 0) => GetWord(b, i + 1))
  }

  lemma HeadRoundTrip(was: Block, h: seq<Word>)
    requires |h| <= MAXHEADER
    ensures ValidHead(EncodeHead(was, h)) && DecodeHead(EncodeHead(was, h)) == h
  {
    var b := EncodeHead(was, h);
    forall i | 0 <= i < |h|
      ensures DecodeHead(b)[i] == h[i]
    {
      assert GetWord(b, i + 1) == h[i];
    }
  }

  // ---- block writes ----

  datatype Write = Write(bno: nat, data: Block)

  ghost predicate Fits(d: seq<Block>, ws: seq<Write>) {
    forall i :: 0 <= i < |ws| ==> ws[i].bno < |d|
  }

  /** The disk after the writes `ws`, in order. */
  ghost function Run(d: seq<Block>, ws: seq<Write>): (r: seq<Block>)
    requires Fits(d, ws)
    ensures |r| == |d|
    decreases |ws|
  {
    if ws == [] then d else Run(d[ws[0].bno := ws[0].data], ws[1..])
  }

  lemma {:induction false} RunThenRun(d: seq<Block>, a: seq<Write>, b: seq<Write>)
    requires Fits(d, a) && Fits(d, b)
    ensures Fits(d, a + b) && Run(d, a + b) == Run(Run(d, a), b)
    decreases |a|
  {
    if a == [] {
      assert a + b == b;
    } else {
      var d1 := d[a[0].bno := a[0].data];
      RunThenRun(d1, a[1..], b);
      assert (a + b)[0] == a[0] && (a + b)[1..] == a[1..] + b;
    }
  }

  lemma RunNext(d: seq<Block>, ws: seq<Write>, k: nat, next: nat)
    requires Fits(d, ws) && k < |ws| && next == k + 1
    ensures Run(d, ws[..next]) == Run(d, ws[..k])[ws[k].bno := ws[k].data]
  {
    RunThenRun(d, ws[..k], [ws[k]]);
    assert ws[..k + 1] == ws[..k] + [ws[k]];
    var e := Run(d, ws[..k]);
    assert Run(e, [ws[k]]) == Run(e[ws[k].bno := ws[k].data], []);
  }

  // ---- the log ----

  /** Where the log lies: header at `start`, data blocks in `(start, start + size)`. */
  datatype Layout = Layout(start: nat, size: nat)

  ghost predicate Home(l: Layout, b: nat) {
    b < l.start || l.start + l.size <= b
  }

  /** The logged block numbers of a transaction: distinct home blocks that fit. */
  ghost predicate ValidLog(l: Layout, disksize: nat, h: seq<Word>) {
    && 0 < l.size && l.start + l.size <= disksize
    && |h| < l.size && |h| <= MAXHEADER
    && (forall i :: 0 <= i < |h| ==> h[i] < disksize && Home(l, h[i]))
    && (forall i, j :: 0 <= i < j < |h| ==> h[i] != h[j])
  }

  /** Contents of the logged blocks, in log order, as the cache holds them. */
  type Contents = seq<Block>

  function LogWrites(l: Layout, h: seq<Word>, c: Contents): (ws: seq<Write>)
    requires |h| == |c|
    ensures |ws| == |h|
  {
    seq(|h|, i requires 0 <= i < |h| => Write(l.start + i + 1, c[i]))
  }

  function InstallWrites(h: seq<Word>, c: Contents): (ws: seq<Write>)
    requires |h| == |c|
    ensures |ws| == |h|
  {
    seq(|h|, i requires 0 <= i < |h| => Write(h[i], c[i]))
  }

  /** Every write of `commit`, in order, on a disk whose header block is `head`. */
  function CommitWrites(l: Layout, head: Block, h: seq<Word>, c: Contents): (ws: seq<Write>)
    requires |h| == |c| && |h| <= MAXHEADER
  {
    if h == [] then []
    else
      LogWrites(l, h, c) + [Write(l.start, EncodeHead(head, h))]
      + InstallWrites(h, c) + [Write(l.start, EncodeHead(EncodeHead(head, h), []))]
  }

  /** The `i`th data block of the log. */
  function LogAt(l: Layout, d: seq<Block>, i: nat): Block
    requires l.start + 1 + i < |d|
  {
    d[l.start + 1 + i]
  }

  function LoggedData(l: Layout, d: seq<Block>, n: nat): (c: Contents)
    requires l.start + n < |d|
    ensures |c| == n
  {
    seq(n, i requires 0 <= i < n => LogAt(l, d, i))
  }

  /** Every write of `recover_from_log` on disk `d`. */
  function RecoveryWrites(l: Layout, d: seq<Block>): (ws: seq<Write>)
    requires l.start < |d| && ValidHead(d[l.start]) && l.start + |DecodeHead(d[l.start])| < |d|
  {
    var h := DecodeHead(d[l.start]);
    InstallWrites(h, LoggedData(l, d, |h|)) + [Write(l.start, EncodeHead(d[l.start], []))]
  }

  // ---- what the disk can look like ----

  /** No transaction is logged; the home blocks are those of `base`. */
  ghost predicate Clean(l: Layout, d: seq<Block>, base: seq<Block>) {
    && |d| == |base| && 0 < l.size && l.start + l.size <= |d|
    && GetWord(d[l.start], 0) == 0
    && (forall b :: 0 <= b < |d| && Home(l, b) ==> d[b] == base[b])
  }

  /** Transaction `h`, `c` is in the log; some of its blocks may be home already. */
  ghost predicate Pending(l: Layout, d: seq<Block>, base: seq<Block>, h: seq<Word>, c: Contents) {
    && |d| == |base| && ValidLog(l, |d|, h) && |c| == |h| > 0
    && ValidHead(d[l.start]) && DecodeHead(d[l.start]) == h
    && (forall i :: 0 <= i < |h| ==> LogAt(l, d, i) == c[i])
    && (forall b :: 0 <= b < |d| && Home(l, b) && b !in h ==> d[b] == base[b])
  }

  /** `base` with every block of the transaction replaced. */
  ghost function Updated(base: seq<Block>, h: seq<Word>, c: Contents): (r: seq<Block>)
    requires |h| == |c| && forall i :: 0 <= i < |h| ==> h[i] < |base|
    ensures |r| == |base|
  {
    if h == [] then base
    else
      var last := |h| - 1;
      Updated(base, h[..last], c[..last])[h[last] := c[last]]
  }

  lemma {:induction false} UpdatedAt(base: seq<Block>, h: seq<Word>, c: Contents)
    requires |h| == |c| && forall i :: 0 <= i < |h| ==> h[i] < |base|
    requires forall i, j :: 0 <= i < j < |h| ==> h[i] != h[j]
    ensures forall i :: 0 <= i < |h| ==> Updated(base, h, c)[h[i]] == c[i]
    ensures forall b :: 0 <= b < |base| && b !in h ==> Updated(base, h, c)[b] == base[b]
    decreases |h|
  {
    if h == [] {
    } else {
      var last := |h| - 1;
      UpdatedAt(base, h[..last], c[..last]);
      forall b | 0 <= b < |base| && b !in h
        ensures Updated(base, h, c)[b] == base[b]
      {
        assert b !in h[..last];
      }
      forall i | 0 <= i < |h|
        ensures Updated(base, h, c)[h[i]] == c[i]
      {
        if i < last {
          assert h[..last][i] == h[i];
        }
      }
    }
  }

  // ---- a crash inside commit ----

  /** The `k`th write of a commit. */
  function CommitWrite(l: Layout, head: Block, h: seq<Word>, c: Contents, k: nat): Write
    requires |h| == |c| && |h| <= MAXHEADER && k < 2 * |h| + 2
  {
    if k < |h| then Write(l.start + k + 1, c[k])
    else if k == |h| then Write(l.start, EncodeHead(head, h))
    else if k <= 2 * |h| then Write(h[k - |h| - 1], c[k - |h| - 1])
    else Write(l.start, EncodeHead(EncodeHead(head, h), []))
  }

  lemma CommitLayout(l: Layout, head: Block, h: seq<Word>, c: Contents, disksize: nat)
    requires ValidLog(l, disksize, h) && |h| == |c| > 0
    ensures var w := CommitWrites(l, head, h, c);
      && |w| == 2 * |h| + 2
      && (forall i :: 0 <= i < |w| ==> w[i] == CommitWrite(l, head, h, c, i) && w[i].bno < disksize)
  {
    hide EncodeHead;
  }

  /** The disk after the first `k` writes of a commit that started on `d0`. */
  ghost predicate CommitPoint(l: Layout, d0: seq<Block>, d: seq<Block>, h: seq<Word>, c: Contents, k: nat)
    requires |h| == |c| && |h| <= MAXHEADER && l.start < |d0|
  {
    var n := |h|;
    && |d| == |d0| && l.start + n < |d|
    && d[l.start] == (if k <= n then d0[l.start]
                      else if k <= 2 * n + 1 then EncodeHead(d0[l.start], h)
                      else EncodeHead(EncodeHead(d0[l.start], h), []))
    && (forall i :: 0 <= i < n && i < k ==> LogAt(l, d, i) == c[i])
    && (forall b :: 0 <= b < |d| && Home(l, b) && b !in h ==> d[b] == d0[b])
    && (forall i :: 0 <= i < n && h[i] < |d| ==> d[h[i]] == if i + n + 1 < k then c[i] else d0[h[i]])
  }

  lemma CommitStep(l: Layout, d0: seq<Block>, d: seq<Block>, h: seq<Word>, c: Contents, k: nat, next: nat)
    requires ValidLog(l, |d0|, h) && |h| == |c| > 0 && k < 2 * |h| + 2 && next == k + 1
    requires CommitPoint(l, d0, d, h, c, k)
    ensures var w := CommitWrite(l, d0[l.start], h, c, k);
      w.bno < |d| && CommitPoint(l, d0, d[w.bno := w.data], h, c, next)
  {
    hide CommitPoint, EncodeHead, GetWord;
    if k == |h| || k == 2 * |h| + 1 {
      CommitHead(l, d0, d, h, c, k, next);
    } else if k < |h| {
      CommitCopy(l, d0, d, h, c, k, next);
    } else {
      CommitInstall(l, d0, d, h, c, k, k - |h| - 1, next);
    }
  }

  /** A block goes to the log. */
  lemma CommitCopy(l: Layout, d0: seq<Block>, d: seq<Block>, h: seq<Word>, c: Contents, k: nat, next: nat)
    requires ValidLog(l, |d0|, h) && |h| == |c| && k < |h| && next == k + 1
    requires CommitPoint(l, d0, d, h, c, k)
    ensures |d| == |d0| && CommitPoint(l, d0, d[l.start + k + 1 := c[k]], h, c, next)
  {
    hide EncodeHead, GetWord;
    var e := d[l.start + k + 1 := c[k]];
    assert forall i :: 0 <= i < |h| && i <= k ==> LogAt(l, e, i) == c[i];
  }

  /** The header is written. */
  lemma CommitHead(l: Layout, d0: seq<Block>, d: seq<Block>, h: seq<Word>, c: Contents, k: nat, next: nat)
    requires ValidLog(l, |d0|, h) && |h| == |c| > 0 && (k == |h| || k == 2 * |h| + 1) && next == k + 1
    requires CommitPoint(l, d0, d, h, c, k)
    ensures |d| == |d0| && CommitPoint(l, d0, d[l.start := CommitWrite(l, d0[l.start], h, c, k).data], h, c, next)
  {
    hide EncodeHead, GetWord;
    var e := d[l.start := CommitWrite(l, d0[l.start], h, c, k).data];
    assert forall i :: 0 <= i < |h| ==> LogAt(l, e, i) == LogAt(l, d, i);
  }

  /** A block goes home. */
  lemma CommitInstall(l: Layout, d0: seq<Block>, d: seq<Block>, h: seq<Word>, c: Contents, k: nat, j: nat, next: nat)
    requires ValidLog(l, |d0|, h) && |h| == |c| && j < |h| && k == |h| + 1 + j && next == k + 1
    requires CommitPoint(l, d0, d, h, c, k)
    ensures |d| == |d0| && CommitPoint(l, d0, d[h[j] := c[j]], h, c, next)
  {
    hide EncodeHead, GetWord;
    var e := d[h[j] := c[j]];
    assert h[j] in h && Home(l, h[j]);
    assert forall i :: 0 <= i < |h| ==> LogAt(l, e, i) == LogAt(l, d, i);
  }

  lemma CommitStart(l: Layout, d0: seq<Block>, h: seq<Word>, c: Contents)
    requires ValidLog(l, |d0|, h) && |h| == |c| > 0
    ensures CommitPoint(l, d0, d0, h, c, 0)
  {
  }

  lemma {:induction false} CommitReaches(l: Layout, d0: seq<Block>, h: seq<Word>, c: Contents, k: nat)
    requires ValidLog(l, |d0|, h) && |h| == |c| > 0
    requires k <= |CommitWrites(l, d0[l.start], h, c)|
    ensures Fits(d0, CommitWrites(l, d0[l.start], h, c))
    ensures CommitPoint(l, d0, Run(d0, CommitWrites(l, d0[l.start], h, c)[..k]), h, c, k)
    decreases k
  {
    hide CommitPoint, CommitWrites, CommitWrite, Run, EncodeHead;
    LogInDisk(l, |d0|, h);
    var w := CommitWrites(l, d0[l.start], h, c);
    CommitLayout(l, d0[l.start], h, c, |d0|);
    if k == 0 {
      CommitStart(l, d0, h, c);
      assert w[..0] == [];
      RunNone(d0);
    } else {
      CommitReaches(l, d0, h, c, k - 1);
      CommitStep(l, d0, Run(d0, w[..k - 1]), h, c, k - 1, k);
      RunNext(d0, w, k - 1, k);
    }
  }

  lemma LogInDisk(l: Layout, disksize: nat, h: seq<Word>)
    requires ValidLog(l, disksize, h)
    ensures l.start < disksize && |h| <= MAXHEADER
  {
  }

  lemma RunNone(d: seq<Block>)
    ensures Fits(d, []) && Run(d, []) == d
  {
  }

  /** The commit point is the write of the non-empty header: before it a crash
      leaves the old home blocks and an empty log, after it the transaction is in
      the log, and after the last write it is home. */
  lemma CommitStates(l: Layout, d0: seq<Block>, base: seq<Block>, h: seq<Word>, c: Contents, k: nat)
    requires Clean(l, d0, base) && ValidLog(l, |d0|, h) && |h| == |c| > 0
    requires k <= |CommitWrites(l, d0[l.start], h, c)|
    ensures Fits(d0, CommitWrites(l, d0[l.start], h, c))
    ensures var d := Run(d0, CommitWrites(l, d0[l.start], h, c)[..k]);
      if k <= |h| then Clean(l, d, base)
      else if k <= 2 * |h| + 1 then Pending(l, d, base, h, c)
      else Clean(l, d, Updated(base, h, c))
  {
    CommitReaches(l, d0, h, c, k);
    CommitLayout(l, d0[l.start], h, c, |d0|);
    CommitPointMeans(l, d0, Run(d0, CommitWrites(l, d0[l.start], h, c)[..k]), base, h, c, k);
  }

  lemma CommitPointMeans(l: Layout, d0: seq<Block>, d: seq<Block>, base: seq<Block>, h: seq<Word>, c: Contents, k: nat)
    requires Clean(l, d0, base) && ValidLog(l, |d0|, h) && |h| == |c| > 0 && k <= 2 * |h| + 2
    requires CommitPoint(l, d0, d, h, c, k)
    ensures if k <= |h| then Clean(l, d, base)
            else if k <= 2 * |h| + 1 then Pending(l, d, base, h, c)
            else Clean(l, d, Updated(base, h, c))
  {
    hide EncodeHead, GetWord, Updated, CommitPoint, Clean, Pending, ValidLog;
    LogInDisk(l, |d0|, h);
    if k <= |h| {
      BeforePoint(l, d0, d, base, h, c, k);
    } else if k <= 2 * |h| + 1 {
      AtPoint(l, d0, d, base, h, c, k);
    } else {
      AfterPoint(l, d0, d, base, h, c, k);
    }
  }

  lemma BeforePoint(l: Layout, d0: seq<Block>, d: seq<Block>, base: seq<Block>, h: seq<Word>, c: Contents, k: nat)
    requires Clean(l, d0, base) && ValidLog(l, |d0|, h) && |h| == |c| && k <= |h| && CommitPoint(l, d0, d, h, c, k)
    ensures Clean(l, d, base)
  {
    hide GetWord, EncodeHead;
    forall b | 0 <= b < |d| && Home(l, b)
      ensures d[b] == base[b]
    {
      if b in h {
        var i :| 0 <= i < |h| && h[i] == b;
        assert d[h[i]] == d0[h[i]];
      }
    }
  }

  lemma AtPoint(l: Layout, d0: seq<Block>, d: seq<Block>, base: seq<Block>, h: seq<Word>, c: Contents, k: nat)
    requires Clean(l, d0, base) && ValidLog(l, |d0|, h) && |h| == |c| > 0 && |h| < k <= 2 * |h| + 1
    requires CommitPoint(l, d0, d, h, c, k)
    ensures Pending(l, d, base, h, c)
  {
    hide GetWord, EncodeHead;
    HeadRoundTrip(d0[l.start], h);
  }

  lemma AfterPoint(l: Layout, d0: seq<Block>, d: seq<Block>, base: seq<Block>, h: seq<Word>, c: Contents, k: nat)
    requires Clean(l, d0, base) && ValidLog(l, |d0|, h) && |h| == |c| > 0 && k == 2 * |h| + 2
    requires CommitPoint(l, d0, d, h, c, k)
    ensures (forall i :: 0 <= i < |h| ==> h[i] < |base|) && Clean(l, d, Updated(base, h, c))
  {
    hide GetWord, EncodeHead, Updated;
    HeadRoundTrip(EncodeHead(d0[l.start], h), []);
    UpdatedAt(base, h, c);
    forall b | 0 <= b < |d| && Home(l, b)
      ensures d[b] == Updated(base, h, c)[b]
    {
      if b in h {
        var i :| 0 <= i < |h| && h[i] == b;
        assert d[h[i]] == c[i];
      }
    }
  }

  // ---- recovery, and crashes inside recovery ----

  ghost predicate Recoverable(l: Layout, d: seq<Block>) {
    && l.start < |d| && ValidHead(d[l.start])
    && l.start + |DecodeHead(d[l.start])| < |d|
    && Fits(d, RecoveryWrites(l, d))
  }

  lemma CleanRecovers(l: Layout, d: seq<Block>, base: seq<Block>, k: nat)
    requires Clean(l, d, base) && k <= 1
    ensures Recoverable(l, d) && |RecoveryWrites(l, d)| == 1
    ensures Clean(l, Run(d, RecoveryWrites(l, d)[..k]), base)
  {
    var w := RecoveryWrites(l, d);
    HeadRoundTrip(d[l.start], []);
    assert DecodeHead(d[l.start]) == [];
    assert w == [Write(l.start, EncodeHead(d[l.start], []))];
    if k == 0 {
      assert w[..0] == [];
    } else {
      RunNext(d, w, 0, 1);
      assert w[..0] == [];
    }
  }

  /** The disk after the first `k` writes of a recovery that started on `d0`. */
  ghost predicate RecoveryPoint(l: Layout, d0: seq<Block>, d: seq<Block>, h: seq<Word>, c: Contents, k: nat)
    requires |h| == |c| && |h| <= MAXHEADER && l.start < |d0|
  {
    && |d| == |d0| && l.start + |h| < |d|
    && d[l.start] == (if k <= |h| then d0[l.start] else EncodeHead(d0[l.start], []))
    && (forall i :: 0 <= i < |h| ==> LogAt(l, d, i) == LogAt(l, d0, i))
    && (forall b :: 0 <= b < |d| && Home(l, b) && b !in h ==> d[b] == d0[b])
    && (forall i :: 0 <= i < |h| && i < k && h[i] < |d| ==> d[h[i]] == c[i])
  }

  /** The `k`th write of the recovery of `h`, `c`. */
  function RecoveryWrite(l: Layout, head: Block, h: seq<Word>, c: Contents, k: nat): Write
    requires |h| == |c| && k <= |h|
  {
    if k < |h| then Write(h[k], c[k]) else Write(l.start, EncodeHead(head, []))
  }

  lemma RecoveryLayout(l: Layout, d: seq<Block>, base: seq<Block>, h: seq<Word>, c: Contents)
    requires Pending(l, d, base, h, c)
    ensures Recoverable(l, d) && |RecoveryWrites(l, d)| == |h| + 1
    ensures forall k :: 0 <= k <= |h| ==> RecoveryWrites(l, d)[k] == RecoveryWrite(l, d[l.start], h, c, k)
  {
    hide GetWord, EncodeHead;
    assert LoggedData(l, d, |h|) == c;
  }

  lemma RecoveryStep(l: Layout, d0: seq<Block>, d: seq<Block>, base: seq<Block>, h: seq<Word>, c: Contents, k: nat,
      next: nat)
    requires Pending(l, d0, base, h, c) && k <= |h| && next == k + 1 && RecoveryPoint(l, d0, d, h, c, k)
    ensures var w := RecoveryWrite(l, d0[l.start], h, c, k);
      w.bno < |d| && RecoveryPoint(l, d0, d[w.bno := w.data], h, c, next)
  {
    hide GetWord, EncodeHead, DecodeHead, ValidHead;
    var w := RecoveryWrite(l, d0[l.start], h, c, k);
    assert k < |h| ==> w.bno in h && Home(l, w.bno);
    assert forall i :: 0 <= i < |h| ==> LogAt(l, d[w.bno := w.data], i) == LogAt(l, d, i);
  }

  lemma RecoveryStart(l: Layout, d: seq<Block>, base: seq<Block>, h: seq<Word>, c: Contents)
    requires Pending(l, d, base, h, c)
    ensures l.start < |d| && |h| == |c| && |h| <= MAXHEADER && RecoveryPoint(l, d, d, h, c, 0)
  {
  }

  lemma {:induction false} RecoveryReaches(l: Layout, d0: seq<Block>, base: seq<Block>, h: seq<Word>, c: Contents,
      k: nat)
    requires Pending(l, d0, base, h, c) && k <= |h| + 1
    ensures Recoverable(l, d0) && |RecoveryWrites(l, d0)| == |h| + 1
    ensures RecoveryPoint(l, d0, Run(d0, RecoveryWrites(l, d0)[..k]), h, c, k)
    decreases k
  {
    hide Pending, RecoveryPoint, RecoveryWrites, RecoveryWrite, Run, EncodeHead, GetWord;
    RecoveryStart(l, d0, base, h, c);
    RecoveryLayout(l, d0, base, h, c);
    var w := RecoveryWrites(l, d0);
    if k == 0 {
      assert w[..0] == [];
      RunNone(d0);
    } else {
      RecoveryReaches(l, d0, base, h, c, k - 1);
      RecoveryStep(l, d0, Run(d0, w[..k - 1]), base, h, c, k - 1, k);
      RunNext(d0, w, k - 1, k);
    }
  }

  lemma PendingRecovers(l: Layout, d: seq<Block>, base: seq<Block>, h: seq<Word>, c: Contents, k: nat)
    requires Pending(l, d, base, h, c) && k <= |h| + 1
    ensures Recoverable(l, d) && |RecoveryWrites(l, d)| == |h| + 1
    ensures var r := Run(d, RecoveryWrites(l, d)[..k]);
      if k <= |h| then Pending(l, r, base, h, c) else Clean(l, r, Updated(base, h, c))
  {
    RecoveryReaches(l, d, base, h, c, k);
    HeadRoundTrip(d[l.start], []);
    UpdatedAt(base, h, c);
    var r := Run(d, RecoveryWrites(l, d)[..k]);
    if k > |h| {
      forall b | 0 <= b < |d| && Home(l, b)
        ensures r[b] == Updated(base, h, c)[b]
      {
        if b in h {
          var i :| 0 <= i < |h| && h[i] == b;
        }
      }
    }
  }

  function Min(a: nat, b: nat): nat {
    if a < b then a else b
  }

  /** Recovery attempts that each lose power after `ks[i]` of their writes. */
  ghost function Attempts(l: Layout, d: seq<Block>, ks: seq<nat>): (r: seq<Block>)
    ensures |r| == |d|
    decreases |ks|
  {
    if ks == [] || !Recoverable(l, d) then d
    else
      var w := RecoveryWrites(l, d);
      Attempts(l, Run(d, w[..Min(ks[0], |w|)]), ks[1..])
  }

  /** A recovery that runs to the end. */
  ghost function Recovered(l: Layout, d: seq<Block>): (r: seq<Block>)
    requires Recoverable(l, d)
    ensures |r| == |d|
  {
    Run(d, RecoveryWrites(l, d))
  }

  /** `d` is what a disk can look like from which recovery must reach `goal`. */
  ghost predicate Leads(l: Layout, d: seq<Block>, base: seq<Block>, h: seq<Word>, c: Contents, goal: seq<Block>)
  {
    || Clean(l, d, goal)
    || (Pending(l, d, base, h, c) && goal == Updated(base, h, c))
  }

  lemma {:induction false} LeadsThere(l: Layout, d: seq<Block>, base: seq<Block>, h: seq<Word>, c: Contents,
                                      goal: seq<Block>, ks: seq<nat>)
    requires Leads(l, d, base, h, c, goal)
    ensures Recoverable(l, Attempts(l, d, ks))
    ensures Clean(l, Recovered(l, Attempts(l, d, ks)), goal)
    decreases |ks|
  {
    hide Clean, Pending, RecoveryWrites, Run, EncodeHead, Updated;
    if Clean(l, d, goal) {
      CleanRecovers(l, d, goal, 0);
    } else {
      PendingRecovers(l, d, base, h, c, 0);
    }
    var w := RecoveryWrites(l, d);
    if ks == [] {
      assert w[..|w|] == w;
      if Clean(l, d, goal) {
        CleanRecovers(l, d, goal, 1);
      } else {
        PendingRecovers(l, d, base, h, c, |h| + 1);
      }
    } else {
      var k := Min(ks[0], |w|);
      if Clean(l, d, goal) {
        CleanRecovers(l, d, goal, k);
      } else {
        PendingRecovers(l, d, base, h, c, k);
      }
      LeadsThere(l, Run(d, w[..k]), base, h, c, goal, ks[1..]);
    }
  }

  /** Crash atomicity. However many writes of a commit got to the disk, and however
      often recovery itself was cut short, the recovery that finishes leaves the
      home blocks of `base`, or all of the transaction's, and an empty log. Which
      of the two depends only on whether the non-empty header was written. */
  lemma CrashAtomicity(l: Layout, d0: seq<Block>, base: seq<Block>, h: seq<Word>, c: Contents, k: nat, ks: seq<nat>)
    requires Clean(l, d0, base) && ValidLog(l, |d0|, h) && |h| == |c|
    requires k <= |CommitWrites(l, d0[l.start], h, c)|
    ensures Fits(d0, CommitWrites(l, d0[l.start], h, c))
    ensures var crashed := Run(d0, CommitWrites(l, d0[l.start], h, c)[..k]);
      && Recoverable(l, Attempts(l, crashed, ks))
      && Clean(l, Recovered(l, Attempts(l, crashed, ks)), if k > |h| then Updated(base, h, c) else base)
  {
    var w := CommitWrites(l, d0[l.start], h, c);
    if h == [] {
      assert w[..k] == [];
      LeadsThere(l, d0, base, h, c, base, ks);
    } else {
      CommitStates(l, d0, base, h, c, k);
      LeadsThere(l, Run(d0, w[..k]), base, h, c, if k > |h| then Updated(base, h, c) else base, ks);
    }
  }
}

/** The write-ahead log of kernel/log.c: group commit, absorption, commit as a
    sequence of single-block disk writes, a power failure after any of them,
    and recovery that may itself be interrupted any number of times.

    A block is its 256 words.  The buffer cache appears as the view that bread
    gives of the disk, so bwrite copies one block of the view to the disk; module
    LogCache has the same loops over the cache itself. */
module Log {
  import opened Common

  const MAXOPBLOCKS := 10
  const LOGBLOCKS := 30

  type Disk = seq<Block>

  /** One log_write of block b by operation op, leaving data in it. */
  datatype Update = Update(op: nat, b: nat, data: Block)

  function Replay(base: Disk, hist: seq<Update>): (d: Disk)
    ensures |d| == |base|
  {
    if hist == [] then base else
      var u := hist[|hist| - 1];
      var d := Replay(base, hist[..|hist| - 1]);
      if u.b < |d| then d[u.b := u.data] else d
  }

  // The on-disk format: block start is the header (n, then the home block
  // numbers), blocks start + 1 .. start + LOGBLOCKS hold the logged copies.

  predicate Outside(start: nat, b: int) {
    b < start || start + LOGBLOCKS < b
  }

  function HeadN(start: nat, d: Disk): int
    requires start < |d|
  {
    d[start][0]
  }

  function Entry(start: nat, d: Disk, i: nat): int
    requires start < |d| && i < LOGBLOCKS
  {
    d[start][1 + i]
  }

  ghost predicate HeaderOk(start: nat, d: Disk) {
    && start + LOGBLOCKS < |d|
    && 0 <= HeadN(start, d) <= LOGBLOCKS
    && (forall i | 0 <= i < HeadN(start, d) ::
          0 <= Entry(start, d, i) < |d| && Outside(start, Entry(start, d, i)))
    && (forall i, j | 0 <= i < j < HeadN(start, d) :: Entry(start, d, i) != Entry(start, d, j))
  }

  /** What block b holds once the first k header entries are installed. */
  function RecoveredBlock(start: nat, d: Disk, b: nat, k: nat): Block
    requires start + LOGBLOCKS < |d| && b < |d| && k <= LOGBLOCKS
  {
    if k == 0 then d[b]
    else if Entry(start, d, k - 1) == b then d[start + k]
    else RecoveredBlock(start, d, b, k - 1)
  }

  /** The file system that recovery would find on this disk is home. */
  ghost predicate Recovers(start: nat, d: Disk, home: Disk) {
    && HeaderOk(start, d)
    && |home| == |d|
    && forall b | 0 <= b < |d| && Outside(start, b) ::
         RecoveredBlock(start, d, b, HeadN(start, d)) == home[b]
  }

  /** The disk after recovery. */
  function Recovered(start: nat, d: Disk): Disk
    requires start + LOGBLOCKS < |d| && 0 <= HeadN(start, d) <= LOGBLOCKS
  {
    seq(|d|, b requires 0 <= b < |d| => RecoveredBlock(start, d, b, HeadN(start, d)))
  }

  lemma RecoveredRecovers(start: nat, d: Disk)
    requires HeaderOk(start, d)
    ensures Recovers(start, d, Recovered(start, d))
  {
    hide RecoveredBlock;
  }

  ghost predicate SameHome(start: nat, d: Disk, home: Disk) {
    && |home| == |d|
    && forall b | 0 <= b < |d| && Outside(start, b) :: d[b] == home[b]
  }

  lemma {:induction false} RecoveredHit(start: nat, d: Disk, b: nat, k: nat, i: nat)
    requires start + LOGBLOCKS < |d| && b < |d| && i < k <= LOGBLOCKS
    requires Entry(start, d, i) == b
    requires forall j | i < j < k :: Entry(start, d, j) != b
    ensures RecoveredBlock(start, d, b, k) == d[start + i + 1]
  {
    if i < k - 1 {
      RecoveredHit(start, d, b, k - 1, i);
    }
  }

  lemma {:induction false} RecoveredMiss(start: nat, d: Disk, b: nat, k: nat)
    requires start + LOGBLOCKS < |d| && b < |d| && k <= LOGBLOCKS
    requires forall j | 0 <= j < k :: Entry(start, d, j) != b
    ensures RecoveredBlock(start, d, b, k) == d[b]
  {
    if k > 0 {
      RecoveredMiss(start, d, b, k - 1);
    }
  }

  // Reservations.

  ghost function Unspent(dirtied: map<nat, set<nat>>): int
    decreases |dirtied|
  {
    if dirtied.Keys == {} then 0 else
      var op :| op in dirtied;
      MAXOPBLOCKS - |dirtied[op]| + Unspent(dirtied - {op})
  }

  lemma {:induction false} UnspentSplit(dirtied: map<nat, set<nat>>, op: nat)
    requires op in dirtied
    ensures Unspent(dirtied) == MAXOPBLOCKS - |dirtied[op]| + Unspent(dirtied - {op})
    decreases |dirtied|
  {
    var x :| x in dirtied && Unspent(dirtied) == MAXOPBLOCKS - |dirtied[x]| + Unspent(dirtied - {x});
    if x != op {
      UnspentSplit(dirtied - {x}, op);
      UnspentSplit(dirtied - {op}, x);
      assert dirtied - {x} - {op} == dirtied - {op} - {x};
    }
  }

  lemma {:induction false} UnspentBounds(dirtied: map<nat, set<nat>>)
    requires forall op | op in dirtied :: |dirtied[op]| <= MAXOPBLOCKS
    ensures 0 <= Unspent(dirtied) <= MAXOPBLOCKS * |dirtied|
    decreases |dirtied|
  {
    if dirtied.Keys != {} {
      var op :| op in dirtied;
      UnspentSplit(dirtied, op);
      UnspentBounds(dirtied - {op});
    }
  }

  lemma SpendOne(dirtied: map<nat, set<nat>>, op: nat, b: nat)
    requires op in dirtied
    ensures Unspent(dirtied[op := dirtied[op] + {b}]) == Unspent(dirtied) - if b in dirtied[op] then 0 else 1
  {
    var after := dirtied[op := dirtied[op] + {b}];
    UnspentSplit(dirtied, op);
    UnspentSplit(after, op);
    assert after - {op} == dirtied - {op};
    if b in dirtied[op] {
      assert dirtied[op] + {b} == dirtied[op];
    }
  }

  // The invariant, as predicates on values.

  ghost predicate HeaderFits(start: nat, size: nat, n: nat, block: seq<int>) {
    && start + LOGBLOCKS < size
    && |block| == LOGBLOCKS
    && n <= LOGBLOCKS
    && (forall i | 0 <= i < n :: 0 <= block[i] < size && Outside(start, block[i]))
    && (forall i, j | 0 <= i < j < n :: block[i] != block[j])
  }

  /** Operations are never split: no operation is both in the committed part
      hist[..durable] and in the rest of the history, still active, or among
      the lost ones that a power failure dropped. */
  ghost predicate WholeOps(hist: seq<Update>, durable: nat, active: set<nat>, lost: set<nat>, nextOp: nat) {
    && durable <= |hist|
    && (forall op | op in active :: op < nextOp && op !in lost)
    && (forall op | op in lost :: op < nextOp)
    && (forall i | 0 <= i < |hist| :: hist[i].op < nextOp && hist[i].op !in lost)
    && (forall i, j | 0 <= i < durable <= j < |hist| :: hist[i].op != hist[j].op)
    && (forall i | 0 <= i < durable :: hist[i].op !in active)
  }

  function OpsOf(hist: seq<Update>): set<nat> {
    set i | 0 <= i < |hist| :: hist[i].op
  }

  /** Every operation in progress dirtied only logged blocks, and the header
      keeps room for what the operations may still dirty. */
  ghost predicate Reserved(n: nat, block: seq<int>, dirtied: map<nat, set<nat>>) {
    && n <= |block|
    && (forall op | op in dirtied :: |dirtied[op]| <= MAXOPBLOCKS)
    && (forall op, b | op in dirtied && b in dirtied[op] :: b in block[..n])
    && n + Unspent(dirtied) <= LOGBLOCKS
  }

  /** Only logged blocks differ between the view and the disk. */
  ghost predicate Synced(start: nat, disk: Disk, view: Disk, n: nat, block: seq<int>) {
    && |disk| == |view| && n <= |block|
    && forall b | 0 <= b < |disk| && Outside(start, b) && b !in block[..n] :: view[b] == disk[b]
  }

  /** The view holds all of the history, the disk the committed part. */
  ghost predicate Tracks(start: nat, disk: Disk, view: Disk, initial: Disk, hist: seq<Update>, durable: nat) {
    && SameHome(start, view, Replay(initial, hist))
    && durable <= |hist|
    && SameHome(start, disk, Replay(initial, hist[..durable]))
  }

  /** As long as one operation has reservation left, the header is not full. */
  lemma RoomLeft(n: nat, block: seq<int>, dirtied: map<nat, set<nat>>)
    requires Reserved(n, block, dirtied)
    ensures n <= LOGBLOCKS
    ensures (exists op | op in dirtied :: |dirtied[op]| < MAXOPBLOCKS) ==> n < LOGBLOCKS
  {
    UnspentBounds(dirtied);
    if op :| op in dirtied && |dirtied[op]| < MAXOPBLOCKS {
      UnspentSplit(dirtied, op);
      UnspentBounds(dirtied - {op});
    }
  }

  lemma BeginKeepsReserved(n: nat, block: seq<int>, dirtied: map<nat, set<nat>>, op: nat)
    requires Reserved(n, block, dirtied) && op !in dirtied
    requires n + (|dirtied| + 1) * MAXOPBLOCKS <= LOGBLOCKS
    ensures Reserved(n, block, dirtied[op := {}])
  {
    UnspentBounds(dirtied);
    UnspentSplit(dirtied[op := {}], op);
    assert dirtied[op := {}] - {op} == dirtied;
  }

  lemma EndKeepsReserved(n: nat, block: seq<int>, dirtied: map<nat, set<nat>>, op: nat)
    requires Reserved(n, block, dirtied) && op in dirtied
    ensures Reserved(n, block, dirtied - {op})
  {
    UnspentSplit(dirtied, op);
  }

  lemma WriteKeepsReserved(n: nat, block: seq<int>, n': nat, block': seq<int>, dirtied: map<nat, set<nat>>, op: nat, b: nat)
    requires Reserved(n, block, dirtied)
    requires op in dirtied && |dirtied[op] + {b}| <= MAXOPBLOCKS
    requires n' <= |block'|
    requires forall c :: c in block'[..n'] <==> c == b || c in block[..n]
    requires n' == if b in block[..n] then n else n + 1
    ensures Reserved(n', block', dirtied[op := dirtied[op] + {b}])
  {
    SpendOne(dirtied, op, b);
  }

  lemma WriteKeepsTracks(start: nat, disk: Disk, view: Disk, initial: Disk, hist: seq<Update>, durable: nat, u: Update)
    requires Tracks(start, disk, view, initial, hist, durable)
    requires u.b < |view|
    ensures Tracks(start, disk, view[u.b := u.data], initial, hist + [u], durable)
  {
    assert (hist + [u])[..|hist|] == hist;
    assert (hist + [u])[..durable] == hist[..durable];
  }

  lemma WriteKeepsWhole(hist: seq<Update>, durable: nat, active: set<nat>, lost: set<nat>, nextOp: nat, u: Update)
    requires WholeOps(hist, durable, active, lost, nextOp) && u.op in active
    ensures WholeOps(hist + [u], durable, active, lost, nextOp)
  {
  }

  lemma WriteKeepsSynced(start: nat, disk: Disk, view: Disk, n: nat, block: seq<int>, n': nat, block': seq<int>, u: Update)
    requires Synced(start, disk, view, n, block)
    requires u.b < |view| && n' <= |block'|
    requires forall c :: c in block'[..n'] <==> c == u.b || c in block[..n]
    ensures Synced(start, disk, view[u.b := u.data], n', block')
  {
  }

  lemma WholeAfterLoss(hist: seq<Update>, durable: nat, active: set<nat>, lost: set<nat>, nextOp: nat)
    requires WholeOps(hist, durable, active, lost, nextOp)
    ensures WholeOps(hist[..durable], durable, {}, lost + OpsOf(hist[durable..]) + active, nextOp)
  {
  }

  // What the commit loops leave behind after k of their writes.

  function Min(a: nat, b: nat): nat {
    if a < b then a else b
  }

  ghost predicate Copied(start: nat, d0: Disk, d: Disk, v: Disk, block: seq<int>, k: nat) {
    && start + LOGBLOCKS < |d0| == |d| == |v| && k <= |block| == LOGBLOCKS
    && (forall i | 0 <= i < k :: 0 <= block[i] < |v| && d[start + 1 + i] == v[block[i]])
    && (forall b | 0 <= b < |d| && !(start < b <= start + k) :: d[b] == d0[b])
  }

  ghost predicate Installed(start: nat, d0: Disk, d: Disk, v: Disk, block: seq<int>, k: nat) {
    && start + LOGBLOCKS < |d0| == |d| == |v| && k <= |block| == LOGBLOCKS
    && (forall i | 0 <= i < k :: 0 <= block[i] < |d| && d[block[i]] == v[start + 1 + i])
    && (forall b | 0 <= b < |d| && b !in block[..k] :: d[b] == d0[b])
  }

  lemma CopyOne(start: nat, d0: Disk, d: Disk, v: Disk, block: seq<int>, n: nat, k: nat)
    requires HeaderFits(start, |d|, n, block) && k < n && Copied(start, d0, d, v, block, k)
    ensures Copied(start, d0, d[start + 1 + k := v[block[k]]], v, block, k + 1)
    ensures d[block[k]] == d0[block[k]]
  {
  }

  lemma InstallNone(start: nat, d: Disk, v: Disk, block: seq<int>)
    requires start + LOGBLOCKS < |d| == |v| && |block| == LOGBLOCKS
    ensures Installed(start, d, d, v, block, 0)
  {
  }

  lemma InstallOne(start: nat, d0: Disk, d: Disk, v: Disk, block: seq<int>, n: nat, k: nat)
    requires HeaderFits(start, |d|, n, block) && k < n
    requires Installed(start, d0, d, v, block, k)
    ensures Installed(start, d0, d[block[k] := v[start + 1 + k]], v, block, k + 1)
    ensures d[start + 1 + k] == d0[start + 1 + k]
  {
  }

  ghost predicate HeadHolds(hb: Block, n: nat, block: seq<int>) {
    && n <= LOGBLOCKS == |block|
    && hb[0] == n
    && forall i | 0 <= i < n :: hb[1 + i] == block[i]
  }

  /** The loop of write_head. */
  method FillHeader(before: Block, n: nat, block: seq<int>) returns (hb: Block)
    requires n <= LOGBLOCKS == |block|
    ensures HeadHolds(hb, n, block)
  {
    hb := before[0 := n];
    var i := 0;
    while i < n
      invariant 0 <= i <= n && |hb| == WORDS
      invariant hb[0] == n && forall k | 0 <= k < i :: hb[1 + k] == block[k]
    {
      hb := hb[1 + i := block[i]];
      i := i + 1;
    }
  }

  /** The header names the n logged blocks and their copies are in the log. */
  ghost predicate Committed(start: nat, d: Disk, v: Disk, n: nat, block: seq<int>) {
    && HeaderFits(start, |d|, n, block) && |d| == |v| && HeadHolds(d[start], n, block)
    && (forall i | 0 <= i < n :: d[start + 1 + i] == v[block[i]])
    && (forall b | 0 <= b < |d| && Outside(start, b) && b !in block[..n] :: d[b] == v[b])
  }

  /** Before the header write, recovery finds the old state. */
  lemma UncommittedRecovers(start: nat, d0: Disk, d: Disk, v: Disk, n: nat, block: seq<int>, k: nat, home: Disk)
    requires HeaderFits(start, |d|, n, block) && k <= n && Copied(start, d0, d, v, block, k)
    requires HeadN(start, d0) == 0 && SameHome(start, d0, home)
    ensures Recovers(start, d, home)
  {
  }

  /** After it, and however much of the installation is done, the new one. */
  lemma CommittedRecovers(start: nat, d: Disk, v: Disk, n: nat, block: seq<int>, home: Disk)
    requires Committed(start, d, v, n, block) && SameHome(start, v, home)
    ensures Recovers(start, d, home)
  {
    forall i | 0 <= i < n ensures Entry(start, d, i) == block[i] {
      assert d[start][1 + i] == block[i];
    }
    forall b | 0 <= b < |d| && Outside(start, b)
      ensures RecoveredBlock(start, d, b, n) == home[b]
    {
      if b in block[..n] {
        var i :| 0 <= i < n && block[i] == b;
        RecoveredHit(start, d, b, n, i);
      } else {
        forall j | 0 <= j < n ensures Entry(start, d, j) != b {
          assert block[j] in block[..n];
        }
        RecoveredMiss(start, d, b, n);
      }
    }
  }

  /** A disk with a valid header is the committed form of what it recovers to. */
  lemma RecoversIsCommitted(start: nat, d: Disk, n: nat, block: seq<int>, home: Disk)
    requires Recovers(start, d, home) && n == HeadN(start, d) && |block| == LOGBLOCKS
    requires forall i | 0 <= i < n :: block[i] == Entry(start, d, i)
    ensures Committed(start, d, home, n, block) && CopiesHeld(start, d, home, n, block)
  {
    forall i | 0 <= i < n ensures d[start + 1 + i] == home[block[i]] {
      RecoveredHit(start, d, block[i], n, i);
    }
    forall b | 0 <= b < |d| && Outside(start, b) && b !in block[..n] ensures d[b] == home[b] {
      forall j | 0 <= j < n ensures Entry(start, d, j) != b {
        assert block[j] in block[..n];
      }
      RecoveredMiss(start, d, b, n);
    }
  }

  lemma HeaderRead(start: nat, d: Disk, home: Disk)
    requires Recovers(start, d, home)
    ensures HeaderOk(start, d) && SameHome(start, home, home) && |home| == |d|
  {
  }

  lemma HeaderCommits(start: nat, d0: Disk, d: Disk, v: Disk, n: nat, block: seq<int>, hb: Block)
    requires HeaderFits(start, |d|, n, block) && Copied(start, d0, d, v, block, n)
    requires Synced(start, d0, v, n, block) && HeadHolds(hb, n, block)
    ensures Committed(start, d[start := hb], v, n, block)
  {
  }

  ghost predicate CopiesHeld(start: nat, w: Disk, v: Disk, n: nat, block: seq<int>) {
    && HeaderFits(start, |w|, n, block) && |w| == |v|
    && (forall i | 0 <= i < n :: w[start + 1 + i] == v[block[i]])
    && (forall b | 0 <= b < |w| && Outside(start, b) && b !in block[..n] :: w[b] == v[b])
  }

  lemma InstallKeepsCommitted(start: nat, d0: Disk, d: Disk, w: Disk, v: Disk, n: nat, block: seq<int>, k: nat)
    requires Committed(start, d0, v, n, block) && k <= n
    requires Installed(start, d0, d, w, block, k) && CopiesHeld(start, w, v, n, block)
    ensures Committed(start, d, v, n, block)
    ensures k == n ==> SameHome(start, d, v)
  {
  }

  lemma CopyingKeepsHome(start: nat, w: Disk, v: Disk, n: nat, block: seq<int>, hb: Block)
    requires HeaderFits(start, |w|, n, block) && Copied(start, v, w, v, block, n)
    ensures CopiesHeld(start, w[start := hb], v, n, block)
  {
  }

  /** Installing in the view, where every write takes effect. */
  lemma InstallInView(start: nat, w: Disk, w': Disk, v: Disk, n: nat, block: seq<int>, hb: Block, home: Disk)
    requires CopiesHeld(start, w, v, n, block) && Installed(start, w, w', w, block, n) && SameHome(start, v, home)
    ensures SameHome(start, w'[start := hb], home)
  {
  }

  /** From the commit point on: d2 carries the header, d3 part of the
      installation, d4 perhaps the cleared header. */
  lemma AfterCommitPoint(start: nat, d2: Disk, d3: Disk, d4: Disk, w: Disk, v: Disk, n: nat, block: seq<int>,
                         left: nat, hb: Block, home: Disk)
    requires Committed(start, d2, v, n, block) && CopiesHeld(start, w, v, n, block) && SameHome(start, v, home)
    requires Installed(start, d2, d3, w, block, Min(left, n))
    requires hb[0] == 0 && d4 == if left > n then d3[start := hb] else d3
    ensures Recovers(start, d4, home)
    ensures left > n ==> |d4| == |d2| && HeadN(start, d4) == 0 && SameHome(start, d4, home)
  {
    InstallKeepsCommitted(start, d2, d3, w, v, n, block, Min(left, n));
    CommittedRecovers(start, d3, v, n, block, home);
  }

  lemma NothingLogged(start: nat, d: Disk, v: Disk, block: seq<int>, before: Disk, after: Disk)
    requires start + LOGBLOCKS < |d| && HeadN(start, d) == 0 && Synced(start, d, v, 0, block)
    requires SameHome(start, d, before) && SameHome(start, v, after)
    ensures Recovers(start, d, before) && Recovers(start, d, after) && SameHome(start, d, after)
  {
  }

  lemma SameHomeSynced(start: nat, d: Disk, v: Disk, home: Disk, block: seq<int>)
    requires SameHome(start, d, home) && SameHome(start, v, home)
    ensures Synced(start, d, v, 0, block)
  {
  }

  datatype Event =
    | Begin
    | Write(op: nat, b: nat, data: Block)
    | End(op: nat)
    | Finish(power: nat)
    | Boot(power: nat)

  /** What the log is at some moment, its disk apart. */
  datatype Moment = Moment(
    failed: bool, committing: bool, n: nat, dirtied: map<nat, set<nat>>, nextOp: nat,
    hist: seq<Update>, durable: nat, start: nat, size: nat, headN: int)

  /** Operation op is in progress and within its reservation. */
  predicate MayWrite(s: Moment, op: nat, b: nat) {
    !s.failed && op in s.dirtied && |s.dirtied[op] + {b}| <= MAXOPBLOCKS && b < s.size && Outside(s.start, b)
  }

  /** What each event does; one that is not possible does nothing. */
  ghost predicate Happened(e: Event, s: Moment, s': Moment) {
    match e
    case Begin =>
      s' == if !s.failed && !s.committing && s.n + (|s.dirtied| + 1) * MAXOPBLOCKS <= LOGBLOCKS
            then s.(dirtied := s.dirtied[s.nextOp := {}], nextOp := s.nextOp + 1) else s
    case Write(op, b, data) =>
      if MayWrite(s, op, b) && s.n < LOGBLOCKS then
        && s' == s.(hist := s.hist + [Update(op, b, data)], dirtied := s.dirtied[op := s.dirtied[op] + {b}], n := s'.n)
        && s.n <= s'.n <= s.n + 1
      else s' == s
    case End(op) =>
      s' == if !s.failed && op in s.dirtied
            then s.(dirtied := s.dirtied - {op}, committing := s.dirtied - {op} == map[]) else s
    case Finish(p) =>
      if !s.failed && s.committing then
        && s'.hist == s.hist && s'.dirtied == s.dirtied && s'.nextOp == s.nextOp
        && s'.durable == (if p > s.n then |s.hist| else s.durable)
        && (s'.failed <==> s.n > 0 && p < 2 * s.n + 2)
        && (!s'.failed ==> !s'.committing && s'.n == 0)
      else s' == s
    case Boot(p) =>
      && s.durable <= |s.hist| && s'.hist == s.hist[..s.durable] && s'.durable == s.durable
      && s'.dirtied == map[] && s'.nextOp == s.nextOp
      && (s'.failed <==> p < s.headN + 1) && (!s'.failed ==> !s'.committing && s'.n == 0)
  }

  class Log {
    const start: nat
    var disk: Disk            // survives a power failure
    var view: Disk            // what bread returns
    var n: nat                // lh.n
    var block: seq<int>       // lh.block
    var outstanding: nat
    var committing: bool
    var power: nat            // disk writes that still reach the disk
    var failed: bool          // a write came after the power was gone

    // Bookkeeping that the C struct does not have: the operations in progress
    // with the blocks each has dirtied, and the history of updates.
    var dirtied: map<nat, set<nat>>
    var nextOp: nat
    ghost const initial: Disk
    ghost var hist: seq<Update>
    ghost var durable: nat                  // hist[..durable] is committed
    ghost var lost: set<nat>                // operations dropped by a power failure

    ghost predicate Running()
      reads this
    {
      && !failed
      && HeaderFits(start, |disk|, n, block)
      && |view| == |disk| && HeadN(start, disk) == 0
      && Synced(start, disk, view, n, block)
      && (n == 0 ==> durable == |hist|)
      && Tracks(start, disk, view, initial, hist, durable)
      && WholeOps(hist, durable, dirtied.Keys, lost, nextOp)
      && Reserved(n, block, dirtied)
      && outstanding == |dirtied|
      && (committing ==> outstanding == 0)
    }

    /** Recovery from this disk yields exactly the committed operations. */
    ghost predicate Durable()
      reads this
    {
      && durable <= |hist| && WholeOps(hist, durable, dirtied.Keys, lost, nextOp)
      && Recovers(start, disk, Replay(initial, hist[..durable]))
    }

    ghost function Now(): Moment
      reads this
    {
      Moment(failed, committing, n, dirtied, nextOp, hist, durable, start, |disk|, if start < |disk| then HeadN(start, disk) else 0)
    }

    lemma RunningCounts()
      requires Running()
      ensures !failed && outstanding == |dirtied| && (committing ==> dirtied == map[])
    {
      assert |dirtied.Keys| == |dirtied|;
      assert committing ==> dirtied.Keys == {};
    }

    lemma RunningIsDurable()
      requires Running()
      ensures Durable()
    {
    }

    /** initlog: recovery from whatever committed transaction is on the disk. */
    constructor (start: nat, disk: Disk)
      requires HeaderOk(start, disk)
      ensures Running() && !committing
      ensures this.start == start && |this.disk| == |disk| && initial == Recovered(start, disk) && hist == [] && durable == 0
      ensures n == 0 && dirtied == map[] && nextOp == 0 && lost == {}
    {
      this.start, this.disk, this.view, this.initial := start, disk, disk, Recovered(start, disk);
      n, block := 0, seq(LOGBLOCKS, _ => 0);
      outstanding, committing, power, failed := 0, false, HeadN(start, disk) + 1, false;
      hist, durable, dirtied, nextOp, lost := [], 0, map[], 0, {};
      new;
      hide Recovers, SameHome, Synced, RecoveredBlock;
      RecoveredRecovers(start, disk);
      Recover(initial);
      SameHomeSynced(start, this.disk, view, initial, block);
      assert hist[..0] == [];
    }

    // Operations.

    /** One pass of begin_op's loop: admitted, or the caller sleeps. */
    method BeginOp() returns (admitted: bool, op: nat)
      requires Running()
      modifies this`outstanding, this`dirtied, this`nextOp
      ensures Running()
      ensures op == old(nextOp) && op !in old(dirtied)
      ensures admitted <==> !committing && n + (old(outstanding) + 1) * MAXOPBLOCKS <= LOGBLOCKS
      ensures admitted ==> dirtied == old(dirtied)[op := {}] && nextOp == old(nextOp) + 1
      ensures !admitted ==> dirtied == old(dirtied) && nextOp == old(nextOp)
    {
      hide Reserved, Tracks, Synced, HeaderFits;
      op := nextOp;
      if committing {
        admitted := false;
      } else if n + (outstanding + 1) * MAXOPBLOCKS > LOGBLOCKS {
        admitted := false;
      } else {
        BeginKeepsReserved(n, block, dirtied, op);
        outstanding := outstanding + 1;
        dirtied := dirtied[op := {}];
        nextOp := nextOp + 1;
        admitted := true;
      }
    }

    /** The scan of log_write: b is in the header afterwards, once. */
    method Absorb(b: nat)
      requires n < LOGBLOCKS == |block|
      requires forall i, j | 0 <= i < j < n :: block[i] != block[j]
      modifies this`n, this`block
      ensures |block| == LOGBLOCKS
      ensures b in old(block[..n]) ==> n == old(n) && block == old(block)
      ensures b !in old(block[..n]) ==> n == old(n) + 1 && block == old(block)[old(n) := b]
      ensures n <= LOGBLOCKS && forall i, j | 0 <= i < j < n :: block[i] != block[j]
      ensures forall c :: c in block[..n] <==> c == b || c in old(block[..n])
    {
      var i := 0;
      while i < n
        invariant 0 <= i <= n
        invariant forall k | 0 <= k < i :: block[k] != b
      {
        if block[i] == b {
          break;
        }
        i := i + 1;
      }
      assert i < n <==> b in block[..n];
      block := block[i := b];
      if i == n {
        n := n + 1;
        assert block[..n] == old(block[..n]) + [b];
      } else {
        assert block == old(block);
      }
    }

    /** log_write, with the change to the locked buffer that precedes it.  Not
        ok is the panic "too big a transaction", tested before absorption. */
    method LogWrite(op: nat, b: nat, data: Block) returns (ok: bool)
      requires Running()
      requires op in dirtied && |dirtied[op] + {b}| <= MAXOPBLOCKS
      requires b < |disk| && Outside(start, b)
      modifies this`view, this`n, this`block, this`hist, this`dirtied
      ensures Running() && !committing
      ensures ok <==> old(n) < LOGBLOCKS
      ensures (exists o | o in old(dirtied) :: |old(dirtied)[o]| < MAXOPBLOCKS) ==> ok
      ensures ok ==> hist == old(hist) + [Update(op, b, data)]
      ensures ok ==> dirtied == old(dirtied)[op := old(dirtied)[op] + {b}]
      ensures ok ==> n == if b in old(block[..n]) then old(n) else old(n) + 1
      ensures ok ==> forall c :: c in block[..n] <==> c == b || c in old(block[..n])
      ensures !ok ==> view == old(view) && n == old(n) && block == old(block) && hist == old(hist) && dirtied == old(dirtied)
    {
      hide Unspent, Tracks, Reserved, WholeOps, Synced;
      RoomLeft(n, block, dirtied);
      if n >= LOGBLOCKS {
        return false;
      }
      assert outstanding >= 1;
      ghost var u := Update(op, b, data);
      WriteKeepsTracks(start, disk, view, initial, hist, durable, u);
      WriteKeepsWhole(hist, durable, dirtied.Keys, lost, nextOp, u);
      view := view[b := data];
      Absorb(b);
      WriteKeepsReserved(old(n), old(block), n, block, dirtied, op, b);
      WriteKeepsSynced(start, disk, old(view), old(n), old(block), n, block, u);
      hist := hist + [u];
      dirtied := dirtied[op := dirtied[op] + {b}];
      assert dirtied.Keys == old(dirtied).Keys;
      ok := true;
    }

    /** Commit starts only when no operation is in progress. */
    method EndOp(op: nat) returns (doCommit: bool)
      requires Running() && op in dirtied
      modifies this`outstanding, this`committing, this`dirtied
      ensures Running()
      ensures !old(committing)  // the panic "log.committing" is unreachable
      ensures dirtied == old(dirtied) - {op}
      ensures doCommit == committing == (dirtied == map[])
    {
      hide Tracks, Reserved, Synced, HeaderFits;
      assert |dirtied.Keys| == |dirtied|;
      EndKeepsReserved(n, block, dirtied, op);
      outstanding := outstanding - 1;
      dirtied := dirtied - {op};
      doCommit := outstanding == 0;
      assert |dirtied.Keys| == |dirtied| == outstanding;
      assert dirtied.Keys == {} ==> dirtied == map[];
      if doCommit {
        committing := true;
      }
    }

    // Disk writes.

    method Bwrite(b: nat)
      requires b < |disk| == |view|
      modifies this`disk, this`power, this`failed
      ensures old(power) > 0 ==> disk == old(disk)[b := view[b]] && power == old(power) - 1 && failed == old(failed)
      ensures old(power) == 0 ==> disk == old(disk) && power == 0 && failed
    {
      if power > 0 {
        disk := disk[b := view[b]];
        power := power - 1;
      } else {
        failed := true;
      }
    }

    method WriteLog()
      requires HeaderFits(start, |disk|, n, block) && |view| == |disk| && !failed
      modifies this`disk, this`view, this`power, this`failed
      ensures |disk| == |old(disk)| && |view| == |old(view)|
      ensures Copied(start, old(view), view, old(view), block, n)
      ensures Copied(start, old(disk), disk, old(view), block, Min(old(power), n))
      ensures power == old(power) - Min(old(power), n) && (failed <==> old(power) < n)
    {
      var tail := 0;
      while tail < n
        invariant 0 <= tail <= n
        invariant Copied(start, old(view), view, old(view), block, tail)
        invariant Copied(start, old(disk), disk, old(view), block, Min(old(power), tail))
        invariant power == old(power) - Min(old(power), tail) && (failed <==> old(power) < tail)
      {
        view := view[start + tail + 1 := view[block[tail]]];
        Bwrite(start + tail + 1);
        tail := tail + 1;
      }
    }

    method WriteHead()
      requires start < |disk| == |view| && n <= LOGBLOCKS == |block|
      modifies this`disk, this`view, this`power, this`failed
      ensures |view| == |old(view)| && view == old(view)[start := view[start]] && HeadHolds(view[start], n, block)
      ensures old(power) > 0 ==> disk == old(disk)[start := view[start]] && power == old(power) - 1 && failed == old(failed)
      ensures old(power) == 0 ==> disk == old(disk) && power == 0 && failed
    {
      var hb := FillHeader(view[start], n, block);
      view := view[start := hb];
      Bwrite(start);
    }

    method InstallTrans()
      requires HeaderFits(start, |disk|, n, block) && |view| == |disk|
      modifies this`disk, this`view, this`power, this`failed
      ensures old(power) == 0 ==> disk == old(disk)
      ensures |disk| == |old(disk)| && |view| == |old(view)|
      ensures Installed(start, old(view), view, old(view), block, n)
      ensures Installed(start, old(disk), disk, old(view), block, Min(old(power), n))
      ensures power == old(power) - Min(old(power), n) && (failed <==> old(failed) || old(power) < n)
    {
      hide Installed;
      InstallNone(start, view, view, block);
      InstallNone(start, disk, view, block);
      var tail := 0;
      while tail < n
        invariant 0 <= tail <= n
        invariant old(power) == 0 ==> disk == old(disk)
        invariant |disk| == |view| == |old(disk)| && Installed(start, old(view), view, old(view), block, tail)
        invariant Installed(start, old(disk), disk, old(view), block, Min(old(power), tail))
        invariant power == old(power) - Min(old(power), tail) && (failed <==> old(failed) || old(power) < tail)
      {
        InstallOne(start, old(view), view, old(view), block, n, tail);
        if power > 0 {
          InstallOne(start, old(disk), disk, old(view), block, n, tail);
        }
        view := view[block[tail] := view[start + tail + 1]];
        Bwrite(block[tail]);
        tail := tail + 1;
      }
    }

    method ReadHead()
      requires HeaderOk(start, view) && |block| == LOGBLOCKS
      modifies this`n, this`block
      ensures n == HeadN(start, view) && |block| == LOGBLOCKS
      ensures forall i | 0 <= i < n :: block[i] == Entry(start, view, i)
    {
      n := view[start][0];
      var i := 0;
      while i < n
        invariant 0 <= i <= n == HeadN(start, view) && |block| == LOGBLOCKS
        invariant forall k | 0 <= k < i :: block[k] == Entry(start, view, k)
      {
        block := block[i := view[start][1 + i]];
        i := i + 1;
      }
    }

    /** commit(), which the power failure may stop after any of its 2n + 2
        disk writes.  Recovery then finds exactly the state before, unless the
        header write (write number n + 1) happened: then exactly the state
        after. */
    method Commit(ghost before: Disk, ghost after: Disk)
      requires !failed && HeaderFits(start, |disk|, n, block) && |view| == |disk|
      requires HeadN(start, disk) == 0 && Synced(start, disk, view, n, block)
      requires SameHome(start, disk, before) && SameHome(start, view, after)
      modifies this`disk, this`view, this`n, this`power, this`failed
      ensures n == 0 && |disk| == |view| == |old(disk)|
      ensures Recovers(start, disk, if old(power) > old(n) then after else before)
      ensures failed <==> old(n) > 0 && old(power) < 2 * old(n) + 2
      ensures !failed ==> HeadN(start, disk) == 0 && SameHome(start, disk, after) && SameHome(start, view, after)
    {
      hide Copied, Installed, Committed, CopiesHeld, Recovers, Synced, SameHome, HeaderOk;
      if n > 0 {
        ghost var d0, v, m, p := disk, view, n, power;
        WriteLog();
        ghost var d1, w := disk, view;
        UncommittedRecovers(start, d0, d1, v, n, block, Min(p, n), before);
        WriteHead();
        CopyingKeepsHome(start, w, v, n, block, view[start]);
        if p > n {
          HeaderCommits(start, d0, d1, v, n, block, view[start]);
        }
        ghost var d2, w2 := disk, view;
        InstallTrans();
        ghost var d3, w3 := disk, view;
        n := 0;
        WriteHead();
        InstallInView(start, w2, w3, v, m, block, view[start], after);
        if p > m {
          AfterCommitPoint(start, d2, d3, disk, w2, v, m, block, p - m - 1, view[start], after);
        }
      } else {
        NothingLogged(start, disk, view, block, before, after);
      }
    }

    /** The rest of end_op, with the power failing after p disk writes. */
    method EndOpCommit(p: nat)
      requires Running() && committing
      modifies this
      ensures hist == old(hist) && dirtied == old(dirtied) && nextOp == old(nextOp) && lost == old(lost)
      ensures durable == if p > old(n) then |hist| else old(durable)
      ensures failed <==> old(n) > 0 && p < 2 * old(n) + 2
      ensures Durable()
      ensures !failed ==> Running() && !committing && n == 0 && durable == |hist|
    {
      hide Recovers, Synced, SameHome, Replay;
      assert |dirtied.Keys| == |dirtied|;
      assert dirtied.Keys == {};
      power := p;
      Commit(Replay(initial, hist[..durable]), Replay(initial, hist));
      if p > old(n) {
        durable := |hist|;
      }
      assert hist[..|hist|] == hist;
      if !failed {
        SameHomeSynced(start, disk, view, Replay(initial, hist), block);
      }
      committing := false;
    }

    /** All that the machine keeps in memory is gone.  The disk still recovers to
        exactly the committed operations, and each other operation is lost as a
        whole. */
    method LosePower(p: nat)
      requires Durable()
      modifies this
      ensures Durable() && hist == old(hist[..durable]) && durable == |hist|
      ensures lost == old(lost + OpsOf(hist[durable..]) + dirtied.Keys) && forall i | 0 <= i < |hist| :: hist[i].op !in lost
      ensures view == disk == old(disk) && outstanding == 0 && !committing && power == p && !failed
      ensures |block| == LOGBLOCKS && dirtied == map[] && nextOp == old(nextOp)
    {
      hide Recovers, OpsOf;
      WholeAfterLoss(hist, durable, dirtied.Keys, lost, nextOp);
      view, outstanding, committing, power, failed := disk, 0, false, p, false;
      block := seq(LOGBLOCKS, _ => 0);
      lost, dirtied, hist := lost + OpsOf(hist[durable..]) + dirtied.Keys, map[], hist[..durable];
      assert hist[..durable] == hist && dirtied.Keys == {};
    }

    /** A power failure at any moment, then recover_from_log with the power
        failing again after p disk writes. */
    method Reboot(p: nat)
      requires Durable()
      modifies this
      ensures hist == old(hist[..durable]) && durable == |hist| && nextOp == old(nextOp)
      ensures lost == old(lost + OpsOf(hist[durable..]) + dirtied.Keys) && dirtied == map[]
      ensures failed <==> p < old(HeadN(start, disk)) + 1
      ensures Durable()
      ensures !failed ==> Running() && !committing && n == 0
    {
      hide Recovers, SameHome, Synced, Replay, WholeOps, OpsOf;
      HeaderRead(start, disk, Replay(initial, hist[..durable]));
      LosePower(p);
      ghost var home := Replay(initial, hist);
      assert hist[..durable] == hist && dirtied.Keys == {};
      Recover(home);
      if !failed {
        SameHomeSynced(start, disk, view, home, block);
      }
    }

    /** recover_from_log: idempotent, so it may be interrupted and repeated. */
    method Recover(ghost home: Disk)
      requires !failed && view == disk && Recovers(start, disk, home) && |block| == LOGBLOCKS
      modifies this`disk, this`view, this`n, this`block, this`power, this`failed
      ensures n == 0 && |block| == LOGBLOCKS && |disk| == |view| == |old(disk)|
      ensures failed <==> old(power) < old(HeadN(start, disk)) + 1
      ensures Recovers(start, disk, home)
      ensures !failed ==> HeadN(start, disk) == 0 && SameHome(start, disk, home) && SameHome(start, view, home)
    {
      hide Recovers, Committed, CopiesHeld, Installed, SameHome, RecoveredBlock;
      HeaderRead(start, disk, home);
      ReadHead();
      ghost var d0, m, p := disk, n, power;
      RecoversIsCommitted(start, d0, m, block, home);
      InstallTrans();
      ghost var d1, w := disk, view;
      n := 0;
      WriteHead();
      InstallInView(start, d0, w, home, m, block, view[start], home);
      AfterCommitPoint(start, d0, d1, disk, d0, home, m, block, p, view[start], home);
    }

    /** Every interleaving of operations, commits and power failures: whenever
        the script stops, recovery yields the initial file system with exactly
        the committed operations applied, each of them whole, and no operation
        once committed is lost.  The trace has the moments between the events. */
    method Run(script: seq<Event>) returns (ghost trace: seq<Moment>)
      requires Running()
      modifies this
      ensures |trace| == |script| + 1 && trace[0] == old(Now()) && trace[|script|] == Now()
      ensures forall k | 0 <= k < |script| :: Happened(script[k], trace[k], trace[k + 1])
      ensures Durable() && (!failed ==> Running())
      ensures old(hist[..durable]) <= hist[..durable]
    {
      hide Happened, Recovers, WholeOps, Replay;
      RunningIsDurable();
      trace := [Now()];
      for i := 0 to |script|
        invariant |trace| == i + 1 && trace[0] == old(Now()) && trace[i] == Now()
        invariant forall k | 0 <= k < i :: Happened(script[k], trace[k], trace[k + 1])
        invariant Durable() && (!failed ==> Running())
        invariant old(hist[..durable]) <= hist[..durable]
      {
        Perform(script[i]);
        trace := trace + [Now()];
      }
    }

    /** What a system call does, if it can. */
    method Issue(e: Event)
      requires Running() && (e.Begin? || e.Write? || e.End?)
      modifies this`view, this`n, this`block, this`outstanding, this`committing, this`dirtied, this`nextOp, this`hist
      ensures Running() && old(hist) <= hist && Happened(e, old(Now()), Now())
    {
      hide Running;
      RunningCounts();
      match e
      case Begin =>
        var _, _ := BeginOp();
      case Write(op, b, data) =>
        if op in dirtied && |dirtied[op] + {b}| <= MAXOPBLOCKS && b < |disk| && Outside(start, b) {
          var _ := LogWrite(op, b, data);
        }
      case End(op) =>
        if op in dirtied {
          var _ := EndOp(op);
        }
    }

    /** One event; one that the system call layer cannot issue does nothing. */
    method Perform(e: Event)
      requires Durable() && (!failed ==> Running())
      modifies this
      ensures Durable() && (!failed ==> Running())
      ensures old(hist[..durable]) <= hist[..durable]
      ensures Happened(e, old(Now()), Now())
    {
      hide Recovers, WholeOps, Synced, Tracks, Reserved, HeaderFits, Replay;
      match e
      case Boot(p) =>
        HeaderRead(start, disk, Replay(initial, hist[..durable]));
        Reboot(p);
      case Finish(p) =>
        if !failed && committing {
          EndOpCommit(p);
        }
      case _ =>
        if !failed {
          Issue(e);
          RunningIsDurable();
        }
    }
  }

  lemma DirtiedIsLogged(n: nat, block: seq<int>, dirtied: map<nat, set<nat>>, op: nat, b: nat)
    requires Reserved(n, block, dirtied) && op in dirtied && b in dirtied[op]
    ensures b in block[..n]
  {
  }

  function Range(first: nat, k: nat): (r: set<nat>)
    ensures |r| == k
    ensures forall c :: c in r <==> first <= c < first + k
  {
    if k == 0 then {} else Range(first, k - 1) + {first + k - 1}
  }

  /** Operation op dirties one more block, which is not logged yet. */
  method DirtyAnother(log: Log, op: nat, first: nat, k: nat)
    requires log.Running() && op in log.dirtied && log.dirtied[op] == Range(first, k)
    requires log.n < LOGBLOCKS && k < MAXOPBLOCKS
    requires log.start + LOGBLOCKS < first && first + MAXOPBLOCKS <= |log.disk|
    requires forall c | c in log.block[..log.n] :: c < first + k
    modifies log
    ensures log.Running() && log.n == old(log.n) + 1 && log.disk == old(log.disk)
    ensures log.dirtied == old(log.dirtied)[op := Range(first, k + 1)]
    ensures forall c | c in log.block[..log.n] :: c < first + k + 1
  {
    hide Recovers, WholeOps, Synced, Tracks, Reserved, Replay, Unspent;
    assert Range(first, k) + {first + k} == Range(first, k + 1);
    var _ := log.LogWrite(op, first + k, log.disk[0]);
  }

  method FillReservation(log: Log, op: nat, first: nat)
    requires log.Running() && op in log.dirtied && log.dirtied[op] == {}
    requires log.n + MAXOPBLOCKS <= LOGBLOCKS
    requires log.start + LOGBLOCKS < first && first + MAXOPBLOCKS <= |log.disk|
    requires forall c | c in log.block[..log.n] :: c < first
    modifies log
    ensures log.Running() && log.disk == old(log.disk)
    ensures log.n == old(log.n) + MAXOPBLOCKS
    ensures log.dirtied == old(log.dirtied)[op := Range(first, MAXOPBLOCKS)]
    ensures forall c | c in log.block[..log.n] :: c < first + MAXOPBLOCKS
  {
    hide Recovers, WholeOps, Synced, Tracks, Reserved, Replay, Unspent, Range;
    assert Range(first, 0) == {};
    assert log.dirtied[op := {}] == log.dirtied;
    for k := 0 to MAXOPBLOCKS
      invariant log.Running() && log.n == old(log.n) + k && log.disk == old(log.disk)
      invariant log.dirtied == old(log.dirtied)[op := Range(first, k)]
      invariant forall c | c in log.block[..log.n] :: c < first + k
    {
      DirtyAnother(log, op, first, k);
    }
  }

  method BeginThree(log: Log) returns (a: nat, b: nat, c: nat)
    requires log.Running() && !log.committing && log.n == 0 && log.dirtied == map[]
    modifies log
    ensures log.Running() && !log.committing && log.n == 0 && log.disk == old(log.disk)
    ensures a != b && b != c && a != c && log.dirtied == map[a := {}, b := {}, c := {}]
  {
    hide Recovers, WholeOps, Synced, Tracks, Reserved, Replay;
    var ok;
    ok, a := log.BeginOp();
    ok, b := log.BeginOp();
    ok, c := log.BeginOp();
  }

  /** param.h promises room for MAXOPBLOCKS blocks per operation, but when
      three operations have dirtied exactly that many, the next log_write
      panics, even one that would be absorbed. */
  method TooBigTransaction(disk: Disk) returns (log: Log, a: nat, ok: bool)
    requires |disk| == 100 && HeaderOk(2, disk)
    ensures log.Running() && !log.committing && |log.dirtied| == 3 && log.n == LOGBLOCKS
    ensures forall o | o in log.dirtied :: |log.dirtied[o]| == MAXOPBLOCKS
    ensures a in log.dirtied && 40 in log.dirtied[a] && 40 in log.block[..log.n]
    ensures !ok
  {
    hide Recovers, Recovered, WholeOps, Synced, Tracks, Reserved, Replay, Range;
    log := new Log(2, disk);
    var b, c;
    a, b, c := BeginThree(log);
    FillReservation(log, a, 40);
    FillReservation(log, b, 50);
    FillReservation(log, c, 60);
    assert Range(40, 10) + {40} == Range(40, 10);
    DirtiedIsLogged(log.n, log.block, log.dirtied, a, 40);
    ok := log.LogWrite(a, 40, disk[0]);
  }
}

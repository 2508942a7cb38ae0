/** The log over the buffer cache (kernel/log.c): begin_op, log_write, end_op and
    commit, with every disk block reached through bget, the sleeplock, bwrite
    and brelse.

    A handle inside an operation may change its block; one outside every
    operation only reads, and may do so during a commit.  Each method is a
    section between two waits, and the sections of different handles interleave
    freely. */
module LogCache {
  import opened BufferCache
  import opened Common
  import opened Handles
  import Log

  /** Where commit stands.  Copying and Installing are the heads of its loops,
      at entry tail of the header; in the other two it has log block tail locked
      and waits for the lock of the home block. */
  datatype Pc = Idle | Copying(tail: nat) | CopyLock(tail: nat) | Installing(tail: nat) | InstallLock(tail: nat) | Panic

  /** A bread that was answered with data after the first at changes. */
  datatype Read = Read(at: nat, blockno: nat, data: Block)

  function Padded(header: seq<nat>): (block: seq<int>)
    ensures |block| == Log.LOGBLOCKS
  {
    seq(Log.LOGBLOCKS, i requires 0 <= i => if i < |header| then header[i] else 0)
  }

  ghost predicate Fits(a: Area, header: seq<nat>) {
    |header| <= Log.LOGBLOCKS && Log.HeaderFits(a.start, a.size, |header|, Padded(header))
  }

  /** The handles of commit. */
  ghost predicate Hands(a: Area, pc: Pc, s: State, header: seq<nat>) {
    match pc
    case CopyLock(t) => AtLock(a, s, header, t)
    case InstallLock(t) => AtLock(a, s, header, t)
    case Panic => true
    case _ => LOGBUF !in s.where && HOMEBUF !in s.where
  }

  /** No operation is under way during a commit, and every change that is not
      logged yet is that of an operation under way. */
  ghost predicate OpsOk(pc: Pc, ops: set<nat>, owner: map<nat, nat>, where: map<nat, nat>, unlogged: set<nat>) {
    && (pc != Idle && pc != Panic ==> ops == {})
    && (forall h | h in owner :: h in where && h > HOMEBUF && owner[h] in ops)
    && unlogged <= owner.Keys
  }

  /** Every bread was answered with the last contents stored in its block. */
  ghost predicate ReadsOk(initial: Log.Disk, hist: seq<Log.Update>, seen: seq<Read>) {
    forall i | 0 <= i < |seen| :: ReadOk(initial, hist, seen[i])
  }

  ghost predicate ReadOk(initial: Log.Disk, hist: seq<Log.Update>, r: Read) {
    && r.at <= |hist| && r.blockno < |initial|
    && r.data == Log.Replay(initial, hist[..r.at])[r.blockno]
  }

  // Where the disk d and the view v are at each point of a commit that began
  // with d0 and v0; home is what is durable.

  ghost predicate CopyStage(a: Area, header: seq<nat>, d: Log.Disk, v: Log.Disk, d0: Log.Disk, v0: Log.Disk,
                            home: Log.Disk, t: nat)
  {
    && Fits(a, header) && t <= |header| && |d0| == a.size
    && Log.Copied(a.start, d0, d, v0, Padded(header), t)
    && Log.Copied(a.start, v0, v, v0, Padded(header), t)
    && Log.HeadN(a.start, d0) == 0 && Log.SameHome(a.start, d0, home)
    && Log.Synced(a.start, d0, v0, |header|, Padded(header))
  }

  ghost predicate InstallStage(a: Area, header: seq<nat>, d: Log.Disk, v: Log.Disk, d0: Log.Disk, v0: Log.Disk,
                               home: Log.Disk, t: nat)
  {
    && Fits(a, header) && t <= |header| && |d0| == a.size
    && Log.Committed(a.start, d0, v0, |header|, Padded(header))
    && Log.Installed(a.start, d0, d, v, Padded(header), t)
    && Log.CopiesHeld(a.start, v, v0, |header|, Padded(header))
    && Log.SameHome(a.start, v, v0) && Log.SameHome(a.start, v0, home)
  }

  ghost predicate Stage(a: Area, pc: Pc, header: seq<nat>, pinned: seq<nat>, d: Log.Disk, v: Log.Disk,
                        d0: Log.Disk, v0: Log.Disk, home: Log.Disk)
  {
    match pc
    case Idle => pinned == header && a.start < |d| && Log.HeadN(a.start, d) == 0 && Log.SameHome(a.start, d, home)
    case Copying(t) => pinned == header && header != [] && CopyStage(a, header, d, v, d0, v0, home, t)
    case CopyLock(t) => pinned == header && t < |header| && CopyStage(a, header, d, v, d0, v0, home, t)
    case Installing(t) =>
      t <= |header| && pinned == header[t..] && header != [] && InstallStage(a, header, d, v, d0, v0, home, t)
    case InstallLock(t) => t < |header| && pinned == header[t..] && InstallStage(a, header, d, v, d0, v0, home, t)
    case Panic => true
  }

  lemma FitsMember(a: Area, header: seq<nat>, t: nat)
    requires Fits(a, header) && t < |header|
    ensures header[t] < a.size && Log.Outside(a.start, header[t]) && Padded(header)[t] == header[t]
  {
    assert Padded(header)[t] == header[t];
  }

  lemma FitsSize(a: Area, header: seq<nat>)
    requires Fits(a, header)
    ensures |header| <= Log.LOGBLOCKS
  {
  }

  lemma FitsMore(a: Area, header: seq<nat>, k: nat)
    requires Fits(a, header) && |header| < Log.LOGBLOCKS && k < a.size && Log.Outside(a.start, k) && k !in header
    ensures Fits(a, header + [k])
  {
    var n := |header|;
    forall i | 0 <= i < n ensures Padded(header + [k])[i] == Padded(header)[i] == header[i] {
    }
  }

  lemma PaddedMembers(header: seq<nat>, x: nat)
    requires |header| <= Log.LOGBLOCKS
    ensures x in Padded(header)[..|header|] <==> x in header
  {
    if x in header {
      var i :| 0 <= i < |header| && header[i] == x;
      assert Padded(header)[..|header|][i] == x;
    }
  }

  /** When no change is waiting to be logged, only logged blocks differ between
      the disk and the view. */
  lemma SyncedNow(a: Area, s: State, view: map<Key, Block>, header: seq<nat>)
    requires AreaOk(a) && BaseOk(a, s) && TableOk(s.bufs, s.refs, s.pins, s.disk, view) && s.unlogged == {} && s.pinned == header
    requires |header| <= Log.LOGBLOCKS
    ensures Log.Synced(a.start, Image(a, s.disk), Image(a, view), |header|, Padded(header))
  {
    var n, block := |header|, Padded(header);
    forall x: nat | x < a.size && x !in block[..n] ensures Image(a, view)[x] == Image(a, s.disk)[x] {
      PaddedMembers(header, x);
      BlockSynced(a, s, view, x);
    }
  }

  lemma BlockSynced(a: Area, s: State, view: map<Key, Block>, x: nat)
    requires BaseOk(a, s) && TableOk(s.bufs, s.refs, s.pins, s.disk, view) && s.unlogged == {} && x < a.size && x !in s.pinned
    ensures Key(a.dev, x) in s.disk && Key(a.dev, x) in view && s.disk[Key(a.dev, x)] == view[Key(a.dev, x)]
  {
    var k := Key(a.dev, x);
    if Cached(s.bufs, k) {
      var i :| 0 <= i < |s.bufs| && s.bufs[i].key == k && s.bufs[i].valid;
      assert SlotOk(a, s.bufs[i], s.refs[i], s.users[i], s.lockers[i]);
      assert CleanSlot(s.bufs[i], s.pins[i], s.disk, s.lockers[i], s.unlogged);
    }
  }

  lemma EmptyHeaderRecovers(a: Area, d: Log.Disk, home: Log.Disk)
    requires AreaOk(a) && |d| == a.size && Log.HeadN(a.start, d) == 0 && Log.SameHome(a.start, d, home)
    ensures Log.Recovers(a.start, d, home)
  {
  }

  lemma NothingToCommit(a: Area, d: Log.Disk, v: Log.Disk, all: Log.Disk)
    requires AreaOk(a) && |d| == |v| == a.size && Log.Synced(a.start, d, v, 0, Padded([]))
    requires Log.HeadN(a.start, d) == 0 && Log.SameHome(a.start, v, all)
    ensures Log.SameHome(a.start, d, all) && Log.Recovers(a.start, d, all)
  {
  }

  lemma CommitStarts(a: Area, header: seq<nat>, d: Log.Disk, v: Log.Disk, home: Log.Disk)
    requires AreaOk(a) && |d| == |v| == a.size && Fits(a, header) && Log.Synced(a.start, d, v, |header|, Padded(header))
    requires Log.HeadN(a.start, d) == 0 && Log.SameHome(a.start, d, home)
    ensures CopyStage(a, header, d, v, d, v, home, 0)
  {
  }

  /** One more block is in the log. */
  lemma CopyMore(a: Area, header: seq<nat>, d: Log.Disk, v: Log.Disk, d': Log.Disk, v': Log.Disk, d0: Log.Disk, v0: Log.Disk,
                 home: Log.Disk, t: nat)
    requires CopyStage(a, header, d, v, d0, v0, home, t)
    requires t < |header| && header[t] < |v| && a.start + 1 + t < |v| == |d| == a.size
    requires v' == v[a.start + 1 + t := v[header[t]]] && d' == d[a.start + 1 + t := v'[a.start + 1 + t]]
    ensures CopyStage(a, header, d', v', d0, v0, home, t + 1) && Log.Recovers(a.start, d', home) && Log.SameHome(a.start, v', v)
  {
    hide Log.Copied, Log.Recovers, Log.Synced;
    FitsMember(a, header, t);
    Log.CopyOne(a.start, d0, d, v0, Padded(header), |header|, t);
    Log.CopyOne(a.start, v0, v, v0, Padded(header), |header|, t);
    Log.UncommittedRecovers(a.start, d0, d', v0, |header|, Padded(header), t + 1, home);
  }

  /** The commit point: from this write on, recovery finds the new state. */
  lemma CommitPoint(a: Area, header: seq<nat>, d: Log.Disk, v: Log.Disk, d0: Log.Disk, v0: Log.Disk, home: Log.Disk,
                    hb: Block, all: Log.Disk)
    requires CopyStage(a, header, d, v, d0, v0, home, |header|) && Log.HeadHolds(hb, |header|, Padded(header))
    requires a.start < |d| == |v| && Log.SameHome(a.start, v, all)
    ensures InstallStage(a, header, d[a.start := hb], v[a.start := hb], d[a.start := hb], v0, all, 0)
    ensures Log.Recovers(a.start, d[a.start := hb], all) && Log.SameHome(a.start, v[a.start := hb], all)
  {
    Log.HeaderCommits(a.start, d0, d, v0, |header|, Padded(header), hb);
    Log.CopyingKeepsHome(a.start, v, v0, |header|, Padded(header), hb);
    Log.InstallNone(a.start, d[a.start := hb], v[a.start := hb], Padded(header));
    Log.CommittedRecovers(a.start, d[a.start := hb], v0, |header|, Padded(header), all);
  }

  /** One more block is installed, and the view is as before. */
  lemma InstallMore(a: Area, header: seq<nat>, d: Log.Disk, v: Log.Disk, d0: Log.Disk, v0: Log.Disk, home: Log.Disk, t: nat)
    requires InstallStage(a, header, d, v, d0, v0, home, t) && t < |header| && header[t] < |v| && a.start + 1 + t < |v| == |d|
    ensures v[header[t] := v[a.start + 1 + t]] == v
    ensures InstallStage(a, header, d[header[t] := v[a.start + 1 + t]], v, d0, v0, home, t + 1)
    ensures Log.Recovers(a.start, d[header[t] := v[a.start + 1 + t]], home)
  {
    hide Log.Installed, Log.Committed, Log.Recovers, Log.HeaderFits;
    FitsMember(a, header, t);
    var d' := d[header[t] := v[a.start + 1 + t]];
    Log.InstallOne(a.start, d0, d, v, Padded(header), |header|, t);
    Log.InstallKeepsCommitted(a.start, d0, d', v, v0, |header|, Padded(header), t + 1);
    Log.CommittedRecovers(a.start, d', v0, |header|, Padded(header), home);
  }

  /** Everything is installed and the header is cleared. */
  lemma Cleared(a: Area, header: seq<nat>, d: Log.Disk, v: Log.Disk, d0: Log.Disk, v0: Log.Disk, home: Log.Disk, hb: Block)
    requires AreaOk(a) && InstallStage(a, header, d, v, d0, v0, home, |header|) && hb[0] == 0 && a.start < |d| == |v| == a.size
    ensures Log.HeadN(a.start, d[a.start := hb]) == 0 && Log.SameHome(a.start, d[a.start := hb], home)
    ensures Log.Recovers(a.start, d[a.start := hb], home)
  {
    Log.InstallKeepsCommitted(a.start, d0, d, v, v0, |header|, Padded(header), |header|);
    EmptyHeaderRecovers(a, d[a.start := hb], home);
  }

  // The whole protocol, as values: s is the cache with its handles, d the disk
  // and v the view.

  datatype Protocol = Protocol(
    pc: Pc, header: seq<nat>, ops: set<nat>, nextOp: nat, owner: map<nat, nat>,
    initial: Log.Disk, hist: seq<Log.Update>, kept: nat, seen: seq<Read>, d0: Log.Disk, v0: Log.Disk)

  /** The file system with the committed operations. */
  ghost function Home(p: Protocol): Log.Disk {
    if p.kept <= |p.hist| then Log.Replay(p.initial, p.hist[..p.kept]) else p.initial
  }

  ghost predicate ProtocolOk(a: Area, s: State, d: Log.Disk, v: Log.Disk, p: Protocol) {
    && |p.initial| == a.size && p.kept <= |p.hist|
    && Fits(a, p.header)
    && OpsOk(p.pc, p.ops, p.owner, s.where, s.unlogged)
    && Hands(a, p.pc, s, p.header)
    && Stage(a, p.pc, p.header, s.pinned, d, v, p.d0, p.v0, Home(p))
    && Log.Recovers(a.start, d, Home(p))
    && Log.SameHome(a.start, v, Log.Replay(p.initial, p.hist))
    && Log.WholeOps(p.hist, p.kept, p.ops, {}, p.nextOp)
    && ReadsOk(p.initial, p.hist, p.seen)
  }

  lemma OpenOk(a: Area, s: State, d: Log.Disk, v: Log.Disk, p: Protocol, h: nat, b: nat, x: Buf, op: Option<nat>)
    requires ProtocolOk(a, s, d, v, p) && Sized(s) && b < NBUF && h > HOMEBUF && h !in s.where && (op.Some? ==> op.value in p.ops)
    requires forall g | g in s.where :: BlockOf(Opened(s, h, b, x), g) == BlockOf(s, g)
    ensures ProtocolOk(a, Opened(s, h, b, x), d, v, if op.Some? then p.(owner := p.owner[h := op.value]) else p)
  {
    hide Stage, Fits, ReadsOk, Log.Recovers, Log.SameHome, Log.WholeOps;
  }

  lemma StoppedOk(a: Area, s: State, s': State, d: Log.Disk, v: Log.Disk, p: Protocol)
    requires ProtocolOk(a, s, d, v, p) && s'.where == s.where && s'.unlogged == s.unlogged
    ensures ProtocolOk(a, s', d, v, p.(pc := Panic))
  {
    hide Fits, ReadsOk, Log.Recovers, Log.SameHome, Log.WholeOps, CopyStage, InstallStage;
  }

  lemma TakeOk(a: Area, s: State, d: Log.Disk, v: Log.Disk, p: Protocol, h: nat, data: Block)
    requires ProtocolOk(a, s, d, v, p) && BaseOk(a, s) && h > HOMEBUF && h in s.where && s.where[h] < NBUF
    requires s.lockers[s.where[h]] == None
    ensures ProtocolOk(a, Taken(s, h, data), d, v, p) && h !in s.unlogged
  {
    hide BaseOk, Stage, Fits, ReadsOk, Log.Recovers, Log.SameHome, Log.WholeOps;
    NotLocked(a, s, h);
    HandleFacts(a, s, h);
  }

  lemma ReadOkNow(a: Area, s: State, d: Log.Disk, v: Log.Disk, p: Protocol, k: nat)
    requires ProtocolOk(a, s, d, v, p) && k < |v| && Log.Outside(a.start, k)
    ensures k < |Log.Replay(p.initial, p.hist)| && v[k] == Log.Replay(p.initial, p.hist)[k]
    ensures ProtocolOk(a, s, d, v, p.(seen := p.seen + [Read(|p.hist|, k, v[k])]))
  {
    assert p.hist[..|p.hist|] == p.hist;
    ReadMore(p.initial, p.hist, p.seen, Read(|p.hist|, k, v[k]));
    hide Stage, Fits, ReadsOk, Hands, OpsOk, Log.Recovers, Log.WholeOps;
  }

  lemma ChangeOk(a: Area, s: State, d: Log.Disk, v: Log.Disk, p: Protocol, h: nat, data: Block)
    requires ProtocolOk(a, s, d, v, p) && Sized(s) && Holds(s, h) && h in p.owner && p.pc != Panic && BlockOf(s, h) < |v|
    ensures p.pc == Idle
    ensures ProtocolOk(a, Changed(s, h, data), d, v[BlockOf(s, h) := data],
                       p.(hist := p.hist + [Log.Update(p.owner[h], BlockOf(s, h), data)]))
  {
    hide Fits, ReadsOk, Log.Recovers, Log.SameHome, Log.WholeOps, CopyStage, InstallStage;
    var u := Log.Update(p.owner[h], BlockOf(s, h), data);
    HistMore(p.initial, p.hist, p.seen, u);
    ReplayMore(a, p.initial, p.hist, v, u);
    Log.WriteKeepsWhole(p.hist, p.kept, p.ops, {}, p.nextOp, u);
    assert (p.hist + [u])[..p.kept] == p.hist[..p.kept];
  }

  lemma ReleaseOk(a: Area, s: State, d: Log.Disk, v: Log.Disk, p: Protocol, h: nat)
    requires ProtocolOk(a, s, d, v, p) && Sized(s) && Holds(s, h) && s.where[h] < NBUF && h > HOMEBUF && h !in s.unlogged
    requires s.bufs[s.where[h]].refcnt > 0 && s.refs[s.where[h]] > 0
    ensures ProtocolOk(a, Released(s, h), d, v, p.(owner := p.owner - {h}))
  {
    hide Stage, Fits, ReadsOk, Log.Recovers, Log.SameHome, Log.WholeOps;
  }

  /** The header after log_write of block k. */
  function Logged(header: seq<nat>, k: nat): seq<nat> {
    if k in header then header else header + [k]
  }

  lemma LogOk(a: Area, s: State, d: Log.Disk, v: Log.Disk, p: Protocol, h: nat)
    requires ProtocolOk(a, s, d, v, p) && Sized(s) && Holds(s, h) && s.where[h] < NBUF && h in p.owner && p.pc != Panic
    requires BlockOf(s, h) < a.size && Log.Outside(a.start, BlockOf(s, h))
    ensures p.pc == Idle && s.pinned == p.header
    ensures |p.header| < Log.LOGBLOCKS ==>
              ProtocolOk(a, PinnedOnce(s, h), d, v, p.(header := Logged(p.header, BlockOf(s, h))))
  {
    hide Fits, ReadsOk, Log.Recovers, Log.SameHome, Log.WholeOps, CopyStage, InstallStage;
    if |p.header| < Log.LOGBLOCKS && BlockOf(s, h) !in p.header {
      FitsMore(a, p.header, BlockOf(s, h));
    }
  }

  lemma OwnerFacts(a: Area, s: State, d: Log.Disk, v: Log.Disk, p: Protocol, h: nat)
    requires ProtocolOk(a, s, d, v, p) && BaseOk(a, s) && h in p.owner
    ensures h in s.where && h > HOMEBUF && Log.Outside(a.start, BlockOf(s, h)) && p.owner[h] in p.ops
  {
    HandleFacts(a, s, h);
  }

  // The steps of commit.

  /** The handles of commit are free of changes, and the next block is pinned. */
  lemma CommitFacts(a: Area, s: State, d: Log.Disk, v: Log.Disk, p: Protocol)
    requires ProtocolOk(a, s, d, v, p)
    ensures LOGBUF !in s.unlogged && HOMEBUF !in s.unlogged && |p.header| <= Log.LOGBLOCKS
    ensures p.pc.Copying? || p.pc.Installing? ==> LOGBUF !in s.where && HOMEBUF !in s.where && p.pc.tail <= |p.header|
    ensures p.pc.CopyLock? || p.pc.InstallLock? ==> AtLock(a, s, p.header, p.pc.tail)
    ensures p.pc.Copying? || p.pc.CopyLock? || p.pc.Installing? || p.pc.InstallLock? ==> p.ops == {} && p.header != []
    ensures (p.pc.Copying? || p.pc.CopyLock? || p.pc.Installing? || p.pc.InstallLock?) && p.pc.tail < |p.header| ==>
              && p.header[p.pc.tail] in s.pinned && p.header[p.pc.tail] < a.size
              && Log.Outside(a.start, p.header[p.pc.tail])
              && (p.pc.Installing? || p.pc.InstallLock? ==> s.pinned[0] == p.header[p.pc.tail])
  {
    hide ReadsOk, Log.Recovers, Log.SameHome, Log.WholeOps;
    if (p.pc.Copying? || p.pc.CopyLock? || p.pc.Installing? || p.pc.InstallLock?) && p.pc.tail < |p.header| {
      FitsMember(a, p.header, p.pc.tail);
      assert p.pc.Installing? || p.pc.InstallLock? ==> s.pinned[0] == p.header[p.pc.tail];
    }
  }

  lemma PairOk(a: Area, s: State, s': State, d: Log.Disk, v: Log.Disk, p: Protocol)
    requires ProtocolOk(a, s, d, v, p) && (p.pc.Copying? || p.pc.Installing?) && AtLock(a, s', p.header, p.pc.tail)
    requires s'.where.Keys == s.where.Keys + {LOGBUF, HOMEBUF} && s'.unlogged == s.unlogged && s'.pinned == s.pinned
    requires p.pc.tail < |p.header|
    ensures ProtocolOk(a, s', d, v, p.(pc := if p.pc.Copying? then CopyLock(p.pc.tail) else InstallLock(p.pc.tail)))
  {
    hide Fits, ReadsOk, Log.Recovers, Log.SameHome, Log.WholeOps, CopyStage, InstallStage, AtLock;
  }

  lemma CopiedOk(a: Area, s: State, s': State, d: Log.Disk, v: Log.Disk, d': Log.Disk, v': Log.Disk, p: Protocol)
    requires ProtocolOk(a, s, d, v, p) && p.pc.CopyLock? && |d| == |v| == a.size
    requires p.pc.tail < |p.header| && p.header[p.pc.tail] < |v| && a.start + 1 + p.pc.tail < a.size
    requires v' == v[a.start + 1 + p.pc.tail := v[p.header[p.pc.tail]]]
    requires d' == d[a.start + 1 + p.pc.tail := v'[a.start + 1 + p.pc.tail]]
    requires s'.where == s.where - {LOGBUF, HOMEBUF} && s'.unlogged == s.unlogged && s'.pinned == s.pinned
    ensures ProtocolOk(a, s', d', v', p.(pc := Copying(p.pc.tail + 1)))
  {
    hide Fits, ReadsOk, Log.Recovers, Log.WholeOps, CopyStage, InstallStage, AtLock;
    CopyMore(a, p.header, d, v, d', v', p.d0, p.v0, Home(p), p.pc.tail);
  }

  lemma HeaderWritten(a: Area, s: State, s': State, d: Log.Disk, v: Log.Disk, p: Protocol, hb: Block)
    requires ProtocolOk(a, s, d, v, p) && p.pc == Copying(|p.header|) && |d| == |v| == a.size && a.start < a.size
    requires Log.HeadHolds(hb, |p.header|, Padded(p.header))
    requires s'.where == s.where && s'.unlogged == s.unlogged && s'.pinned == s.pinned
    ensures ProtocolOk(a, s', d[a.start := hb], v[a.start := hb],
                       p.(pc := Installing(0), kept := |p.hist|, d0 := d[a.start := hb]))
  {
    hide Fits, ReadsOk, Log.Recovers, Log.SameHome, Log.WholeOps, CopyStage, InstallStage, Log.HeadHolds;
    assert p.hist[..|p.hist|] == p.hist && p.header[0..] == p.header;
    CommitPoint(a, p.header, d, v, p.d0, p.v0, Home(p), hb, Log.Replay(p.initial, p.hist));
    WholeCommitted(p.hist, p.kept, p.nextOp);
  }

  lemma InstalledOk(a: Area, s: State, s': State, d: Log.Disk, v: Log.Disk, p: Protocol)
    requires ProtocolOk(a, s, d, v, p) && p.pc.InstallLock? && |d| == |v| == a.size
    requires p.pc.tail < |p.header| && p.header[p.pc.tail] < |v| && a.start + 1 + p.pc.tail < a.size
    requires s'.where == s.where - {LOGBUF, HOMEBUF} && s'.unlogged == s.unlogged && s.pinned != [] && s'.pinned == s.pinned[1..]
    ensures v[p.header[p.pc.tail] := v[a.start + 1 + p.pc.tail]] == v
    ensures ProtocolOk(a, s', d[p.header[p.pc.tail] := v[a.start + 1 + p.pc.tail]], v, p.(pc := Installing(p.pc.tail + 1)))
  {
    hide Fits, ReadsOk, Log.Recovers, Log.SameHome, Log.WholeOps, CopyStage, InstallStage, AtLock;
    InstallMore(a, p.header, d, v, p.d0, p.v0, Home(p), p.pc.tail);
    assert p.header[p.pc.tail..][1..] == p.header[p.pc.tail + 1..];
  }

  /** The clearing of the header, or its failure for lack of a buffer. */
  lemma ClearedOk(a: Area, s: State, s': State, d: Log.Disk, v: Log.Disk, p: Protocol, hb: Block)
    requires AreaOk(a) && ProtocolOk(a, s, d, v, p) && p.pc == Installing(|p.header|) && |d| == |v| == a.size && hb[0] == 0
    requires s'.where == s.where && s'.unlogged == s.unlogged && s'.pinned == s.pinned
    ensures ProtocolOk(a, s', d[a.start := hb], v[a.start := hb], p.(pc := Idle, header := [])) && s.pinned == []
    ensures ProtocolOk(a, s', d, v, p.(pc := Panic, header := []))
  {
    hide ReadsOk, Log.Recovers, Log.WholeOps, CopyStage, InstallStage;
    Cleared(a, p.header, d, v, p.d0, p.v0, Home(p), hb);
  }

  lemma BeginOk(a: Area, s: State, d: Log.Disk, v: Log.Disk, p: Protocol)
    requires ProtocolOk(a, s, d, v, p) && p.pc == Idle
    ensures p.nextOp !in p.ops && ProtocolOk(a, s, d, v, p.(ops := p.ops + {p.nextOp}, nextOp := p.nextOp + 1))
  {
    hide Stage, Fits, Hands, ReadsOk, Log.Recovers, Log.SameHome;
  }

  lemma EndOk(a: Area, s: State, d: Log.Disk, v: Log.Disk, p: Protocol, op: nat)
    requires ProtocolOk(a, s, d, v, p) && op in p.ops && p.pc != Panic && forall h | h in p.owner :: p.owner[h] != op
    ensures p.pc == Idle && ProtocolOk(a, s, d, v, p.(ops := p.ops - {op})) && (p.ops == {op} ==> s.unlogged == {})
  {
    hide Stage, Fits, Hands, ReadsOk, Log.Recovers, Log.SameHome;
  }

  lemma NoCommitOk(a: Area, s: State, d: Log.Disk, v: Log.Disk, p: Protocol)
    requires AreaOk(a) && |d| == |v| == a.size && ProtocolOk(a, s, d, v, p) && p.pc == Idle && p.ops == {} && p.header == []
    requires Log.Synced(a.start, d, v, 0, Padded([]))
    ensures ProtocolOk(a, s, d, v, p.(kept := |p.hist|))
  {
    hide Fits, Hands, ReadsOk, Log.Recovers, Log.SameHome, Log.Synced, Log.WholeOps;
    assert p.hist[..|p.hist|] == p.hist;
    NothingToCommit(a, d, v, Log.Replay(p.initial, p.hist));
    WholeCommitted(p.hist, p.kept, p.nextOp);
  }

  lemma CommitOk(a: Area, s: State, d: Log.Disk, v: Log.Disk, p: Protocol)
    requires AreaOk(a) && |d| == |v| == a.size && ProtocolOk(a, s, d, v, p) && p.pc == Idle && p.ops == {} && p.header != []
    requires Log.Synced(a.start, d, v, |p.header|, Padded(p.header))
    ensures ProtocolOk(a, s, d, v, p.(pc := Copying(0), d0 := d, v0 := v))
  {
    hide Fits, ReadsOk, Log.Recovers, Log.SameHome, Log.Synced, Log.WholeOps, CopyStage;
    CommitStarts(a, p.header, d, v, Home(p));
  }

  lemma NotLocked(a: Area, s: State, h: nat)
    requires BaseOk(a, s) && h in s.where && s.where[h] < NBUF && s.lockers[s.where[h]] == None
    ensures h !in s.unlogged
  {
  }

  lemma WholeCommitted(hist: seq<Log.Update>, kept: nat, nextOp: nat)
    requires Log.WholeOps(hist, kept, {}, {}, nextOp)
    ensures Log.WholeOps(hist, |hist|, {}, {}, nextOp)
  {
  }

  /** Before the first bread. */
  lemma FreshBase(a: Area, s: State)
    requires Sized(s) && Full(a, s.disk) && s.where == map[] && s.unlogged == {} && s.pinned == []
    requires forall b | 0 <= b < NBUF ::
               s.refs[b] == s.pins[b] == 0 && !s.bufs[b].locked && s.users[b] == {} && s.lockers[b] == None
    ensures BaseOk(a, s)
  {
  }

  lemma FreshOk(a: Area, s: State, d: Log.Disk)
    requires AreaOk(a) && |d| == a.size && Log.HeadN(a.start, d) == 0 && s.where == map[] && s.unlogged == {} && s.pinned == []
    ensures ProtocolOk(a, s, d, d, Protocol(Idle, [], {}, 0, map[], d, [], 0, [], [], []))
  {
    EmptyHeaderRecovers(a, d, d);
  }

  lemma ReadMore(initial: Log.Disk, hist: seq<Log.Update>, seen: seq<Read>, r: Read)
    requires ReadsOk(initial, hist, seen) && ReadOk(initial, hist, r)
    ensures ReadsOk(initial, hist, seen + [r])
  {
  }

  lemma HistMore(initial: Log.Disk, hist: seq<Log.Update>, seen: seq<Read>, u: Log.Update)
    requires ReadsOk(initial, hist, seen)
    ensures ReadsOk(initial, hist + [u], seen)
  {
    forall i | 0 <= i < |seen| ensures ReadOk(initial, hist + [u], seen[i]) {
      assert ReadOk(initial, hist, seen[i]);
      assert (hist + [u])[..seen[i].at] == hist[..seen[i].at];
    }
  }

  lemma ReplayMore(a: Area, initial: Log.Disk, hist: seq<Log.Update>, v: Log.Disk, u: Log.Update)
    requires Log.SameHome(a.start, v, Log.Replay(initial, hist)) && u.b < |v|
    ensures Log.SameHome(a.start, v[u.b := u.data], Log.Replay(initial, hist + [u]))
  {
    assert (hist + [u])[..|hist|] == hist;
  }

  datatype Event =
    | Begin
    | End(op: nat)
    | Get(h: nat, blockno: nat, who: Option<nat>)
    | Acquire(h: nat)
    | Change(h: nat, data: Block)
    | Record(h: nat)
    | Release(h: nat)
    | Advance

  // What a whole commit does, from what holds at the heads of its loops.

  lemma CopyFacts(a: Area, s: State, d: Log.Disk, v: Log.Disk, p: Protocol)
    requires ProtocolOk(a, s, d, v, p) && p.pc.Copying?
    ensures Log.Copied(a.start, p.d0, d, p.v0, Padded(p.header), p.pc.tail)
    ensures Log.Copied(a.start, p.v0, v, p.v0, Padded(p.header), p.pc.tail)
    ensures p.pc.tail == 0 ==> d == p.d0 && v == p.v0
    ensures s.pinned == p.header
  {
    hide Fits, Hands, ReadsOk, Log.Recovers, Log.SameHome, Log.WholeOps;
  }

  lemma InstallFacts(a: Area, s: State, d: Log.Disk, v: Log.Disk, p: Protocol)
    requires ProtocolOk(a, s, d, v, p) && p.pc.Installing?
    ensures Log.Installed(a.start, p.d0, d, v, Padded(p.header), p.pc.tail)
    ensures Log.Installed(a.start, v, v, v, Padded(p.header), p.pc.tail)
    ensures p.pc.tail == 0 ==> d == p.d0
    ensures s.pinned == p.header[p.pc.tail..]
  {
    hide Hands, ReadsOk, Log.Recovers, Log.WholeOps;
    forall i | 0 <= i < p.pc.tail ensures 0 <= Padded(p.header)[i] < |v| && v[Padded(p.header)[i]] == v[a.start + 1 + i] {
      FitsMember(a, p.header, i);
    }
  }

  lemma HistFacts(a: Area, s: State, d: Log.Disk, v: Log.Disk, p: Protocol)
    requires ProtocolOk(a, s, d, v, p)
    ensures p.kept <= |p.hist|
  {
  }

  lemma NotLogged(a: Area, s: State, d: Log.Disk, v: Log.Disk, p: Protocol, k: nat)
    requires ProtocolOk(a, s, d, v, p) && !Log.Outside(a.start, k)
    ensures k !in p.header
  {
    forall i | 0 <= i < |p.header| ensures p.header[i] != k {
      FitsMember(a, p.header, i);
    }
  }

  lemma IdleFacts(a: Area, s: State, d: Log.Disk, v: Log.Disk, p: Protocol)
    requires ProtocolOk(a, s, d, v, p) && p.pc == Idle
    ensures s.pinned == p.header && a.start < |d| && Log.HeadN(a.start, d) == 0
    ensures p.kept == |p.hist| ==> Log.SameHome(a.start, d, Log.Replay(p.initial, p.hist))
    ensures Log.SameHome(a.start, v, Log.Replay(p.initial, p.hist))
  {
    hide Fits, Hands, ReadsOk, Log.Recovers, Log.SameHome, Log.WholeOps;
    assert p.hist[..|p.hist|] == p.hist;
  }

  /** The logged blocks that are not installed yet. */
  function Waiting(pc: Pc, header: seq<nat>): seq<nat> {
    if (pc.Installing? || pc.InstallLock?) && pc.tail <= |header| then header[pc.tail..] else header
  }

  /** The next step of a commit of n blocks; the end is Idle. */
  function NextPc(pc: Pc, n: nat): Pc {
    match pc
    case Copying(t) => if t < n then CopyLock(t) else Installing(0)
    case CopyLock(t) => Copying(t + 1)
    case Installing(t) => if t < n then InstallLock(t) else Idle
    case InstallLock(t) => Installing(t + 1)
    case _ => pc
  }

  /** Commit goes on, panics for want of a buffer, or waits for the home block. */
  ghost predicate Moved(pc: Pc, pc': Pc, n: nat, s: State) {
    if (pc.CopyLock? || pc.InstallLock?) && !Unlocked(s, HOMEBUF) then pc' == pc
    else pc' == NextPc(pc, n) || ((pc.Copying? || pc.Installing?) && pc' == Panic)
  }

  predicate Holding(where: map<nat, nat>, lockers: seq<Option<nat>>, h: nat) {
    h in where && where[h] < |lockers| && lockers[where[h]] == Some(h)
  }

  predicate MayEnd(ops: set<nat>, owner: map<nat, nat>, op: nat) {
    op in ops && forall h | h in owner :: owner[h] != op
  }

  predicate MayGet(a: Area, where: map<nat, nat>, ops: set<nat>, h: nat, blockno: nat, who: Option<nat>) {
    h > HOMEBUF && h !in where && blockno < a.size && Log.Outside(a.start, blockno) && (who.Some? ==> who.value in ops)
  }

  predicate MayLock(where: map<nat, nat>, lockers: seq<Option<nat>>, h: nat) {
    h > HOMEBUF && h in where && where[h] < |lockers| && lockers[where[h]] == None
  }

  predicate Possible(a: Area, e: Event, s: State, p: Protocol) {
    && p.pc != Panic
    && match e
       case Begin => p.pc == Idle && |p.header| + (|p.ops| + 1) * Log.MAXOPBLOCKS <= Log.LOGBLOCKS
       case End(op) => MayEnd(p.ops, p.owner, op)
       case Get(h, blockno, who) => MayGet(a, s.where, p.ops, h, blockno, who)
       case Acquire(h) => MayLock(s.where, s.lockers, h)
       case Change(h, _) => h in p.owner && Holding(s.where, s.lockers, h)
       case Record(h) => h in p.owner && Holding(s.where, s.lockers, h)
       case Release(h) => h > HOMEBUF && Holding(s.where, s.lockers, h) && h !in s.unlogged
       case Advance => p.pc != Idle
  }

  /** What each event does. */
  ghost predicate Effect(a: Area, e: Event, s: State, p: Protocol, s': State, p': Protocol) {
    match e
    case Begin => s' == s && p' == p.(ops := p.ops + {p.nextOp}, nextOp := p.nextOp + 1)
    case End(op) =>
      && s' == s && p'.ops == p.ops - {op} && p'.hist == p.hist
      && p'.pc == (if p'.ops == {} && p.header != [] then Copying(0) else Idle)
      && p'.kept == (if p'.ops == {} && p.header == [] then |p.hist| else p.kept)
    case Get(h, blockno, who) =>
      if NoBuffer(s.bufs, Key(a.dev, blockno)) then p'.pc == Panic
      else p'.pc == p.pc && h in s'.where && BlockOf(s', h) == blockno && (who.Some? ==> h in p'.owner && p'.owner[h] == who.value)
    case Acquire(h) => Holding(s'.where, s'.lockers, h) && |p'.seen| == |p.seen| + 1
    case Change(h, data) => h in p.owner && p'.hist == p.hist + [Log.Update(p.owner[h], BlockOf(s, h), data)]
    case Record(h) =>
      if |p.header| >= Log.LOGBLOCKS then s' == s && p' == p.(pc := Panic)
      else p'.pc == Idle && p'.header == Logged(p.header, BlockOf(s, h)) && p'.hist == p.hist && s'.unlogged == s.unlogged - {h}
    case Release(h) => s'.where == s.where - {h} && p'.header == p.header
    case Advance => Moved(p.pc, p'.pc, |p.header|, s) && p'.hist == p.hist && p'.ops == p.ops
  }

  /** An event that is not possible now does nothing. */
  ghost predicate Happened(a: Area, e: Event, s: State, p: Protocol, s': State, p': Protocol) {
    if Possible(a, e, s, p) then Effect(a, e, s, p, s', p') else s' == s && p' == p
  }

  class LoggedCache {
    const a: Area
    const cache: Bcache
    var header: seq<nat>                // lh.block[..lh.n]
    var pc: Pc
    var where: map<nat, nat>
    var lockers: seq<Option<nat>>
    var unlogged: set<nat>

    // The operations under way, and the one of each handle that has one.
    var ops: set<nat>
    var nextOp: nat
    var owner: map<nat, nat>

    ghost var users: seq<set<nat>>
    ghost var pinned: seq<nat>
    ghost const initial: Log.Disk
    ghost var hist: seq<Log.Update>     // all changes by operations
    ghost var kept: nat                 // hist[..kept] is committed
    ghost var seen: seq<Read>           // the answers to bread
    ghost var d0: Log.Disk
    ghost var v0: Log.Disk

    ghost function Pr(): Protocol
      reads this
    {
      Protocol(pc, header, ops, nextOp, owner, initial, hist, kept, seen, d0, v0)
    }

    ghost predicate Valid()
      reads this, cache
    {
      Base() && ProtocolOk(a, St(), D(), V(), Pr())
    }

    constructor (a: Area, cache: Bcache)
      requires AreaOk(a) && cache.Valid() && Full(a, cache.disk) && cache.disk == cache.view
      requires Log.HeadN(a.start, Image(a, cache.disk)) == 0
      requires forall b | 0 <= b < NBUF :: cache.bufs[b].refcnt == 0
      ensures Valid() && this.a == a && this.cache == cache && initial == D() && pc == Idle
      ensures header == [] && ops == {} && nextOp == 0 && where == map[] && owner == map[]
      ensures hist == [] && kept == 0 && seen == []
    {
      this.a := a;
      this.cache := cache;
      header, pc, pinned := [], Idle, [];
      where, owner, unlogged, ops, nextOp := map[], map[], {}, {}, 0;
      lockers, users := seq(NBUF, _ => None), seq(NBUF, _ => {});
      initial := Image(a, cache.disk);
      hist, kept, seen := [], 0, [];
      d0, v0 := [], [];
      new;
      hide TableOk, Linked, BaseOk, Image, ProtocolOk;
      forall b: nat | b < NBUF ensures cache.refs[b] == cache.pins[b] == 0 && !cache.bufs[b].locked {
        TableFacts(cache.bufs, cache.refs, cache.pins, cache.disk, cache.view, b);
      }
      FreshBase(a, St());
      FreshOk(a, St(), D());
    }

    ghost function St(): State
      reads this, cache
    {
      State(cache.bufs, cache.refs, cache.pins, cache.disk, users, lockers, where, unlogged, pinned)
    }

    ghost predicate Base()
      reads this, cache
    {
      AreaOk(a) && cache.Valid() && BaseOk(a, St())
    }

    /** The disk, and what it would hold without the cache. */
    ghost function D(): Log.Disk
      reads this, cache
    {
      Image(a, cache.disk)
    }

    ghost function V(): Log.Disk
      reads this, cache
    {
      Image(a, cache.view)
    }

    // The system calls' side.

    /** One pass of begin_op's loop. */
    method BeginOp() returns (admitted: bool)
      requires Valid() && pc != Panic
      modifies this`ops, this`nextOp
      ensures Valid()
      ensures admitted <==> pc == Idle && |header| + (|old(ops)| + 1) * Log.MAXOPBLOCKS <= Log.LOGBLOCKS
      ensures admitted ==> ops == old(ops) + {old(nextOp)} && old(nextOp) !in old(ops) && nextOp == old(nextOp) + 1
      ensures !admitted ==> ops == old(ops) && nextOp == old(nextOp)
    {
      hide TableOk, Linked, BaseOk, Image, ProtocolOk;
      admitted := pc == Idle && |header| + (|ops| + 1) * Log.MAXOPBLOCKS <= Log.LOGBLOCKS;
      if admitted {
        BeginOk(a, St(), D(), V(), Pr());
        ops := ops + {nextOp};
        nextOp := nextOp + 1;
      }
    }

    /** end_op, when the operation has given all its blocks back.  The last one
        starts the commit; with nothing logged there is nothing to do. */
    method EndOp(op: nat)
      requires Valid() && pc != Panic && op in ops && forall h | h in owner :: owner[h] != op
      modifies this`ops, this`pc, this`kept, this`d0, this`v0
      ensures Valid() && old(pc) == Idle && ops == old(ops) - {op}
      ensures ops != {} ==> pc == Idle && kept == old(kept)
      ensures ops == {} && header != [] ==> pc == Copying(0) && kept == old(kept)
      ensures ops == {} && header == [] ==> pc == Idle && kept == |hist|
    {
      hide TableOk, Linked, BaseOk, Image, ProtocolOk;
      EndOk(a, St(), D(), V(), Pr(), op);
      ops := ops - {op};
      if ops == {} {
        assert old(ops) == {op};
        StartCommit();
      }
    }

    /** The start of commit, when no operation is under way. */
    method StartCommit()
      requires Valid() && pc == Idle && ops == {} && unlogged == {}
      modifies this`pc, this`kept, this`d0, this`v0
      ensures Valid()
      ensures if header == [] then pc == Idle && kept == |hist| else pc == Copying(0) && kept == old(kept)
    {
      hide TableOk, Linked, BaseOk, Image, Log.Synced, Fits, OpsOk, Hands, CopyStage, InstallStage, ReadsOk;
      hide Log.Recovers, Log.SameHome, Log.WholeOps, Padded;
      FitsSize(a, header);
      SyncedNow(a, St(), cache.view, header);
      hide ProtocolOk;
      if header == [] {
        NoCommitOk(a, St(), D(), V(), Pr());
        kept := |hist|;
      } else {
        CommitOk(a, St(), D(), V(), Pr());
        d0, v0 := D(), V();
        pc := Copying(0);
      }
    }

    /** bget by a process, for an operation or outside every operation, with
        the panic "no buffers". */
    method Bget(h: nat, blockno: nat, op: Option<nat>)
      requires Valid() && pc != Panic && h > HOMEBUF && h !in where && blockno < a.size && Log.Outside(a.start, blockno)
      requires op.Some? ==> op.value in ops
      modifies this`pc, this`owner, this`where, this`users, cache`bufs, cache`refs
      ensures Valid()
      ensures pc == if NoBuffer(old(cache.bufs), Key(a.dev, blockno)) then Panic else old(pc)
      ensures pc != Panic ==> h in where && where == old(where)[h := where[h]] && BlockOf(St(), h) == blockno && !Holds(St(), h)
      ensures pc != Panic ==> owner == if op.Some? then old(owner)[h := op.value] else old(owner)
    {
      hide TableOk, Linked, BaseOk, Image, ProtocolOk;
      BaseFacts(a, St());
      var ok := Open(h, blockno);
      if ok {
        OpenOk(a, old(St()), D(), V(), Pr(), h, where[h], cache.bufs[where[h]], op);
        if op.Some? {
          owner := owner[h := op.value];
        }
      } else {
        StoppedOk(a, old(St()), St(), D(), V(), Pr());
        pc := Panic;
      }
    }

    /** The rest of bread, once nobody else has the lock: the contents last
        stored in the block. */
    method Lock(h: nat) returns (data: Block)
      requires Valid() && pc != Panic && h > HOMEBUF && h in where && where[h] < NBUF && lockers[where[h]] == None
      modifies this`lockers, this`seen, cache`bufs
      ensures Valid() && Holds(St(), h) && lockers == old(lockers)[where[h] := Some(h)]
      ensures BlockOf(St(), h) == old(BlockOf(St(), h)) < a.size && data == Log.Replay(initial, hist)[BlockOf(St(), h)]
      ensures seen == old(seen) + [Read(|hist|, BlockOf(St(), h), data)]
    {
      hide TableOk, Linked, BaseOk, Image, ProtocolOk;
      HandleFacts(a, St(), h);
      NotLocked(a, St(), h);
      data := Take(h);
      TakeOk(a, old(St()), D(), V(), Pr(), h, data);
      ReadOkNow(a, St(), D(), V(), Pr(), BlockOf(St(), h));
      seen := seen + [Read(|hist|, BlockOf(St(), h), data)];
    }

    /** A change by an operation to a block it has locked. */
    method Modify(h: nat, data: Block)
      requires Valid() && pc != Panic && h in owner && Holds(St(), h)
      modifies this`unlogged, this`hist, cache`bufs, cache`view
      ensures Valid() && Holds(St(), h) && unlogged == old(unlogged) + {h} && BlockOf(St(), h) == old(BlockOf(St(), h))
      ensures hist == old(hist) + [Log.Update(owner[h], old(BlockOf(St(), h)), data)]
    {
      hide TableOk, Linked, BaseOk, Image, ProtocolOk;
      BaseFacts(a, St());
      ghost var u := Log.Update(owner[h], BlockOf(St(), h), data);
      Put(h, data);
      ChangeOk(a, old(St()), D(), old(V()), Pr(), h, data);
      hist := hist + [u];
    }

    method Brelse(h: nat)
      requires Valid() && pc != Panic && h > HOMEBUF && Holds(St(), h) && h !in unlogged
      modifies this`owner, this`where, this`users, this`lockers, cache`bufs, cache`refs, cache`next, cache`prev, cache`ring
      ensures Valid() && where == old(where) - {h} && owner == old(owner) - {h}
    {
      hide TableOk, Linked, BaseOk, Image, ProtocolOk;
      BaseFacts(a, St());
      Release(h);
      ReleaseOk(a, old(St()), D(), V(), Pr(), h);
      owner := owner - {h};
    }

    /** log_write, with the panic "too big a transaction".  The block is in the
        header once and pinned once, however often it is logged. */
    method LogWrite(h: nat)
      requires Valid() && pc != Panic && h in owner && Holds(St(), h)
      modifies this`pc, this`header, this`unlogged, this`pinned, cache`bufs, cache`pins
      ensures Valid() && old(pc) == Idle && pc == if |old(header)| >= Log.LOGBLOCKS then Panic else Idle
      ensures pc == Panic ==> header == old(header) && St() == old(St())
      ensures pc == Idle ==> header == Logged(old(header), old(BlockOf(St(), h))) && unlogged == old(unlogged) - {h}
      ensures pc == Idle ==> where[h] < NBUF && cache.pins == old(cache.pins)[where[h] := 1] && Holds(St(), h)
    {
      hide TableOk, Linked, BaseOk, Image, ProtocolOk;
      HandleFacts(a, St(), h);
      CommitFacts(a, St(), D(), V(), Pr());
      OwnerFacts(a, St(), D(), V(), Pr(), h);
      LogOk(a, St(), D(), V(), Pr(), h);
      if |header| >= Log.LOGBLOCKS {
        StoppedOk(a, old(St()), St(), D(), V(), Pr());
        pc := Panic;
        return;
      }
      var k := cache.bufs[where[h]].key.blockno;
      var i := 0;
      while i < |header|
        invariant 0 <= i <= |header| && k !in header[..i]
      {
        if header[i] == k {
          break;
        }
        i := i + 1;
      }
      assert i < |header| <==> k in header;
      PinCount(a, St(), h);
      Pin(h);
      if i == |header| {
        header := header + [k];
      }
    }

    // The sections of one handle.

    /** bget, up to the acquiresleep.  Not ok is the panic "no buffers". */
    method Open(h: nat, blockno: nat) returns (ok: bool)
      requires Base() && h !in where && blockno < a.size && (h > HOMEBUF ==> Log.Outside(a.start, blockno))
      modifies this`where, this`users, cache`bufs, cache`refs
      ensures Base()
      ensures !ok <==> NoBuffer(old(cache.bufs), Key(a.dev, blockno))
      ensures !ok ==> St() == old(St())
      ensures ok ==> h in where && where[h] < NBUF && St() == Opened(old(St()), h, where[h], cache.bufs[where[h]])
      ensures ok ==> cache.bufs[where[h]].key == Key(a.dev, blockno) && lockers[where[h]] != Some(h)
      ensures forall g | g in old(where) :: BlockOf(St(), g) == BlockOf(old(St()), g)
    {
      hide TableOk, Linked, BaseOk, Image;
      ghost var s := St();
      BaseFacts(a, s);
      assert Key(a.dev, blockno) in cache.disk;
      var r := cache.Bget(a.dev, blockno);
      ok := r.Some?;
      if ok {
        var b := r.value;
        OpenKeeps(a, s, old(cache.view), h, b, cache.bufs[b], Key(a.dev, blockno));
        where := where[h := b];
        users := users[b := users[b] + {h}];
        assert St() == Opened(s, h, b, cache.bufs[b]);
      }
    }

    /** The acquiresleep, once nobody else has the lock, and the rest of bread. */
    method Take(h: nat) returns (data: Block)
      requires Base() && h in where && h !in unlogged && where[h] < NBUF && lockers[where[h]] == None
      modifies this`lockers, cache`bufs
      ensures Base() && St() == Taken(old(St()), h, data) && Holds(St(), h)
      ensures BlockOf(St(), h) < a.size && data == V()[BlockOf(St(), h)]
    {
      hide TableOk, Linked, BaseOk;
      HandleFacts(a, St(), h);
      var b := where[h];
      UnlockedCurrent(cache.bufs, cache.refs, cache.pins, cache.disk, cache.view, b);
      cache.Lock(b);
      data := cache.Fill(b);
      TakeKeeps(a, old(St()), h, data);
      assert cache.bufs == Taken(old(St()), h, data).bufs;
      lockers := lockers[b := Some(h)];
    }

    /** A change to the data by the holder of the lock. */
    method Put(h: nat, data: Block)
      requires Base() && Holds(St(), h)
      modifies this`unlogged, cache`bufs, cache`view
      ensures Base() && where[h] < NBUF && St() == Changed(old(St()), h, data)
      ensures BlockOf(St(), h) < a.size && V() == old(V())[BlockOf(St(), h) := data]
    {
      hide TableOk, Linked, BaseOk, Image;
      HandleFacts(a, St(), h);
      ChangeKeeps(a, St(), h, data);
      ImageUpdate(a, cache.view, BlockOf(St(), h), data);
      cache.Store(where[h], data);
      unlogged := unlogged + {h};
    }

    method Write(h: nat)
      requires Base() && Holds(St(), h)
      modifies this`unlogged, cache`disk
      ensures Base() && where[h] < NBUF && St() == Written(old(St()), h)
      ensures BlockOf(St(), h) < a.size && D() == old(D())[BlockOf(St(), h) := V()[BlockOf(St(), h)]]
      ensures cache.disk[cache.bufs[where[h]].key] == cache.bufs[where[h]].data
    {
      hide TableOk, Linked, BaseOk;
      HandleFacts(a, St(), h);
      TableFacts(cache.bufs, cache.refs, cache.pins, cache.disk, cache.view, where[h]);
      Handles.WriteKeeps(a, St(), h);
      ImageUpdate(a, cache.disk, BlockOf(St(), h), cache.bufs[where[h]].data);
      cache.Bwrite(where[h]);
      unlogged := unlogged - {h};
    }

    /** bpin, unless the block is pinned already. */
    method Pin(h: nat)
      requires Base() && Holds(St(), h) && pinned == header
      modifies this`unlogged, this`pinned, cache`bufs, cache`pins
      ensures Base() && where[h] < NBUF && St() == PinnedOnce(old(St()), h)
    {
      hide TableOk, Linked, BaseOk, Image;
      HandleFacts(a, St(), h);
      TableFacts(cache.bufs, cache.refs, cache.pins, cache.disk, cache.view, where[h]);
      Handles.PinKeeps(a, St(), h);
      var k := cache.bufs[where[h]].key.blockno;
      if k !in header {
        cache.Bpin(where[h]);
        pinned := pinned + [k];
      }
      unlogged := unlogged - {h};
    }

    method Unpin(h: nat)
      requires Base() && Holds(St(), h) && pinned != [] && where[h] < NBUF && pinned[0] == BlockOf(St(), h)
      requires cache.bufs[where[h]].key in cache.disk && cache.bufs[where[h]].data == cache.disk[cache.bufs[where[h]].key]
      modifies this`pinned, cache`bufs, cache`pins
      ensures Base() && old(cache.bufs[where[h]].refcnt) > 0 && old(cache.pins[where[h]]) > 0 && St() == Unpinned(old(St()), h)
    {
      hide TableOk, Linked, BaseOk, Image;
      HandleFacts(a, St(), h);
      TableFacts(cache.bufs, cache.refs, cache.pins, cache.disk, cache.view, where[h]);
      UnpinKeeps(a, St(), h);
      cache.Bunpin(where[h]);
      pinned := pinned[1..];
    }

    method Release(h: nat)
      requires Base() && Holds(St(), h) && h !in unlogged
      modifies this`where, this`users, this`lockers, cache`bufs, cache`refs, cache`next, cache`prev, cache`ring
      ensures Base() && old(where[h]) < NBUF && old(cache.bufs[where[h]].refcnt) > 0 && old(cache.refs[where[h]]) > 0
      ensures St() == Released(old(St()), h)
    {
      hide TableOk, Linked, BaseOk, Image;
      HandleFacts(a, St(), h);
      CleanFacts(a, St(), h);
      var b := where[h];
      TableFacts(cache.bufs, cache.refs, cache.pins, cache.disk, cache.view, b);
      Handles.ReleaseKeeps(a, St(), h);
      cache.Brelse(b);
      users := users[b := users[b] - {h}];
      lockers := lockers[b := None];
      where := where - {h};
    }

    // The sections of commit.

    /** A change and its write. */
    method Save(h: nat, data: Block)
      requires Base() && Holds(St(), h) && h !in unlogged
      modifies this`unlogged, cache`bufs, cache`view, cache`disk
      ensures Base() && unlogged == old(unlogged) && BlocksKept(old(St()), St())
      ensures BlockOf(St(), h) < a.size && V() == old(V())[BlockOf(St(), h) := data] && D() == old(D())[BlockOf(St(), h) := data]
      ensures where[h] < NBUF && cache.bufs[where[h]].key in cache.disk
      ensures cache.bufs[where[h]].data == cache.disk[cache.bufs[where[h]].key]
    {
      hide TableOk, Linked, BaseOk, Image;
      Put(h, data);
      Write(h);
      HandleFacts(a, St(), h);
    }

    /** The two brelses. */
    method ReleasePair(g: nat, h: nat)
      requires Base() && g != h && Holds(St(), g) && Holds(St(), h) && g !in unlogged && h !in unlogged
      modifies this`where, this`users, this`lockers, cache`bufs, cache`refs, cache`next, cache`prev, cache`ring
      ensures Base() && where == old(where) - {g, h}
    {
      hide TableOk, Linked, BaseOk, Image;
      Release(g);
      Release(h);
    }

    /** bread of log block t, and bget of its home block. */
    method OpenPair(t: nat) returns (ok: bool)
      requires Base() && LOGBUF !in where && HOMEBUF !in where && LOGBUF !in unlogged && t < |header| <= Log.LOGBLOCKS
      requires header[t] in pinned && header[t] < a.size && Log.Outside(a.start, header[t])
      modifies this`where, this`users, this`lockers, cache`bufs, cache`refs
      ensures Base()
      ensures !ok <==> NoBuffer(old(cache.bufs), Key(a.dev, a.start + 1 + t))
      ensures !ok ==> where == old(where)
      ensures ok ==> AtLock(a, St(), header, t) && where.Keys == old(where).Keys + {LOGBUF, HOMEBUF}
    {
      hide TableOk, Linked, BaseOk, Image;
      ok := Open(LOGBUF, a.start + 1 + t);
      if ok {
        NotShared(a, St());
        var _ := Take(LOGBUF);
        PinnedHeld(a, St(), header[t]);
        var held := Open(HOMEBUF, header[t]);
      }
    }

    /** bread of the home block, once nobody else has it locked. */
    method TakeHome(t: nat) returns (data: Block)
      requires Base() && AtLock(a, St(), header, t) && HOMEBUF !in unlogged && lockers[where[HOMEBUF]] == None
      modifies this`lockers, cache`bufs
      ensures Base() && BothHeld(a, St(), header, t) && header[t] < a.size && data == V()[header[t]]
    {
      hide TableOk, Linked, BaseOk, Image;
      data := Take(HOMEBUF);
    }

    /** The copy from the home block to log block t, and its write. */
    method CopyToLog(t: nat)
      requires Base() && AtLock(a, St(), header, t) && LOGBUF !in unlogged && HOMEBUF !in unlogged
      requires lockers[where[HOMEBUF]] == None
      modifies this`where, this`users, this`lockers, this`unlogged, cache
      ensures Base() && where == old(where) - {LOGBUF, HOMEBUF} && unlogged == old(unlogged)
      ensures header[t] < a.size && a.start + 1 + t < a.size
      ensures V() == old(V())[a.start + 1 + t := old(V())[header[t]]]
      ensures D() == old(D())[a.start + 1 + t := V()[a.start + 1 + t]]
      ensures cache.pins == old(cache.pins)
    {
      hide TableOk, Linked, BaseOk, Image;
      var data := TakeHome(t);
      Save(LOGBUF, data);
      ReleasePair(HOMEBUF, LOGBUF);
    }

    /** lbuf->data. */
    method LogData(t: nat) returns (data: Block)
      requires Base() && BothHeld(a, St(), header, t)
      ensures a.start + 1 + t < a.size && data == V()[a.start + 1 + t]
    {
      hide TableOk, Linked, BaseOk;
      HandleFacts(a, St(), LOGBUF);
      TableFacts(cache.bufs, cache.refs, cache.pins, cache.disk, cache.view, where[LOGBUF]);
      data := cache.bufs[where[LOGBUF]].data;
    }

    /** The copy from log block t to the home block, its write and bunpin. */
    method CopyHome(t: nat)
      requires Base() && AtLock(a, St(), header, t) && LOGBUF !in unlogged && HOMEBUF !in unlogged
      requires lockers[where[HOMEBUF]] == None && pinned != [] && pinned[0] == header[t]
      modifies this`where, this`users, this`lockers, this`unlogged, this`pinned, cache
      ensures Base() && where == old(where) - {LOGBUF, HOMEBUF} && unlogged == old(unlogged) && pinned == old(pinned)[1..]
      ensures header[t] < a.size && a.start + 1 + t < a.size
      ensures V() == old(V())[header[t] := old(V())[a.start + 1 + t]]
      ensures D() == old(D())[header[t] := V()[header[t]]]
    {
      hide TableOk, Linked, BaseOk, Image;
      var _ := TakeHome(t);
      var data := LogData(t);
      Save(HOMEBUF, data);
      Unpin(HOMEBUF);
      ReleasePair(LOGBUF, HOMEBUF);
    }

    /** write_head, on the block of the header. */
    method WriteHead() returns (ok: bool)
      requires Base() && LOGBUF !in where && HOMEBUF !in where && LOGBUF !in unlogged && |header| <= Log.LOGBLOCKS
      modifies this`where, this`users, this`lockers, this`unlogged, cache
      ensures Base() && where == old(where) && unlogged == old(unlogged)
      ensures !ok <==> NoBuffer(old(cache.bufs), Key(a.dev, a.start))
      ensures !ok ==> V() == old(V()) && D() == old(D())
      ensures ok ==> V() == old(V())[a.start := V()[a.start]] && D() == old(D())[a.start := V()[a.start]]
      ensures ok ==> Log.HeadHolds(V()[a.start], |header|, Padded(header))
    {
      hide TableOk, Linked, BaseOk, Image;
      ok := Open(LOGBUF, a.start);
      if ok {
        NotShared(a, St());
        var data := Take(LOGBUF);
        var hb := Log.FillHeader(data, |header|, Padded(header));
        Save(LOGBUF, hb);
        Release(LOGBUF);
      }
    }

    // Commit, section by section.  With the header as Log's block, what each
    // one does to the view and the disk is what Log's loops do.

    /** The two breads at the head of either loop, up to the wait for the home
        block, with the panic "no buffers". */
    method CommitOpen()
      requires Valid() && (pc.Copying? || pc.Installing?) && pc.tail < |header|
      modifies this`pc, this`where, this`users, this`lockers, cache`bufs, cache`refs
      ensures Valid()
      ensures pc == if NoBuffer(old(cache.bufs), Key(a.dev, a.start + 1 + old(pc.tail))) then Panic
                    else if old(pc).Copying? then CopyLock(old(pc.tail)) else InstallLock(old(pc.tail))
      ensures if pc == Panic then where == old(where) else where.Keys == old(where).Keys + {LOGBUF, HOMEBUF}
    {
      hide TableOk, Linked, BaseOk, Image, ProtocolOk, AtLock, NoBuffer, Padded, Log.HeadHolds;
      CommitFacts(a, St(), D(), V(), Pr());
      var ok := OpenPair(pc.tail);
      if ok {
        PairOk(a, old(St()), St(), D(), V(), Pr());
        pc := if pc.Copying? then CopyLock(pc.tail) else InstallLock(pc.tail);
      } else {
        StoppedOk(a, old(St()), St(), D(), V(), Pr());
        pc := Panic;
      }
    }

    /** The rest of write_log's loop body, once the home block is free. */
    method CommitCopy()
      requires Valid() && pc.CopyLock? && Unlocked(St(), HOMEBUF)
      modifies this`pc, this`where, this`users, this`lockers, this`unlogged, cache
      ensures Valid() && pc == Copying(old(pc.tail) + 1) && where == old(where) - {LOGBUF, HOMEBUF}
      ensures old(pc.tail) < |header| && header[old(pc.tail)] < a.size && a.start + 1 + old(pc.tail) < a.size
      ensures V() == old(V())[a.start + 1 + old(pc.tail) := old(V())[header[old(pc.tail)]]]
      ensures D() == old(D())[a.start + 1 + old(pc.tail) := V()[a.start + 1 + old(pc.tail)]]
    {
      hide TableOk, Linked, BaseOk, Image, ProtocolOk, NoBuffer, Padded;
      CommitFacts(a, St(), D(), V(), Pr());
      CopyToLog(pc.tail);
      CopiedOk(a, old(St()), St(), old(D()), old(V()), D(), V(), Pr());
      pc := Copying(pc.tail + 1);
    }

    /** write_head after the copies: the commit point. */
    method CommitHeader()
      requires Valid() && pc == Copying(|header|)
      modifies this`pc, this`kept, this`d0, this`where, this`users, this`lockers, this`unlogged, cache
      ensures Valid() && where == old(where)
      ensures pc == if NoBuffer(old(cache.bufs), Key(a.dev, a.start)) then Panic else Installing(0)
      ensures kept == if pc == Panic then old(kept) else |hist|
      ensures pc != Panic ==> V() == old(V())[a.start := V()[a.start]] && D() == old(D())[a.start := V()[a.start]]
      ensures pc != Panic ==> Log.HeadHolds(V()[a.start], |header|, Padded(header))
    {
      hide TableOk, Linked, BaseOk, Image, ProtocolOk, AtLock, NoBuffer, Padded, Log.HeadHolds;
      CommitFacts(a, St(), D(), V(), Pr());
      var ok := WriteHead();
      if ok {
        HeaderWritten(a, old(St()), St(), old(D()), old(V()), Pr(), V()[a.start]);
        kept, d0 := |hist|, D();
        pc := Installing(0);
      } else {
        StoppedOk(a, old(St()), St(), D(), V(), Pr());
        pc := Panic;
      }
    }

    /** The rest of install_trans's loop body, once the home block is free: the
        view stays as it is, and the block is not pinned any more. */
    method CommitInstall()
      requires Valid() && pc.InstallLock? && Unlocked(St(), HOMEBUF)
      modifies this`pc, this`pinned, this`where, this`users, this`lockers, this`unlogged, cache
      ensures Valid() && pc == Installing(old(pc.tail) + 1) && where == old(where) - {LOGBUF, HOMEBUF}
      ensures old(pc.tail) < |header| && header[old(pc.tail)] < a.size && a.start + 1 + old(pc.tail) < a.size
      ensures V() == old(V()) && D() == old(D())[header[old(pc.tail)] := V()[a.start + 1 + old(pc.tail)]]
      ensures V()[header[old(pc.tail)]] == V()[a.start + 1 + old(pc.tail)] && pinned == old(pinned)[1..]
    {
      hide TableOk, Linked, BaseOk, Image, ProtocolOk, NoBuffer, Padded;
      CommitFacts(a, St(), D(), V(), Pr());
      CopyHome(pc.tail);
      InstalledOk(a, old(St()), St(), old(D()), old(V()), Pr());
      pc := Installing(pc.tail + 1);
    }

    /** The end of commit: the header is cleared, and nothing is pinned. */
    method CommitClear()
      requires Valid() && pc == Installing(|header|)
      modifies this`pc, this`header, this`where, this`users, this`lockers, this`unlogged, cache
      ensures Valid() && where == old(where) && header == []
      ensures pc == if NoBuffer(old(cache.bufs), Key(a.dev, a.start)) then Panic else Idle
      ensures forall b | 0 <= b < NBUF :: cache.pins[b] == 0
      ensures pc != Panic ==> V() == old(V())[a.start := V()[a.start]] && D() == old(D())[a.start := V()[a.start]]
      ensures pc != Panic ==> Log.HeadN(a.start, D()) == 0
    {
      hide TableOk, Linked, BaseOk, Image, ProtocolOk, NoBuffer, Padded;
      CommitFacts(a, St(), D(), V(), Pr());
      ghost var p := Pr();
      header := [];
      var ok := WriteHead();
      ghost var hb := if ok then V()[a.start] else Unread();
      ClearedOk(a, old(St()), St(), old(D()), old(V()), p, hb);
      NoPins(a, St());
      pc := if ok then Idle else Panic;
    }

    // Commit without interruption, when nobody else has a block.

    method CopyNext()
      requires Valid() && pc.Copying? && pc.tail < |header| < NBUF && where == map[]
      modifies this`pc, this`where, this`users, this`lockers, this`unlogged, cache
      ensures Valid() && pc == Copying(old(pc.tail) + 1) && where == map[]
    {
      hide TableOk, Linked, BaseOk, Image, ProtocolOk, NoBuffer, Padded, Log.Copied;
      CopyFacts(a, St(), D(), V(), Pr());
      FreeBuffer(a, St(), cache.view, Key(a.dev, a.start + 1 + pc.tail));
      CommitOpen();
      CommitFacts(a, St(), D(), V(), Pr());
      HomeUnlocked(a, St(), header, pc.tail);
      CommitCopy();
      assert where.Keys == {};
    }

    method InstallNext()
      requires Valid() && pc.Installing? && pc.tail < |header| < NBUF && where == map[]
      modifies this`pc, this`pinned, this`where, this`users, this`lockers, this`unlogged, cache
      ensures Valid() && pc == Installing(old(pc.tail) + 1) && where == map[] && V() == old(V())
    {
      hide TableOk, Linked, BaseOk, Image, ProtocolOk, NoBuffer, Padded, Log.Installed;
      InstallFacts(a, St(), D(), V(), Pr());
      FreeBuffer(a, St(), cache.view, Key(a.dev, a.start + 1 + pc.tail));
      CommitOpen();
      CommitFacts(a, St(), D(), V(), Pr());
      HomeUnlocked(a, St(), header, pc.tail);
      CommitInstall();
      assert where.Keys == {};
    }

    /** write_log: as Log's, on the disk and on the view. */
    method WriteLog()
      requires Valid() && pc == Copying(0) && where == map[] && |header| < NBUF
      modifies this`pc, this`where, this`users, this`lockers, this`unlogged, cache
      ensures Valid() && pc == Copying(|header|) && where == map[]
      ensures Log.Copied(a.start, old(V()), V(), old(V()), Padded(header), |header|)
      ensures Log.Copied(a.start, old(D()), D(), old(V()), Padded(header), |header|)
    {
      hide TableOk, Linked, BaseOk, Image, ProtocolOk, NoBuffer, Padded, Log.Copied;
      CopyFacts(a, St(), D(), V(), Pr());
      while pc != Copying(|header|)
        invariant Valid() && pc.Copying? && pc.tail <= |header| && where == map[]
        decreases |header| - pc.tail
      {
        CopyNext();
      }
      CopyFacts(a, St(), D(), V(), Pr());
    }

    /** install_trans: as Log's, and the blocks are not pinned any more. */
    method InstallTrans()
      requires Valid() && pc == Installing(0) && where == map[] && |header| < NBUF
      modifies this`pc, this`pinned, this`where, this`users, this`lockers, this`unlogged, cache
      ensures Valid() && pc == Installing(|header|) && where == map[] && V() == old(V()) && pinned == []
      ensures Log.Installed(a.start, old(V()), V(), old(V()), Padded(header), |header|)
      ensures Log.Installed(a.start, old(D()), D(), old(V()), Padded(header), |header|)
    {
      hide TableOk, Linked, BaseOk, Image, ProtocolOk, NoBuffer, Padded, Log.Installed;
      InstallFacts(a, St(), D(), V(), Pr());
      while pc != Installing(|header|)
        invariant Valid() && pc.Installing? && pc.tail <= |header| && where == map[] && V() == old(V())
        decreases |header| - pc.tail
      {
        InstallNext();
      }
      InstallFacts(a, St(), D(), V(), Pr());
    }

    method CommitAll()
      requires Valid() && pc == Copying(0) && where == map[] && |header| < NBUF
      modifies this`pc, this`header, this`kept, this`d0, this`pinned, this`where, this`users, this`lockers, this`unlogged, cache
      ensures Valid() && where == map[] && pc == Idle && header == [] && kept == |hist|
      ensures forall b | 0 <= b < NBUF :: cache.pins[b] == 0
    {
      hide TableOk, Linked, BaseOk, Image, ProtocolOk, NoBuffer, Padded, Log.Installed, Log.Copied, Log.HeadHolds;
      WriteLog();
      CopyFacts(a, St(), D(), V(), Pr());
      FreeBuffer(a, St(), cache.view, Key(a.dev, a.start));
      CommitHeader();
      InstallTrans();
      FreeBuffer(a, St(), cache.view, Key(a.dev, a.start));
      CommitClear();
    }

    /** commit: the changes of all operations are on the disk and nothing is
        pinned, exactly if the log left a buffer free. */
    method Commit()
      requires Valid() && pc == Copying(0) && where == map[]
      modifies this`pc, this`header, this`kept, this`d0, this`pinned, this`where, this`users, this`lockers, this`unlogged, cache
      ensures Valid() && where == map[]
      ensures pc == if |old(header)| < NBUF then Idle else Panic
      ensures pc == Idle ==> header == [] && kept == |hist| && forall b | 0 <= b < NBUF :: cache.pins[b] == 0
      ensures pc == Idle ==> Log.HeadN(a.start, D()) == 0 && Log.SameHome(a.start, D(), Log.Replay(initial, hist))
      ensures pc == Panic ==> kept == old(kept) && header == old(header) && D() == old(D())
    {
      hide TableOk, Linked, BaseOk, Image, ProtocolOk, NoBuffer, Padded, Log.Copied, Log.SameHome;
      if |header| < NBUF {
        CommitAll();
        IdleFacts(a, St(), D(), V(), Pr());
      } else {
        CommitFacts(a, St(), D(), V(), Pr());
        CopyFacts(a, St(), D(), V(), Pr());
        NotLogged(a, St(), D(), V(), Pr(), a.start + 1);
        AllPinned(a, St(), cache.view, a.start + 1);
        CommitOpen();
      }
    }

    // Any interleaving.

    lemma ValidFacts()
      requires Valid()
      ensures |lockers| == NBUF && kept <= |hist|
      ensures pc.Copying? || pc.Installing? ==> pc.tail <= |header|
      ensures pc.CopyLock? || pc.InstallLock? ==> HOMEBUF in where && where[HOMEBUF] < NBUF
    {
      hide TableOk, Linked, BaseOk, Image, ProtocolOk;
      BaseFacts(a, St());
      HistFacts(a, St(), D(), V(), Pr());
      CommitFacts(a, St(), D(), V(), Pr());
    }

    /** One step of the committing process; it may have to wait. */
    method Step()
      requires Valid() && pc != Idle && pc != Panic
      modifies this, cache
      ensures Valid() && hist == old(hist) && seen == old(seen) && ops == old(ops) && owner == old(owner)
      ensures kept == old(kept) || kept == |hist|
      ensures Moved(old(pc), pc, |old(header)|, old(St()))
    {
      hide Valid, NoBuffer, Padded, Log.HeadHolds;
      ValidFacts();
      match pc
      case Copying(t) =>
        if t < |header| {
          CommitOpen();
        } else {
          CommitHeader();
        }
      case CopyLock(t) =>
        if lockers[where[HOMEBUF]].None? {
          CommitCopy();
        }
      case Installing(t) =>
        if t < |header| {
          CommitOpen();
        } else {
          CommitClear();
        }
      case InstallLock(t) =>
        if lockers[where[HOMEBUF]].None? {
          CommitInstall();
        }
    }

    /** An operation or a reader locks or gives back a block that it has. */
    method Access(e: Event)
      requires Valid() && pc != Panic && (e.Acquire? || e.Release?)
      modifies this, cache
      ensures Happened(a, e, old(St()), old(Pr()), St(), Pr())
      ensures Valid() && old(hist) <= hist && old(seen) <= seen && old(kept) <= kept
    {
      hide Valid, BlockOf, NoBuffer, Moved, MayEnd, Logged, Log.Replay, Log.Outside;
      ValidFacts();
      match e
      case Acquire(h) =>
        if MayLock(where, lockers, h) {
          var _ := Lock(h);
        }
      case Release(h) =>
        if h > HOMEBUF && Holding(where, lockers, h) && h !in unlogged {
          Brelse(h);
        }
    }

    /** An operation changes or logs a block. */
    method Store(e: Event)
      requires Valid() && pc != Panic && (e.Change? || e.Record?)
      modifies this, cache
      ensures Happened(a, e, old(St()), old(Pr()), St(), Pr())
      ensures Valid() && old(hist) <= hist && old(seen) <= seen && old(kept) <= kept
    {
      hide Valid, BlockOf, NoBuffer, Moved, MayEnd, MayGet, MayLock, Logged, Log.Outside, Log.Replay;
      ValidFacts();
      match e
      case Change(h, data) =>
        if h in owner && Holding(where, lockers, h) {
          Modify(h, data);
        }
      case Record(h) =>
        if h in owner && Holding(where, lockers, h) {
          LogWrite(h);
        }
    }

    /** The end of an operation, when it has given its blocks back. */
    method TryEnd(op: nat)
      requires Valid() && pc != Panic
      modifies this`ops, this`pc, this`kept, this`d0, this`v0
      ensures Happened(a, End(op), old(St()), old(Pr()), St(), Pr())
      ensures Valid() && old(kept) <= kept
    {
      hide Valid;
      ValidFacts();
      if MayEnd(ops, owner, op) {
        EndOp(op);
      }
    }

    /** The beginning of an operation, if it is admitted. */
    method TryBegin()
      requires Valid() && pc != Panic
      modifies this`ops, this`nextOp
      ensures Happened(a, Begin, old(St()), old(Pr()), St(), Pr())
      ensures Valid()
    {
      hide Valid;
      var _ := BeginOp();
    }

    /** One event; one that is not possible now does nothing. */
    method Perform(e: Event)
      requires Valid()
      modifies this, cache
      ensures Happened(a, e, old(St()), old(Pr()), St(), Pr())
      ensures Valid() && old(hist) <= hist && old(seen) <= seen && old(kept) <= kept
    {
      hide Valid, NoBuffer, MayLock, MayEnd, Holding, BlockOf, Logged, Moved, Log.Outside;
      ValidFacts();
      if pc == Panic {
        return;
      }
      match e
      case Begin => TryBegin();
      case Get(h, blockno, who) =>
        if MayGet(a, where, ops, h, blockno, who) {
          Bget(h, blockno, who);
        }
      case End(op) => TryEnd(op);
      case Advance =>
        if pc != Idle {
          Step();
        }
      case Change(_, _) => Store(e);
      case Record(_) => Store(e);
      case _ => Access(e);
    }

    /** What the invariant says to a reader: recovery from the disk as it is now
        gives whole committed operations, every bread was answered with what was
        last stored, and exactly the logged blocks not yet installed are pinned,
        each once, in valid buffers with the latest contents. */
    lemma Promises()
      requires Valid()
      ensures kept <= |hist| && Log.Recovers(a.start, D(), Log.Replay(initial, hist[..kept]))
      ensures Log.WholeOps(hist, kept, ops, {}, nextOp)
      ensures ReadsOk(initial, hist, seen)
      ensures pc != Panic ==> pinned == Waiting(pc, header) && forall b | 0 <= b < NBUF ::
                cache.pins[b] == (if Among(a, cache.bufs[b].key, Waiting(pc, header)) then 1 else 0)
                && cache.bufs[b].refcnt >= cache.pins[b]
      ensures pc != Panic ==> forall k | k in Waiting(pc, header) :: k < a.size && exists b: nat | b < NBUF ::
                cache.bufs[b].key == Key(a.dev, k) && cache.bufs[b].valid && cache.bufs[b].data == V()[k]
    {
      hide TableOk, Linked, Log.Recovers, Log.WholeOps, ReadsOk, CopyStage, InstallStage;
      if pc != Panic {
        forall b: nat | b < NBUF ensures cache.bufs[b].refcnt >= cache.pins[b] {
          TableFacts(cache.bufs, cache.refs, cache.pins, cache.disk, cache.view, b);
        }
        forall k | k in pinned
          ensures k < a.size && exists b: nat | b < NBUF ::
                    cache.bufs[b].key == Key(a.dev, k) && cache.bufs[b].valid && cache.bufs[b].data == V()[k]
        {
          var i :| 0 <= i < |header| && header[i] == k;
          FitsMember(a, header, i);
          var b: nat :| HoldsValid(cache.bufs, Key(a.dev, k), b);
          TableFacts(cache.bufs, cache.refs, cache.pins, cache.disk, cache.view, b);
        }
      }
    }

    /** Whatever the order of events: every bread is answered with what was last
        stored, every logged block stays pinned until it is installed, and the
        disk always recovers to whole committed operations. */
    method Run(script: seq<Event>) returns (ghost trace: seq<(State, Protocol)>)
      requires Valid()
      modifies this, cache
      ensures |trace| == |script| + 1 && trace[0] == old((St(), Pr())) && trace[|script|] == (St(), Pr())
      ensures forall k | 0 <= k < |script| :: Happened(a, script[k], trace[k].0, trace[k].1, trace[k + 1].0, trace[k + 1].1)
      ensures Valid() && old(hist) <= hist && old(seen) <= seen && old(kept) <= kept
    {
      hide Valid, Happened;
      trace := [(St(), Pr())];
      for i := 0 to |script|
        invariant |trace| == i + 1 && trace[0] == old((St(), Pr())) && trace[i] == (St(), Pr())
        invariant forall k | 0 <= k < i :: Happened(a, script[k], trace[k].0, trace[k].1, trace[k + 1].0, trace[k + 1].1)
        invariant Valid() && old(hist) <= hist && old(seen) <= seen && old(kept) <= kept
      {
        Perform(script[i]);
        trace := trace + [(St(), Pr())];
      }
    }
  }

  // A full log.

  function Blocks(first: nat, n: nat): seq<nat> { seq(n, i requires 0 <= i => first + i) }

  lemma BlocksMore(first: nat, n: nat)
    ensures |Blocks(first, n)| == n && Logged(Blocks(first, n), first + n) == Blocks(first, n + 1)
  {
  }

  /** bread by an operation, while nobody has any block. */
  method ReadAlone(log: LoggedCache, h: nat, blockno: nat, op: nat)
    requires log.Valid() && log.pc == Idle && log.where == map[] && log.owner == map[] && op in log.ops
    requires |log.header| < NBUF && h > HOMEBUF && blockno < log.a.size && Log.Outside(log.a.start, blockno)
    modifies log`pc, log`owner, log`where, log`users, log`lockers, log`seen, log.cache
    ensures log.Valid() && log.pc == Idle && log.where.Keys == {h} && log.owner == map[h := op]
    ensures Holds(log.St(), h) && BlockOf(log.St(), h) == blockno
  {
    hide TableOk, Linked, BaseOk, Image, ProtocolOk, NoBuffer;
    IdleFacts(log.a, log.St(), log.D(), log.V(), log.Pr());
    FreeBuffer(log.a, log.St(), log.cache.view, Key(log.a.dev, blockno));
    log.Bget(h, blockno, Some(op));
    assert log.where.Keys == {h};
    AloneUnlocked(log.a, log.St(), h);
    BaseFacts(log.a, log.St());
    var _ := log.Lock(h);
  }

  /** One operation reads, changes, logs and gives back one block more, while
      nobody else has any. */
  method LogAnother(log: LoggedCache, first: nat, n: nat, op: nat, data: Block)
    requires log.Valid() && log.pc == Idle && log.where == map[] && log.owner == map[] && op in log.ops && n < NBUF
    requires log.header == Blocks(first, n) && log.a.start + Log.LOGBLOCKS < first && first + n < log.a.size
    modifies log`pc, log`owner, log`where, log`users, log`lockers, log`seen, log`unlogged, log`hist, log`header
    modifies log`pinned, log.cache
    ensures log.Valid() && log.pc == Idle && log.where == map[] && log.owner == map[]
    ensures log.header == Blocks(first, n + 1) && log.hist == old(log.hist) + [Log.Update(op, first + n, data)]
  {
    hide LoggedCache.Valid, Holds, BlockOf, Blocks, Logged;
    var h := HOMEBUF + 1;
    BlocksMore(first, n);
    ReadAlone(log, h, first + n, op);
    log.Modify(h, data);
    LogAndRelease(log, h);
    assert log.where.Keys == {};
  }

  method LogAndRelease(log: LoggedCache, h: nat)
    requires log.Valid() && log.pc == Idle && h in log.owner && Holds(log.St(), h) && |log.header| < Log.LOGBLOCKS
    modifies log`pc, log`owner, log`where, log`users, log`lockers, log`unlogged, log`header, log`pinned, log.cache
    ensures log.Valid() && log.pc == Idle && log.where == old(log.where) - {h} && log.owner == old(log.owner) - {h}
    ensures log.header == Logged(old(log.header), old(BlockOf(log.St(), h)))
  {
    hide TableOk, Linked, BaseOk, Image, ProtocolOk, NoBuffer;
    OwnerFacts(log.a, log.St(), log.D(), log.V(), log.Pr(), h);
    log.LogWrite(h);
    log.Brelse(h);
  }

  /** Three operations at once, each within its MAXOPBLOCKS distinct blocks, fill
      the log, and pin every buffer: the commit panics on its first bread. */
  method FullLog(a: Area, disk: map<Key, Block>, data: Block) returns (log: LoggedCache)
    requires AreaOk(a) && Full(a, disk) && Log.HeadN(a.start, Image(a, disk)) == 0
    requires a.start + 2 * Log.LOGBLOCKS < a.size
    ensures log.Valid() && log.ops == {} && log.where == map[] && log.pc == Panic
    ensures |log.header| == NBUF == Log.LOGBLOCKS && log.kept == 0
    ensures log.hist == Thirty(a.start + Log.LOGBLOCKS + 1, data, NBUF)
  {
    hide LoggedCache.Valid, Thirty;
    log := Start(a, disk);
    Overfill(log, a.start + Log.LOGBLOCKS + 1, data);
  }

  method Start(a: Area, disk: map<Key, Block>) returns (log: LoggedCache)
    requires AreaOk(a) && Full(a, disk) && Log.HeadN(a.start, Image(a, disk)) == 0
    ensures fresh(log) && fresh(log.cache) && log.Valid() && log.a == a
    ensures log.pc == Idle && log.where == map[] && log.owner == map[]
    ensures log.ops == {} && log.nextOp == 0 && log.header == [] && log.hist == [] && log.kept == 0
  {
    hide TableOk, Linked, BaseOk, Image, ProtocolOk;
    var cache := new Bcache(disk);
    log := new LoggedCache(a, cache);
  }

  method Overfill(log: LoggedCache, first: nat, data: Block)
    requires log.Valid() && log.pc == Idle && log.where == map[] && log.owner == map[] && log.ops == {} && log.nextOp == 0
    requires log.header == [] && log.hist == [] && log.a.start + Log.LOGBLOCKS < first && first + NBUF <= log.a.size
    modifies log, log.cache
    ensures log.Valid() && log.ops == {} && log.where == map[] && log.pc == Panic && log.kept == old(log.kept)
    ensures |log.header| == NBUF && log.hist == Thirty(first, data, NBUF)
  {
    hide LoggedCache.Valid, Blocks, Thirty;
    BlocksMore(first, NBUF);
    BeginThree(log);
    FillLog(log, first, data);
    EndThree(log);
    log.Commit();
  }

  method FillLog(log: LoggedCache, first: nat, data: Block)
    requires log.Valid() && log.pc == Idle && log.where == map[] && log.owner == map[] && log.ops == {0, 1, 2}
    requires log.header == [] && log.hist == [] && log.a.start + Log.LOGBLOCKS < first && first + NBUF <= log.a.size
    modifies log`pc, log`owner, log`where, log`users, log`lockers, log`seen, log`unlogged, log`hist, log`header
    modifies log`pinned, log.cache
    ensures log.Valid() && log.pc == Idle && log.where == map[] && log.owner == map[]
    ensures log.header == Blocks(first, NBUF) && log.hist == Thirty(first, data, NBUF)
  {
    hide LoggedCache.Valid;
    for n := 0 to NBUF
      invariant log.Valid() && log.pc == Idle && log.where == map[] && log.owner == map[]
      invariant log.header == Blocks(first, n) && log.hist == Thirty(first, data, n)
    {
      LogAnother(log, first, n, n / Log.MAXOPBLOCKS, data);
    }
  }

  method EndThree(log: LoggedCache)
    requires log.Valid() && log.pc == Idle && log.ops == {0, 1, 2} && log.owner == map[] && log.header != []
    modifies log`ops, log`pc, log`kept, log`d0, log`v0
    ensures log.Valid() && log.ops == {} && log.pc == Copying(0) && log.kept == old(log.kept)
  {
    hide LoggedCache.Valid;
    log.EndOp(0);
    log.EndOp(1);
    log.EndOp(2);
  }

  method BeginThree(log: LoggedCache)
    requires log.Valid() && log.pc == Idle && log.ops == {} && log.nextOp == 0 && log.header == []
    modifies log`ops, log`nextOp
    ensures log.Valid() && log.ops == {0, 1, 2}
  {
    hide LoggedCache.Valid;
    var ok := log.BeginOp();
    ok := log.BeginOp();
    ok := log.BeginOp();
  }

  function Thirty(first: nat, data: Block, n: nat): seq<Log.Update> {
    seq(n, i requires 0 <= i => Log.Update(i / Log.MAXOPBLOCKS, first + i, data))
  }
}

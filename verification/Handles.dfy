/** Handles on the buffers of the cache.

    A handle is one bread by some process, from bget to brelse (kernel/bio.c).
    Handles above HOMEBUF belong to processes; the other two are those with
    which commit holds a log block and a home block (kernel/log.c). */
module Handles {
  import opened BufferCache
  import opened Common
  import Log

  const LOGBUF := 0       // commit's handle of a log block or of the header
  const HOMEBUF := 1      // commit's handle of a home block

  /** The device, where its log begins, and its number of blocks. */
  datatype Area = Area(dev: nat, start: nat, size: nat)

  predicate AreaOk(a: Area) { a.dev != 0 && a.start + Log.LOGBLOCKS < a.size }

  // The device as a sequence of blocks.

  function Image(a: Area, m: map<Key, Block>): (d: Log.Disk)
    ensures |d| == a.size
  {
    seq(a.size, x requires 0 <= x => if Key(a.dev, x) in m then m[Key(a.dev, x)] else Unread())
  }

  ghost predicate Full(a: Area, m: map<Key, Block>) {
    forall x: nat | x < a.size :: Key(a.dev, x) in m
  }

  lemma ImageUpdate(a: Area, m: map<Key, Block>, x: nat, data: Block)
    requires x < a.size
    ensures Image(a, m[Key(a.dev, x) := data]) == Image(a, m)[x := data]
  {
  }

  // The cache and the handles on its buffers, as values.

  datatype State = State(
    bufs: seq<Buf>, refs: seq<nat>, pins: seq<nat>, disk: map<Key, Block>,
    users: seq<set<nat>>,           // the handles on each buffer
    lockers: seq<Option<nat>>,      // the handle that has locked it
    where: map<nat, nat>,           // the buffer of each handle
    unlogged: set<nat>,             // handles with a change to log or to write
    pinned: seq<nat>)               // the logged blocks not yet installed

  ghost predicate Sized(s: State) {
    |s.bufs| == |s.refs| == |s.pins| == |s.users| == |s.lockers| == NBUF
  }

  ghost predicate SlotOk(a: Area, x: Buf, r: nat, u: set<nat>, l: Option<nat>) {
    && r == |u|
    && (x.locked <==> l.Some?)
    && (l.Some? ==> l.value in u && x.valid)
    && (u != {} ==> x.key.dev == a.dev && x.key.blockno < a.size)
    && (forall h | h in u && h > HOMEBUF :: Log.Outside(a.start, x.key.blockno))
  }

  ghost predicate SlotsOk(a: Area, bufs: seq<Buf>, refs: seq<nat>, users: seq<set<nat>>, lockers: seq<Option<nat>>) {
    && |bufs| == |refs| == |users| == |lockers| == NBUF
    && forall b | 0 <= b < NBUF :: SlotOk(a, bufs[b], refs[b], users[b], lockers[b])
  }

  /** where is the buffer of each handle. */
  ghost predicate Placed(users: seq<set<nat>>, where: map<nat, nat>) {
    && (forall h | h in where :: where[h] < |users| && h in users[where[h]])
    && (forall b, h | 0 <= b < |users| && h in users[b] :: h in where && where[h] == b)
  }

  ghost predicate HoldsValid(bufs: seq<Buf>, k: Key, b: nat) { b < |bufs| && bufs[b].key == k && bufs[b].valid }

  predicate Among(a: Area, k: Key, ks: seq<nat>) { k.dev == a.dev && k.blockno in ks }

  ghost predicate Distinct(ks: seq<nat>) { forall i, j | 0 <= i < j < |ks| :: ks[i] != ks[j] }

  /** Exactly the buffers of the blocks ks are pinned, each once, and each of
      these blocks is in a valid buffer. */
  ghost predicate PinsOk(a: Area, bufs: seq<Buf>, pins: seq<nat>, ks: seq<nat>) {
    && |bufs| == |pins| == NBUF && Distinct(ks)
    && (forall b | 0 <= b < NBUF :: pins[b] == if Among(a, bufs[b].key, ks) then 1 else 0)
    && (forall k | k in ks :: exists b: nat :: HoldsValid(bufs, Key(a.dev, k), b))
  }

  ghost predicate CleanSlot(x: Buf, pins: nat, disk: map<Key, Block>, l: Option<nat>, unlogged: set<nat>) {
    l.Some? && l.value !in unlogged && x.key in disk ==> pins > 0 || x.data == disk[x.key]
  }

  /** A locked buffer without a change to log is pinned or as on the disk. */
  ghost predicate Clean(bufs: seq<Buf>, pins: seq<nat>, disk: map<Key, Block>, lockers: seq<Option<nat>>, unlogged: set<nat>) {
    && |bufs| == |pins| == |lockers|
    && forall b | 0 <= b < |bufs| :: CleanSlot(bufs[b], pins[b], disk, lockers[b], unlogged)
  }

  ghost predicate Holds(s: State, h: nat) {
    h in s.where && s.where[h] < |s.lockers| && s.lockers[s.where[h]] == Some(h)
  }

  ghost predicate BaseOk(a: Area, s: State) {
    && Sized(s) && Full(a, s.disk)
    && SlotsOk(a, s.bufs, s.refs, s.users, s.lockers)
    && Placed(s.users, s.where)
    && PinsOk(a, s.bufs, s.pins, s.pinned)
    && Clean(s.bufs, s.pins, s.disk, s.lockers, s.unlogged)
    && (forall h | h in s.unlogged :: Holds(s, h))
  }

  lemma HandleFacts(a: Area, s: State, h: nat)
    requires BaseOk(a, s) && h in s.where
    ensures Sized(s) && s.where[h] < NBUF && h in s.users[s.where[h]]
    ensures SlotOk(a, s.bufs[s.where[h]], s.refs[s.where[h]], s.users[s.where[h]], s.lockers[s.where[h]])
    ensures s.refs[s.where[h]] > 0 && s.bufs[s.where[h]].key.dev == a.dev && s.bufs[s.where[h]].key.blockno < a.size
    ensures s.bufs[s.where[h]].key in s.disk
  {
  }

  // What each section does to this state.

  function Opened(s: State, h: nat, b: nat, x: Buf): State
    requires Sized(s) && b < NBUF
  {
    s.(bufs := s.bufs[b := x], refs := s.refs[b := s.refs[b] + 1],
       users := s.users[b := s.users[b] + {h}], where := s.where[h := b])
  }

  function Taken(s: State, h: nat, data: Block): State
    requires Sized(s) && h in s.where && s.where[h] < NBUF
  {
    var b := s.where[h];
    s.(bufs := s.bufs[b := s.bufs[b].(locked := true, valid := true, data := data)], lockers := s.lockers[b := Some(h)])
  }

  function Changed(s: State, h: nat, data: Block): State
    requires Sized(s) && h in s.where && s.where[h] < NBUF
  {
    var b := s.where[h];
    s.(bufs := s.bufs[b := s.bufs[b].(data := data)], unlogged := s.unlogged + {h})
  }

  function Written(s: State, h: nat): State
    requires Sized(s) && h in s.where && s.where[h] < NBUF
  {
    var b := s.where[h];
    s.(disk := s.disk[s.bufs[b].key := s.bufs[b].data], unlogged := s.unlogged - {h})
  }

  function PinnedOnce(s: State, h: nat): State
    requires Sized(s) && h in s.where && s.where[h] < NBUF
  {
    var b := s.where[h];
    if s.bufs[b].key.blockno in s.pinned then s.(unlogged := s.unlogged - {h})
    else s.(bufs := s.bufs[b := s.bufs[b].(refcnt := s.bufs[b].refcnt + 1)], pins := s.pins[b := s.pins[b] + 1],
            pinned := s.pinned + [s.bufs[b].key.blockno], unlogged := s.unlogged - {h})
  }

  function Unpinned(s: State, h: nat): State
    requires Sized(s) && h in s.where && s.where[h] < NBUF && s.pinned != []
    requires s.bufs[s.where[h]].refcnt > 0 && s.pins[s.where[h]] > 0
  {
    var b := s.where[h];
    s.(bufs := s.bufs[b := s.bufs[b].(refcnt := s.bufs[b].refcnt - 1)], pins := s.pins[b := s.pins[b] - 1],
       pinned := s.pinned[1..])
  }

  function Released(s: State, h: nat): State
    requires Sized(s) && h in s.where && s.where[h] < NBUF
    requires s.bufs[s.where[h]].refcnt > 0 && s.refs[s.where[h]] > 0
  {
    var b := s.where[h];
    s.(bufs := s.bufs[b := s.bufs[b].(refcnt := s.bufs[b].refcnt - 1, locked := false)], refs := s.refs[b := s.refs[b] - 1],
       users := s.users[b := s.users[b] - {h}], lockers := s.lockers[b := None], where := s.where - {h})
  }

  // They keep the invariant.

  /** A change of buffer b that keeps its key and does not make it invalid. */
  lemma SamePins(a: Area, bufs: seq<Buf>, pins: seq<nat>, ks: seq<nat>, b: nat, x: Buf)
    requires PinsOk(a, bufs, pins, ks) && b < NBUF && x.key == bufs[b].key && (bufs[b].valid ==> x.valid)
    ensures PinsOk(a, bufs[b := x], pins, ks)
  {
    var after := bufs[b := x];
    forall k | k in ks ensures exists c: nat :: HoldsValid(after, Key(a.dev, k), c) {
      var c: nat :| HoldsValid(bufs, Key(a.dev, k), c);
      assert HoldsValid(after, Key(a.dev, k), c);
    }
  }

  /** A buffer that is not pinned can be given to a block that is not held. */
  lemma RecycledPins(a: Area, bufs: seq<Buf>, pins: seq<nat>, ks: seq<nat>, b: nat, x: Buf)
    requires PinsOk(a, bufs, pins, ks) && b < NBUF && pins[b] == 0
    requires forall i | 0 <= i < NBUF :: bufs[i].key != x.key
    ensures PinsOk(a, bufs[b := x], pins, ks)
  {
    var after := bufs[b := x];
    forall k | k in ks ensures x.key != Key(a.dev, k) && exists c: nat :: HoldsValid(after, Key(a.dev, k), c) {
      var c: nat :| HoldsValid(bufs, Key(a.dev, k), c);
      assert pins[c] == 1;
      assert HoldsValid(after, Key(a.dev, k), c);
    }
  }

  lemma MorePins(a: Area, bufs: seq<Buf>, pins: seq<nat>, ks: seq<nat>, b: nat, x: Buf, k: nat)
    requires PinsOk(a, bufs, pins, ks) && b < NBUF && bufs[b].valid && bufs[b].key == Key(a.dev, k) && k !in ks
    requires x == bufs[b].(refcnt := x.refcnt)
    requires forall i | 0 <= i < NBUF && bufs[i].key == bufs[b].key :: i == b
    ensures pins[b] == 0 && PinsOk(a, bufs[b := x], pins[b := 1], ks + [k])
  {
    var after := bufs[b := x];
    forall j | j in ks + [k] ensures exists c: nat :: HoldsValid(after, Key(a.dev, j), c) {
      if j == k {
        assert HoldsValid(after, Key(a.dev, j), b);
      } else {
        var c: nat :| HoldsValid(bufs, Key(a.dev, j), c);
        assert HoldsValid(after, Key(a.dev, j), c);
      }
    }
  }

  lemma LessPins(a: Area, bufs: seq<Buf>, pins: seq<nat>, ks: seq<nat>, b: nat, x: Buf)
    requires PinsOk(a, bufs, pins, ks) && b < NBUF && ks != [] && bufs[b].key == Key(a.dev, ks[0])
    requires x == bufs[b].(refcnt := x.refcnt)
    requires forall i | 0 <= i < NBUF && bufs[i].key == bufs[b].key :: i == b
    ensures pins[b] == 1 && PinsOk(a, bufs[b := x], pins[b := 0], ks[1..])
  {
    var after := bufs[b := x];
    forall k | k in ks[1..] ensures k in ks && k != ks[0] && exists c: nat :: HoldsValid(after, Key(a.dev, k), c) {
      var j :| 0 <= j < |ks[1..]| && ks[1..][j] == k;
      assert ks[j + 1] == k;
      var c: nat :| HoldsValid(bufs, Key(a.dev, k), c);
      assert HoldsValid(after, Key(a.dev, k), c);
    }
    assert ks == [ks[0]] + ks[1..];
  }

  lemma SetSlot(a: Area, bufs: seq<Buf>, refs: seq<nat>, users: seq<set<nat>>, lockers: seq<Option<nat>>,
                b: nat, x: Buf, r: nat, u: set<nat>, l: Option<nat>)
    requires SlotsOk(a, bufs, refs, users, lockers) && b < NBUF && SlotOk(a, x, r, u, l)
    ensures SlotsOk(a, bufs[b := x], refs[b := r], users[b := u], lockers[b := l])
  {
    hide SlotOk;
  }

  lemma PlaceMore(users: seq<set<nat>>, where: map<nat, nat>, b: nat, h: nat)
    requires Placed(users, where) && b < |users| && h !in where
    ensures Placed(users[b := users[b] + {h}], where[h := b])
  {
  }

  lemma PlaceLess(users: seq<set<nat>>, where: map<nat, nat>, b: nat, h: nat)
    requires Placed(users, where) && h in where && where[h] == b
    ensures b < |users| && Placed(users[b := users[b] - {h}], where - {h})
  {
  }

  lemma SetClean(bufs: seq<Buf>, pins: seq<nat>, disk: map<Key, Block>, lockers: seq<Option<nat>>, unlogged: set<nat>,
                 b: nat, x: Buf, n: nat, l: Option<nat>)
    requires Clean(bufs, pins, disk, lockers, unlogged) && b < |bufs| && CleanSlot(x, n, disk, l, unlogged)
    ensures Clean(bufs[b := x], pins[b := n], disk, lockers[b := l], unlogged)
  {
    hide CleanSlot;
  }

  lemma SlotFacts(a: Area, s: State, b: nat, h: nat)
    requires BaseOk(a, s) && b < NBUF && h !in s.where
    ensures Sized(s) && SlotOk(a, s.bufs[b], s.refs[b], s.users[b], s.lockers[b]) && h !in s.users[b]
    ensures CleanSlot(s.bufs[b], s.pins[b], s.disk, s.lockers[b], s.unlogged)
  {
  }

  lemma OpenHit(a: Area, s: State, h: nat, b: nat)
    requires BaseOk(a, s) && b < NBUF && h !in s.where
    requires s.bufs[b].key.dev == a.dev && s.bufs[b].key.blockno < a.size
    requires h > HOMEBUF ==> Log.Outside(a.start, s.bufs[b].key.blockno)
    ensures BaseOk(a, Opened(s, h, b, s.bufs[b].(refcnt := s.bufs[b].refcnt + 1)))
  {
    hide PinsOk, SlotsOk, Placed, Clean;
    var x := s.bufs[b].(refcnt := s.bufs[b].refcnt + 1);
    SlotFacts(a, s, b, h);
    SetSlot(a, s.bufs, s.refs, s.users, s.lockers, b, x, s.refs[b] + 1, s.users[b] + {h}, s.lockers[b]);
    PlaceMore(s.users, s.where, b, h);
    SamePins(a, s.bufs, s.pins, s.pinned, b, x);
    SetClean(s.bufs, s.pins, s.disk, s.lockers, s.unlogged, b, x, s.pins[b], s.lockers[b]);
    assert s.lockers[b := s.lockers[b]] == s.lockers && s.pins[b := s.pins[b]] == s.pins;
  }

  lemma OpenNew(a: Area, s: State, h: nat, b: nat, x: Buf)
    requires BaseOk(a, s) && b < NBUF && h !in s.where && s.refs[b] == s.pins[b] == 0
    requires x.key.dev == a.dev && x.key.blockno < a.size && !x.locked
    requires h > HOMEBUF ==> Log.Outside(a.start, x.key.blockno)
    requires forall i | 0 <= i < NBUF :: s.bufs[i].key != x.key
    ensures BaseOk(a, Opened(s, h, b, x))
  {
    hide PinsOk, SlotsOk, Placed, Clean;
    SlotFacts(a, s, b, h);
    RecycledPins(a, s.bufs, s.pins, s.pinned, b, x);
    SetSlot(a, s.bufs, s.refs, s.users, s.lockers, b, x, s.refs[b] + 1, s.users[b] + {h}, s.lockers[b]);
    PlaceMore(s.users, s.where, b, h);
    SetClean(s.bufs, s.pins, s.disk, s.lockers, s.unlogged, b, x, s.pins[b], s.lockers[b]);
    assert s.lockers[b := s.lockers[b]] == s.lockers && s.pins[b := s.pins[b]] == s.pins;
  }

  lemma TakeKeeps(a: Area, s: State, h: nat, data: Block)
    requires BaseOk(a, s) && h in s.where && s.where[h] < NBUF && s.lockers[s.where[h]] == None && h !in s.unlogged
    requires s.pins[s.where[h]] > 0 || (s.bufs[s.where[h]].key in s.disk && s.disk[s.bufs[s.where[h]].key] == data)
    ensures BaseOk(a, Taken(s, h, data))
  {
    hide PinsOk, SlotsOk, Placed, Clean;
    var b := s.where[h];
    var x := s.bufs[b].(locked := true, valid := true, data := data);
    HandleFacts(a, s, h);
    SetSlot(a, s.bufs, s.refs, s.users, s.lockers, b, x, s.refs[b], s.users[b], Some(h));
    SamePins(a, s.bufs, s.pins, s.pinned, b, x);
    SetClean(s.bufs, s.pins, s.disk, s.lockers, s.unlogged, b, x, s.pins[b], Some(h));
    assert s.refs[b := s.refs[b]] == s.refs && s.users[b := s.users[b]] == s.users && s.pins[b := s.pins[b]] == s.pins;
  }

  lemma ChangeKeeps(a: Area, s: State, h: nat, data: Block)
    requires BaseOk(a, s) && Holds(s, h)
    ensures Sized(s) && s.where[h] < NBUF && BaseOk(a, Changed(s, h, data))
  {
    var b := s.where[h];
    var x := s.bufs[b].(data := data);
    HandleFacts(a, s, h);
    hide PinsOk, SlotsOk, Placed;
    SetSlot(a, s.bufs, s.refs, s.users, s.lockers, b, x, s.refs[b], s.users[b], Some(h));
    SamePins(a, s.bufs, s.pins, s.pinned, b, x);
    assert Clean(s.bufs, s.pins, s.disk, s.lockers, s.unlogged + {h});
    hide Clean;
    SetClean(s.bufs, s.pins, s.disk, s.lockers, s.unlogged + {h}, b, x, s.pins[b], Some(h));
    assert s.refs[b := s.refs[b]] == s.refs && s.users[b := s.users[b]] == s.users && s.pins[b := s.pins[b]] == s.pins;
    assert s.lockers[b := Some(h)] == s.lockers;
  }

  lemma WriteKeeps(a: Area, s: State, h: nat)
    requires BaseOk(a, s) && Holds(s, h)
    requires forall i | 0 <= i < NBUF && s.bufs[i].key == s.bufs[s.where[h]].key :: i == s.where[h]
    ensures Sized(s) && s.where[h] < NBUF && BaseOk(a, Written(s, h))
  {
    HandleFacts(a, s, h);
    hide PinsOk, SlotsOk, Placed;
    var t := Written(s, h);
    forall i | 0 <= i < NBUF ensures CleanSlot(t.bufs[i], t.pins[i], t.disk, t.lockers[i], t.unlogged) {
      assert CleanSlot(s.bufs[i], s.pins[i], s.disk, s.lockers[i], s.unlogged);
    }
  }

  lemma PinKeeps(a: Area, s: State, h: nat)
    requires BaseOk(a, s) && Holds(s, h)
    requires forall i | 0 <= i < NBUF && s.bufs[i].key == s.bufs[s.where[h]].key :: i == s.where[h]
    ensures Sized(s) && s.where[h] < NBUF && BaseOk(a, PinnedOnce(s, h))
  {
    HandleFacts(a, s, h);
    var b := s.where[h];
    var k := s.bufs[b].key.blockno;
    var t := PinnedOnce(s, h);
    if k !in s.pinned {
      MorePins(a, s.bufs, s.pins, s.pinned, b, t.bufs[b], k);
      SetSlot(a, s.bufs, s.refs, s.users, s.lockers, b, t.bufs[b], s.refs[b], s.users[b], s.lockers[b]);
      assert s.refs[b := s.refs[b]] == s.refs && s.users[b := s.users[b]] == s.users && s.lockers[b := s.lockers[b]] == s.lockers;
    }
    assert t.pins[b] > 0;
    hide PinsOk, SlotsOk, Placed;
    forall i | 0 <= i < NBUF ensures CleanSlot(t.bufs[i], t.pins[i], t.disk, t.lockers[i], t.unlogged) {
      assert CleanSlot(s.bufs[i], s.pins[i], s.disk, s.lockers[i], s.unlogged);
      if s.lockers[i] == Some(h) {
        LockedOnce(a, s, h, i);
      }
    }
  }

  lemma LockedOnce(a: Area, s: State, h: nat, i: nat)
    requires BaseOk(a, s) && Holds(s, h) && i < NBUF && s.lockers[i] == Some(h)
    ensures i == s.where[h]
  {
    assert SlotOk(a, s.bufs[i], s.refs[i], s.users[i], s.lockers[i]);
  }

  lemma UnpinKeeps(a: Area, s: State, h: nat)
    requires BaseOk(a, s) && Holds(s, h) && s.pinned != [] && s.bufs[s.where[h]].key == Key(a.dev, s.pinned[0])
    requires s.bufs[s.where[h]].refcnt > 0
    requires s.bufs[s.where[h]].key in s.disk && s.bufs[s.where[h]].data == s.disk[s.bufs[s.where[h]].key]
    requires forall i | 0 <= i < NBUF && s.bufs[i].key == s.bufs[s.where[h]].key :: i == s.where[h]
    ensures Sized(s) && s.where[h] < NBUF && s.pins[s.where[h]] == 1 && BaseOk(a, Unpinned(s, h))
  {
    hide PinsOk, SlotsOk, Placed, Clean;
    HandleFacts(a, s, h);
    var b := s.where[h];
    var x := s.bufs[b].(refcnt := s.bufs[b].refcnt - 1);
    LessPins(a, s.bufs, s.pins, s.pinned, b, x);
    SetSlot(a, s.bufs, s.refs, s.users, s.lockers, b, x, s.refs[b], s.users[b], s.lockers[b]);
    SetClean(s.bufs, s.pins, s.disk, s.lockers, s.unlogged, b, x, 0, s.lockers[b]);
    assert s.refs[b := s.refs[b]] == s.refs && s.users[b := s.users[b]] == s.users && s.lockers[b := s.lockers[b]] == s.lockers;
  }

  lemma ReleaseKeeps(a: Area, s: State, h: nat)
    requires BaseOk(a, s) && Holds(s, h) && h !in s.unlogged && s.bufs[s.where[h]].refcnt > 0
    ensures Sized(s) && s.where[h] < NBUF && s.refs[s.where[h]] > 0 && BaseOk(a, Released(s, h))
  {
    hide PinsOk, SlotsOk, Placed, Clean;
    HandleFacts(a, s, h);
    var b := s.where[h];
    var x := s.bufs[b].(refcnt := s.bufs[b].refcnt - 1, locked := false);
    SetSlot(a, s.bufs, s.refs, s.users, s.lockers, b, x, s.refs[b] - 1, s.users[b] - {h}, None);
    PlaceLess(s.users, s.where, b, h);
    SamePins(a, s.bufs, s.pins, s.pinned, b, x);
    SetClean(s.bufs, s.pins, s.disk, s.lockers, s.unlogged, b, x, s.pins[b], None);
    assert s.pins[b := s.pins[b]] == s.pins;
  }

  /** A log block is in use by nobody but commit. */
  lemma NotShared(a: Area, s: State)
    requires BaseOk(a, s) && LOGBUF in s.where && HOMEBUF !in s.where && !Log.Outside(a.start, BlockOf(s, LOGBUF))
    requires !Holds(s, LOGBUF)
    ensures Sized(s) && s.where[LOGBUF] < NBUF && s.lockers[s.where[LOGBUF]] == None
  {
    var b := s.where[LOGBUF];
    assert SlotOk(a, s.bufs[b], s.refs[b], s.users[b], s.lockers[b]);
    assert forall h | h in s.users[b] && h != LOGBUF :: h > HOMEBUF;
  }

  lemma PinCount(a: Area, s: State, h: nat)
    requires BaseOk(a, s) && Holds(s, h)
    ensures Sized(s) && s.where[h] < NBUF
    ensures s.pins[s.where[h]] == if BlockOf(s, h) in s.pinned then 1 else 0
    ensures BlockOf(s, h) in s.pinned ==> s.pins[s.where[h] := 1] == s.pins
  {
    HandleFacts(a, s, h);
  }

  lemma NoPins(a: Area, s: State)
    requires BaseOk(a, s) && s.pinned == []
    ensures Sized(s) && forall b | 0 <= b < NBUF :: s.pins[b] == 0
  {
  }

  // How many buffers are pinned.

  function Members(ks: seq<nat>): set<nat> { set k | k in ks }

  lemma {:induction false} MembersSize(ks: seq<nat>)
    ensures |Members(ks)| <= |ks|
    ensures Distinct(ks) ==> |Members(ks)| == |ks|
  {
    if ks != [] {
      var rest := ks[..|ks| - 1];
      MembersSize(rest);
      assert ks == rest + [ks[|ks| - 1]];
      assert Members(ks) == Members(rest) + {ks[|ks| - 1]};
    }
  }

  lemma Pigeonhole(ks: seq<nat>, ls: seq<nat>)
    requires Distinct(ks) && forall k | k in ks :: k in ls
    ensures |ks| <= |ls|
  {
    MembersSize(ks);
    MembersSize(ls);
    SubsetSize(Members(ks), Members(ls));
  }

  function Blocknos(bufs: seq<Buf>): seq<nat> {
    seq(|bufs|, i requires 0 <= i < |bufs| => bufs[i].key.blockno)
  }

  /** With no reference but the pins, and fewer pins than buffers, there is a
      buffer to recycle. */
  lemma FreeBuffer(a: Area, s: State, view: map<Key, Block>, k: Key)
    requires AreaOk(a) && BaseOk(a, s) && TableOk(s.bufs, s.refs, s.pins, s.disk, view) && s.where == map[] && |s.pinned| < NBUF
    ensures !NoBuffer(s.bufs, k)
  {
    if NoBuffer(s.bufs, k) {
      forall i: nat | i < NBUF ensures Among(a, s.bufs[i].key, s.pinned) {
        Unreferenced(a, s, i);
        TableFacts(s.bufs, s.refs, s.pins, s.disk, view, i);
      }
      var ks := Blocknos(s.bufs);
      assert Distinct(ks) by { hide BaseOk; }
      Pigeonhole(ks, s.pinned);
    }
  }

  lemma Unreferenced(a: Area, s: State, i: nat)
    requires BaseOk(a, s) && s.where == map[] && i < NBUF
    ensures s.refs[i] == 0
  {
    assert SlotOk(a, s.bufs[i], s.refs[i], s.users[i], s.lockers[i]);
    assert s.users[i] <= s.where.Keys;
  }

  /** With as many pins as buffers, bget finds none for another block. */
  lemma AllPinned(a: Area, s: State, view: map<Key, Block>, k: nat)
    requires AreaOk(a) && BaseOk(a, s) && TableOk(s.bufs, s.refs, s.pins, s.disk, view)
    requires |s.pinned| == NBUF && k !in s.pinned
    ensures NoBuffer(s.bufs, Key(a.dev, k))
  {
    forall i: nat | i < NBUF ensures s.bufs[i].key != Key(a.dev, k) && s.bufs[i].refcnt > 0 {
      TableFacts(s.bufs, s.refs, s.pins, s.disk, view, i);
      if !Among(a, s.bufs[i].key, s.pinned) {
        var ks := Blocknos(s.bufs);
        var others := ks[..i] + ks[i + 1..];
        forall l | l in s.pinned ensures l in others {
          var c: nat :| HoldsValid(s.bufs, Key(a.dev, l), c);
          assert ks[c] == l && c != i;
          assert l == if c < i then others[c] else others[c - 1];
        }
        Pigeonhole(s.pinned, others);
      }
    }
  }

  /** The only handle finds its buffer unlocked. */
  lemma AloneUnlocked(a: Area, s: State, h: nat)
    requires BaseOk(a, s) && s.where.Keys == {h} && !Holds(s, h)
    ensures Unlocked(s, h)
  {
    HandleFacts(a, s, h);
    assert s.users[s.where[h]] <= s.where.Keys;
  }

  lemma PinnedHeld(a: Area, s: State, k: nat)
    requires BaseOk(a, s) && k in s.pinned
    ensures !NoBuffer(s.bufs, Key(a.dev, k))
  {
    var b: nat :| HoldsValid(s.bufs, Key(a.dev, k), b);
  }

  /** Commit has log block t locked, and a reference to the home block. */
  ghost predicate AtLock(a: Area, s: State, header: seq<nat>, t: nat) {
    && t < |header| && Sized(s)
    && Holds(s, LOGBUF) && BlockOf(s, LOGBUF) == a.start + 1 + t
    && HOMEBUF in s.where && s.where[HOMEBUF] < NBUF && BlockOf(s, HOMEBUF) == header[t] && !Holds(s, HOMEBUF)
  }

  ghost predicate BothHeld(a: Area, s: State, header: seq<nat>, t: nat) {
    && t < |header| && Sized(s)
    && Holds(s, LOGBUF) && BlockOf(s, LOGBUF) == a.start + 1 + t
    && Holds(s, HOMEBUF) && BlockOf(s, HOMEBUF) == header[t]
  }

  ghost predicate Unlocked(s: State, h: nat) {
    h in s.where && s.where[h] < |s.lockers| && s.lockers[s.where[h]] == None
  }

  lemma HomeUnlocked(a: Area, s: State, header: seq<nat>, t: nat)
    requires BaseOk(a, s) && AtLock(a, s, header, t) && s.where.Keys == {LOGBUF, HOMEBUF}
    requires t < Log.LOGBLOCKS && Log.Outside(a.start, header[t])
    ensures Unlocked(s, HOMEBUF)
  {
    HandleFacts(a, s, HOMEBUF);
    var b := s.where[HOMEBUF];
    assert s.users[b] <= s.where.Keys && LOGBUF !in s.users[b];
  }

  /** The handles are as they were, on the same blocks. */
  ghost predicate BlocksKept(s: State, t: State) {
    && t.where == s.where && t.lockers == s.lockers && t.pinned == s.pinned
    && |t.bufs| == |s.bufs| && forall i | 0 <= i < |s.bufs| :: t.bufs[i].key == s.bufs[i].key
  }

  lemma BaseFacts(a: Area, s: State)
    requires BaseOk(a, s)
    ensures Sized(s) && Full(a, s.disk)
  {
  }

  lemma CleanFacts(a: Area, s: State, h: nat)
    requires BaseOk(a, s) && Holds(s, h) && h !in s.unlogged
    ensures Sized(s) && CleanSlot(s.bufs[s.where[h]], s.pins[s.where[h]], s.disk, Some(h), s.unlogged)
  {
  }

  /** bget finds no buffer: the panic "no buffers". */
  ghost predicate NoBuffer(bufs: seq<Buf>, k: Key) {
    forall i | 0 <= i < |bufs| :: bufs[i].key != k && bufs[i].refcnt > 0
  }

  /** The block of a handle. */
  function BlockOf(s: State, h: nat): nat {
    if h in s.where && s.where[h] < |s.bufs| then s.bufs[s.where[h]].key.blockno else 0
  }

  lemma OpenKeeps(a: Area, s: State, view: map<Key, Block>, h: nat, b: nat, x: Buf, k: Key)
    requires BaseOk(a, s) && TableOk(s.bufs, s.refs, s.pins, s.disk, view) && h !in s.where && b < NBUF
    requires k.dev == a.dev && k.blockno < a.size && (h > HOMEBUF ==> Log.Outside(a.start, k.blockno)) && x.key == k
    requires (s.bufs[b].key == k && x == s.bufs[b].(refcnt := s.bufs[b].refcnt + 1))
             || (s.bufs[b].refcnt == 0 && !x.locked && forall i | 0 <= i < NBUF :: s.bufs[i].key != k)
    ensures BaseOk(a, Opened(s, h, b, x)) && s.lockers[b] != Some(h)
    ensures forall g | g in s.where :: BlockOf(Opened(s, h, b, x), g) == BlockOf(s, g)
  {
    hide TableOk, BaseOk;
    SlotFacts(a, s, b, h);
    TableFacts(s.bufs, s.refs, s.pins, s.disk, view, b);
    if s.bufs[b].key == k {
      OpenHit(a, s, h, b);
    } else {
      OpenNew(a, s, h, b, x);
    }
    forall g | g in s.where ensures BlockOf(Opened(s, h, b, x), g) == BlockOf(s, g) {
      HandleFacts(a, s, g);
    }
  }

  /** What a process finds in a buffer that nobody has locked. */
  lemma UnlockedCurrent(bufs: seq<Buf>, refs: seq<nat>, pins: seq<nat>, disk: map<Key, Block>, view: map<Key, Block>, b: nat)
    requires TableOk(bufs, refs, pins, disk, view) && b < NBUF == |bufs| == |pins| && !bufs[b].locked
    requires bufs[b].key in disk && bufs[b].key.dev != 0
    ensures bufs[b].key in view && (pins[b] > 0 || disk[bufs[b].key] == view[bufs[b].key])
  {
  }
}

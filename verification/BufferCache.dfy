/** The buffer cache of kernel/bio.c: a fixed table of buffers on a circular
    doubly linked list in order of use.

    Each method is a section that runs under bcache.lock or under the buffer's
    sleeplock; processes may interleave them in any way that the contracts
    allow.  The view is what the blocks would hold if there were no cache. */
module BufferCache {
  import opened Common

  const NBUF := 30
  const HEAD := NBUF   // index of bcache.head

  datatype Key = Key(dev: nat, blockno: nat)

  datatype Buf = Buf(key: Key, valid: bool, refcnt: nat, locked: bool, data: Block)

  /** What a buffer holds before its first read. */
  function Unread(): Block { seq(WORDS, _ => 0) }

  // The list, as the ring head, most recent, ..., least recent.

  function After(ring: seq<nat>, j: nat): nat
    requires j < |ring|
  {
    if j + 1 < |ring| then ring[j + 1] else ring[0]
  }

  function Before(ring: seq<nat>, j: nat): nat
    requires j < |ring|
  {
    if j > 0 then ring[j - 1] else ring[|ring| - 1]
  }

  ghost predicate Linked(ring: seq<nat>, next: seq<nat>, prev: seq<nat>) {
    && |next| == |prev| == NBUF + 1 && |ring| > 0 && ring[0] == HEAD
    && (forall j | 0 <= j < |ring| :: ring[j] <= NBUF)
    && (forall i, j | 0 <= i < j < |ring| :: ring[i] != ring[j])
    && (forall j {:trigger next[ring[j]]} | 0 <= j < |ring| :: next[ring[j]] == After(ring, j))
    && (forall j {:trigger prev[ring[j]]} | 0 <= j < |ring| :: prev[ring[j]] == Before(ring, j))
  }

  function Without(ring: seq<nat>, j: nat): seq<nat>
    requires j < |ring|
  {
    ring[..j] + ring[j + 1..]
  }

  function Front(ring: seq<nat>, b: nat): seq<nat>
    requires |ring| > 0
  {
    [ring[0], b] + ring[1..]
  }

  /** b->next->prev = b->prev; b->prev->next = b->next. */
  lemma Unlink(ring: seq<nat>, next: seq<nat>, prev: seq<nat>, j: nat)
    requires Linked(ring, next, prev) && 0 < j < |ring|
    ensures var b := ring[j];
            && b < |next| && next[b] < |prev| && prev[b] < |next|
            && Linked(Without(ring, j), next[prev[b] := next[b]], prev[next[b] := prev[b]])
  {
  }

  /** The rest of brelse: b goes between the head and its successor. */
  lemma LinkFront(ring: seq<nat>, next: seq<nat>, prev: seq<nat>, b: nat)
    requires Linked(ring, next, prev) && b < NBUF && b !in ring
    ensures next[HEAD] < |prev|
    ensures Linked(Front(ring, b), next[b := next[HEAD]][HEAD := b], prev[b := HEAD][next[HEAD] := b])
  {
  }

  lemma FrontMembers(ring: seq<nat>, b: nat)
    requires |ring| > 0
    ensures forall i :: i in Front(ring, b) <==> i == b || i in ring
  {
  }

  lemma WithoutMembers(ring: seq<nat>, next: seq<nat>, prev: seq<nat>, j: nat)
    requires Linked(ring, next, prev) && 0 < j < |ring|
    ensures forall i :: i in Without(ring, j) <==> i in ring && i != ring[j]
  {
  }

  // The invariant of the table, on values.

  /** For a device other than 0, at most one buffer holds a key. */
  ghost predicate UniqueKeys(bufs: seq<Buf>) {
    forall i, j | 0 <= i < |bufs| && 0 <= j < |bufs| && bufs[i].key == bufs[j].key && bufs[i].key.dev != 0 :: i == j
  }

  /** refs counts the references handed out by bget, pins those by bpin. */
  ghost predicate Counted(bufs: seq<Buf>, refs: seq<nat>, pins: seq<nat>) {
    && |bufs| == |refs| == |pins|
    && forall i | 0 <= i < |bufs| :: bufs[i].refcnt == refs[i] + pins[i] && (bufs[i].locked ==> refs[i] > 0)
  }

  /** A valid buffer holds the latest contents of its block, and holds what is
      on the disk unless somebody has it locked or pinned. */
  ghost predicate Current(bufs: seq<Buf>, pins: seq<nat>, disk: map<Key, Block>, view: map<Key, Block>) {
    && |bufs| == |pins|
    && forall i | 0 <= i < |bufs| && bufs[i].valid ::
         && bufs[i].key in disk && bufs[i].key in view
         && bufs[i].data == view[bufs[i].key]
         && (bufs[i].locked || pins[i] > 0 || bufs[i].data == disk[bufs[i].key])
  }

  /** A block that no valid buffer holds is up to date on the disk. */
  ghost predicate Settled(bufs: seq<Buf>, disk: map<Key, Block>, view: map<Key, Block>) {
    && disk.Keys == view.Keys
    && forall k | k in disk :: Cached(bufs, k) || disk[k] == view[k]
  }

  ghost predicate Cached(bufs: seq<Buf>, k: Key) {
    exists i | 0 <= i < |bufs| :: bufs[i].key == k && bufs[i].valid
  }

  ghost predicate TableOk(bufs: seq<Buf>, refs: seq<nat>, pins: seq<nat>, disk: map<Key, Block>, view: map<Key, Block>) {
    && |bufs| == NBUF
    && UniqueKeys(bufs)
    && Counted(bufs, refs, pins)
    && Current(bufs, pins, disk, view)
    && Settled(bufs, disk, view)
  }

  /** A change of buffer b that keeps its key and does not make it invalid
      leaves every cached block cached. */
  lemma SettledSame(bufs: seq<Buf>, disk: map<Key, Block>, view: map<Key, Block>, b: nat, x: Buf)
    requires Settled(bufs, disk, view) && b < |bufs|
    requires x.key == bufs[b].key && (bufs[b].valid ==> x.valid)
    ensures Settled(bufs[b := x], disk, view)
  {
    forall k | k in disk && Cached(bufs, k) ensures Cached(bufs[b := x], k) {
      var i :| 0 <= i < |bufs| && bufs[i].key == k && bufs[i].valid;
      assert bufs[b := x][i].key == k && bufs[b := x][i].valid;
    }
  }

  /** Reading the block from the disk into the locked buffer b. */
  lemma FillKeeps(bufs: seq<Buf>, refs: seq<nat>, pins: seq<nat>, disk: map<Key, Block>, view: map<Key, Block>, b: nat)
    requires TableOk(bufs, refs, pins, disk, view) && b < NBUF && bufs[b].locked && !bufs[b].valid
    requires bufs[b].key in disk && bufs[b].key.dev != 0
    ensures disk[bufs[b].key] == view[bufs[b].key]
    ensures TableOk(bufs[b := bufs[b].(valid := true, data := disk[bufs[b].key])], refs, pins, disk, view)
  {
  }

  /** Changing the contents of the locked buffer b. */
  lemma StoreKeeps(bufs: seq<Buf>, refs: seq<nat>, pins: seq<nat>, disk: map<Key, Block>, view: map<Key, Block>,
                   b: nat, data: Block)
    requires TableOk(bufs, refs, pins, disk, view) && b < NBUF && bufs[b].locked && bufs[b].valid && bufs[b].key.dev != 0
    ensures TableOk(bufs[b := bufs[b].(data := data)], refs, pins, disk, view[bufs[b].key := data])
  {
    var x := bufs[b].(data := data);
    SettledSame(bufs, disk, view, b, x);
    assert Cached(bufs[b := x], x.key) by {
      assert bufs[b := x][b] == x;
    }
  }

  lemma WriteKeeps(bufs: seq<Buf>, refs: seq<nat>, pins: seq<nat>, disk: map<Key, Block>, view: map<Key, Block>, b: nat)
    requires TableOk(bufs, refs, pins, disk, view) && b < NBUF && bufs[b].locked && bufs[b].valid && bufs[b].key.dev != 0
    ensures bufs[b].key in disk && TableOk(bufs, refs, pins, disk[bufs[b].key := bufs[b].data], view)
  {
  }

  lemma PinKeeps(bufs: seq<Buf>, refs: seq<nat>, pins: seq<nat>, disk: map<Key, Block>, view: map<Key, Block>, b: nat, n: nat)
    requires TableOk(bufs, refs, pins, disk, view) && b < NBUF && (n > 0 || bufs[b].locked)
    ensures TableOk(bufs[b := bufs[b].(refcnt := refs[b] + n)], refs, pins[b := n], disk, view)
  {
  }

  lemma RingFacts(ring: seq<nat>, next: seq<nat>, prev: seq<nat>, j: nat)
    requires Linked(ring, next, prev) && j < |ring|
    ensures |next| == |prev| == NBUF + 1 && ring[0] == HEAD
    ensures ring[j] <= NBUF && (ring[j] == HEAD <==> j == 0)
    ensures next[ring[j]] == After(ring, j) && prev[ring[j]] == Before(ring, j)
  {
  }

  lemma RingSize(ring: seq<nat>, next: seq<nat>, prev: seq<nat>)
    requires Linked(ring, next, prev)
    ensures |next| == |prev| == NBUF + 1 && |ring| > 0
  {
  }

  lemma RefMore(bufs: seq<Buf>, refs: seq<nat>, pins: seq<nat>, disk: map<Key, Block>, view: map<Key, Block>, b: nat)
    requires TableOk(bufs, refs, pins, disk, view) && b < NBUF == |bufs| == |refs|
    ensures TableOk(bufs[b := bufs[b].(refcnt := bufs[b].refcnt + 1)], refs[b := refs[b] + 1], pins, disk, view)
  {
  }

  lemma RefNew(bufs: seq<Buf>, refs: seq<nat>, pins: seq<nat>, disk: map<Key, Block>, view: map<Key, Block>, b: nat, x: Buf)
    requires TableOk(bufs, refs, pins, disk, view) && b < NBUF == |bufs| == |refs| && bufs[b].refcnt == 0
    requires x.refcnt == 1 && !x.valid && !x.locked && !exists i | 0 <= i < |bufs| :: bufs[i].key == x.key
    ensures refs[b] == 0 && TableOk(bufs[b := x], refs[b := 1], pins, disk, view)
  {
  }

  lemma LockKeeps(bufs: seq<Buf>, refs: seq<nat>, pins: seq<nat>, disk: map<Key, Block>, view: map<Key, Block>, b: nat)
    requires TableOk(bufs, refs, pins, disk, view) && b < NBUF == |bufs| == |refs| && refs[b] > 0
    ensures TableOk(bufs[b := bufs[b].(locked := true)], refs, pins, disk, view)
  {
  }

  lemma ReleaseKeeps(bufs: seq<Buf>, refs: seq<nat>, pins: seq<nat>, disk: map<Key, Block>, view: map<Key, Block>, b: nat)
    requires TableOk(bufs, refs, pins, disk, view) && b < NBUF == |bufs| == |refs| == |pins| && bufs[b].locked
    requires bufs[b].valid ==> pins[b] > 0 || (bufs[b].key in disk && bufs[b].data == disk[bufs[b].key])
    ensures refs[b] > 0 && bufs[b].refcnt > 0
    ensures TableOk(bufs[b := bufs[b].(refcnt := bufs[b].refcnt - 1, locked := false)], refs[b := refs[b] - 1], pins, disk, view)
  {
  }

  /** What a reader of the contracts below gets out of the invariant. */
  lemma TableFacts(bufs: seq<Buf>, refs: seq<nat>, pins: seq<nat>, disk: map<Key, Block>, view: map<Key, Block>, b: nat)
    requires TableOk(bufs, refs, pins, disk, view) && b < NBUF == |bufs| == |refs| == |pins|
    ensures bufs[b].refcnt == refs[b] + pins[b] && (bufs[b].locked ==> refs[b] > 0)
    ensures bufs[b].valid ==> bufs[b].key in disk && bufs[b].key in view && bufs[b].data == view[bufs[b].key]
    ensures bufs[b].valid && bufs[b].refcnt == 0 ==> bufs[b].data == disk[bufs[b].key]
    ensures forall i | 0 <= i < NBUF && bufs[i].key == bufs[b].key && bufs[b].key.dev != 0 :: i == b
    ensures disk.Keys == view.Keys
  {
  }

  /** The ring with b moved to the most recently used place. */
  ghost predicate MovedToFront(ring: seq<nat>, ring': seq<nat>, b: nat) {
    |ring| > 0 && exists j | 0 < j < |ring| :: ring[j] == b && ring' == Front(Without(ring, j), b)
  }

  class Bcache {
    var bufs: seq<Buf>
    var next: seq<nat>
    var prev: seq<nat>
    var disk: map<Key, Block>

    ghost var ring: seq<nat>
    ghost var refs: seq<nat>           // references from bget not yet given back
    ghost var pins: seq<nat>           // references from bpin not yet given back
    ghost var view: map<Key, Block>    // the contents as if there were no cache

    ghost predicate Listed()
      reads this
    {
      Linked(ring, next, prev) && forall b | 0 <= b < NBUF :: b in ring
    }

    ghost predicate Valid()
      reads this
    {
      Listed() && |bufs| == |refs| == |pins| == NBUF && TableOk(bufs, refs, pins, disk, view)
    }

    constructor (disk: map<Key, Block>)
      ensures Valid() && this.disk == disk == view
      ensures forall b | 0 <= b < NBUF :: bufs[b].refcnt == refs[b] == pins[b] == 0 && !bufs[b].valid
    {
      this.disk, view := disk, disk;
      bufs := seq(NBUF, _ => Buf(Key(0, 0), false, 0, false, Unread()));
      refs, pins := seq(NBUF, _ => 0), seq(NBUF, _ => 0);
      next, prev := seq(NBUF + 1, _ => HEAD), seq(NBUF + 1, _ => HEAD);
      ring := [HEAD];
      new;
      for b := 0 to NBUF
        invariant Linked(ring, next, prev)
        invariant forall i :: i in ring <==> i == HEAD || 0 <= i < b
        invariant this.disk == view == disk && bufs == seq(NBUF, _ => Buf(Key(0, 0), false, 0, false, Unread()))
        invariant refs == pins == seq(NBUF, _ => 0)
      {
        LinkFront(ring, next, prev, b);
        FrontMembers(ring, b);
        ring := Front(ring, b);
        var h := next[HEAD];
        next := next[b := h][HEAD := b];
        prev := prev[b := HEAD][h := b];
      }
    }

    ghost predicate Held(k: Key)
      reads this
    {
      exists i | 0 <= i < |bufs| :: bufs[i].key == k
    }

    /** bget, up to the acquiresleep.  No buffer is the panic "no buffers". */
    method Bget(dev: nat, blockno: nat) returns (r: Option<nat>)
      requires Valid() && dev != 0 && Key(dev, blockno) in disk
      modifies this`bufs, this`refs
      ensures Valid()
      ensures r.None? <==> !old(Held(Key(dev, blockno))) && forall i | 0 <= i < NBUF :: old(bufs[i].refcnt) > 0
      ensures r.None? ==> bufs == old(bufs) && refs == old(refs)
      ensures r.Some? ==> r.value < NBUF && bufs[r.value].key == Key(dev, blockno) && refs == old(refs)[r.value := old(refs)[r.value] + 1]
      ensures r.Some? && old(Held(Key(dev, blockno))) ==>
                bufs == old(bufs)[r.value := old(bufs)[r.value].(refcnt := old(bufs)[r.value].refcnt + 1)]
      ensures r.Some? && !old(Held(Key(dev, blockno))) ==>
                && old(bufs)[r.value].refcnt == 0
                && bufs == old(bufs)[r.value := Buf(Key(dev, blockno), false, 1, false, old(bufs)[r.value].data)]
                && exists j | 0 < j < |ring| :: ring[j] == r.value && forall i | j < i < |ring| :: Busy(old(bufs), ring[i])
    {
      hide TableOk, Linked;
      var key := Key(dev, blockno);
      var b := FindKey(key);
      if b != HEAD {
        RefMore(bufs, refs, pins, disk, view, b);
        bufs := bufs[b := bufs[b].(refcnt := bufs[b].refcnt + 1)];
        refs := refs[b := refs[b] + 1];
        return Some(b);
      }
      b := FindFree();
      if b != HEAD {
        var x := Buf(key, false, 1, false, bufs[b].data);
        RefNew(bufs, refs, pins, disk, view, b, x);
        bufs := bufs[b := x];
        refs := refs[b := 1];
        return Some(b);
      }
      return None;
    }

    /** The first scan of bget, from the most recently used buffer; HEAD if no
        buffer holds the key. */
    method FindKey(key: Key) returns (b: nat)
      requires Listed() && |bufs| == NBUF
      ensures if b == HEAD then !Held(key) else b < NBUF && bufs[b].key == key
    {
      RingFacts(ring, next, prev, 0);
      b := next[HEAD];
      ghost var j := 1;
      while b != HEAD
        invariant 0 < j <= |ring| && b == if j < |ring| then ring[j] else HEAD
        invariant forall i | 0 < i < j :: ring[i] < NBUF && bufs[ring[i]].key != key
        decreases |ring| - j
      {
        RingFacts(ring, next, prev, j);
        if bufs[b].key == key {
          return;
        }
        b := next[b];
        j := j + 1;
      }
      RingFacts(ring, next, prev, if j < |ring| then j else 0);
      forall i | 0 <= i < NBUF ensures bufs[i].key != key {
        assert i in ring;
        var k :| 0 <= k < |ring| && ring[k] == i;
      }
    }

    /** The second scan, from the least recently used one. */
    method FindFree() returns (b: nat)
      requires Listed() && |bufs| == NBUF
      ensures b == HEAD ==> forall i | 0 <= i < NBUF :: bufs[i].refcnt > 0
      ensures b != HEAD ==> b < NBUF && bufs[b].refcnt == 0
      ensures b != HEAD ==> exists j | 0 < j < |ring| :: ring[j] == b && forall i | j < i < |ring| :: Busy(bufs, ring[i])
    {
      RingFacts(ring, next, prev, 0);
      b := prev[HEAD];
      ghost var j := |ring| - 1;
      while b != HEAD
        invariant 0 <= j < |ring| && b == ring[j]
        invariant forall i | j < i < |ring| :: ring[i] < NBUF && Busy(bufs, ring[i])
        decreases j
      {
        RingFacts(ring, next, prev, j);
        if bufs[b].refcnt == 0 {
          return;
        }
        b := prev[b];
        j := j - 1;
      }
      RingFacts(ring, next, prev, j);
      forall i | 0 <= i < NBUF ensures bufs[i].refcnt > 0 {
        assert i in ring;
        var k :| 0 <= k < |ring| && ring[k] == i;
        assert Busy(bufs, ring[k]);
      }
    }

    /** The acquiresleep at the end of bget, once nobody else has the lock. */
    method Lock(b: nat)
      requires Valid() && b < NBUF && refs[b] > 0 && !bufs[b].locked
      modifies this`bufs
      ensures Valid() && bufs == old(bufs)[b := old(bufs)[b].(locked := true)]
    {
      hide TableOk, Linked;
      LockKeeps(bufs, refs, pins, disk, view, b);
      bufs := bufs[b := bufs[b].(locked := true)];
    }

    /** The rest of bread: the block as it would be without the cache. */
    method Fill(b: nat) returns (data: Block)
      requires Valid() && b < NBUF && bufs[b].locked && bufs[b].key.dev != 0 && bufs[b].key in disk
      modifies this`bufs
      ensures Valid() && bufs[b].key in view && data == view[bufs[b].key]
      ensures bufs == old(bufs)[b := old(bufs)[b].(valid := true, data := data)]
    {
      hide TableOk, Linked;
      TableFacts(bufs, refs, pins, disk, view, b);
      if !bufs[b].valid {
        FillKeeps(bufs, refs, pins, disk, view, b);
        bufs := bufs[b := bufs[b].(valid := true, data := disk[bufs[b].key])];
      }
      data := bufs[b].data;
    }

    /** bread.  If somebody else has the buffer locked, the caller has its
        reference and waits; Lock and Fill are the rest. */
    method Bread(dev: nat, blockno: nat) returns (r: Option<nat>, waits: bool)
      requires Valid() && dev != 0 && Key(dev, blockno) in disk
      modifies this`bufs, this`refs
      ensures Valid()
      ensures r.None? <==> !old(Held(Key(dev, blockno))) && forall i | 0 <= i < NBUF :: old(bufs[i].refcnt) > 0
      ensures waits <==> exists i | 0 <= i < NBUF :: old(bufs)[i].key == Key(dev, blockno) && old(bufs)[i].locked
      ensures r.Some? ==> r.value < NBUF && bufs[r.value].locked && bufs[r.value].key == Key(dev, blockno)
      ensures r.Some? && !waits ==>
                bufs[r.value].valid && Key(dev, blockno) in view && bufs[r.value].data == view[Key(dev, blockno)]
      ensures r.Some? && waits ==> bufs[r.value] == old(bufs)[r.value].(refcnt := old(bufs)[r.value].refcnt + 1)
      ensures r.Some? ==> refs[r.value] == old(refs[r.value]) + 1
      ensures r.Some? && old(bufs[r.value].refcnt) > 0 ==> old(bufs[r.value].key) == Key(dev, blockno)
      ensures forall i | 0 <= i < NBUF && r != Some(i) :: bufs[i] == old(bufs[i]) && refs[i] == old(refs[i])
    {
      hide TableOk, Linked;
      r := Bget(dev, blockno);
      waits := r.Some? && bufs[r.value].locked;
      if r.Some? {
        TableFacts(bufs, refs, pins, disk, view, r.value);
        assert waits ==> old(bufs)[r.value].key == Key(dev, blockno) && old(bufs)[r.value].locked;
        assert forall i | 0 <= i < NBUF && old(bufs)[i].key == Key(dev, blockno) :: bufs[i].key == Key(dev, blockno);
        if !waits {
          Lock(r.value);
          var _ := Fill(r.value);
        }
      }
    }

    /** A change to b->data by the holder of the lock. */
    method Store(b: nat, data: Block)
      requires Valid() && b < NBUF && bufs[b].locked && bufs[b].valid && bufs[b].key.dev != 0
      modifies this`bufs, this`view
      ensures Valid() && bufs == old(bufs)[b := old(bufs)[b].(data := data)] && view == old(view)[bufs[b].key := data]
    {
      hide TableOk, Linked;
      StoreKeeps(bufs, refs, pins, disk, view, b, data);
      view := view[bufs[b].key := data];
      bufs := bufs[b := bufs[b].(data := data)];
    }

    method Bwrite(b: nat)
      requires Valid() && b < NBUF && bufs[b].locked && bufs[b].valid && bufs[b].key.dev != 0
      modifies this`disk
      ensures Valid() && disk == old(disk)[bufs[b].key := bufs[b].data]
      ensures bufs[b].key in view && disk[bufs[b].key] == view[bufs[b].key]
    {
      hide TableOk, Linked;
      TableFacts(bufs, refs, pins, disk, view, b);
      WriteKeeps(bufs, refs, pins, disk, view, b);
      disk := disk[bufs[b].key := bufs[b].data];
    }

    /** bpin, called by log_write. */
    method Bpin(b: nat)
      requires Valid() && b < NBUF && refs[b] > 0
      modifies this`bufs, this`pins
      ensures Valid() && bufs == old(bufs)[b := old(bufs)[b].(refcnt := old(bufs)[b].refcnt + 1)]
      ensures pins == old(pins)[b := old(pins)[b] + 1]
    {
      hide TableOk, Linked;
      TableFacts(bufs, refs, pins, disk, view, b);
      PinKeeps(bufs, refs, pins, disk, view, b, pins[b] + 1);
      bufs := bufs[b := bufs[b].(refcnt := bufs[b].refcnt + 1)];
      pins := pins[b := pins[b] + 1];
    }

    /** bunpin, called by install_trans with the buffer locked. */
    method Bunpin(b: nat)
      requires Valid() && b < NBUF && pins[b] > 0 && bufs[b].locked
      modifies this`bufs, this`pins
      ensures Valid() && old(bufs)[b].refcnt > 1 && bufs == old(bufs)[b := old(bufs)[b].(refcnt := old(bufs)[b].refcnt - 1)]
      ensures pins == old(pins)[b := old(pins)[b] - 1]
    {
      hide TableOk, Linked;
      TableFacts(bufs, refs, pins, disk, view, b);
      PinKeeps(bufs, refs, pins, disk, view, b, pins[b] - 1);
      bufs := bufs[b := bufs[b].(refcnt := bufs[b].refcnt - 1)];
      pins := pins[b := pins[b] - 1];
    }

    /** brelse: a changed buffer has been written or logged before.  The last
        reference moves it to the front of the list. */
    method Brelse(b: nat)
      requires Valid() && b < NBUF && bufs[b].locked
      requires bufs[b].valid ==> pins[b] > 0 || (bufs[b].key in disk && bufs[b].data == disk[bufs[b].key])
      modifies this`bufs, this`refs, this`next, this`prev, this`ring
      ensures Valid() && old(refs)[b] > 0 && refs == old(refs)[b := old(refs)[b] - 1] && old(bufs)[b].refcnt > 0
      ensures bufs == old(bufs)[b := old(bufs)[b].(refcnt := old(bufs)[b].refcnt - 1, locked := false)]
      ensures if bufs[b].refcnt == 0 then MovedToFront(old(ring), ring, b) else ring == old(ring)
    {
      hide TableOk, Linked;
      ReleaseKeeps(bufs, refs, pins, disk, view, b);
      bufs := bufs[b := bufs[b].(refcnt := bufs[b].refcnt - 1, locked := false)];
      refs := refs[b := refs[b] - 1];
      if bufs[b].refcnt == 0 {
        MoveToFront(b);
      }
    }

    method MoveToFront(b: nat)
      requires Listed() && b < NBUF
      modifies this`next, this`prev, this`ring
      ensures Listed() && MovedToFront(old(ring), ring, b)
    {
      hide Linked, Without, Front;
      ghost var j := PlaceOf(b);
      ghost var was := ring;
      WithoutMembers(ring, next, prev, j);
      RingSize(ring, next, prev);
      Unlink(ring, next, prev, j);
      ring := Without(ring, j);
      next, prev := next[prev[b] := next[b]], prev[next[b] := prev[b]];
      RingSize(ring, next, prev);
      LinkFront(ring, next, prev, b);
      FrontMembers(ring, b);
      var h := next[HEAD];
      next, prev := next[b := h][HEAD := b], prev[b := HEAD][h := b];
      ring := Front(ring, b);
      assert was[j] == b;
    }

    ghost method PlaceOf(b: nat) returns (j: nat)
      requires Listed() && b < NBUF
      ensures 0 < j < |ring| && ring[j] == b
    {
      assert b in ring;
      j :| 0 <= j < |ring| && ring[j] == b;
    }
  }

  predicate Busy(bufs: seq<Buf>, i: nat) {
    i < |bufs| ==> bufs[i].refcnt > 0
  }
}

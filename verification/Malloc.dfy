/** The Kernighan and Ritchie storage allocator of umalloc.c.

    Addresses count units of sizeof(Header) bytes.  Memory is seen through the
    two fields of the headers in it; a block is its header and the units that
    follow.  sbrk is a parameter: the start of the fresh region it grants, or
    nothing. */
module Malloc {
  import opened Common

  const HEADER := 16      // sizeof(Header)
  const CORE := 4096      // smallest request to sbrk, in units

  // Every unit obtained from sbrk belongs to exactly one block.

  predicate Within(u: nat, a: nat, n: nat) {
    a <= u < a + n
  }

  /** blocks gives each block's length; owner maps each unit to its block. */
  ghost predicate Partition(blocks: map<nat, nat>, owner: map<nat, nat>) {
    && (forall a, u | a in blocks && Within(u, a, blocks[a]) :: u in owner && owner[u] == a)
    && (forall u | u in owner :: owner[u] in blocks && Within(u, owner[u], blocks[owner[u]]))
    && (forall a | a in blocks :: blocks[a] > 0)
  }

  lemma OwnerIs(blocks: map<nat, nat>, owner: map<nat, nat>, a: nat, u: nat)
    requires Partition(blocks, owner) && a in blocks && Within(u, a, blocks[a])
    ensures u in owner && owner[u] == a
  {
  }

  lemma Disjoint(blocks: map<nat, nat>, owner: map<nat, nat>, a: nat, b: nat)
    requires Partition(blocks, owner) && a in blocks && b in blocks && a < b
    ensures a + blocks[a] <= b
  {
    if Within(b, a, blocks[a]) {
      OwnerIs(blocks, owner, a, b);
      OwnerIs(blocks, owner, b, b);
    }
  }

  function Joined(blocks: map<nat, nat>, a: nat, b: nat): map<nat, nat>
    requires a in blocks && b in blocks
  {
    (blocks - {b})[a := blocks[a] + blocks[b]]
  }

  function JoinedOwner(owner: map<nat, nat>, a: nat, b: nat): map<nat, nat> {
    map u | u in owner :: if owner[u] == b then a else owner[u]
  }

  lemma JoinCovers(blocks: map<nat, nat>, owner: map<nat, nat>, a: nat, b: nat, c: nat, u: nat)
    requires Partition(blocks, owner) && a in blocks && b in blocks && a + blocks[a] == b
    requires var blocks' := Joined(blocks, a, b); c in blocks' && Within(u, c, blocks'[c])
    ensures u in owner && JoinedOwner(owner, a, b)[u] == c
  {
  }

  lemma JoinKeepsPartition(blocks: map<nat, nat>, owner: map<nat, nat>, a: nat, b: nat)
    requires Partition(blocks, owner) && a in blocks && b in blocks && a + blocks[a] == b
    ensures Partition(Joined(blocks, a, b), JoinedOwner(owner, a, b))
    ensures JoinedOwner(owner, a, b).Keys == owner.Keys
  {
    var blocks', owner' := Joined(blocks, a, b), JoinedOwner(owner, a, b);
    forall c, u | c in blocks' && Within(u, c, blocks'[c]) ensures u in owner' && owner'[u] == c {
      JoinCovers(blocks, owner, a, b, c, u);
    }
    forall u | u in owner' ensures owner'[u] in blocks' && Within(u, owner'[u], blocks'[owner'[u]]) {
      assert Within(u, owner[u], blocks[owner[u]]);
    }
  }

  function Split(blocks: map<nat, nat>, a: nat, n: nat): map<nat, nat>
    requires a in blocks && n < blocks[a]
  {
    blocks[a := blocks[a] - n][a + blocks[a] - n := n]
  }

  function SplitOwner(owner: map<nat, nat>, b: nat, n: nat): map<nat, nat> {
    map u | u in owner :: if Within(u, b, n) then b else owner[u]
  }

  lemma SplitCovers(blocks: map<nat, nat>, owner: map<nat, nat>, a: nat, n: nat, c: nat, u: nat)
    requires Partition(blocks, owner) && a in blocks && 0 < n < blocks[a] && a + blocks[a] - n !in blocks
    requires var blocks' := Split(blocks, a, n); c in blocks' && Within(u, c, blocks'[c])
    ensures u in owner && SplitOwner(owner, a + blocks[a] - n, n)[u] == c
  {
  }

  lemma SplitKeepsPartition(blocks: map<nat, nat>, owner: map<nat, nat>, a: nat, n: nat)
    requires Partition(blocks, owner) && a in blocks && 0 < n < blocks[a]
    ensures Partition(Split(blocks, a, n), SplitOwner(owner, a + blocks[a] - n, n))
    ensures SplitOwner(owner, a + blocks[a] - n, n).Keys == owner.Keys
    ensures a + blocks[a] - n !in blocks
  {
    var b := a + blocks[a] - n;
    var blocks', owner' := Split(blocks, a, n), SplitOwner(owner, b, n);
    if b in blocks {
      Disjoint(blocks, owner, a, b);
    }
    forall c, u | c in blocks' && Within(u, c, blocks'[c]) ensures u in owner' && owner'[u] == c {
      SplitCovers(blocks, owner, a, n, c, u);
    }
    forall u | u in owner' ensures owner'[u] in blocks' && Within(u, owner'[u], blocks'[owner'[u]]) {
      assert Within(u, owner[u], blocks[owner[u]]);
    }
  }

  function GrownOwner(owner: map<nat, nat>, a: nat, n: nat): map<nat, nat> {
    owner + map u | a <= u < a + n && Within(u, a, n) :: a
  }

  lemma GrowKeepsPartition(blocks: map<nat, nat>, owner: map<nat, nat>, a: nat, n: nat)
    requires Partition(blocks, owner) && n > 0
    requires forall u | u in owner :: !Within(u, a, n)
    ensures a !in blocks && Partition(blocks[a := n], GrownOwner(owner, a, n))
    ensures forall u :: u in GrownOwner(owner, a, n) <==> u in owner || Within(u, a, n)
  {
    var blocks', owner' := blocks[a := n], GrownOwner(owner, a, n);
    var _ := a in blocks && Within(a, a, blocks[a]);
    assert Within(a, a, n);
    forall c, u | c in blocks' && Within(u, c, blocks'[c]) ensures u in owner' && owner'[u] == c {
      assert c != a ==> Within(u, c, blocks[c]);
    }
    forall u | u in owner' ensures owner'[u] in blocks' && Within(u, owner'[u], blocks'[owner'[u]]) {
      assert u in owner ==> Within(u, owner[u], blocks[owner[u]]);
    }
  }

  // The free list.

  /** The list, from base, is circular through the next pointers. */
  ghost predicate Ring(list: seq<nat>, base: nat, next: map<nat, nat>) {
    && |list| > 0 && list[0] == base
    && (forall i | 0 <= i < |list| :: list[i] in next)
    && (forall i | 0 <= i < |list| - 1 :: next[list[i]] == list[i + 1])
    && next[list[|list| - 1]] == base
  }

  /** Address order; neighbours may touch. */
  ghost predicate Sorted(list: seq<nat>, size: map<nat, nat>) {
    && |list| > 0
    && (forall i | 0 <= i < |list| :: list[i] in size)
    && size[list[0]] == 0
    && (forall i | 0 < i < |list| :: size[list[i]] > 0)
    && (forall i, j | 0 <= i < j < |list| :: list[i] < list[j] && list[i] + size[list[i]] <= list[j])
  }

  /** Outside [lo, hi) no entry touches its neighbour; with lo == hi, nothing
      is left to coalesce. */
  ghost predicate Coalesced(list: seq<nat>, size: map<nat, nat>, lo: nat, hi: nat) {
    forall i | 0 <= i < |list| - 1 && !(lo <= i < hi) :: list[i] in size && list[i] + size[list[i]] < list[i + 1]
  }

  /** The free blocks are the list without base; the others are live. */
  ghost predicate Divided(list: seq<nat>, size: map<nat, nat>, live: set<nat>, blocks: map<nat, nat>) {
    && |list| > 0
    && (forall a | a in blocks :: (a in live || a in list) && list[0] < a && a in size && size[a] == blocks[a])
    && (forall a | a in live :: a in blocks && a !in list)
    && (forall i | 0 < i < |list| :: list[i] in blocks)
  }

  function Inserted(list: seq<nat>, k: nat, b: nat): seq<nat>
    requires k < |list|
  {
    list[..k + 1] + [b] + list[k + 1..]
  }

  function Removed(list: seq<nat>, k: nat): seq<nat>
    requires k < |list|
  {
    list[..k] + list[k + 1..]
  }

  /** b belongs between entry k and the one after it. */
  predicate Slot(list: seq<nat>, k: nat, b: nat) {
    k < |list| && list[k] < b && (k + 1 < |list| ==> b < list[k + 1])
  }

  ghost predicate Distinct(list: seq<nat>) {
    forall i, j | 0 <= i < j < |list| :: list[i] != list[j]
  }

  lemma SortedDistinct(list: seq<nat>, size: map<nat, nat>)
    requires Sorted(list, size)
    ensures Distinct(list)
  {
  }

  lemma RingInsert(list: seq<nat>, base: nat, next: map<nat, nat>, k: nat, b: nat)
    requires Ring(list, base, next) && Distinct(list) && k < |list| && b !in list
    ensures Ring(Inserted(list, k, b), base, next[b := next[list[k]]][list[k] := b])
  {
  }

  lemma RingRemove(list: seq<nat>, base: nat, next: map<nat, nat>, k: nat)
    requires Ring(list, base, next) && Distinct(list) && 0 < k < |list|
    ensures Ring(Removed(list, k), base, next[list[k - 1] := next[list[k]]])
  {
  }

  lemma InsertedAt(list: seq<nat>, k: nat, b: nat)
    requires k < |list|
    ensures |Inserted(list, k, b)| == |list| + 1
    ensures forall i | 0 <= i <= |list| :: Inserted(list, k, b)[i] == if i <= k then list[i] else if i == k + 1 then b else list[i - 1]
  {
  }

  lemma SortedInsert(list: seq<nat>, size: map<nat, nat>, k: nat, b: nat)
    requires Sorted(list, size) && Slot(list, k, b) && b in size && size[b] > 0
    requires list[k] + size[list[k]] <= b && (k + 1 < |list| ==> b + size[b] <= list[k + 1])
    ensures Sorted(Inserted(list, k, b), size)
  {
    var after := Inserted(list, k, b);
    InsertedAt(list, k, b);
    hide Inserted;
    assert forall i | 0 <= i <= k :: list[i] < b && list[i] + size[list[i]] <= b;
    assert forall j | k < j < |list| :: b < list[j] && b + size[b] <= list[j];
    assert forall i | 0 <= i < |after| :: after[i] in size && (i > 0 ==> size[after[i]] > 0);
    forall i, j | 0 <= i < j < |after| ensures after[i] < after[j] && after[i] + size[after[i]] <= after[j] {
      if j == k + 1 {
        assert after[i] == list[i];
      } else if i == k + 1 {
        assert after[j] == list[j - 1];
      }
    }
  }

  lemma SortedRemove(list: seq<nat>, size: map<nat, nat>, k: nat)
    requires Sorted(list, size) && 0 < k < |list|
    ensures Sorted(Removed(list, k), size)
  {
  }

  /** Entry k swallows its neighbour. */
  lemma SortedJoin(list: seq<nat>, size: map<nat, nat>, k: nat)
    requires Sorted(list, size) && 0 < k < |list| - 1 && list[k] + size[list[k]] == list[k + 1]
    ensures Sorted(Removed(list, k + 1), size[list[k] := size[list[k]] + size[list[k + 1]]])
  {
  }

  /** The abstract heap: the free list in address order (from base), the live
      blocks, all blocks with their lengths, and the block of each unit. */
  datatype Heap = Heap(list: seq<nat>, live: set<nat>, blocks: map<nat, nat>, owner: map<nat, nat>)

  ghost predicate Represents(base: nat, next: map<nat, nat>, size: map<nat, nat>, h: Heap) {
    && Ring(h.list, base, next)
    && Sorted(h.list, size)
    && Divided(h.list, size, h.live, h.blocks)
    && Partition(h.blocks, h.owner)
  }

  function Inserting(h: Heap, k: nat, b: nat): Heap
    requires k < |h.list|
  {
    h.(list := Inserted(h.list, k, b), live := h.live - {b})
  }

  /** A live block lies in the gap it is to be inserted in. */
  lemma FitsGap(size: map<nat, nat>, h: Heap, k: nat, b: nat)
    requires Sorted(h.list, size) && Divided(h.list, size, h.live, h.blocks) && Partition(h.blocks, h.owner)
    requires b in h.live && Slot(h.list, k, b)
    ensures b in size && size[b] > 0 && b !in h.list && h.list[0] <= h.list[k]
    ensures k + 1 < |h.list| ==> h.list[k + 1] in size && h.list[k + 1] in h.blocks && b in h.blocks
    ensures h.list[k] + size[h.list[k]] <= b && (k + 1 < |h.list| ==> b + size[b] <= h.list[k + 1])
  {
    if k > 0 {
      Disjoint(h.blocks, h.owner, h.list[k], b);
    }
    if k + 1 < |h.list| {
      Disjoint(h.blocks, h.owner, b, h.list[k + 1]);
    }
  }

  lemma DividedInsert(list: seq<nat>, size: map<nat, nat>, live: set<nat>, blocks: map<nat, nat>, k: nat, b: nat)
    requires Divided(list, size, live, blocks) && b in live && k < |list|
    ensures Divided(Inserted(list, k, b), size, live - {b}, blocks)
  {
  }

  lemma CoalescedInsert(list: seq<nat>, size: map<nat, nat>, k: nat, b: nat)
    requires Coalesced(list, size, 0, 0) && k < |list|
    ensures Coalesced(Inserted(list, k, b), size, k, k + 2)
  {
  }

  /** A live block goes back to the list, without coalescing. */
  lemma InsertBlock(base: nat, next: map<nat, nat>, size: map<nat, nat>, h: Heap, k: nat, b: nat)
    requires Represents(base, next, size, h) && b in h.live && Slot(h.list, k, b)
    ensures Represents(base, next[b := next[h.list[k]]][h.list[k] := b], size, Inserting(h, k, b))
  {
    hide Ring, Sorted, Divided, Partition, Inserted;
    SortedDistinct(h.list, size);
    FitsGap(size, h, k, b);
    RingInsert(h.list, base, next, k, b);
    SortedInsert(h.list, size, k, b);
    DividedInsert(h.list, size, h.live, h.blocks, k, b);
  }

  function Joining(h: Heap, k: nat): Heap
    requires k + 1 < |h.list| && h.list[k] in h.blocks && h.list[k + 1] in h.blocks
  {
    var a, b := h.list[k], h.list[k + 1];
    Heap(Removed(h.list, k + 1), h.live, Joined(h.blocks, a, b), JoinedOwner(h.owner, a, b))
  }

  lemma DividedJoin(list: seq<nat>, size: map<nat, nat>, live: set<nat>, blocks: map<nat, nat>, k: nat)
    requires Divided(list, size, live, blocks) && Distinct(list) && 0 < k < |list| - 1
    ensures Divided(Removed(list, k + 1), size[list[k] := size[list[k]] + size[list[k + 1]]], live,
                    Joined(blocks, list[k], list[k + 1]))
  {
  }

  lemma CoalescedJoin(list: seq<nat>, size: map<nat, nat>, k: nat, lo: nat)
    requires Coalesced(list, size, lo, k + 1) && Sorted(list, size) && lo <= k && 0 < k < |list| - 1
    requires list[k] + size[list[k]] == list[k + 1]
    ensures Coalesced(Removed(list, k + 1), size[list[k] := size[list[k]] + size[list[k + 1]]], lo, k)
  {
  }

  /** Entry k and its neighbour, which touch, become one block. */
  lemma JoinBlocks(base: nat, next: map<nat, nat>, size: map<nat, nat>, h: Heap, k: nat)
    requires Represents(base, next, size, h) && 0 < k < |h.list| - 1
    requires h.list[k] + size[h.list[k]] == h.list[k + 1]
    ensures h.list[k] in h.blocks && h.list[k + 1] in h.blocks
    ensures Represents(base, next[h.list[k] := next[h.list[k + 1]]],
                       size[h.list[k] := size[h.list[k]] + size[h.list[k + 1]]], Joining(h, k))
    ensures Joining(h, k).owner.Keys == h.owner.Keys && LiveKept(h, Joining(h, k), h.live)
  {
    hide Ring, Sorted, Partition, Removed, JoinedOwner;
    SortedDistinct(h.list, size);
    RingRemove(h.list, base, next, k + 1);
    SortedJoin(h.list, size, k);
    DividedJoin(h.list, size, h.live, h.blocks, k);
    JoinKeepsPartition(h.blocks, h.owner, h.list[k], h.list[k + 1]);
  }

  function Taking(h: Heap, k: nat): Heap
    requires k < |h.list|
  {
    h.(list := Removed(h.list, k), live := h.live + {h.list[k]})
  }

  lemma DividedRemove(list: seq<nat>, size: map<nat, nat>, live: set<nat>, blocks: map<nat, nat>, k: nat)
    requires Divided(list, size, live, blocks) && Distinct(list) && 0 < k < |list|
    ensures Divided(Removed(list, k), size, live + {list[k]}, blocks)
  {
  }

  /** Free block k becomes live as it is. */
  lemma TakeWhole(base: nat, next: map<nat, nat>, size: map<nat, nat>, h: Heap, k: nat)
    requires Represents(base, next, size, h) && 0 < k < |h.list| && Coalesced(h.list, size, 0, 0)
    ensures Represents(base, next[h.list[k - 1] := next[h.list[k]]], size, Taking(h, k))
    ensures Coalesced(Removed(h.list, k), size, 0, 0)
  {
    hide Ring, Sorted, Divided, Partition, Removed, Coalesced;
    SortedDistinct(h.list, size);
    RingRemove(h.list, base, next, k);
    SortedRemove(h.list, size, k);
    DividedRemove(h.list, size, h.live, h.blocks, k);
    CoalescedRemove(h.list, size, k);
  }

  lemma CoalescedRemove(list: seq<nat>, size: map<nat, nat>, k: nat)
    requires Coalesced(list, size, 0, 0) && 0 < k < |list|
    ensures Coalesced(Removed(list, k), size, 0, 0)
  {
  }

  function Splitting(h: Heap, k: nat, n: nat): Heap
    requires k < |h.list| && h.list[k] in h.blocks && n < h.blocks[h.list[k]]
  {
    var a := h.list[k];
    var b := a + h.blocks[a] - n;
    Heap(h.list, h.live + {b}, Split(h.blocks, a, n), SplitOwner(h.owner, b, n))
  }

  lemma SortedShrink(list: seq<nat>, size: map<nat, nat>, k: nat, n: nat, b: nat)
    requires Sorted(list, size) && Coalesced(list, size, 0, 0) && 0 < k < |list| && 0 < n < size[list[k]] && b !in list
    ensures Sorted(list, size[list[k] := size[list[k]] - n][b := n])
    ensures Coalesced(list, size[list[k] := size[list[k]] - n][b := n], 0, 0)
  {
  }

  lemma DividedShrink(list: seq<nat>, size: map<nat, nat>, live: set<nat>, blocks: map<nat, nat>, k: nat, n: nat)
    requires Divided(list, size, live, blocks) && Distinct(list) && 0 < k < |list| && 0 < n < size[list[k]]
    requires list[k] in blocks && list[k] + blocks[list[k]] - n !in blocks
    ensures var a := list[k];
            var b := a + size[a] - n;
            b !in list && Divided(list, size[a := size[a] - n][b := n], live + {b}, Split(blocks, a, n))
  {
  }

  /** The last n units of free block k become a live block. */
  lemma TakeTail(base: nat, next: map<nat, nat>, size: map<nat, nat>, h: Heap, k: nat, n: nat)
    requires Represents(base, next, size, h) && 0 < k < |h.list| && Coalesced(h.list, size, 0, 0)
    requires 0 < n < size[h.list[k]]
    ensures h.list[k] in h.blocks && n < h.blocks[h.list[k]] == size[h.list[k]]
    ensures var a := h.list[k];
            var b := a + size[a] - n;
            var size' := size[a := size[a] - n][b := n];
            b !in h.blocks && Represents(base, next, size', Splitting(h, k, n)) && Coalesced(h.list, size', 0, 0)
    ensures Splitting(h, k, n).owner.Keys == h.owner.Keys
  {
    hide Ring, Sorted, Divided, Partition, Coalesced, Split, SplitOwner;
    FreeBlock(size, h, k);
    SplitKeepsPartition(h.blocks, h.owner, h.list[k], n);
    SortedDistinct(h.list, size);
    DividedShrink(h.list, size, h.live, h.blocks, k, n);
    SortedShrink(h.list, size, k, n, h.list[k] + size[h.list[k]] - n);
  }

  lemma FreeBlock(size: map<nat, nat>, h: Heap, k: nat)
    requires Divided(h.list, size, h.live, h.blocks) && 0 < k < |h.list|
    ensures h.list[k] in h.blocks && h.list[k] in size && h.blocks[h.list[k]] == size[h.list[k]] && h.list[k] !in h.live
  {
  }

  /** No live block moves or changes its length. */
  ghost predicate LiveKept(h: Heap, h': Heap, live: set<nat>) {
    forall a | a in live :: a in h.blocks && a in h'.blocks && h'.blocks[a] == h.blocks[a]
  }

  lemma RingNext(list: seq<nat>, base: nat, next: map<nat, nat>, size: map<nat, nat>, k: nat)
    requires Ring(list, base, next) && Sorted(list, size) && k < |list|
    ensures k + 1 < |list| ==> next[list[k]] == list[k + 1] > list[k]
    ensures k + 1 == |list| ==> next[list[k]] == base <= list[k]
  {
  }

  lemma NothingMovesAtAll(base: nat, next: map<nat, nat>, size: map<nat, nat>, h: Heap)
    requires Represents(base, next, size, h)
    ensures LiveKept(h, h, h.live)
  {
  }

  lemma NothingMoves(h: Heap, h': Heap, size: map<nat, nat>)
    requires Divided(h.list, size, h.live, h.blocks) && h'.blocks == h.blocks && h'.live <= h.live
    ensures LiveKept(h, h', h'.live)
  {
  }

  lemma LiveKeptTwice(h: Heap, h1: Heap, h2: Heap, live: set<nat>)
    requires LiveKept(h, h1, live) && LiveKept(h1, h2, live)
    ensures LiveKept(h, h2, live)
  {
  }

  lemma JoiningEntries(h: Heap, k: nat)
    requires k + 1 < |h.list| && h.list[k] in h.blocks && h.list[k + 1] in h.blocks
    ensures var h' := Joining(h, k);
            && h'.list == Removed(h.list, k + 1) && h'.live == h.live
            && |h'.list| == |h.list| - 1 && forall i | 0 <= i <= k :: h'.list[i] == h.list[i]
  {
  }

  /** A block above base that ends where next says the list goes on ends at
      the following entry, not at base. */
  lemma TouchesEntry(list: seq<nat>, base: nat, next: map<nat, nat>, k: nat, b: nat, n: nat)
    requires Ring(list, base, next) && Slot(list, k, b) && list[0] <= list[k] && b + n == next[list[k]]
    ensures k + 1 < |list| && list[k + 1] == b + n && list[k + 1] in next
  {
  }

  lemma LinkPlain(base: nat, next: map<nat, nat>, size: map<nat, nat>, h: Heap, k: nat, b: nat)
    requires Represents(base, next, size, h) && Coalesced(h.list, size, 0, 0)
    requires b in h.live && Slot(h.list, k, b)
    ensures h.list[k] in next && b in size
    ensures var p, h1 := h.list[k], Inserting(h, k, b);
            && |h1.list| == |h.list| + 1 && h1.list[k] == p && h1.list[k + 1] == b && LiveKept(h, h1, h1.live)
            && Represents(base, next[b := next[p]][p := b], size, h1)
            && (b + size[b] != next[p] ==> Coalesced(h1.list, size, k, k + 1))
  {
    hide Partition, Sorted, LiveKept;
    FitsGap(size, h, k, b);
    InsertBlock(base, next, size, h, k, b);
    CoalescedInsert(h.list, size, k, b);
    NothingMoves(h, Inserting(h, k, b), size);
    var list' := Inserted(h.list, k, b);
    if k + 1 < |h.list| {
      assert list'[k + 2] == h.list[k + 1];
    }
  }

  lemma LinkJoined(base: nat, next: map<nat, nat>, size: map<nat, nat>, h: Heap, k: nat, b: nat)
    requires Represents(base, next, size, h) && Coalesced(h.list, size, 0, 0)
    requires b in h.live && Slot(h.list, k, b) && h.list[k] in next && b in size && b + size[b] == next[h.list[k]]
    ensures var p, nx, h1 := h.list[k], next[h.list[k]], Inserting(h, k, b);
            && k + 2 < |h1.list| && h1.list[k + 1] in h1.blocks && h1.list[k + 2] in h1.blocks && nx in next && nx in size
            && var h2, size' := Joining(h1, k + 1), size[b := size[b] + size[nx]];
               && k + 1 < |h2.list| && h2.list[k] == p && h2.list[k + 1] == b && LiveKept(h, h2, h2.live)
               && h2.live == h1.live && h2.owner.Keys == h.owner.Keys
               && Represents(base, next[b := next[nx]][p := b], size', h2)
               && Coalesced(h2.list, size', k, k + 1)
  {
    hide Partition, Divided, Ring, Sorted, Coalesced, Removed, LiveKept, Joined, JoinedOwner, Joining;
    FitsGap(size, h, k, b);
    TouchesEntry(h.list, base, next, k, b, size[b]);
    LinkPlain(base, next, size, h, k, b);
    CoalescedInsert(h.list, size, k, b);
    var p, h1 := h.list[k], Inserting(h, k, b);
    var nx: nat := next[p];
    var next1 := next[b := nx][p := b];
    assert h1.list[k + 2] == h.list[k + 1] == nx;
    JoinBlocks(base, next1, size, h1, k + 1);
    JoiningEntries(h1, k + 1);
    CoalescedJoin(h1.list, size, k + 1, k);
    LiveKeptTwice(h, h1, Joining(h1, k + 1), h1.live);
    assert next1[b := next1[nx]] == next[b := next[nx]][p := b];
  }

  lemma PlainDown(base: nat, next: map<nat, nat>, size: map<nat, nat>, h: Heap, k: nat)
    requires Represents(base, next, size, h) && Coalesced(h.list, size, k, k + 1) && k + 1 < |h.list|
    requires h.list[k] + size[h.list[k]] != h.list[k + 1]
    ensures Coalesced(h.list, size, 0, 0) && LiveKept(h, h, h.live)
  {
  }

  lemma JoinedDown(base: nat, next: map<nat, nat>, size: map<nat, nat>, h: Heap, k: nat)
    requires Represents(base, next, size, h) && Coalesced(h.list, size, k, k + 1) && k + 1 < |h.list|
    requires h.list[k] + size[h.list[k]] == h.list[k + 1]
    ensures 0 < k && h.list[k] in h.blocks && h.list[k + 1] in h.blocks
    ensures var p, b, h', size' := h.list[k], h.list[k + 1], Joining(h, k), size[h.list[k] := size[h.list[k]] + size[h.list[k + 1]]];
            && Represents(base, next[p := next[b]], size', h') && Coalesced(h'.list, size', 0, 0)
            && k < |h'.list| && h'.list[k] == p
            && h'.live == h.live && h'.owner.Keys == h.owner.Keys && LiveKept(h, h', h.live)
  {
    hide Partition, Divided, Ring, Removed, LiveKept, Joined, JoinedOwner, Joining;
    JoinBlocks(base, next, size, h, k);
    JoiningEntries(h, k);
    CoalescedJoin(h.list, size, k, k);
  }

  lemma EntryFacts(base: nat, next: map<nat, nat>, size: map<nat, nat>, h: Heap, k: nat)
    requires Represents(base, next, size, h) && k < |h.list|
    ensures h.list[k] in next && h.list[k] in size && base <= h.list[k]
    ensures k > 0 ==> size[h.list[k]] > 0 && h.list[k] in h.blocks && h.blocks[h.list[k]] == size[h.list[k]] && h.list[k] !in h.live
    ensures k == 0 ==> size[h.list[k]] == 0 && h.list[0] == base
  {
  }

  lemma LiveFacts(base: nat, next: map<nat, nat>, size: map<nat, nat>, h: Heap, b: nat)
    requires Represents(base, next, size, h) && b in h.live
    ensures Ring(h.list, base, next) && Sorted(h.list, size)
    ensures b in size && b !in h.list && base < b
  {
  }

  /** Some free block has at least n units. */
  ghost predicate HasRoom(list: seq<nat>, size: map<nat, nat>, n: nat) {
    exists i | 0 <= i < |list| :: list[i] in size && size[list[i]] >= n
  }

  lemma RoomAt(list: seq<nat>, size: map<nat, nat>, i: nat, n: nat)
    requires i < |list| && list[i] in size && size[list[i]] >= n
    ensures HasRoom(list, size, n) && list[i] in list
  {
  }

  function Growing(h: Heap, a: nat, n: nat): Heap {
    Heap(h.list, h.live + {a}, h.blocks[a := n], GrownOwner(h.owner, a, n))
  }

  /** A region that sbrk grants enters as one live block. */
  lemma GrowHeap(base: nat, next: map<nat, nat>, size: map<nat, nat>, h: Heap, a: nat, n: nat)
    requires Represents(base, next, size, h) && Coalesced(h.list, size, 0, 0) && n > 0
    requires base < a && forall u | u in h.owner :: !Within(u, a, n)
    ensures a !in h.live
    ensures Represents(base, next, size[a := n], Growing(h, a, n)) && Coalesced(h.list, size[a := n], 0, 0)
    ensures LiveKept(h, Growing(h, a, n), h.live)
  {
    assert h.list[0] == base;
    hide Ring, Sorted, Coalesced, Divided, Partition, GrownOwner;
    GrowKeepsPartition(h.blocks, h.owner, a, n);
    DividedGrow(h, size, a, n);
    SortedElsewhere(h.list, size, a, n);
  }

  lemma DividedGrow(h: Heap, size: map<nat, nat>, a: nat, n: nat)
    requires Divided(h.list, size, h.live, h.blocks) && h.list[0] < a && a !in h.blocks
    ensures a !in h.list && a !in h.live && Divided(h.list, size[a := n], h.live + {a}, h.blocks[a := n])
    ensures LiveKept(h, Growing(h, a, n), h.live)
  {
  }

  lemma SortedElsewhere(list: seq<nat>, size: map<nat, nat>, a: nat, n: nat)
    requires Sorted(list, size) && Coalesced(list, size, 0, 0) && a !in list
    ensures Sorted(list, size[a := n]) && Coalesced(list, size[a := n], 0, 0)
  {
  }

  /** The index in the list of position c of the rotation. */
  function Unrotate(n: nat, f: nat, c: nat): nat
    requires f < n && c < n
  {
    if f + 1 + c < n then f + 1 + c else f + 1 + c - n
  }

  function Request(nu: nat): nat {
    if nu < CORE then CORE else nu
  }

  /** What is assumed of sbrk: the region lies above base (which is in the
      program's data segment) and overlaps no unit granted before. */
  ghost predicate Fresh(base: nat, h: Heap, a: nat, n: nat) {
    base < a && forall u | u in h.owner :: !Within(u, a, n)
  }

  /** The units of the heap are those of before and, if grown, those granted. */
  ghost predicate UnitsGrew(h: Heap, h': Heap, grown: bool, sbrk: Option<nat>, n: nat) {
    forall u :: u in h'.owner <==> u in h.owner || (grown && sbrk.Some? && Within(u, sbrk.value, n))
  }

  lemma UnitsStayed(h: Heap, h': Heap, sbrk: Option<nat>, n: nat)
    requires h'.owner.Keys == h.owner.Keys
    ensures UnitsGrew(h, h', false, sbrk, n)
  {
  }

  lemma FirstHeap(base: nat, next: map<nat, nat>, size: map<nat, nat>)
    ensures var h := Heap([base], {}, map[], map[]);
            Represents(base, next[base := base], size[base := 0], h) && Coalesced(h.list, size[base := 0], 0, 0)
  {
  }

  lemma GrownUnits(owner: map<nat, nat>, a: nat, n: nat)
    ensures forall u :: u in GrownOwner(owner, a, n) <==> u in owner || Within(u, a, n)
  {
  }

  lemma TakingMovesNothing(base: nat, next: map<nat, nat>, size: map<nat, nat>, h: Heap, h': Heap, k: nat, b: nat)
    requires Represents(base, next, size, h) && 0 < k < |h.list|
    requires forall a | a in h.blocks && a != h.list[k] && a != b :: a in h'.blocks && h'.blocks[a] == h.blocks[a]
    requires b == h.list[k] || b !in h.blocks
    ensures b !in h.live && LiveKept(h, h', h.live)
  {
  }

  function Units(nbytes: nat): nat {
    (nbytes + HEADER - 1) / HEADER + 1
  }

  /** Some free block has at least n units. */
  ghost predicate Fits(h: Heap, n: nat) {
    exists a | a in h.blocks :: a !in h.live && h.blocks[a] >= n
  }

  lemma FitsIsRoom(base: nat, next: map<nat, nat>, size: map<nat, nat>, h: Heap, n: nat)
    requires Represents(base, next, size, h) && n > 0
    ensures Fits(h, n) <==> HasRoom(h.list, size, n)
  {
  }

  /** The search of malloc, c steps after freep, entry f: nothing fitted yet. */
  ghost predicate Searching(list: seq<nat>, size: map<nat, nat>, f: nat, c: nat, prevp: nat, p: nat, n: nat) {
    && f < |list| && c < |list|
    && p == list[Unrotate(|list|, f, c)]
    && prevp == (if c == 0 then list[f] else list[Unrotate(|list|, f, c - 1)])
    && forall d | 0 <= d < c :: list[Unrotate(|list|, f, d)] in size && size[list[Unrotate(|list|, f, d)]] < n
  }

  lemma SearchStep(base: nat, next: map<nat, nat>, h: Heap, size: map<nat, nat>, f: nat, c: nat, prevp: nat, p: nat, n: nat)
    requires Represents(base, next, size, h) && Searching(h.list, size, f, c, prevp, p, n)
    requires p in size && size[p] < n && p != h.list[f]
    ensures c + 1 < |h.list| && p in next && Searching(h.list, size, f, c + 1, p, next[p], n)
  {
  }

  /** Back at freep without a fit: there is none. */
  lemma SearchOver(base: nat, next: map<nat, nat>, h: Heap, size: map<nat, nat>, f: nat, c: nat, prevp: nat, p: nat, n: nat)
    requires Represents(base, next, size, h) && Searching(h.list, size, f, c, prevp, p, n)
    requires p in size && size[p] < n && p == h.list[f]
    ensures c + 1 == |h.list| && !HasRoom(h.list, size, n)
  {
    var list := h.list;
    forall i | 0 <= i < |list| ensures size[list[i]] < n {
      var d := if i > f then i - f - 1 else i + |list| - f - 1;
      assert Unrotate(|list|, f, d) == i;
    }
  }

  lemma SearchFacts(base: nat, next: map<nat, nat>, size: map<nat, nat>, h: Heap, f: nat, c: nat, prevp: nat, p: nat, n: nat)
    requires Represents(base, next, size, h) && Searching(h.list, size, f, c, prevp, p, n) && n > 0
    ensures f < |h.list| && c < |h.list| && p in size
    ensures var k := Unrotate(|h.list|, f, c); k < |h.list| && p == h.list[k] && (size[p] >= n ==> k > 0 && h.list[k - 1] == prevp)
  {
  }

  /** Since h0, no live block has changed, and the units grew as stated. */
  ghost predicate Since(h0: Heap, h: Heap, grown: bool, sbrk: Option<nat>, n: nat) {
    h.live == h0.live && LiveKept(h0, h, h.live) && UnitsGrew(h0, h, grown, sbrk, n)
  }

  lemma SinceNow(base: nat, next: map<nat, nat>, size: map<nat, nat>, h: Heap, sbrk: Option<nat>, n: nat)
    requires Represents(base, next, size, h)
    ensures Since(h, h, false, sbrk, n)
  {
  }

  lemma SinceSame(h0: Heap, h: Heap, grown: bool, sbrk: Option<nat>, n: nat)
    requires Since(h0, h, grown, sbrk, n)
    ensures h.live == h0.live && LiveKept(h0, h, h0.live) && UnitsGrew(h0, h, grown, sbrk, n)
  {
  }

  lemma SinceGrown(h0: Heap, h: Heap, sbrk: Option<nat>, n: nat)
    requires h.live == h0.live && LiveKept(h0, h, h.live) && UnitsGrew(h0, h, true, sbrk, n)
    ensures Since(h0, h, true, sbrk, n)
  {
  }

  lemma SinceAllocated(h0: Heap, h: Heap, h': Heap, grown: bool, sbrk: Option<nat>, n: nat, b: nat)
    requires Since(h0, h, grown, sbrk, n) && LiveKept(h, h', h.live) && h'.owner.Keys == h.owner.Keys
    requires b !in h.live && h'.live == h.live + {b}
    ensures b !in h0.live && h'.live == h0.live + {b} && LiveKept(h0, h', h0.live) && UnitsGrew(h0, h', grown, sbrk, n)
  {
  }

  lemma Start(base: nat, next: map<nat, nat>, size: map<nat, nat>, h: Heap, f: nat, n: nat)
    requires Represents(base, next, size, h) && f < |h.list|
    ensures h.list[f] in next && Searching(h.list, size, f, 0, h.list[f], next[h.list[f]], n)
  {
  }

  lemma RoomForLess(list: seq<nat>, size: map<nat, nat>, m: nat, n: nat)
    requires HasRoom(list, size, m) && n <= m
    ensures HasRoom(list, size, n)
  {
  }

  class Allocator {
    const base: nat           // &base
    var next: map<nat, nat>   // s.ptr of the headers in memory
    var size: map<nat, nat>   // s.size of the headers in memory
    var freep: nat            // 0 before the first call of malloc
    ghost var heap: Heap

    ghost predicate Valid()
      reads this
    {
      && base > 0
      && if freep == 0 then heap == Heap([base], {}, map[], map[])
         else Represents(base, next, size, heap) && Coalesced(heap.list, size, 0, 0) && freep in heap.list
    }

    constructor (base: nat)
      requires base > 0
      ensures Valid() && heap == Heap([base], {}, map[], map[])
    {
      this.base, next, size, freep := base, map[], map[], 0;
      heap := Heap([base], {}, map[], map[]);
    }

    /** The search loop of free: once around the ring at most. */
    method FindSlot(bp: nat) returns (p: nat, ghost k: nat)
      requires Ring(heap.list, base, next) && Sorted(heap.list, size) && freep in heap.list
      requires bp !in heap.list && base < bp
      ensures Slot(heap.list, k, bp) && p == heap.list[k]
    {
      ghost var list := heap.list;
      assert forall i, j | 0 <= i < j < |list| :: list[i] < list[j];
      hide Sorted;
      p := freep;
      k :| 0 <= k < |list| && list[k] == p;
      ghost var t := SlotOf(list, bp);
      while !(bp > p && bp < next[p])
        invariant 0 <= k < |list| && p == list[k]
        decreases if k <= t then t - k else |list| - k + t
      {
        RingNext(list, base, next, size, k);
        if p >= next[p] && (bp > p || bp < next[p]) {
          break;
        }
        p := next[p];
        k := if k + 1 < |list| then k + 1 else 0;
      }
      RingNext(list, base, next, size, k);
    }

    /** bp becomes entry k + 1 of the list and swallows the block after it if
        they touch; the link from p to bp is still to be made. */
    method LinkUp(p: nat, bp: nat, ghost k: nat)
      requires Represents(base, next, size, heap) && Coalesced(heap.list, size, 0, 0)
      requires bp in heap.live && Slot(heap.list, k, bp) && p == heap.list[k]
      modifies this`next, this`size, this`heap
      ensures Represents(base, next[p := bp], size, heap) && Coalesced(heap.list, size, k, k + 1)
      ensures k + 1 < |heap.list| && heap.list[k] == p && heap.list[k + 1] == bp
      ensures bp in next && bp in old(size) && old(size)[bp] <= size[bp]
      ensures heap.live == old(heap.live) - {bp} && heap.owner.Keys == old(heap.owner.Keys)
      ensures LiveKept(old(heap), heap, heap.live)
    {
      hide Represents, Coalesced, LiveKept, Inserted, Removed;
      LinkPlain(base, next, size, heap, k, bp);
      if bp + size[bp] == next[p] {
        LinkJoined(base, next, size, heap, k, bp);
        var nx := next[p];
        heap := Joining(Inserting(heap, k, bp), k + 1);
        size := size[bp := size[bp] + size[nx]];
        next := next[bp := next[nx]];
      } else {
        heap := Inserting(heap, k, bp);
        next := next[bp := next[p]];
      }
    }

    /** p, entry k, swallows bp, the entry after it, if they touch; otherwise
        it is linked to it. */
    method LinkDown(p: nat, bp: nat, ghost k: nat)
      requires Represents(base, next[p := bp], size, heap) && Coalesced(heap.list, size, k, k + 1)
      requires k + 1 < |heap.list| && heap.list[k] == p && heap.list[k + 1] == bp && p != bp && bp in next
      modifies this`next, this`size, this`heap
      ensures Represents(base, next, size, heap) && Coalesced(heap.list, size, 0, 0) && p in heap.list
      ensures heap.live == old(heap.live) && heap.owner.Keys == old(heap.owner.Keys)
      ensures LiveKept(old(heap), heap, heap.live)
      ensures bp in old(size) && HasRoom(heap.list, size, old(size)[bp])
    {
      hide Represents, Coalesced, LiveKept, Joining, HasRoom;
      ghost var next1 := next[p := bp];
      EntryFacts(base, next1, size, heap, k);
      EntryFacts(base, next1, size, heap, k + 1);
      if p + size[p] == bp {
        JoinedDown(base, next1, size, heap, k);
        assert next1[p := next1[bp]] == next[p := next[bp]];
        heap := Joining(heap, k);
        size := size[p := size[p] + size[bp]];
        next := next[p := next[bp]];
        RoomAt(heap.list, size, k, old(size)[bp]);
      } else {
        PlainDown(base, next1, size, heap, k);
        next := next[p := bp];
        RoomAt(heap.list, size, k + 1, old(size)[bp]);
      }
    }

    /** free: the block of ap returns to the free list, and nothing else. */
    method Free(ap: nat)
      requires Valid() && (ap == 0 || ap - 1 in heap.live)
      modifies this`next, this`size, this`freep, this`heap
      ensures Valid()
      ensures heap.live == if ap == 0 then old(heap.live) else old(heap.live) - {ap - 1}
      ensures heap.owner.Keys == old(heap.owner.Keys) && LiveKept(old(heap), heap, heap.live)
      ensures ap != 0 ==> freep != 0 && ap - 1 in old(size) && HasRoom(heap.list, size, old(size)[ap - 1])
    {
      if ap == 0 {
        if freep != 0 {
          NothingMovesAtAll(base, next, size, heap);
        }
        return;
      }
      hide Represents, Coalesced, LiveKept, HasRoom;
      var bp := ap - 1;
      LiveFacts(base, next, size, heap, bp);
      var p, k := FindSlot(bp);
      LinkUp(p, bp, k);
      ghost var h := heap;
      LinkDown(p, bp, k);
      LiveKeptTwice(old(heap), h, heap, heap.live);
      freep := p;
    }

    /** morecore: at least CORE units more, as part of the free list. */
    method MoreCore(nu: nat, sbrk: Option<nat>) returns (ok: bool)
      requires Valid() && freep != 0 && nu > 0
      requires sbrk.Some? ==> Fresh(base, heap, sbrk.value, Request(nu))
      modifies this`next, this`size, this`freep, this`heap
      ensures Valid() && freep != 0 && (ok <==> sbrk.Some?)
      ensures heap.live == old(heap.live) && LiveKept(old(heap), heap, heap.live)
      ensures ok ==> HasRoom(heap.list, size, Request(nu))
      ensures UnitsGrew(old(heap), heap, ok, sbrk, Request(nu))
      ensures !ok ==> heap == old(heap) && next == old(next) && size == old(size) && freep == old(freep)
    {
      hide Represents, Coalesced, LiveKept, HasRoom, GrownOwner;
      var units := if nu < CORE then CORE else nu;
      if sbrk.None? {
        NothingMovesAtAll(base, next, size, heap);
        return false;
      }
      var hp := sbrk.value;
      GrowHeap(base, next, size, heap, hp, units);
      GrownUnits(heap.owner, hp, units);
      size := size[hp := units];
      ghost var h := heap;
      heap := Growing(heap, hp, units);
      ghost var h1 := heap;
      Free(hp + 1);
      assert heap.live == h.live;
      LiveKeptTwice(h, h1, heap, heap.live);
      return true;
    }

    /** Entry k, which prevp precedes, is large enough: take it, or its tail. */
    method Allocate(prevp: nat, p: nat, nunits: nat, ghost k: nat) returns (b: nat)
      requires Represents(base, next, size, heap) && Coalesced(heap.list, size, 0, 0)
      requires 0 < k < |heap.list| && heap.list[k] == p && heap.list[k - 1] == prevp
      requires p in size && 0 < nunits <= size[p] && base > 0
      modifies this`next, this`size, this`freep, this`heap
      ensures Represents(base, next, size, heap) && Coalesced(heap.list, size, 0, 0) && freep in heap.list && freep != 0
      ensures b !in old(heap.live) && heap.live == old(heap.live) + {b}
      ensures b in heap.blocks && heap.blocks[b] == nunits
      ensures heap.owner.Keys == old(heap.owner.Keys) && LiveKept(old(heap), heap, old(heap.live))
    {
      hide Represents, Coalesced, LiveKept;
      EntryFacts(base, next, size, heap, k);
      EntryFacts(base, next, size, heap, k - 1);
      ghost var h := heap;
      if size[p] == nunits {
        TakeWhole(base, next, size, heap, k);
        next := next[prevp := next[p]];
        heap := Taking(heap, k);
        assert heap.list[k - 1] == prevp;
        b := p;
      } else {
        TakeTail(base, next, size, heap, k, nunits);
        heap := Splitting(heap, k, nunits);
        size := size[p := size[p] - nunits];
        b := p + size[p];
        size := size[b := nunits];
      }
      TakingMovesNothing(base, old(next), old(size), h, heap, k, b);
      freep := prevp;
    }

    /** malloc: a block of Units(nbytes) units that was part of no live block;
        every other live block stays where and as it is.  sbrk is asked only
        when no free block is large enough. */
    method Malloc(nbytes: nat, sbrk: Option<nat>) returns (r: nat)
      requires Valid() && Request(Units(nbytes)) * HEADER <= 0x7fff_ffff
      requires sbrk.Some? ==> Fresh(base, heap, sbrk.value, Request(Units(nbytes)))
      modifies this`next, this`size, this`freep, this`heap
      ensures Valid()
      ensures r == 0 <==> nbytes == 0 || (!Fits(old(heap), Units(nbytes)) && sbrk.None?)
      ensures r == 0 ==> heap == old(heap)
      ensures r != 0 ==> r - 1 !in old(heap.live) && heap.live == old(heap.live) + {r - 1}
      ensures r != 0 ==> r - 1 in heap.blocks && heap.blocks[r - 1] == Units(nbytes) && (Units(nbytes) - 1) * HEADER >= nbytes
      ensures LiveKept(old(heap), heap, old(heap.live))
      ensures UnitsGrew(old(heap), heap, r != 0 && !Fits(old(heap), Units(nbytes)), sbrk, Request(Units(nbytes)))
    {
      hide Represents, Coalesced, LiveKept, HasRoom, Fits, UnitsGrew;
      UnitsStayed(heap, heap, sbrk, Request(Units(nbytes)));
      if freep == 0 {
        FirstHeap(base, next, size);
        NothingMovesAtAll(base, next[base := base], size[base := 0], heap);
      } else {
        NothingMovesAtAll(base, next, size, heap);
      }
      if nbytes == 0 {
        return 0;
      }
      var nunits := (nbytes + HEADER - 1) / HEADER + 1;
      if freep == 0 {
        next := next[base := base];
        freep := base;
        size := size[base := 0];
      }
      FitsIsRoom(base, next, size, heap, nunits);
      r := Search(nunits, sbrk);
    }

    /** The loop of malloc. */
    method Search(nunits: nat, sbrk: Option<nat>) returns (r: nat)
      requires Valid() && freep != 0 && nunits > 0
      requires sbrk.Some? ==> Fresh(base, heap, sbrk.value, Request(nunits))
      modifies this`next, this`size, this`freep, this`heap
      ensures Valid() && freep != 0
      ensures r == 0 <==> !old(HasRoom(heap.list, size, nunits)) && sbrk.None?
      ensures r == 0 ==> heap == old(heap)
      ensures r != 0 ==> r - 1 !in old(heap.live) && heap.live == old(heap.live) + {r - 1}
      ensures r != 0 ==> r - 1 in heap.blocks && heap.blocks[r - 1] == nunits
      ensures LiveKept(old(heap), heap, old(heap.live))
      ensures UnitsGrew(old(heap), heap, r != 0 && !old(HasRoom(heap.list, size, nunits)), sbrk, Request(nunits))
    {
      hide Represents, Coalesced, LiveKept, HasRoom, Searching, UnitsGrew, Since, Fresh, Unrotate;
      ghost var h0, room := heap, HasRoom(heap.list, size, nunits);
      SinceNow(base, next, size, heap, sbrk, Request(nunits));
      var prevp := freep;
      ghost var f :| 0 <= f < |heap.list| && heap.list[f] == freep;
      Start(base, next, size, heap, f, nunits);
      var p := next[prevp];
      ghost var c, grown := 0, false;
      while true
        invariant Valid() && freep != 0 && Since(h0, heap, grown, sbrk, Request(nunits))
        invariant 0 <= f < |heap.list| && heap.list[f] == freep
        invariant Searching(heap.list, size, f, c, prevp, p, nunits) && c < |heap.list|
        invariant !grown ==> heap == h0 && room == HasRoom(heap.list, size, nunits)
        invariant grown ==> sbrk.Some? && !room && HasRoom(heap.list, size, nunits)
        decreases !grown, |heap.list| - c
      {
        ghost var h := heap;
        SearchFacts(base, next, size, heap, f, c, prevp, p, nunits);
        if size[p] >= nunits {
          ghost var k := Unrotate(|heap.list|, f, c);
          RoomAt(heap.list, size, k, nunits);
          var b := Allocate(prevp, p, nunits, k);
          SinceAllocated(h0, h, heap, grown, sbrk, Request(nunits), b);
          return b + 1;
        }
        if p == freep {
          SearchOver(base, next, heap, size, f, c, prevp, p, nunits);
          var ok := MoreCore(nunits, sbrk);
          if !ok {
            SinceSame(h0, heap, grown, sbrk, Request(nunits));
            return 0;
          }
          SinceGrown(h0, heap, sbrk, Request(nunits));
          p := freep;
          f :| 0 <= f < |heap.list| && heap.list[f] == freep;
          Start(base, next, size, heap, f, nunits);
          RoomForLess(heap.list, size, Request(nunits), nunits);
          c, grown := 0, true;
        } else {
          SearchStep(base, next, heap, size, f, c, prevp, p, nunits);
          c := c + 1;
        }
        prevp, p := p, next[p];
      }
    }
  }

  ghost function SlotOf(list: seq<nat>, b: nat): (k: nat)
    requires list != [] && list[0] < b && b !in list
    requires forall i, j | 0 <= i < j < |list| :: list[i] < list[j]
    ensures Slot(list, k, b)
  {
    var n := |list| - 1;
    if list[n] < b then n else SlotOf(list[..n], b)
  }
}

/** The block structure of the file system of kernel/fs.c as values: block
    addresses of inodes, who owns which block, and the bytes of a file. */
module Blocks {

  const BSIZE := 1024
  const NDIRECT := 12
  const NINDIRECT := 256
  const MAXFILE := NDIRECT + NINDIRECT
  const BPB := BSIZE * 8
  const IPB := 16

  type byte = x: int | 0 <= x < 256

  type Block = seq<byte>

  type short = x: int | 0 <= x < 0x8000

  datatype Inode = Inode(typ: short, nlink: short, size: nat, addrs: seq<nat>)

  // A block as an array of 32-bit words, little endian.

  function Word(b: Block, j: nat): nat {
    if 4 * j + 3 < |b| then
      (b[4 * j] as int) + 0x100 * (b[4 * j + 1] as int) + 0x1_0000 * (b[4 * j + 2] as int) + 0x100_0000 * (b[4 * j + 3] as int)
    else
      0
  }

  function SetWord(b: Block, j: nat, x: nat): (r: Block)
    requires x < 0x1_0000_0000
    ensures |r| == |b|
  {
    if 4 * j + 3 < |b| then
      b[4 * j := x % 256][4 * j + 1 := x / 0x100 % 256][4 * j + 2 := x / 0x1_0000 % 256][4 * j + 3 := x / 0x100_0000]
    else
      b
  }

  lemma LittleEndian(x: nat)
    requires x < 0x1_0000_0000
    ensures x % 256 + 0x100 * (x / 0x100 % 256) + 0x1_0000 * (x / 0x1_0000 % 256) + 0x100_0000 * (x / 0x100_0000) == x
  {
  }

  lemma WordSet(b: Block, j: nat, x: nat, k: nat)
    requires x < 0x1_0000_0000 && 4 * j + 3 < |b|
    ensures Word(SetWord(b, j, x), k) == if k == j then x else Word(b, k)
  {
    LittleEndian(x);
  }

  // A block as an array of 64-byte inodes: type, major, minor and nlink in 16 bits
  // each, size, and the addresses.

  const DINODE := 64

  function Half(b: Block, j: nat): nat {
    if 2 * j + 1 < |b| then (b[2 * j] as int) + 0x100 * (b[2 * j + 1] as int) else 0
  }

  function SetHalf(b: Block, j: nat, x: nat): (r: Block)
    requires x < 0x1_0000
    ensures |r| == |b|
  {
    if 2 * j + 1 < |b| then b[2 * j := x % 256][2 * j + 1 := x / 0x100] else b
  }

  lemma HalfSet(b: Block, j: nat, x: nat)
    requires x < 0x1_0000 && 2 * j + 1 < |b|
    ensures Half(SetHalf(b, j, x), j) == x && forall k: nat | k != j :: Half(SetHalf(b, j, x), k) == Half(b, k)
    ensures forall c | 0 <= c < |b| && c / 2 != j :: SetHalf(b, j, x)[c] == b[c]
  {
  }

  lemma WordBytes(b: Block, j: nat, x: nat)
    requires x < 0x1_0000_0000 && 4 * j + 3 < |b|
    ensures forall c | 0 <= c < |b| && c / 4 != j :: SetWord(b, j, x)[c] == b[c]
    ensures forall k: nat | k / 2 != j :: Half(SetWord(b, j, x), k) == Half(b, k)
  {
  }

  /** Slot s of the block is inode ip. */
  ghost predicate HoldsInode(b: Block, s: nat, ip: Inode) {
    Half(b, 32 * s) == ip.typ && Half(b, 32 * s + 3) == ip.nlink && Word(b, 16 * s + 2) == ip.size
    && |ip.addrs| == NDIRECT + 1 && HoldsAddrs(b, s, ip, NDIRECT + 1)
  }

  ghost predicate HoldsAddrs(b: Block, s: nat, ip: Inode, n: nat) {
    n <= |ip.addrs| && forall k | 0 <= k < n :: Word(b, 16 * s + 3 + k) == ip.addrs[k]
  }

  /** A byte of the block that iupdate of slot s leaves alone: one of another
      inode, or of the device numbers. */
  predicate Spared(s: nat, c: nat) { c / DINODE != s || 2 <= c % DINODE < 6 }

  predicate Storable(ip: Inode) {
    |ip.addrs| == NDIRECT + 1 && ip.size < 0x1_0000_0000 && forall k | 0 <= k < |ip.addrs| :: ip.addrs[k] < 0x1_0000_0000
  }

  /** The assignments and the memmove of iupdate. */
  method PutInode(b: Block, s: nat, ip: Inode) returns (r: Block)
    requires |b| == BSIZE && s < IPB && Storable(ip)
    ensures |r| == BSIZE && HoldsInode(r, s, ip)
    ensures forall c: nat | c < BSIZE && Spared(s, c) :: r[c] == b[c]
  {
    hide SetWord, Word;
    HalfSet(b, 32 * s, ip.typ);
    r := SetHalf(b, 32 * s, ip.typ);
    HalfSet(r, 32 * s + 3, ip.nlink);
    r := SetHalf(r, 32 * s + 3, ip.nlink);
    WordBytes(r, 16 * s + 2, ip.size);
    WordSet(r, 16 * s + 2, ip.size, 16 * s + 2);
    r := SetWord(r, 16 * s + 2, ip.size);
    var k := 0;
    while k < NDIRECT + 1
      invariant 0 <= k <= NDIRECT + 1 && |r| == BSIZE && HoldsAddrs(r, s, ip, k)
      invariant Half(r, 32 * s) == ip.typ && Half(r, 32 * s + 3) == ip.nlink && Word(r, 16 * s + 2) == ip.size
      invariant forall c: nat | c < BSIZE && Spared(s, c) :: r[c] == b[c]
    {
      ghost var was := r;
      r := SetWord(r, 16 * s + 3 + k, ip.addrs[k]);
      AddrPut(was, s, ip, k);
      k := k + 1;
    }
  }

  lemma AddrPut(b: Block, s: nat, ip: Inode, k: nat)
    requires |b| == BSIZE && s < IPB && Storable(ip) && k < NDIRECT + 1 && HoldsAddrs(b, s, ip, k)
    ensures var r := SetWord(b, 16 * s + 3 + k, ip.addrs[k]);
            && HoldsAddrs(r, s, ip, k + 1) && Word(r, 16 * s + 2) == Word(b, 16 * s + 2)
            && Half(r, 32 * s) == Half(b, 32 * s) && Half(r, 32 * s + 3) == Half(b, 32 * s + 3)
            && forall c: nat | c < BSIZE && Spared(s, c) :: r[c] == b[c]
  {
    var j := 16 * s + 3 + k;
    forall l: nat ensures Word(SetWord(b, j, ip.addrs[k]), l) == if l == j then ip.addrs[k] else Word(b, l) {
      WordSet(b, j, ip.addrs[k], l);
    }
    WordBytes(b, j, ip.addrs[k]);
    hide SetWord, Word;
  }

  /** An inode whose bytes stay the same stays the same. */
  lemma SlotKept(b: Block, r: Block, s: nat, t: nat, ip: Inode)
    requires |b| == |r| == BSIZE && s < IPB && t < IPB && s != t && HoldsInode(b, t, ip)
    requires forall c: nat | c < BSIZE && Spared(s, c) :: r[c] == b[c]
    ensures HoldsInode(r, t, ip)
  {
    forall c: nat | c < BSIZE && c / DINODE == t ensures r[c] == b[c] {
      assert Spared(s, c);
    }
  }

  /** The blocks of the inode table hold these inodes. */
  ghost predicate Stored(iblocks: seq<Block>, dinode: seq<Inode>) {
    && (forall x | 0 <= x < |iblocks| :: |iblocks[x]| == BSIZE)
    && (forall j: nat | j < |dinode| :: j / IPB < |iblocks| && HoldsInode(iblocks[j / IPB], j % IPB, dinode[j]))
  }

  lemma StoreInode(iblocks: seq<Block>, dinode: seq<Inode>, i: nat, ip: Inode, r: Block)
    requires Stored(iblocks, dinode) && i < |dinode| && |r| == BSIZE && HoldsInode(r, i % IPB, ip)
    requires forall c: nat | c < BSIZE && Spared(i % IPB, c) :: r[c] == iblocks[i / IPB][c]
    ensures Stored(iblocks[i / IPB := r], dinode[i := ip])
  {
    var after := iblocks[i / IPB := r];
    forall j: nat | j < |dinode| && j != i ensures HoldsInode(after[j / IPB], j % IPB, dinode[j]) {
      if j / IPB == i / IPB {
        SlotKept(iblocks[i / IPB], r, i % IPB, j % IPB, dinode[j]);
      }
    }
    hide HoldsInode, Spared;
  }

  // A block as an array of bits.

  /** 1 << k */
  function Mask(k: nat): nat { if k == 0 then 1 else 2 * Mask(k - 1) }

  /** v & (1 << k) */
  predicate TestBit(v: nat, k: nat) { if k == 0 then v % 2 == 1 else TestBit(v / 2, k - 1) }

  lemma {:induction false} MaskFits(v: nat, k: nat, n: nat)
    requires k < n && v < Mask(n)
    ensures if TestBit(v, k) then Mask(k) <= v else v + Mask(k) < Mask(n)
  {
    if k > 0 {
      MaskFits(v / 2, k - 1, n - 1);
    }
  }

  lemma ByteMask()
    ensures Mask(8) == 256
  {
    assert Mask(4) == 16;
  }

  /** v | (1 << k), where the bit is clear. */
  function SetBit(v: byte, k: nat): byte
    requires k < 8 && !TestBit(v, k)
  {
    ByteMask();
    MaskFits(v, k, 8);
    v + Mask(k)
  }

  /** v & ~(1 << k), where the bit is set. */
  function ClearBit(v: byte, k: nat): byte
    requires k < 8 && TestBit(v, k)
  {
    ByteMask();
    MaskFits(v, k, 8);
    v - Mask(k)
  }

  lemma {:induction false} AddMask(v: nat, k: nat, j: nat)
    requires !TestBit(v, k)
    ensures TestBit(v + Mask(k), j) <==> j == k || TestBit(v, j)
  {
    if k > 0 && j > 0 {
      assert (v + Mask(k)) / 2 == v / 2 + Mask(k - 1);
      AddMask(v / 2, k - 1, j - 1);
    } else if k == 0 && j > 0 {
      assert (v + 1) / 2 == v / 2;
    }
  }

  lemma {:induction false} TakeMask(v: nat, k: nat, j: nat)
    requires TestBit(v, k) && Mask(k) <= v
    ensures TestBit(v - Mask(k), j) <==> j != k && TestBit(v, j)
  {
    if k > 0 && j > 0 {
      assert (v - Mask(k)) / 2 == v / 2 - Mask(k - 1);
      TakeMask(v / 2, k - 1, j - 1);
    } else if k == 0 && j > 0 {
      assert (v - 1) / 2 == v / 2;
    }
  }

  /** Bit b of a run of bitmap blocks. */
  predicate BitAt(bits: seq<Block>, b: nat) {
    b / BPB < |bits| && b % BPB / 8 < |bits[b / BPB]| && TestBit(bits[b / BPB][b % BPB / 8], b % 8)
  }

  ghost predicate Packed(bits: seq<Block>, bitmap: seq<bool>) {
    && (forall x | 0 <= x < |bits| :: |bits[x]| == BSIZE)
    && |bitmap| <= |bits| * BPB
    && (forall b | 0 <= b < |bitmap| :: bitmap[b] <==> BitAt(bits, b))
  }

  function PokeByte(bits: seq<Block>, x: nat, i: nat, v: byte): seq<Block> {
    if x < |bits| && i < |bits[x]| then
      var block: Block := bits[x][i := v];
      bits[x := block]
    else
      bits
  }

  lemma PokeBit(bits: seq<Block>, b: nat, v: byte, c: nat)
    requires b / BPB < |bits| && b % BPB / 8 < |bits[b / BPB]|
    ensures BitAt(PokeByte(bits, b / BPB, b % BPB / 8, v), c)
            <==> if c / 8 == b / 8 then TestBit(v, c % 8) else BitAt(bits, c)
  {
    assert c / 8 == b / 8 <==> (c / BPB == b / BPB && c % BPB / 8 == b % BPB / 8) by {
      assert b / 8 == b / BPB * BSIZE + b % BPB / 8 && c / 8 == c / BPB * BSIZE + c % BPB / 8;
    }
  }

  lemma PackedSet(bits: seq<Block>, bitmap: seq<bool>, b: nat)
    requires Packed(bits, bitmap) && b < |bitmap| && !bitmap[b]
    ensures b / BPB < |bits| && b % BPB / 8 < |bits[b / BPB]| && !TestBit(bits[b / BPB][b % BPB / 8], b % 8)
    ensures Packed(PokeByte(bits, b / BPB, b % BPB / 8, SetBit(bits[b / BPB][b % BPB / 8], b % 8)), bitmap[b := true])
  {
    BitInRange(bits, bitmap, b);
    assert !BitAt(bits, b);
    var v := bits[b / BPB][b % BPB / 8];
    forall c | 0 <= c < |bitmap| ensures bitmap[b := true][c] <==> BitAt(PokeByte(bits, b / BPB, b % BPB / 8, SetBit(v, b % 8)), c) {
      PokeBit(bits, b, SetBit(v, b % 8), c);
      AddMask(v, b % 8, c % 8);
      SameByte(bits, b, c);
    }
  }

  lemma PackedClear(bits: seq<Block>, bitmap: seq<bool>, b: nat)
    requires Packed(bits, bitmap) && b < |bitmap| && bitmap[b]
    ensures b / BPB < |bits| && b % BPB / 8 < |bits[b / BPB]| && TestBit(bits[b / BPB][b % BPB / 8], b % 8)
    ensures Packed(PokeByte(bits, b / BPB, b % BPB / 8, ClearBit(bits[b / BPB][b % BPB / 8], b % 8)), bitmap[b := false])
  {
    BitInRange(bits, bitmap, b);
    assert BitAt(bits, b);
    var v := bits[b / BPB][b % BPB / 8];
    ByteMask();
    MaskFits(v, b % 8, 8);
    forall c | 0 <= c < |bitmap| ensures bitmap[b := false][c] <==> BitAt(PokeByte(bits, b / BPB, b % BPB / 8, ClearBit(v, b % 8)), c) {
      PokeBit(bits, b, ClearBit(v, b % 8), c);
      TakeMask(v, b % 8, c % 8);
      SameByte(bits, b, c);
    }
  }

  lemma SameByte(bits: seq<Block>, b: nat, c: nat)
    requires b / BPB < |bits| && b % BPB / 8 < |bits[b / BPB]|
    ensures c / 8 == b / 8 ==> (BitAt(bits, c) <==> TestBit(bits[b / BPB][b % BPB / 8], c % 8))
    ensures c / 8 == b / 8 && c % 8 == b % 8 ==> c == b
  {
    if c / 8 == b / 8 {
      assert c / BPB == b / BPB && c % BPB / 8 == b % BPB / 8 by {
        assert b / 8 == b / BPB * BSIZE + b % BPB / 8 && c / 8 == c / BPB * BSIZE + c % BPB / 8;
      }
    }
  }

  lemma BitInRange(bits: seq<Block>, bitmap: seq<bool>, b: nat)
    requires Packed(bits, bitmap) && b < |bitmap|
    ensures b / BPB < |bits| && b % BPB / 8 < |bits[b / BPB]|
  {
    assert b / BPB * BPB <= b < |bits| * BPB;
  }

  // Who uses a block.

  /** Content: block bn of a file; Index: the indirect block of an inode;
      Pending: just taken by balloc. */
  datatype Slot = Content(i: nat, bn: nat) | Index(i: nat) | Pending

  type Owner = map<nat, Slot>

  /** The block number of block bn of inode i, 0 if there is none. */
  function Addr(inode: seq<Inode>, blocks: seq<Block>, i: nat, bn: nat): nat {
    if i >= |inode| || |inode[i].addrs| != NDIRECT + 1 then 0
    else if bn < NDIRECT then inode[i].addrs[bn]
    else
      var x := inode[i].addrs[NDIRECT];
      if x == 0 || x >= |blocks| then 0 else Word(blocks[x], bn - NDIRECT)
  }

  function IndexAddr(inode: seq<Inode>, i: nat): nat {
    if i >= |inode| || |inode[i].addrs| != NDIRECT + 1 then 0 else inode[i].addrs[NDIRECT]
  }

  ghost predicate Shape(inode: seq<Inode>, blocks: seq<Block>) {
    && (forall i | 0 <= i < |inode| :: |inode[i].addrs| == NDIRECT + 1)
    && (forall b | 0 <= b < |blocks| :: |blocks[b]| == BSIZE)
    && |blocks| < 0x1_0000_0000
  }

  /** Every block address is owned by its place, except for the first n indirect
      ones of inode x, which have been freed. */
  ghost predicate Linked(inode: seq<Inode>, blocks: seq<Block>, owner: Owner, x: nat, n: nat) {
    && (forall i: nat, bn: nat | bn < MAXFILE && Addr(inode, blocks, i, bn) != 0 && !(i == x && NDIRECT <= bn < NDIRECT + n) ::
          Addr(inode, blocks, i, bn) in owner && owner[Addr(inode, blocks, i, bn)] == Content(i, bn))
    && (forall i: nat | IndexAddr(inode, i) != 0 :: IndexAddr(inode, i) in owner && owner[IndexAddr(inode, i)] == Index(i))
  }

  /** Every owned block is where its owner says. */
  ghost predicate Rooted(inode: seq<Inode>, blocks: seq<Block>, owner: Owner) {
    forall b | b in owner :: 0 < b < |blocks| &&
      match owner[b]
      case Content(i, bn) => bn < MAXFILE && Addr(inode, blocks, i, bn) == b
      case Index(i) => IndexAddr(inode, i) == b
      case Pending => true
  }

  /** The bitmap marks the blocks before start and the owned ones. */
  ghost predicate Marked(bitmap: seq<bool>, owner: Owner, start: nat) {
    && 0 < start <= |bitmap|
    && (forall b | 0 <= b < start :: bitmap[b])
    && (forall b | start <= b < |bitmap| :: bitmap[b] <==> b in owner)
    && (forall b | b in owner :: start <= b < |bitmap|)
  }

  ghost predicate LinksOk(inode: seq<Inode>, blocks: seq<Block>, owner: Owner) {
    Shape(inode, blocks) && Linked(inode, blocks, owner, 0, 0) && Rooted(inode, blocks, owner)
  }

  /** No two places share a block. */
  lemma NoSharing(inode: seq<Inode>, blocks: seq<Block>, owner: Owner, i: nat, bn: nat, i': nat, bn': nat)
    requires LinksOk(inode, blocks, owner) && bn < MAXFILE && bn' < MAXFILE
    requires Addr(inode, blocks, i, bn) != 0
    ensures Addr(inode, blocks, i, bn) == Addr(inode, blocks, i', bn') ==> i == i' && bn == bn'
    ensures Addr(inode, blocks, i, bn) != IndexAddr(inode, i')
  {
  }

  lemma NoSharedIndex(inode: seq<Inode>, blocks: seq<Block>, owner: Owner, i: nat, i': nat)
    requires LinksOk(inode, blocks, owner) && IndexAddr(inode, i) != 0 && IndexAddr(inode, i) == IndexAddr(inode, i')
    ensures i == i'
  {
  }

  /** Addresses come from the addrs arrays alone. */
  lemma AddrsOnly(inode: seq<Inode>, inode': seq<Inode>, blocks: seq<Block>, owner: Owner)
    requires LinksOk(inode, blocks, owner) && |inode'| == |inode|
    requires forall j | 0 <= j < |inode| :: inode'[j].addrs == inode[j].addrs
    ensures LinksOk(inode', blocks, owner)
    ensures forall j: nat, bn: nat :: Addr(inode', blocks, j, bn) == Addr(inode, blocks, j, bn)
  {
    forall j: nat, bn: nat ensures Addr(inode', blocks, j, bn) == Addr(inode, blocks, j, bn) {
    }
    forall j: nat ensures IndexAddr(inode', j) == IndexAddr(inode, j) {
    }
    hide Addr, IndexAddr;
  }

  // The four ways in which blocks become and stay linked.

  function SetAddr(inode: seq<Inode>, i: nat, k: nat, b: nat): (r: seq<Inode>)
    ensures |r| == |inode|
  {
    if i < |inode| && k < |inode[i].addrs| then inode[i := inode[i].(addrs := inode[i].addrs[k := b])] else inode
  }

  lemma LinkDirectAddr(inode: seq<Inode>, blocks: seq<Block>, i: nat, k: nat, b: nat, i': nat, bn: nat)
    requires Shape(inode, blocks) && i < |inode| && k < NDIRECT
    ensures Addr(SetAddr(inode, i, k, b), blocks, i', bn) == if i' == i && bn == k then b else Addr(inode, blocks, i', bn)
    ensures IndexAddr(SetAddr(inode, i, k, b), i') == IndexAddr(inode, i')
  {
  }

  /** One more block address; everything else is as before. */
  ghost predicate OneMore(inode: seq<Inode>, blocks: seq<Block>, inode': seq<Inode>, blocks': seq<Block>, i: nat,
                          bn: nat, b: nat) {
    forall i': nat, bn': nat | bn' < MAXFILE ::
      Addr(inode', blocks', i', bn') == if i' == i && bn' == bn then b else Addr(inode, blocks, i', bn')
  }

  ghost predicate SameIndex(inode: seq<Inode>, inode': seq<Inode>) {
    forall i: nat :: IndexAddr(inode', i) == IndexAddr(inode, i)
  }

  lemma Claim(inode: seq<Inode>, blocks: seq<Block>, owner: Owner, inode': seq<Inode>, blocks': seq<Block>, i: nat,
              bn: nat, b: nat)
    requires LinksOk(inode, blocks, owner) && b in owner && owner[b] == Pending && bn < MAXFILE
    requires Shape(inode', blocks') && |blocks'| == |blocks| && OneMore(inode, blocks, inode', blocks', i, bn, b)
    requires SameIndex(inode, inode')
    requires Addr(inode, blocks, i, bn) == 0
    ensures LinksOk(inode', blocks', owner[b := Content(i, bn)])
  {
  }

  lemma LinkDirect(inode: seq<Inode>, blocks: seq<Block>, owner: Owner, i: nat, bn: nat, b: nat)
    requires LinksOk(inode, blocks, owner) && b in owner && owner[b] == Pending && bn < NDIRECT && i < |inode|
    requires Addr(inode, blocks, i, bn) == 0
    ensures LinksOk(SetAddr(inode, i, bn, b), blocks, owner[b := Content(i, bn)])
    ensures OneMore(inode, blocks, SetAddr(inode, i, bn, b), blocks, i, bn, b) && SameIndex(inode, SetAddr(inode, i, bn, b))
  {
    hide Addr, IndexAddr;
    var inode' := SetAddr(inode, i, bn, b);
    forall i': nat, bn': nat
      ensures Addr(inode', blocks, i', bn') == if i' == i && bn' == bn then b else Addr(inode, blocks, i', bn')
    {
      LinkDirectAddr(inode, blocks, i, bn, b, i', bn');
    }
    forall i': nat ensures IndexAddr(inode', i') == IndexAddr(inode, i') {
      LinkDirectAddr(inode, blocks, i, bn, b, i', 0);
    }
    Claim(inode, blocks, owner, inode', blocks, i, bn, b);
  }

  function ZeroBlock(): (b: Block)
    ensures |b| == BSIZE && forall k | 0 <= k < BSIZE :: b[k] == 0
  {
    seq(BSIZE, _ => 0)
  }

  ghost predicate SameAddrs(inode: seq<Inode>, blocks: seq<Block>, inode': seq<Inode>, blocks': seq<Block>) {
    forall i: nat, bn: nat | bn < MAXFILE :: Addr(inode', blocks', i, bn) == Addr(inode, blocks, i, bn)
  }

  /** An empty indirect block adds no address. */
  lemma LinkIndex(inode: seq<Inode>, blocks: seq<Block>, owner: Owner, i: nat, b: nat)
    requires LinksOk(inode, blocks, owner) && b in owner && owner[b] == Pending && i < |inode|
    requires IndexAddr(inode, i) == 0 && b < |blocks| && blocks[b] == ZeroBlock()
    ensures LinksOk(SetAddr(inode, i, NDIRECT, b), blocks, owner[b := Index(i)])
    ensures SameAddrs(inode, blocks, SetAddr(inode, i, NDIRECT, b), blocks)
    ensures forall i': nat :: IndexAddr(SetAddr(inode, i, NDIRECT, b), i') == if i' == i then b else IndexAddr(inode, i')
  {
    var inode' := SetAddr(inode, i, NDIRECT, b);
    forall i': nat, bn: nat | bn < MAXFILE ensures Addr(inode', blocks, i', bn) == Addr(inode, blocks, i', bn) {
      if i' == i && bn >= NDIRECT {
        assert Word(blocks[b], bn - NDIRECT) == 0;
      }
    }
    IndexLinked(inode, blocks, owner, inode', i, b);
  }

  lemma IndexLinked(inode: seq<Inode>, blocks: seq<Block>, owner: Owner, inode': seq<Inode>, i: nat, b: nat)
    requires LinksOk(inode, blocks, owner) && b in owner && owner[b] == Pending && Shape(inode', blocks)
    requires SameAddrs(inode, blocks, inode', blocks) && IndexAddr(inode, i) == 0
    requires forall i': nat :: IndexAddr(inode', i') == if i' == i then b else IndexAddr(inode, i')
    ensures LinksOk(inode', blocks, owner[b := Index(i)])
  {
  }

  lemma LinkIndirectAddr(inode: seq<Inode>, blocks: seq<Block>, owner: Owner, i: nat, bn: nat, b: nat, i': nat, bn': nat)
    requires LinksOk(inode, blocks, owner) && i < |inode| && b < 0x1_0000_0000
    requires NDIRECT <= bn < MAXFILE && bn' < MAXFILE && 0 < IndexAddr(inode, i) < |blocks|
    ensures var x := IndexAddr(inode, i);
            Addr(inode, blocks[x := SetWord(blocks[x], bn - NDIRECT, b)], i', bn')
            == if i' == i && bn' == bn then b else Addr(inode, blocks, i', bn')
  {
    var x := IndexAddr(inode, i);
    if bn' >= NDIRECT && IndexAddr(inode, i') == x {
      NoSharedIndex(inode, blocks, owner, i, i');
      WordSet(blocks[x], bn - NDIRECT, b, bn' - NDIRECT);
    }
    hide LinksOk, Word, SetWord;
  }

  lemma LinkIndirect(inode: seq<Inode>, blocks: seq<Block>, owner: Owner, i: nat, bn: nat, b: nat)
    requires LinksOk(inode, blocks, owner) && b in owner && owner[b] == Pending && i < |inode|
    requires NDIRECT <= bn < MAXFILE && Addr(inode, blocks, i, bn) == 0 && IndexAddr(inode, i) != 0
    ensures var x := IndexAddr(inode, i);
            && x < |blocks| && b < |blocks| < 0x1_0000_0000
            && var blocks' := blocks[x := SetWord(blocks[x], bn - NDIRECT, b)];
            && LinksOk(inode, blocks', owner[b := Content(i, bn)])
            && OneMore(inode, blocks, inode, blocks', i, bn, b)
  {
    var x := IndexAddr(inode, i);
    var blocks' := blocks[x := SetWord(blocks[x], bn - NDIRECT, b)];
    forall i': nat, bn': nat | bn' < MAXFILE
      ensures Addr(inode, blocks', i', bn') == if i' == i && bn' == bn then b else Addr(inode, blocks, i', bn')
    {
      LinkIndirectAddr(inode, blocks, owner, i, bn, b, i', bn');
    }
    hide Addr, IndexAddr, Word, SetWord;
    Claim(inode, blocks, owner, inode, blocks', i, bn, b);
  }

  /** The contents of a block that is no indirect block. */
  lemma StoreBlock(inode: seq<Inode>, blocks: seq<Block>, owner: Owner, b: nat, data: Block)
    requires LinksOk(inode, blocks, owner) && b < |blocks| && (b in owner ==> !owner[b].Index?) && |data| == BSIZE
    ensures LinksOk(inode, blocks[b := data], owner) && SameAddrs(inode, blocks, inode, blocks[b := data])
  {
    var blocks' := blocks[b := data];
    forall i: nat, bn: nat | bn < MAXFILE ensures Addr(inode, blocks', i, bn) == Addr(inode, blocks, i, bn) {
      assert IndexAddr(inode, i) != 0 ==> IndexAddr(inode, i) in owner;
    }
    SameLinks(inode, blocks, owner, blocks');
  }

  lemma SameLinks(inode: seq<Inode>, blocks: seq<Block>, owner: Owner, blocks': seq<Block>)
    requires LinksOk(inode, blocks, owner) && Shape(inode, blocks') && |blocks'| == |blocks|
    requires SameAddrs(inode, blocks, inode, blocks')
    ensures LinksOk(inode, blocks', owner)
  {
  }

  // The bytes of a file.

  function ByteAt(inode: seq<Inode>, blocks: seq<Block>, i: nat, k: nat): byte {
    var a := Addr(inode, blocks, i, k / BSIZE);
    if 0 < a < |blocks| && |blocks[a]| == BSIZE then blocks[a][k % BSIZE] else 0
  }

  function Bytes(inode: seq<Inode>, blocks: seq<Block>, i: nat): (s: seq<byte>) {
    if i < |inode| then seq(inode[i].size, k requires 0 <= k => ByteAt(inode, blocks, i, k)) else []
  }

  ghost predicate SameBytes(inode: seq<Inode>, blocks: seq<Block>, inode': seq<Inode>, blocks': seq<Block>) {
    forall i: nat, k: nat | k < MAXFILE * BSIZE :: ByteAt(inode', blocks', i, k) == ByteAt(inode, blocks, i, k)
  }

  /** No holes below n. */
  ghost predicate Filled(inode: seq<Inode>, blocks: seq<Block>, i: nat, n: nat) {
    forall bn: nat | bn * BSIZE < n :: Addr(inode, blocks, i, bn) != 0
  }

  ghost predicate FilesOk(inode: seq<Inode>, blocks: seq<Block>) {
    forall i: nat | i < |inode| :: inode[i].size <= MAXFILE * BSIZE && Filled(inode, blocks, i, inode[i].size)
  }

  /** A new, zeroed block changes no byte. */
  lemma MoreSameBytes(inode: seq<Inode>, blocks: seq<Block>, owner: Owner, inode': seq<Inode>, blocks': seq<Block>,
                      i: nat, bn: nat, b: nat, x: nat)
    requires LinksOk(inode, blocks, owner) && OneMore(inode, blocks, inode', blocks', i, bn, b) && Addr(inode, blocks, i, bn) == 0
    requires |blocks'| == |blocks| && b < |blocks| && blocks'[b] == ZeroBlock() && x < |blocks|
    requires x in owner && !owner[x].Content?
    requires forall c | 0 <= c < |blocks| && c != x :: blocks'[c] == blocks[c]
    ensures SameBytes(inode, blocks, inode', blocks')
  {
  }

  /** Zeroing a block that nobody uses changes no byte. */
  lemma ZeroFresh(inode: seq<Inode>, blocks: seq<Block>, owner: Owner, b: nat, data: Block)
    requires LinksOk(inode, blocks, owner) && b < |blocks| && b !in owner && |data| == BSIZE
    ensures LinksOk(inode, blocks[b := data], owner) && SameAddrs(inode, blocks, inode, blocks[b := data])
    ensures SameBytes(inode, blocks, inode, blocks[b := data])
  {
    hide IndexAddr;
    StoreBlock(inode, blocks, owner, b, data);
    var blocks' := blocks[b := data];
    forall i: nat, k: nat | k < MAXFILE * BSIZE ensures ByteAt(inode, blocks', i, k) == ByteAt(inode, blocks, i, k) {
      assert Addr(inode, blocks', i, k / BSIZE) == Addr(inode, blocks, i, k / BSIZE);
    }
  }

  lemma TakeBlock(inode: seq<Inode>, blocks: seq<Block>, owner: Owner, b: nat)
    requires LinksOk(inode, blocks, owner) && b !in owner && 0 < b < |blocks|
    ensures LinksOk(inode, blocks, owner[b := Pending])
  {
  }

  lemma SameTrans(inode: seq<Inode>, blocks: seq<Block>, inode1: seq<Inode>, blocks1: seq<Block>, inode2: seq<Inode>,
                  blocks2: seq<Block>)
    requires SameBytes(inode, blocks, inode1, blocks1) && SameBytes(inode1, blocks1, inode2, blocks2)
    ensures SameBytes(inode, blocks, inode2, blocks2)
  {
  }

  // Truncation.

  ghost predicate LinksBut(inode: seq<Inode>, blocks: seq<Block>, owner: Owner, i: nat, n: nat) {
    Shape(inode, blocks) && Linked(inode, blocks, owner, i, n) && Rooted(inode, blocks, owner)
  }

  /** The first k blocks of inode i are no longer owned; nothing else differs. */
  ghost predicate Freed(owner: Owner, owner': Owner, i: nat, k: nat) {
    && (forall b | b in owner' :: b in owner && owner'[b] == owner[b])
    && (forall b | b in owner :: b in owner' <==> !(owner[b].Content? && owner[b].i == i && owner[b].bn < k))
  }

  lemma FreedNext(inode: seq<Inode>, blocks: seq<Block>, owner0: Owner, owner: Owner, i: nat, k: nat)
    requires Freed(owner0, owner, i, k) && Rooted(inode, blocks, owner)
    requires Addr(inode, blocks, i, k) in owner ==> owner[Addr(inode, blocks, i, k)] == Content(i, k)
    ensures Freed(owner0, owner - {Addr(inode, blocks, i, k)}, i, k + 1)
  {
  }

  /** One direct block is freed. */
  lemma UnlinkDirect(inode: seq<Inode>, blocks: seq<Block>, owner: Owner, i: nat, k: nat)
    requires LinksBut(inode, blocks, owner, i, 0) && k < NDIRECT && i < |inode| && Addr(inode, blocks, i, k) != 0
    ensures Addr(inode, blocks, i, k) in owner && owner[Addr(inode, blocks, i, k)] == Content(i, k)
    ensures LinksBut(SetAddr(inode, i, k, 0), blocks, owner - {Addr(inode, blocks, i, k)}, i, 0)
  {
    var inode' := SetAddr(inode, i, k, 0);
    forall i': nat, bn: nat
      ensures Addr(inode', blocks, i', bn) == if i' == i && bn == k then 0 else Addr(inode, blocks, i', bn)
    {
      LinkDirectAddr(inode, blocks, i, k, 0, i', bn);
    }
    forall i': nat ensures IndexAddr(inode', i') == IndexAddr(inode, i') {
      LinkDirectAddr(inode, blocks, i, k, 0, i', 0);
    }
    hide Addr, IndexAddr;
  }

  /** One block of the indirect block is freed, where its number stays. */
  lemma UnlinkIndirect(inode: seq<Inode>, blocks: seq<Block>, owner: Owner, i: nat, j: nat)
    requires LinksBut(inode, blocks, owner, i, j) && j < NINDIRECT
    ensures var a := Addr(inode, blocks, i, NDIRECT + j);
            && (a != 0 ==> a in owner && owner[a] == Content(i, NDIRECT + j))
            && LinksBut(inode, blocks, if a == 0 then owner else owner - {a}, i, j + 1)
  {
  }

  /** The indirect block is freed. */
  lemma UnlinkIndex(inode: seq<Inode>, blocks: seq<Block>, owner0: Owner, owner: Owner, i: nat)
    requires LinksBut(inode, blocks, owner, i, NINDIRECT) && i < |inode| && IndexAddr(inode, i) != 0
    requires Freed(owner0, owner, i, MAXFILE)
    ensures IndexAddr(inode, i) in owner && owner[IndexAddr(inode, i)] == Index(i)
    ensures LinksBut(SetAddr(inode, i, NDIRECT, 0), blocks, owner - {IndexAddr(inode, i)}, i, 0)
    ensures IndexAddr(SetAddr(inode, i, NDIRECT, 0), i) == 0
  {
    var inode' := SetAddr(inode, i, NDIRECT, 0);
    forall i': nat, bn: nat
      ensures Addr(inode', blocks, i', bn) == if i' == i && bn >= NDIRECT then 0 else Addr(inode, blocks, i', bn)
    {
    }
    forall i': nat ensures IndexAddr(inode', i') == if i' == i then 0 else IndexAddr(inode, i') {
    }
    hide Addr, IndexAddr;
  }
}

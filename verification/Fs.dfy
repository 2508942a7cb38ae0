/** Block allocation and file contents of kernel/fs.c and the write loop of
    kernel/file.c.

    The fields are the blocks as the buffer cache and the log show them; inode
    is the in-memory copy of each inode, and iblocks are the disk blocks with
    their copies, which dinode gives as values.
    The methods run under the lock of the inode that they are given. */
module Fs {
  import opened Blocks
  import Common

  class Fs {
    const start: nat          // first data block
    const inodestart: nat
    const bmapstart: nat

    const size: nat           // sb.size

    var bits: seq<Block>      // the bitmap blocks
    var blocks: seq<Block>
    var inode: seq<Inode>
    var iblocks: seq<Block>   // the inode blocks

    ghost var dinode: seq<Inode>
    ghost var bitmap: seq<bool>
    ghost var owner: Owner
    ghost var dirty: set<nat>   // blocks given to log_write by the operation

    ghost function St(): Store
      reads this
    {
      Store(bits, blocks, iblocks)
    }

    ghost predicate Consistent()
      reads this
    {
      && |dinode| == |inode| && Stored(iblocks, dinode)
      && LinksOk(inode, blocks, owner)
      && MapOk()
    }

    ghost predicate MapOk()
      reads this
    {
      |bitmap| == |blocks| == size && Packed(bits, bitmap) && Marked(bitmap, owner, start)
    }

    ghost predicate Valid()
      reads this
    {
      && Consistent()
      && FilesOk(inode, blocks)
      && forall b | b in owner :: !owner[b].Pending?
    }

    /** A file system without files: the bitmap marks the blocks before start. */
    constructor (start: nat, size: nat, inodestart: nat, bmapstart: nat, bits: seq<Block>, blocks: seq<Block>,
                 iblocks: seq<Block>, ninodes: nat)
      requires 0 < start <= size == |blocks| < 0x1_0000_0000 && forall b | 0 <= b < |blocks| :: |blocks[b]| == BSIZE
      requires Packed(bits, seq(size, b => b < start))
      requires ninodes <= |iblocks| * IPB && forall x | 0 <= x < |iblocks| :: iblocks[x] == ZeroBlock()
      ensures Valid() && inode == dinode == seq(ninodes, _ => Inode(0, 0, 0, NoAddrs())) && dirty == {}
      ensures this.start == start && this.size == size && this.blocks == blocks && this.bits == bits
    {
      this.start, this.size, this.inodestart, this.bmapstart := start, size, inodestart, bmapstart;
      this.bits, this.blocks, this.iblocks := bits, blocks, iblocks;
      inode, dinode := seq(ninodes, _ => Inode(0, 0, 0, NoAddrs())), seq(ninodes, _ => Inode(0, 0, 0, NoAddrs()));
      bitmap, owner, dirty := seq(size, b => b < start), map[], {};
      new;
      forall i: nat, bn: nat ensures Addr(inode, blocks, i, bn) == 0 {
      }
      ZeroInodes(iblocks, dinode);
      hide Addr, Packed, Stored;
    }

    ghost predicate Full()
      reads this
    {
      forall b | 0 <= b < |bitmap| :: bitmap[b]
    }

    /** balloc: the first free block, zeroed, or 0. */
    method Balloc() returns (r: nat)
      requires Consistent()
      modifies this`bits, this`bitmap, this`blocks, this`owner, this`dirty
      ensures Consistent()
      ensures r == 0 <==> old(Full())
      ensures |bitmap| == |old(bitmap)|
      ensures r == 0 ==> bitmap == old(bitmap) && blocks == old(blocks) && owner == old(owner) && dirty == old(dirty)
      ensures r != 0 ==> && start <= r < |bitmap| && !old(bitmap)[r] && (forall b | 0 <= b < r :: old(bitmap)[b])
                         && r !in old(owner)
                         && bitmap == old(bitmap)[r := true] && blocks == old(blocks)[r := ZeroBlock()]
                         && owner == old(owner)[r := Pending] && dirty == old(dirty) + {bmapstart + r / BPB, r}
      ensures SameAddrs(inode, old(blocks), inode, blocks) && SameBytes(inode, old(blocks), inode, blocks)
      ensures AllLogged(old(St()), St(), bmapstart, inodestart, dirty) && old(dirty) <= dirty
    {
      hide LinksOk, Addr, ByteAt, Packed, BitAt, TestBit, SetBit, PokeByte, SameAddrs, SameBytes, AllLogged;
      LoggedSelf(St(), bmapstart, inodestart, dirty);
      var b := 0;
      while b < size
        invariant b % BPB == 0 && |bitmap| == size
        invariant forall k | 0 <= k < b && k < size :: bitmap[k]
        invariant unchanged(this)
        decreases size - b
      {
        var bi := 0;
        while bi < BPB && b + bi < size
          invariant 0 <= bi <= BPB && b + bi <= size == |bitmap|
          invariant forall k | 0 <= k < b + bi :: bitmap[k]
          invariant unchanged(this)
        {
          BitOf(bits, bitmap, b, bi);
          if !TestBit(bits[b / BPB][bi / 8], bi % 8) {
            r := b + bi;
            PackedSet(bits, bitmap, r);
            assert r / BPB == b / BPB;
            ZeroFresh(inode, blocks, owner, r, ZeroBlock());
            TakeBlock(inode, blocks[r := ZeroBlock()], owner, r);
            BitLogged(St(), bmapstart, inodestart, dirty, b / BPB, bi / 8, SetBit(bits[b / BPB][bi / 8], bi % 8), r);
            bits := PokeByte(bits, b / BPB, bi / 8, SetBit(bits[b / BPB][bi / 8], bi % 8));
            bitmap := bitmap[r := true];
            blocks := blocks[r := ZeroBlock()];
            dirty := dirty + {bmapstart + b / BPB, r};
            owner := owner[r := Pending];
            return;
          }
          bi := bi + 1;
        }
        b := b + BPB;
      }
      r := 0;
      SameSelf(inode, blocks);
    }

    /** What was logged in addition is in the bitmap, the indirect block of
        inode i or one of its blocks lo to hi - 1. */
    ghost predicate MayLog(logged: set<nat>, i: nat, lo: nat, hi: nat)
      reads this
    {
      LogOk(logged, dirty, owner, bmapstart, |bitmap|, i, lo, hi)
    }

    /** The part of bmap that loads the indirect block. */
    method LoadIndex(i: nat) returns (x: nat)
      requires Valid() && i < |inode|
      modifies this`bits, this`bitmap, this`blocks, this`inode, this`owner, this`dirty
      ensures Valid() && |bitmap| == |old(bitmap)| && SameMeta(old(inode), inode, i)
      ensures x == IndexAddr(inode, i) && (x == 0 ==> Full())
      ensures SameAddrs(old(inode), old(blocks), inode, blocks) && SameBytes(old(inode), old(blocks), inode, blocks)
      ensures old(IndexAddr(inode, i)) != 0 ==> unchanged(this)
      ensures MayLog(old(dirty), i, 0, 0) && OwnerKept(old(owner), owner)
      ensures AllLogged(old(St()), St(), bmapstart, inodestart, dirty) && old(dirty) <= dirty
    {
      hide LinksOk, Addr, ByteAt, SameAddrs, SameBytes, Marked, Filled, FilesOk, ZeroBlock, LogOk, OwnerKept, InRange, AllLogged;
      LoggedSelf(St(), bmapstart, inodestart, dirty);
      NothingLogged(dirty, owner, bmapstart, |bitmap|, i, 0, 0);
      SameSelf(inode, blocks);
      InodeShape(inode, blocks, owner, i);
      x := inode[i].addrs[NDIRECT];
      if x == 0 {
        x := Balloc();
        if x == 0 {
          return;
        }
        ghost var blocks1 := blocks;
        LinkIndex(inode, blocks, owner, i, x);
        ghost var inode' := SetAddr(inode, i, NDIRECT, x);
        IndexSameBytes(old(inode), old(blocks), inode, blocks, inode');
        MarkedSame(bitmap, owner, start, x, Index(i));
        AddrsKeepFiles(old(inode), old(blocks), inode', blocks);
        ContentInRange(i, 0);
        LogAlloc(old(dirty), old(owner), x, Index(i), bmapstart, |bitmap|, i, 0, 0);
        inode := SetAddr(inode, i, NDIRECT, x);
        owner := owner[x := Index(i)];
      }
    }

    /** bmap: block bn of inode i, allocated if there is none; 0 if the disk is
        full.  No file changes, and no other block address. */
    method Bmap(i: nat, bn: nat) returns (r: nat)
      requires Valid() && i < |inode| && bn < MAXFILE
      modifies this`bits, this`bitmap, this`blocks, this`inode, this`owner, this`dirty
      ensures Valid() && |bitmap| == |old(bitmap)| && SameMeta(old(inode), inode, i)
      ensures r == Addr(inode, blocks, i, bn) && (r == 0 ==> Full())
      ensures OneMore(old(inode), old(blocks), inode, blocks, i, bn, r) && SameBytes(old(inode), old(blocks), inode, blocks)
      ensures old(Addr(inode, blocks, i, bn)) != 0 ==> unchanged(this)
      ensures MayLog(old(dirty), i, bn, bn + 1) && OwnerKept(old(owner), owner)
      ensures AllLogged(old(St()), St(), bmapstart, inodestart, dirty) && old(dirty) <= dirty
    {
      hide LinksOk, Addr, ByteAt, SameAddrs, OneMore, SameBytes, Marked, Filled, ZeroBlock, IndexAddr, AllLogged;
      LoggedSelf(St(), bmapstart, inodestart, dirty);
      SameSelf(inode, blocks);
      SameOne(inode, blocks, i, bn);
      InodeShape(inode, blocks, owner, i);
      if bn < NDIRECT {
        r := inode[i].addrs[bn];
        if r == 0 {
          r := AllocDirect(i, bn);
        }
        return;
      }
      if IndexAddr(inode, i) == 0 {
        NoIndex(inode, blocks, i, bn);
      }
      var x := LoadIndex(i);
      SameIsOne(old(inode), old(blocks), inode, blocks, i, bn);
      if x == 0 {
        NoIndex(inode, blocks, i, bn);
        return 0;
      }
      InodeShape(inode, blocks, owner, i);
      r := Word(blocks[x], bn - NDIRECT);
      if r == 0 {
        ghost var inode1, blocks1, st1, dirty1 := inode, blocks, St(), dirty;
        r := AllocIndirect(i, bn, x);
        LoggedTrans(old(St()), st1, St(), bmapstart, inodestart, dirty1, dirty);
        OneTrans(old(inode), old(blocks), inode1, blocks1, inode, blocks, i, bn, r);
        SameTrans(old(inode), old(blocks), inode1, blocks1, inode, blocks);
      }
    }

    method AllocIndirect(i: nat, bn: nat, x: nat) returns (r: nat)
      requires Valid() && i < |inode| && NDIRECT <= bn < MAXFILE && Addr(inode, blocks, i, bn) == 0
      requires x == IndexAddr(inode, i) && x != 0
      modifies this`bits, this`bitmap, this`blocks, this`owner, this`dirty
      ensures Valid() && |bitmap| == |old(bitmap)|
      ensures r == Addr(inode, blocks, i, bn) && (r == 0 ==> Full())
      ensures OneMore(inode, old(blocks), inode, blocks, i, bn, r) && SameBytes(inode, old(blocks), inode, blocks)
      ensures MayLog(old(dirty), i, bn, bn + 1) && OwnerKept(old(owner), owner)
      ensures AllLogged(old(St()), St(), bmapstart, inodestart, dirty) && old(dirty) <= dirty
    {
      hide LinksOk, Addr, ByteAt, SameAddrs, OneMore, SameBytes, Marked, Filled, FilesOk, ZeroBlock, IndexAddr, SetWord, LogOk, OwnerKept;
      hide InRange, AllLogged;
      NothingLogged(dirty, owner, bmapstart, |bitmap|, i, bn, bn + 1);
      IndexOwned(inode, blocks, owner, i);
      r := Balloc();
      if r == 0 {
        SameSelf(inode, blocks);
        SameOne(inode, blocks, i, bn);
        return;
      }
      SameAt(inode, old(blocks), inode, blocks, i, bn);
      LinkIndirect(inode, blocks, owner, i, bn, r);
      ghost var blocks' := blocks[x := SetWord(blocks[x], bn - NDIRECT, r)];
      MoreSameBytes(inode, blocks, owner, inode, blocks', i, bn, r, x);
      SameTrans(inode, old(blocks), inode, blocks, inode, blocks');
      OneTrans(inode, old(blocks), inode, blocks, inode, blocks', i, bn, r);
      MarkedSame(bitmap, owner, start, r, Content(i, bn));
      OneKeepsFiles(inode, old(blocks), inode, blocks', i, bn, r);
      ContentInRange(i, bn);
      LogAlloc(old(dirty), old(owner), r, Content(i, bn), bmapstart, |bitmap|, i, bn, bn + 1);
      BlockLogged(old(St()), St(), bmapstart, inodestart, dirty, x, SetWord(blocks[x], bn - NDIRECT, r));
      blocks := blocks[x := SetWord(blocks[x], bn - NDIRECT, r)];
      dirty := dirty + {x};
      owner := owner[r := Content(i, bn)];
    }

    method AllocDirect(i: nat, bn: nat) returns (r: nat)
      requires Valid() && i < |inode| && bn < NDIRECT && Addr(inode, blocks, i, bn) == 0
      modifies this`bits, this`bitmap, this`blocks, this`inode, this`owner, this`dirty
      ensures Valid() && |bitmap| == |old(bitmap)| && SameMeta(old(inode), inode, i)
      ensures r == Addr(inode, blocks, i, bn) && (r == 0 ==> Full())
      ensures OneMore(old(inode), old(blocks), inode, blocks, i, bn, r) && SameBytes(old(inode), old(blocks), inode, blocks)
      ensures MayLog(old(dirty), i, bn, bn + 1) && OwnerKept(old(owner), owner)
      ensures AllLogged(old(St()), St(), bmapstart, inodestart, dirty) && old(dirty) <= dirty
    {
      hide LinksOk, Addr, ByteAt, SameAddrs, OneMore, SameBytes, Marked, Filled, FilesOk, ZeroBlock, IndexAddr, LogOk, OwnerKept, InRange;
      hide AllLogged;
      NothingLogged(dirty, owner, bmapstart, |bitmap|, i, bn, bn + 1);
      r := Balloc();
      if r == 0 {
        SameSelf(inode, blocks);
        SameOne(inode, blocks, i, bn);
        return;
      }
      SameAt(inode, old(blocks), inode, blocks, i, bn);
      LinkDirect(inode, blocks, owner, i, bn, r);
      ghost var inode' := SetAddr(inode, i, bn, r);
      MoreSameBytes(inode, blocks, owner, inode', blocks, i, bn, r, r);
      SameTrans(old(inode), old(blocks), inode, blocks, inode', blocks);
      OneTrans(old(inode), old(blocks), inode, blocks, inode', blocks, i, bn, r);
      MarkedSame(bitmap, owner, start, r, Content(i, bn));
      OneKeepsFiles(old(inode), old(blocks), inode', blocks, i, bn, r);
      ContentInRange(i, bn);
      LogAlloc(old(dirty), old(owner), r, Content(i, bn), bmapstart, |bitmap|, i, bn, bn + 1);
      inode := SetAddr(inode, i, bn, r);
      owner := owner[r := Content(i, bn)];
    }

    /** The body of writei's loop: bytes within one block. */
    method WriteBlock(i: nat, off: nat, d: seq<byte>) returns (ok: bool)
      requires Valid() && i < |inode| && off % BSIZE + |d| <= BSIZE && off < MAXFILE * BSIZE
      modifies this`bits, this`bitmap, this`blocks, this`inode, this`owner, this`dirty
      ensures Valid() && |bitmap| == |old(bitmap)| && SameMeta(old(inode), inode, i)
      ensures AddrsGrow(old(inode), old(blocks), inode, blocks) && OwnerKept(old(owner), owner)
      ensures MayLog(old(dirty), i, off / BSIZE, off / BSIZE + 1)
      ensures ok ==> Wrote(old(inode), old(blocks), inode, blocks, i, off, d) && Addr(inode, blocks, i, off / BSIZE) != 0
      ensures !ok ==> Full() && Addr(inode, blocks, i, off / BSIZE) == 0 && SameBytes(old(inode), old(blocks), inode, blocks)
      ensures AllLogged(old(St()), St(), bmapstart, inodestart, dirty) && old(dirty) <= dirty
    {
      hide LinksOk, Addr, ByteAt, SameAddrs, OneMore, SameBytes, Filled, IndexAddr, Wrote, AddrsGrow, Splice, Marked, AllLogged;
      AddrsGrowSelf(inode, blocks);
      var bn := off / BSIZE;
      var addr := Bmap(i, bn);
      ghost var inode1, blocks1 := inode, blocks;
      if addr == 0 {
        if old(Addr(inode, blocks, i, bn)) == 0 {
          OneGrows(old(inode), old(blocks), inode, blocks, i, bn, addr);
        }
        return false;
      }
      OneGrows(old(inode), old(blocks), inode, blocks, i, bn, addr);
      PutBytes(inode, blocks, owner, i, bn, off % BSIZE, d);
      ghost var blocks' := blocks[addr := Splice(blocks[addr], off % BSIZE, d)];
      assert bn * BSIZE + off % BSIZE == off;
      AddrsKeepFiles(inode, blocks, inode, blocks');
      SameGrows(old(inode), old(blocks), inode, blocks, blocks');
      SameAt(inode, blocks, inode, blocks', i, bn);
      WroteAfter(old(inode), old(blocks), inode, blocks, blocks', i, off, d);
      BlockLogged(old(St()), St(), bmapstart, inodestart, dirty, addr, Splice(blocks[addr], off % BSIZE, d));
      blocks := blocks[addr := Splice(blocks[addr], off % BSIZE, d)];
      dirty := dirty + {addr};
      return true;
    }

    /** iupdate: the inode is stored in its slot of its block, and no other byte
        of the inode blocks changes. */
    method Iupdate(i: nat)
      requires i < |inode| == |dinode| && Stored(iblocks, dinode) && Storable(inode[i])
      modifies this`iblocks, this`dinode, this`dirty
      ensures Stored(iblocks, dinode) && dinode == old(dinode)[i := inode[i]] && dirty == old(dirty) + {inodestart + i / IPB}
      ensures i / IPB < |iblocks| == |old(iblocks)| && HoldsInode(iblocks[i / IPB], i % IPB, inode[i])
      ensures iblocks == old(iblocks)[i / IPB := iblocks[i / IPB]] && |iblocks[i / IPB]| == |old(iblocks)[i / IPB]| == BSIZE
      ensures forall c: nat | c < BSIZE && Spared(i % IPB, c) :: iblocks[i / IPB][c] == old(iblocks)[i / IPB][c]
      ensures AllLogged(old(St()), St(), bmapstart, inodestart, dirty)
    {
      hide HoldsInode, Spared;
      var r := PutInode(iblocks[i / IPB], i % IPB, inode[i]);
      StoreInode(iblocks, dinode, i, inode[i], r);
      iblocks := iblocks[i / IPB := r];
      dinode := dinode[i := inode[i]];
      dirty := dirty + {inodestart + i / IPB};
    }

    /** The loop of writei: all bytes, or as many as fit on the disk. */
    method WriteBlocks(i: nat, src: seq<byte>, off: nat) returns (tot: nat)
      requires Valid() && i < |inode| && off <= inode[i].size && off + |src| <= MAXFILE * BSIZE
      modifies this`bits, this`bitmap, this`blocks, this`inode, this`owner, this`dirty
      ensures Valid() && |bitmap| == |old(bitmap)| && SameMeta(old(inode), inode, i)
      ensures tot <= |src| && (tot < |src| ==> Full() && Addr(inode, blocks, i, (off + tot) / BSIZE) == 0)
      ensures AllLogged(old(St()), St(), bmapstart, inodestart, dirty) && old(dirty) <= dirty
      ensures Wrote(old(inode), old(blocks), inode, blocks, i, off, src[..tot]) && Filled(inode, blocks, i, off + tot)
      ensures MayLog(old(dirty), i, off / BSIZE, EndBlock(off, |src|))
    {
      hide LinksOk, Addr, ByteAt, SameBytes, Filled, FilesOk, Wrote, AddrsGrow, Marked, SameMeta, LogOk, OwnerKept, EndBlock;
      hide AllLogged;
      LoggedSelf(St(), bmapstart, inodestart, dirty);
      var n := |src|;
      var cur := off;
      tot := 0;
      MetaSelf(inode, i);
      WroteNothing(inode, blocks, i, off);
      FilledLess(inode, blocks, i, off);
      LogStart(dirty, owner, bmapstart, |bitmap|, i, off / BSIZE, EndBlock(off, n));
      while tot < n
        invariant tot <= n && cur == off + tot
        invariant Valid() && |bitmap| == |old(bitmap)| && SameMeta(old(inode), inode, i)
        invariant Wrote(old(inode), old(blocks), inode, blocks, i, off, src[..tot]) && Filled(inode, blocks, i, cur)
        invariant MayLog(old(dirty), i, off / BSIZE, EndBlock(off, n))
        invariant AllLogged(old(St()), St(), bmapstart, inodestart, dirty) && old(dirty) <= dirty
        decreases n - tot
      {
        var m := if n - tot < BSIZE - cur % BSIZE then n - tot else BSIZE - cur % BSIZE;
        ghost var inode1, blocks1, owner1, dirty1, st1 := inode, blocks, owner, dirty, St();
        MetaSize(old(inode), inode, i);
        var ok := WriteBlock(i, cur, src[tot..tot + m]);
        LoggedTrans(old(St()), st1, St(), bmapstart, inodestart, dirty1, dirty);
        MetaTrans(old(inode), inode1, inode, i);
        LogMore(old(dirty), dirty1, owner1, dirty, owner, bmapstart, |bitmap|, i, off, n, cur);
        FilledGrow(inode1, blocks1, inode, blocks, i, cur);
        if !ok {
          WroteSame(old(inode), old(blocks), inode1, blocks1, inode, blocks, i, off, src[..tot]);
          break;
        }
        WroteThen(old(inode), old(blocks), inode1, blocks1, inode, blocks, i, off, src, tot, m);
        FilledBlock(inode, blocks, i, cur, m);
        tot, cur := tot + m, cur + m;
      }
    }

    /** The bytes are written up to where the disk is full; -1 and nothing at
        all for a range that begins after the end or is too long. */
    method Writei(i: nat, src: seq<byte>, off: nat) returns (tot: int)
      requires Valid() && i < |inode| && off < 0x1_0000_0000 && |src| < 0x1_0000_0000
      modifies this`bits, this`bitmap, this`blocks, this`inode, this`iblocks, this`dinode, this`owner, this`dirty
      ensures Valid() && |bitmap| == |old(bitmap)| && |inode| == |old(inode)|
      ensures tot == -1 <==> off > old(inode)[i].size || off + |src| > MAXFILE * BSIZE
      ensures tot == -1 ==> unchanged(this)
      ensures AllLogged(old(St()), St(), bmapstart, inodestart, dirty) && old(dirty) <= dirty
      ensures tot != -1 ==> && 0 <= tot <= |src| && (tot < |src| ==> Full() && Addr(inode, blocks, i, (off + tot) / BSIZE) == 0)
                            && Bytes(inode, blocks, i) == Write(Bytes(old(inode), old(blocks), i), off, src[..tot])
                            && inode[i] == old(inode)[i].(size := Max(old(inode)[i].size, off + tot), addrs := inode[i].addrs)
                            && dinode == old(dinode)[i := inode[i]]
      ensures forall j: nat | j < |inode| && j != i :: inode[j] == old(inode)[j] && Bytes(inode, blocks, j) == Bytes(old(inode), old(blocks), j)
      ensures MayLog(old(dirty) + {inodestart + i / IPB}, i, off / BSIZE, EndBlock(off, |src|))
    {
      hide LinksOk, Addr, ByteAt, SameBytes, Filled, Wrote, Marked, Write, Bytes, EndBlock, LogOk, AllLogged, Stored, Packed, HoldsInode, Spared;
      LoggedSelf(St(), bmapstart, inodestart, dirty);
      LogStart(dirty, owner, bmapstart, |bitmap|, i, off / BSIZE, EndBlock(off, |src|));
      LogAdd(dirty, dirty, owner, bmapstart, |bitmap|, i, off / BSIZE, EndBlock(off, |src|), inodestart + i / IPB);
      if off > inode[i].size || (off + |src|) % 0x1_0000_0000 < off {
        return -1;
      }
      if off + |src| > MAXFILE * BSIZE {
        return -1;
      }
      ghost var dirty0 := dirty;
      tot := WriteBlocks(i, src, off);
      ghost var inode1 := inode;
      FilledMax(inode, blocks, i, off + tot);
      SizeKeeps(inode, blocks, owner, i, Max(inode[i].size, off + tot));
      if off + tot > inode[i].size {
        inode := inode[i := inode[i].(size := off + tot)];
      } else {
        assert inode == inode[i := inode[i].(size := Max(inode[i].size, off + tot))];
      }
      WriteDone(old(inode), old(blocks), inode1, blocks, inode, i, off, src[..tot]);
      LogAdd(dirty0, dirty, owner, bmapstart, |bitmap|, i, off / BSIZE, EndBlock(off, |src|), inodestart + i / IPB);
      CanStore(inode, blocks, owner, i);
      SizeAddrs(inode1, inode, blocks, i);
      ghost var st1, dirty1 := St(), dirty;
      Iupdate(i);
      LoggedTrans(old(St()), st1, St(), bmapstart, inodestart, dirty1, dirty);
    }

    /** readi: the bytes that there are.  It never allocates. */
    method Readi(i: nat, off: nat, n: nat) returns (dst: seq<byte>)
      requires Valid() && i < |inode| && off < 0x1_0000_0000 && n < 0x1_0000_0000
      modifies this`bits, this`bitmap, this`blocks, this`inode, this`owner, this`dirty
      ensures unchanged(this)
      ensures dst == if off > inode[i].size || off + n >= 0x1_0000_0000 then [] else
                     Bytes(inode, blocks, i)[off..if off + n > inode[i].size then inode[i].size else off + n]
    {
      hide LinksOk, Addr, Bytes, FilesOk, Marked, SameBytes, OneMore, LogOk, OwnerKept, SameMeta;
      BytesLength(inode, blocks, i);
      ghost var bytes := Bytes(inode, blocks, i);
      dst := [];
      if off > inode[i].size || (off + n) % 0x1_0000_0000 < off {
        return;
      }
      var n' := if off + n > inode[i].size then inode[i].size - off else n;
      var tot, cur := 0, off;
      while tot < n'
        invariant 0 <= tot <= n' && cur == off + tot && unchanged(this)
        invariant dst == bytes[off..cur]
        decreases n' - tot
      {
        var m := if n' - tot < BSIZE - cur % BSIZE then n' - tot else BSIZE - cur % BSIZE;
        HasBlock(inode, blocks, owner, i, cur);
        var addr := Bmap(i, cur / BSIZE);
        BlockBytes(inode, blocks, i, cur, m);
        assert bytes[off..cur] + bytes[cur..cur + m] == bytes[off..cur + m];
        dst := dst + blocks[addr][cur % BSIZE..cur % BSIZE + m];
        tot, cur := tot + m, cur + m;
      }
    }

    /** writei, then readi of the same range: what was written comes back, with
        what was there after it when the disk filled up. */
    method WriteThenRead(i: nat, src: seq<byte>, off: nat) returns (tot: int, dst: seq<byte>)
      requires Valid() && i < |inode| && off < 0x1_0000_0000 && |src| < 0x1_0000_0000
      modifies this`bits, this`bitmap, this`blocks, this`inode, this`iblocks, this`dinode, this`owner, this`dirty
      ensures Valid() && (tot == -1 <==> off > old(inode)[i].size || off + |src| > MAXFILE * BSIZE)
      ensures tot != -1 ==> 0 <= tot <= |src| && tot <= |dst| <= |src| && dst[..tot] == src[..tot]
      ensures tot == |src| ==> dst == src
    {
      hide LinksOk, Marked, Bytes, LogOk, FilesOk, Write, EndBlock, Stored, Packed;
      BytesLength(inode, blocks, i);
      tot := Writei(i, src, off);
      dst := Readi(i, off, |src|);
      if tot != -1 {
        ReadBack(Bytes(old(inode), old(blocks), i), off, src[..tot]);
        BytesLength(inode, blocks, i);
        ghost var bytes := Bytes(inode, blocks, i);
        assert |dst| >= tot && dst == bytes[off..off + |dst|];
        assert dst[..tot] == bytes[off..off + tot];
      }
    }

    /** bfree; the precondition is the check before "freeing free block". */
    method Bfree(b: nat)
      requires Packed(bits, bitmap) && b < |bitmap| && bitmap[b]
      modifies this`bits, this`bitmap, this`dirty
      ensures Packed(bits, bitmap) && bitmap == old(bitmap)[b := false] && dirty == old(dirty) + {bmapstart + b / BPB}
      ensures AllLogged(old(St()), St(), bmapstart, inodestart, dirty)
    {
      hide Packed, BitAt, TestBit, ClearBit;
      PackedClear(bits, bitmap, b);
      var bi := b % BPB;
      BitIndex(b);
      if !TestBit(bits[b / BPB][bi / 8], bi % 8) {
        assert false;   // panic("freeing free block")
      }
      bits := PokeByte(bits, b / BPB, bi / 8, ClearBit(bits[b / BPB][bi / 8], bi % 8));
      bitmap := bitmap[b := false];
      dirty := dirty + {bmapstart + b / BPB};
    }

    /** The block of slot (i, k) goes back to the bitmap. */
    method FreeBlock(i: nat, k: nat, a: nat, ghost owner0: Owner)
      requires MapOk() && Rooted(inode, blocks, owner)
      requires a == Addr(inode, blocks, i, k) && a in owner && owner[a] == Content(i, k) && Freed(owner0, owner, i, k)
      modifies this`bits, this`bitmap, this`owner, this`dirty
      ensures MapOk() && |bitmap| == |old(bitmap)|
      ensures owner == old(owner) - {a} && Freed(owner0, owner, i, k + 1)
      ensures LogOk(old(dirty), dirty, map[], bmapstart, |bitmap|, i, 0, 0)
      ensures AllLogged(old(St()), St(), bmapstart, inodestart, dirty) && old(dirty) <= dirty
    {
      hide Marked, Rooted, Freed, Addr, AllLogged;
      MarkedLess(bitmap, owner, start, a);
      FreedNext(inode, blocks, owner0, owner, i, k);
      Bfree(a);
      owner := owner - {a};
    }

    /** The first loop of itrunc. */
    method TruncDirect(i: nat)
      requires Consistent() && i < |inode|
      modifies this`bits, this`bitmap, this`inode, this`owner, this`dirty
      ensures |bitmap| == |old(bitmap)| && SameMeta(old(inode), inode, i) && MapOk()
      ensures LinksBut(inode, blocks, owner, i, 0) && Freed(old(owner), owner, i, NDIRECT)
      ensures Cleared(inode, i, NDIRECT) && IndexAddr(inode, i) == old(IndexAddr(inode, i))
      ensures LogOk(old(dirty), dirty, map[], bmapstart, |bitmap|, i, 0, 0)
      ensures AllLogged(old(St()), St(), bmapstart, inodestart, dirty) && old(dirty) <= dirty
    {
      hide Marked, LinksBut, Freed, Addr, IndexAddr, LogOk, SameMeta, Cleared, SetAddr, AllLogged;
      LoggedSelf(St(), bmapstart, inodestart, dirty);
      TruncStart(inode, blocks, owner, i);
      MetaSelf(inode, i);
      LogStart(dirty, map[], bmapstart, |bitmap|, i, 0, 0);
      for k := 0 to NDIRECT
        invariant |bitmap| == |old(bitmap)| && SameMeta(old(inode), inode, i) && MapOk()
        invariant LinksBut(inode, blocks, owner, i, 0) && Freed(old(owner), owner, i, k)
        invariant Cleared(inode, i, k) && IndexAddr(inode, i) == old(IndexAddr(inode, i))
        invariant LogOk(old(dirty), dirty, map[], bmapstart, |bitmap|, i, 0, 0)
        invariant AllLogged(old(St()), St(), bmapstart, inodestart, dirty) && old(dirty) <= dirty
      {
        MetaSize(old(inode), inode, i);
        TruncShape(inode, blocks, owner, i, k);
        var a := inode[i].addrs[k];
        if a != 0 {
          ghost var inode1, dirty1, st1 := inode, dirty, St();
          UnlinkDirect(inode, blocks, owner, i, k);
          FreeBlock(i, k, a, old(owner));
          LoggedTrans(old(St()), st1, St(), bmapstart, inodestart, dirty1, dirty);
          LogTrans(old(dirty), dirty1, dirty, bmapstart, |bitmap|, i);
          inode := SetAddr(inode, i, k, 0);
          SetMeta(old(inode), inode1, i, k, 0);
        } else {
          TruncSkip(inode, blocks, old(owner), owner, i, k);
        }
      }
    }

    /** The rest of itrunc's block freeing. */
    method TruncIndirect(i: nat, ghost inode0: seq<Inode>, ghost owner0: Owner)
      requires SameMeta(inode0, inode, i) && MapOk() && i < |inode|
      requires LinksBut(inode, blocks, owner, i, 0) && Freed(owner0, owner, i, NDIRECT) && Cleared(inode, i, NDIRECT)
      modifies this`bits, this`bitmap, this`inode, this`owner, this`dirty
      ensures |bitmap| == |old(bitmap)| && SameMeta(inode0, inode, i) && MapOk()
      ensures LinksBut(inode, blocks, owner, i, 0) && Released(owner0, owner, i) && Cleared(inode, i, NDIRECT + 1)
      ensures LogOk(old(dirty), dirty, map[], bmapstart, |bitmap|, i, 0, 0)
      ensures AllLogged(old(St()), St(), bmapstart, inodestart, dirty) && old(dirty) <= dirty
    {
      hide Marked, LinksBut, Freed, Addr, IndexAddr, LogOk, SameMeta, Cleared, SetAddr, Released, Word, AllLogged;
      LoggedSelf(St(), bmapstart, inodestart, dirty);
      LogStart(dirty, map[], bmapstart, |bitmap|, i, 0, 0);
      ClearedIndex(inode, blocks, owner, i);
      var x := inode[i].addrs[NDIRECT];
      if x == 0 {
        NoIndirect(inode, blocks, owner0, owner, i);
        return;
      }
      for j := 0 to NINDIRECT
        invariant |bitmap| == |old(bitmap)| && MapOk() && inode == old(inode)
        invariant LinksBut(inode, blocks, owner, i, j) && Freed(owner0, owner, i, NDIRECT + j)
        invariant AllLogged(old(St()), St(), bmapstart, inodestart, dirty) && old(dirty) <= dirty
        invariant LogOk(old(dirty), dirty, map[], bmapstart, |bitmap|, i, 0, 0)
      {
        UnlinkIndirect(inode, blocks, owner, i, j);
        IndirectAddr(inode, blocks, owner, i, j);
        var a := Word(blocks[x], j);
        if a != 0 {
          ghost var dirty1, st1 := dirty, St();
          FreeBlock(i, NDIRECT + j, a, owner0);
          LoggedTrans(old(St()), st1, St(), bmapstart, inodestart, dirty1, dirty);
          LogTrans(old(dirty), dirty1, dirty, bmapstart, |bitmap|, i);
        } else {
          FreedNext(inode, blocks, owner0, owner, i, NDIRECT + j);
          assert owner - {0} == owner;
        }
      }
      UnlinkIndex(inode, blocks, owner0, owner, i);
      MarkedLess(bitmap, owner, start, x);
      ReleasedIndex(inode, blocks, owner0, owner, i);
      SetMeta(inode0, inode, i, NDIRECT, 0);
      ghost var dirty2, st2 := dirty, St();
      Bfree(x);
      LoggedTrans(old(St()), st2, St(), bmapstart, inodestart, dirty2, dirty);
      LogBit(dirty2, x, bmapstart, |bitmap|, i);
      LogTrans(old(dirty), dirty2, dirty, bmapstart, |bitmap|, i);
      inode := SetAddr(inode, i, NDIRECT, 0);
      owner := owner - {x};
    }

    /** itrunc: exactly the blocks of inode i become free. */
    method Itrunc(i: nat)
      requires Valid() && i < |inode|
      modifies this`bits, this`bitmap, this`inode, this`iblocks, this`dinode, this`owner, this`dirty
      ensures Valid() && |bitmap| == |old(bitmap)|
      ensures inode == old(inode)[i := old(inode)[i].(size := 0, addrs := NoAddrs())] && dinode == old(dinode)[i := inode[i]]
      ensures Released(old(owner), owner, i)
      ensures forall b | 0 <= b < |bitmap| :: bitmap[b] <==> old(bitmap)[b] && !(b in old(owner) && InRange(old(owner)[b], i, 0, MAXFILE))
      ensures forall j: nat | j < |inode| && j != i :: Bytes(inode, blocks, j) == Bytes(old(inode), blocks, j)
      ensures LogOk(old(dirty) + {inodestart + i / IPB}, dirty, map[], bmapstart, |bitmap|, i, 0, 0)
      ensures AllLogged(old(St()), St(), bmapstart, inodestart, dirty) && old(dirty) <= dirty
    {
      hide AllLogged, Stored;
      hide LinksOk, Marked, LinksBut, Freed, Addr, Bytes, IndexAddr, LogOk, SameMeta, Cleared, Released, FilesOk;
      TruncDirect(i);
      MetaSize(old(inode), inode, i);
      ghost var dirty1, st1 := dirty, St();
      TruncIndirect(i, old(inode), old(owner));
      LoggedTrans(old(St()), st1, St(), bmapstart, inodestart, dirty1, dirty);
      LogTrans(old(dirty), dirty1, dirty, bmapstart, |bitmap|, i);
      LogAdd(old(dirty), dirty, map[], bmapstart, |bitmap|, i, 0, 0, inodestart + i / IPB);
      MetaSize(old(inode), inode, i);
      Truncated(old(inode), inode, blocks, old(owner), owner, i);
      BitsReleased(old(bitmap), old(owner), bitmap, owner, start, i);
      inode := inode[i := inode[i].(size := 0)];
      CanStore(inode, blocks, owner, i);
      ghost var dirty2, st2 := dirty, St();
      Iupdate(i);
      LoggedTrans(old(St()), st2, St(), bmapstart, inodestart, dirty2, dirty);
    }

    /** The branch of iput that frees the inode: the last reference to an inode
        without links. */
    method FreeInode(i: nat)
      requires Valid() && i < |inode| && inode[i].nlink == 0
      modifies this`bits, this`bitmap, this`inode, this`iblocks, this`dinode, this`owner, this`dirty
      ensures Valid() && |bitmap| == |old(bitmap)|
      ensures inode == old(inode)[i := Inode(0, 0, 0, NoAddrs())] && dinode == old(dinode)[i := inode[i]]
      ensures Released(old(owner), owner, i)
      ensures forall j: nat | j < |inode| && j != i :: Bytes(inode, blocks, j) == Bytes(old(inode), blocks, j)
      ensures LogOk(old(dirty) + {inodestart + i / IPB}, dirty, map[], bmapstart, |bitmap|, i, 0, 0)
      ensures AllLogged(old(St()), St(), bmapstart, inodestart, dirty) && old(dirty) <= dirty
    {
      hide AllLogged, Stored;
      hide LinksOk, Marked, Addr, Bytes, IndexAddr, LogOk, Released, FilesOk;
      Itrunc(i);
      LogAdd(old(dirty) + {inodestart + i / IPB}, dirty, map[], bmapstart, |bitmap|, i, 0, 0, inodestart + i / IPB);
      assert old(dirty) + {inodestart + i / IPB} + {inodestart + i / IPB} == old(dirty) + {inodestart + i / IPB};
      TypeKeeps(inode, blocks, owner, i, 0);
      inode := inode[i := inode[i].(typ := 0)];
      CanStore(inode, blocks, owner, i);
      ghost var dirty1, st1 := dirty, St();
      Iupdate(i);
      LoggedTrans(old(St()), st1, St(), bmapstart, inodestart, dirty1, dirty);
    }

    ghost predicate Orphan(i: nat)
      reads this
    {
      i < |inode| && inode[i].typ != 0 && inode[i].nlink == 0
    }

    /** One inode of the scan, in a transaction of its own. */
    method Reclaim(inum: nat) returns (freed: bool)
      requires Valid() && dinode == inode && 0 < inum < |inode|
      modifies this`bits, this`bitmap, this`inode, this`iblocks, this`dinode, this`owner, this`dirty
      ensures Valid() && dinode == inode && |inode| == |old(inode)| && |bitmap| == |old(bitmap)|
      ensures freed <==> old(Orphan(inum))
      ensures freed ==> inode[inum].typ == 0
      ensures freed ==> AllLogged(old(St()), St(), bmapstart, inodestart, dirty) && (|bitmap| <= BPB ==> |dirty| <= 2)
      ensures forall i: nat | i < |inode| && i != inum :: inode[i] == old(inode)[i] && Bytes(inode, blocks, i) == Bytes(old(inode), blocks, i)
      ensures !freed ==> St() == old(St()) && inode == old(inode)
    {
      hide LinksOk, Marked, Bytes, LogOk, Released, FilesOk, AllLogged;
      var b := iblocks[inum / IPB];
      assert HoldsInode(b, inum % IPB, dinode[inum]);
      freed := Half(b, 32 * (inum % IPB)) != 0 && Half(b, 32 * (inum % IPB) + 3) == 0;
      if freed {
        dirty := {};
        FreeInode(inum);
        FreedFew(dirty, bmapstart, |bitmap|, inum, inodestart + inum / IPB);
      }
    }

    /** ireclaim, before any process runs: every inode without links is freed,
        each in a transaction of its own, and no other file is touched. */
    method Ireclaim() returns (ghost ops: seq<set<nat>>)
      requires Valid() && dinode == inode
      modifies this`bits, this`bitmap, this`inode, this`iblocks, this`dinode, this`owner, this`dirty
      ensures Valid() && dinode == inode && |inode| == |old(inode)|
      ensures forall i: nat | i > 0 :: !Orphan(i)
      ensures forall i: nat | i < |inode| && !(i > 0 && old(Orphan(i))) ::
                inode[i] == old(inode)[i] && Bytes(inode, blocks, i) == Bytes(old(inode), blocks, i)
      ensures forall i: nat | i > 0 && old(Orphan(i)) :: inode[i].typ == 0
      ensures |bitmap| == |old(bitmap)| && (|bitmap| <= BPB ==> forall op | op in ops :: |op| <= 2)
      ensures AllLogged(old(St()), St(), bmapstart, inodestart, Union(ops))
    {
      hide LinksOk, Marked, Bytes, LogOk, Released, FilesOk, AllLogged, Stored, Union;
      LoggedSelf(St(), bmapstart, inodestart, {});
      UnionNone();
      ops := [];
      var inum := 1;
      while inum < |inode|
        invariant inum > 0
        invariant |bitmap| == |old(bitmap)| && (|bitmap| <= BPB ==> forall op | op in ops :: |op| <= 2)
        invariant AllLogged(old(St()), St(), bmapstart, inodestart, Union(ops))
        invariant Valid() && dinode == inode && |inode| == |old(inode)|
        invariant forall i: nat | 0 < i < inum :: !Orphan(i) && (old(Orphan(i)) ==> inode[i].typ == 0)
        invariant forall i: nat | i < |inode| && !(0 < i < inum && old(Orphan(i))) ::
                    inode[i] == old(inode)[i] && Bytes(inode, blocks, i) == Bytes(old(inode), blocks, i)
      {
        ghost var st1 := St();
        var freed := Reclaim(inum);
        if freed {
          UnionMore(ops, dirty);
          LoggedMore(st1, St(), bmapstart, inodestart, dirty, Union(ops + [dirty]));
          LoggedTrans(old(St()), st1, St(), bmapstart, inodestart, Union(ops), Union(ops + [dirty]));
          ops := ops + [dirty];
        }
        inum := inum + 1;
      }
    }

    /** The loop of filewrite over an inode.  Each element of ops is the set of
        blocks that one transaction logs. */
    method FileWrite(i: nat, off: nat, data: seq<byte>) returns (ret: int, off': nat, ghost ops: seq<set<nat>>)
      requires Valid() && i < |inode| && off < 0x1_0000_0000 && |data| < 0x8000_0000
      modifies this`bits, this`bitmap, this`blocks, this`inode, this`iblocks, this`dinode, this`owner, this`dirty
      ensures Valid() && |inode| == |old(inode)| && |bitmap| == |old(bitmap)|
      ensures off <= off' <= off + |data| && (ret == |data| <==> off' == off + |data|) && (ret == |data| || ret == -1)
      ensures if off > old(inode)[i].size then off' == off && Bytes(inode, blocks, i) == Bytes(old(inode), old(blocks), i)
              else Bytes(inode, blocks, i) == Write(Bytes(old(inode), old(blocks), i), off, data[..off' - off])
      ensures forall j: nat | j < |inode| && j != i :: inode[j] == old(inode)[j] && Bytes(inode, blocks, j) == Bytes(old(inode), old(blocks), j)
      ensures |bitmap| <= BPB ==> forall op | op in ops :: |op| <= 7
      ensures AllLogged(old(St()), St(), bmapstart, inodestart, Union(ops))
      ensures ret == -1 ==> || off > old(inode)[i].size || off + |data| > MAXFILE * BSIZE
                            || (Full() && Addr(inode, blocks, i, off' / BSIZE) == 0)
      ensures data != [] && (off > old(inode)[i].size || off + |data| > MAXFILE * BSIZE) ==> ret == -1
    {
      hide LinksOk, Marked, Bytes, LogOk, FilesOk, Write, EndBlock, AllLogged, Addr, Stored, Packed, Union;
      LoggedSelf(St(), bmapstart, inodestart, {});
      UnionNone();
      var max := (MAXOPBLOCKS - 1 - 1 - 2) / 2 * BSIZE;
      var n := |data|;
      var k := 0;
      off', ops := off, [];
      WriteNone(inode, blocks, i, off);
      while k < n
        invariant 0 <= k <= n && off' == off + k && off' < 0x1_0000_0000
        invariant Valid() && |inode| == |old(inode)| && |bitmap| == |old(bitmap)|
        invariant off > old(inode)[i].size ==> k == 0 && Bytes(inode, blocks, i) == Bytes(old(inode), old(blocks), i)
        invariant off <= old(inode)[i].size ==> Bytes(inode, blocks, i) == Write(Bytes(old(inode), old(blocks), i), off, data[..k])
        invariant forall j: nat | j < |inode| && j != i :: inode[j] == old(inode)[j] && Bytes(inode, blocks, j) == Bytes(old(inode), old(blocks), j)
        invariant |bitmap| <= BPB ==> forall op | op in ops :: |op| <= 7
        invariant AllLogged(old(St()), St(), bmapstart, inodestart, Union(ops))
        invariant off <= old(inode)[i].size ==> off + k <= inode[i].size
        decreases n - k
      {
        var n1 := if n - k > max then max else n - k;
        ghost var st1 := St();
        WriteNone(inode, blocks, i, off');
        var r := WriteChunk(i, data[k..k + n1], off');
        UnionMore(ops, dirty);
        LoggedMore(st1, St(), bmapstart, inodestart, dirty, Union(ops + [dirty]));
        LoggedTrans(old(St()), st1, St(), bmapstart, inodestart, Union(ops), Union(ops + [dirty]));
        ops := ops + [dirty];
        if r != -1 {
          WriteNone(old(inode), old(blocks), i, off);
          WriteThen(Bytes(old(inode), old(blocks), i), off, data, k, n1, r);
        }
        if r > 0 {
          off' := off' + r;
        }
        if r != n1 {
          break;
        }
        k := k + r;
      }
      SizeBound(inode, blocks, i);
      ret := if k == n then n else -1;
    }

    /** One transaction of filewrite. */
    method WriteChunk(i: nat, d: seq<byte>, off: nat) returns (r: int)
      requires Valid() && i < |inode| && off < 0x1_0000_0000 && 0 < |d| <= (MAXOPBLOCKS - 1 - 1 - 2) / 2 * BSIZE
      modifies this`bits, this`bitmap, this`blocks, this`inode, this`iblocks, this`dinode, this`owner, this`dirty
      ensures Valid() && |bitmap| == |old(bitmap)| && |inode| == |old(inode)|
      ensures r == -1 <==> off > old(inode)[i].size || off + |d| > MAXFILE * BSIZE
      ensures r == -1 ==> inode == old(inode) && blocks == old(blocks)
      ensures r != -1 ==> && 0 <= r <= |d| && (r < |d| ==> Full() && Addr(inode, blocks, i, (off + r) / BSIZE) == 0)
                          && Bytes(inode, blocks, i) == Write(Bytes(old(inode), old(blocks), i), off, d[..r])
                          && inode[i].size == Max(old(inode)[i].size, off + r)
      ensures forall j: nat | j < |inode| && j != i :: inode[j] == old(inode)[j] && Bytes(inode, blocks, j) == Bytes(old(inode), old(blocks), j)
      ensures |bitmap| <= BPB ==> |dirty| <= 7
      ensures AllLogged(old(St()), St(), bmapstart, inodestart, dirty)
    {
      hide LinksOk, Marked, Bytes, LogOk, FilesOk, Write, EndBlock, AllLogged, Addr, Stored, Packed;
      dirty := {};
      r := Writei(i, d, off);
      DirtyFew(inode, blocks, owner, dirty, bmapstart, |bitmap|, i, off, |d|, inodestart + i / IPB);
    }
  }

  // What has to be logged.

  /** The blocks that operations change. */
  datatype Store = Store(bits: seq<Block>, blocks: seq<Block>, iblocks: seq<Block>)

  /** Every block that changed is among those given to log_write. */
  ghost predicate AllLogged(s: Store, s': Store, bmapstart: nat, inodestart: nat, dirty: set<nat>) {
    && |s'.bits| == |s.bits| && |s'.blocks| == |s.blocks| && |s'.iblocks| == |s.iblocks|
    && (forall x | 0 <= x < |s.bits| && s'.bits[x] != s.bits[x] :: bmapstart + x in dirty)
    && (forall b | 0 <= b < |s.blocks| && s'.blocks[b] != s.blocks[b] :: b in dirty)
    && (forall x | 0 <= x < |s.iblocks| && s'.iblocks[x] != s.iblocks[x] :: inodestart + x in dirty)
  }

  lemma LoggedSelf(s: Store, bmapstart: nat, inodestart: nat, dirty: set<nat>)
    ensures AllLogged(s, s, bmapstart, inodestart, dirty)
  {
  }

  lemma LoggedTrans(s: Store, s1: Store, s2: Store, bmapstart: nat, inodestart: nat, dirty1: set<nat>, dirty2: set<nat>)
    requires AllLogged(s, s1, bmapstart, inodestart, dirty1) && dirty1 <= dirty2
    requires AllLogged(s1, s2, bmapstart, inodestart, dirty2)
    ensures AllLogged(s, s2, bmapstart, inodestart, dirty2)
  {
  }

  lemma LoggedMore(s: Store, s': Store, bmapstart: nat, inodestart: nat, dirty: set<nat>, dirty': set<nat>)
    requires AllLogged(s, s', bmapstart, inodestart, dirty) && dirty <= dirty'
    ensures AllLogged(s, s', bmapstart, inodestart, dirty')
  {
  }

  lemma SizeBound(inode: seq<Inode>, blocks: seq<Block>, i: nat)
    requires FilesOk(inode, blocks) && i < |inode|
    ensures inode[i].size <= MAXFILE * BSIZE
  {
  }

  lemma BitLogged(s: Store, bmapstart: nat, inodestart: nat, dirty: set<nat>, x: nat, i: nat, v: byte, r: nat)
    requires r < |s.blocks|
    ensures AllLogged(s, s.(bits := PokeByte(s.bits, x, i, v), blocks := s.blocks[r := ZeroBlock()]), bmapstart, inodestart,
                      dirty + {bmapstart + x, r})
  {
  }

  lemma BlockLogged(s: Store, s1: Store, bmapstart: nat, inodestart: nat, dirty: set<nat>, b: nat, block: Block)
    requires AllLogged(s, s1, bmapstart, inodestart, dirty) && b < |s1.blocks|
    ensures AllLogged(s, s1.(blocks := s1.blocks[b := block]), bmapstart, inodestart, dirty + {b})
  {
  }

  ghost function Union(ops: seq<set<nat>>): set<nat> {
    if ops == [] then {} else Union(ops[..|ops| - 1]) + ops[|ops| - 1]
  }

  lemma UnionNone()
    ensures Union([]) == {}
  {
  }

  lemma UnionMore(ops: seq<set<nat>>, op: set<nat>)
    ensures Union(ops + [op]) == Union(ops) + op
  {
    assert (ops + [op])[..|ops|] == ops;
  }

  /** Only sizes differ, so the block addresses are the same. */
  lemma SizeAddrs(inode: seq<Inode>, inode': seq<Inode>, blocks: seq<Block>, i: nat)
    requires i < |inode| == |inode'| && inode' == inode[i := inode[i].(size := inode'[i].size)]
    ensures forall bn: nat :: Addr(inode', blocks, i, bn) == Addr(inode, blocks, i, bn)
  {
  }

  lemma SameSelf(inode: seq<Inode>, blocks: seq<Block>)
    ensures SameAddrs(inode, blocks, inode, blocks) && SameBytes(inode, blocks, inode, blocks)
  {
  }

  /** Only block addresses of inode i differ. */
  ghost predicate SameMeta(inode: seq<Inode>, inode': seq<Inode>, i: nat) {
    && |inode'| == |inode|
    && (forall j | 0 <= j < |inode| && j != i :: inode'[j] == inode[j])
    && (i < |inode| ==> inode'[i] == inode[i].(addrs := inode'[i].addrs))
  }

  lemma CanStore(inode: seq<Inode>, blocks: seq<Block>, owner: Owner, i: nat)
    requires LinksOk(inode, blocks, owner) && FilesOk(inode, blocks) && i < |inode|
    ensures Storable(inode[i])
  {
    InodeShape(inode, blocks, owner, i);
    forall k: nat | k < NDIRECT ensures inode[i].addrs[k] < 0x1_0000_0000 {
      assert inode[i].addrs[k] == Addr(inode, blocks, i, k);
    }
  }

  lemma ZeroInodes(iblocks: seq<Block>, dinode: seq<Inode>)
    requires |dinode| <= |iblocks| * IPB && forall x | 0 <= x < |iblocks| :: iblocks[x] == ZeroBlock()
    requires forall i | 0 <= i < |dinode| :: dinode[i] == Inode(0, 0, 0, NoAddrs())
    ensures Stored(iblocks, dinode)
  {
  }

  lemma InodeShape(inode: seq<Inode>, blocks: seq<Block>, owner: Owner, i: nat)
    requires LinksOk(inode, blocks, owner) && i < |inode|
    ensures |inode[i].addrs| == NDIRECT + 1 && inode[i].addrs[NDIRECT] == IndexAddr(inode, i)
    ensures forall bn: nat | bn < NDIRECT :: inode[i].addrs[bn] == Addr(inode, blocks, i, bn)
    ensures |blocks| < 0x1_0000_0000 && (IndexAddr(inode, i) != 0 ==> IndexAddr(inode, i) < |blocks|)
    ensures IndexAddr(inode, i) != 0 ==> forall bn: nat | NDIRECT <= bn < MAXFILE :: Addr(inode, blocks, i, bn) == Word(blocks[IndexAddr(inode, i)], bn - NDIRECT)
  {
  }

  lemma IndexSameBytes(inode: seq<Inode>, blocks: seq<Block>, inode1: seq<Inode>, blocks1: seq<Block>, inode2: seq<Inode>)
    requires SameAddrs(inode, blocks, inode1, blocks1) && SameBytes(inode, blocks, inode1, blocks1)
    requires SameAddrs(inode1, blocks1, inode2, blocks1)
    ensures SameAddrs(inode, blocks, inode2, blocks1) && SameBytes(inode, blocks, inode2, blocks1)
  {
  }

  lemma MarkedSame(bitmap: seq<bool>, owner: Owner, start: nat, b: nat, slot: Slot)
    requires Marked(bitmap, owner, start) && b in owner
    ensures Marked(bitmap, owner[b := slot], start)
  {
  }

  lemma AddrsKeepFiles(inode: seq<Inode>, blocks: seq<Block>, inode': seq<Inode>, blocks': seq<Block>)
    requires FilesOk(inode, blocks) && SameAddrs(inode, blocks, inode', blocks') && |inode'| == |inode|
    requires forall i | 0 <= i < |inode| :: inode'[i].size == inode[i].size
    ensures FilesOk(inode', blocks')
  {
  }

  lemma SameOne(inode: seq<Inode>, blocks: seq<Block>, i: nat, bn: nat)
    ensures OneMore(inode, blocks, inode, blocks, i, bn, Addr(inode, blocks, i, bn))
  {
  }

  lemma SameIsOne(inode: seq<Inode>, blocks: seq<Block>, inode': seq<Inode>, blocks': seq<Block>, i: nat, bn: nat)
    requires SameAddrs(inode, blocks, inode', blocks') && bn < MAXFILE
    ensures OneMore(inode, blocks, inode', blocks', i, bn, Addr(inode', blocks', i, bn))
    ensures Addr(inode', blocks', i, bn) == Addr(inode, blocks, i, bn)
  {
  }

  lemma SameAt(inode: seq<Inode>, blocks: seq<Block>, inode': seq<Inode>, blocks': seq<Block>, i: nat, bn: nat)
    requires SameAddrs(inode, blocks, inode', blocks') && bn < MAXFILE
    ensures Addr(inode', blocks', i, bn) == Addr(inode, blocks, i, bn)
  {
  }

  lemma OneTrans(inode: seq<Inode>, blocks: seq<Block>, inode1: seq<Inode>, blocks1: seq<Block>, inode2: seq<Inode>,
                 blocks2: seq<Block>, i: nat, bn: nat, b: nat)
    requires SameAddrs(inode, blocks, inode1, blocks1) && OneMore(inode1, blocks1, inode2, blocks2, i, bn, b) && bn < MAXFILE
    ensures OneMore(inode, blocks, inode2, blocks2, i, bn, b) && Addr(inode2, blocks2, i, bn) == b
  {
  }

  lemma OneKeepsFiles(inode: seq<Inode>, blocks: seq<Block>, inode': seq<Inode>, blocks': seq<Block>, i: nat, bn: nat, b: nat)
    requires FilesOk(inode, blocks) && OneMore(inode, blocks, inode', blocks', i, bn, b) && b != 0 && |inode'| == |inode|
    requires forall i | 0 <= i < |inode| :: inode'[i].size == inode[i].size
    ensures FilesOk(inode', blocks')
  {
  }

  lemma NoIndex(inode: seq<Inode>, blocks: seq<Block>, i: nat, bn: nat)
    requires bn >= NDIRECT && IndexAddr(inode, i) == 0
    ensures Addr(inode, blocks, i, bn) == 0
  {
  }

  lemma IndexOwned(inode: seq<Inode>, blocks: seq<Block>, owner: Owner, i: nat)
    requires LinksOk(inode, blocks, owner) && IndexAddr(inode, i) != 0
    ensures IndexAddr(inode, i) in owner && owner[IndexAddr(inode, i)] == Index(i) && IndexAddr(inode, i) < |blocks|
  {
  }

  ghost predicate InRange(slot: Slot, i: nat, lo: nat, hi: nat) {
    slot == Index(i) || (slot.Content? && slot.i == i && lo <= slot.bn < hi)
  }

  ghost predicate OwnerKept(owner: Owner, owner': Owner) {
    forall b | b in owner :: b in owner' && owner'[b] == owner[b]
  }

  // Writing bytes.

  function Splice(b: Block, pos: nat, d: seq<byte>): (r: Block)
    requires pos + |d| <= |b|
    ensures |r| == |b| && forall k | 0 <= k < |b| :: r[k] == if pos <= k < pos + |d| then d[k - pos] else b[k]
  {
    b[..pos] + d + b[pos + |d|..]
  }

  /** Exactly the bytes from off on are those of d. */
  ghost predicate Wrote(inode: seq<Inode>, blocks: seq<Block>, inode': seq<Inode>, blocks': seq<Block>, i: nat,
                        off: nat, d: seq<byte>) {
    forall i': nat, k: nat | k < MAXFILE * BSIZE ::
      ByteAt(inode', blocks', i', k) == if i' == i && off <= k < off + |d| then d[k - off] else ByteAt(inode, blocks, i', k)
  }

  lemma PutBytes(inode: seq<Inode>, blocks: seq<Block>, owner: Owner, i: nat, bn: nat, pos: nat, d: seq<byte>)
    requires LinksOk(inode, blocks, owner) && bn < MAXFILE && Addr(inode, blocks, i, bn) != 0 && pos + |d| <= BSIZE
    ensures var b := Addr(inode, blocks, i, bn);
            && 0 < b < |blocks| && |blocks[b]| == BSIZE && b in owner && owner[b] == Content(i, bn)
            && var blocks' := blocks[b := Splice(blocks[b], pos, d)];
            && LinksOk(inode, blocks', owner) && SameAddrs(inode, blocks, inode, blocks')
            && Wrote(inode, blocks, inode, blocks', i, bn * BSIZE + pos, d)
  {
    hide IndexAddr;
    var b := Addr(inode, blocks, i, bn);
    assert b in owner;
    var blocks' := blocks[b := Splice(blocks[b], pos, d)];
    StoreBlock(inode, blocks, owner, b, Splice(blocks[b], pos, d));
    forall i': nat, k: nat | k < MAXFILE * BSIZE
      ensures ByteAt(inode, blocks', i', k)
              == if i' == i && bn * BSIZE + pos <= k < bn * BSIZE + pos + |d| then d[k - (bn * BSIZE + pos)] else ByteAt(inode, blocks, i', k)
    {
      PutByte(inode, blocks, owner, i, bn, pos, d, blocks', i', k);
    }
  }

  lemma PutByte(inode: seq<Inode>, blocks: seq<Block>, owner: Owner, i: nat, bn: nat, pos: nat, d: seq<byte>,
                blocks': seq<Block>, i': nat, k: nat)
    requires LinksOk(inode, blocks, owner) && bn < MAXFILE && pos + |d| <= BSIZE && k < MAXFILE * BSIZE
    requires var b := Addr(inode, blocks, i, bn); 0 < b < |blocks| && |blocks[b]| == BSIZE && blocks' == blocks[b := Splice(blocks[b], pos, d)]
    requires SameAddrs(inode, blocks, inode, blocks')
    ensures ByteAt(inode, blocks', i', k)
            == if i' == i && bn * BSIZE + pos <= k < bn * BSIZE + pos + |d| then d[k - (bn * BSIZE + pos)] else ByteAt(inode, blocks, i', k)
  {
  }

  ghost predicate AddrsGrow(inode: seq<Inode>, blocks: seq<Block>, inode': seq<Inode>, blocks': seq<Block>) {
    forall i: nat, bn: nat | bn < MAXFILE && Addr(inode, blocks, i, bn) != 0 :: Addr(inode', blocks', i, bn) != 0
  }

  lemma AddrsGrowSelf(inode: seq<Inode>, blocks: seq<Block>)
    ensures AddrsGrow(inode, blocks, inode, blocks)
  {
  }

  lemma OneGrows(inode: seq<Inode>, blocks: seq<Block>, inode': seq<Inode>, blocks': seq<Block>, i: nat, bn: nat, b: nat)
    requires OneMore(inode, blocks, inode', blocks', i, bn, b) && (b != 0 || Addr(inode, blocks, i, bn) == 0)
    ensures AddrsGrow(inode, blocks, inode', blocks')
  {
  }

  lemma SameGrows(inode: seq<Inode>, blocks: seq<Block>, inode': seq<Inode>, blocks': seq<Block>, blocks'': seq<Block>)
    requires AddrsGrow(inode, blocks, inode', blocks') && SameAddrs(inode', blocks', inode', blocks'')
    ensures AddrsGrow(inode, blocks, inode', blocks'')
  {
  }

  lemma WroteAfter(inode: seq<Inode>, blocks: seq<Block>, inode': seq<Inode>, blocks': seq<Block>,
                   blocks'': seq<Block>, i: nat, off: nat, d: seq<byte>)
    requires SameBytes(inode, blocks, inode', blocks') && Wrote(inode', blocks', inode', blocks'', i, off, d)
    ensures Wrote(inode, blocks, inode', blocks'', i, off, d)
  {
  }

  function Max(a: nat, b: nat): nat { if a < b then b else a }

  /** s with d from off on, which is at most the length of s. */
  function Write(s: seq<byte>, off: nat, d: seq<byte>): seq<byte>
    requires off <= |s|
  {
    s[..off] + d + if off + |d| < |s| then s[off + |d|..] else []
  }

  lemma ReadBack(s: seq<byte>, off: nat, d: seq<byte>)
    requires off <= |s|
    ensures |Write(s, off, d)| == Max(|s|, off + |d|) && Write(s, off, d)[off..off + |d|] == d
  {
  }

  lemma WroteNothing(inode: seq<Inode>, blocks: seq<Block>, i: nat, off: nat)
    ensures Wrote(inode, blocks, inode, blocks, i, off, [])
  {
  }

  lemma FilledLess(inode: seq<Inode>, blocks: seq<Block>, i: nat, n: nat)
    requires FilesOk(inode, blocks) && i < |inode| && n <= inode[i].size
    ensures Filled(inode, blocks, i, n)
  {
  }

  ghost predicate LogOk(logged: set<nat>, dirty: set<nat>, owner: Owner, bmapstart: nat, size: nat, i: nat, lo: nat, hi: nat) {
    forall b | b in dirty ::
      b in logged || (bmapstart <= b && (b - bmapstart) * BPB < size) || (b in owner && InRange(owner[b], i, lo, hi))
  }

  /** One more than the last block that has a byte of [off, off + n). */
  function EndBlock(off: nat, n: nat): nat {
    (off + n + BSIZE - 1) / BSIZE
  }

  lemma LogStart(dirty: set<nat>, owner: Owner, bmapstart: nat, size: nat, i: nat, lo: nat, hi: nat)
    ensures LogOk(dirty, dirty, owner, bmapstart, size, i, lo, hi)
  {
  }

  lemma NothingLogged(dirty: set<nat>, owner: Owner, bmapstart: nat, size: nat, i: nat, lo: nat, hi: nat)
    ensures LogOk(dirty, dirty, owner, bmapstart, size, i, lo, hi) && OwnerKept(owner, owner)
  {
  }

  lemma ContentInRange(i: nat, bn: nat)
    ensures InRange(Content(i, bn), i, bn, bn + 1) && InRange(Index(i), i, 0, 0)
  {
  }

  lemma LogAdd(logged: set<nat>, dirty: set<nat>, owner: Owner, bmapstart: nat, size: nat, i: nat, lo: nat, hi: nat, b: nat)
    requires LogOk(logged, dirty, owner, bmapstart, size, i, lo, hi)
    ensures LogOk(logged + {b}, dirty + {b}, owner, bmapstart, size, i, lo, hi)
    ensures LogOk(logged + {b}, dirty, owner, bmapstart, size, i, lo, hi)
  {
  }

  lemma LogAlloc(dirty: set<nat>, owner: Owner, r: nat, slot: Slot, bmapstart: nat, size: nat, i: nat, lo: nat, hi: nat)
    requires r < size && r !in owner && InRange(slot, i, lo, hi)
    ensures var owner' := owner[r := Pending][r := slot];
            && LogOk(dirty, dirty + {bmapstart + r / BPB, r}, owner', bmapstart, size, i, lo, hi) && OwnerKept(owner, owner')
            && forall x | x in owner && owner[x] == Index(i) :: LogOk(dirty, dirty + {bmapstart + r / BPB, r} + {x}, owner', bmapstart, size, i, lo, hi)
  {
  }

  lemma LogMore(logged: set<nat>, dirty: set<nat>, owner: Owner, dirty': set<nat>, owner': Owner, bmapstart: nat,
                size: nat, i: nat, off: nat, n: nat, cur: nat)
    requires LogOk(logged, dirty, owner, bmapstart, size, i, off / BSIZE, EndBlock(off, n)) && OwnerKept(owner, owner')
    requires LogOk(dirty, dirty', owner', bmapstart, size, i, cur / BSIZE, cur / BSIZE + 1) && off <= cur < off + n
    ensures LogOk(logged, dirty', owner', bmapstart, size, i, off / BSIZE, EndBlock(off, n))
  {
  }

  lemma MetaSelf(inode: seq<Inode>, i: nat)
    ensures SameMeta(inode, inode, i)
  {
  }

  lemma MetaSize(inode: seq<Inode>, inode': seq<Inode>, i: nat)
    requires SameMeta(inode, inode', i)
    ensures |inode'| == |inode|
  {
  }

  lemma MetaTrans(inode: seq<Inode>, inode1: seq<Inode>, inode2: seq<Inode>, i: nat)
    requires SameMeta(inode, inode1, i) && SameMeta(inode1, inode2, i)
    ensures SameMeta(inode, inode2, i)
  {
  }

  lemma WroteThen(inode: seq<Inode>, blocks: seq<Block>, inode1: seq<Inode>, blocks1: seq<Block>, inode2: seq<Inode>,
                  blocks2: seq<Block>,
                  i: nat, off: nat, src: seq<byte>, tot: nat, m: nat)
    requires tot + m <= |src| && Wrote(inode, blocks, inode1, blocks1, i, off, src[..tot])
    requires Wrote(inode1, blocks1, inode2, blocks2, i, off + tot, src[tot..tot + m])
    ensures Wrote(inode, blocks, inode2, blocks2, i, off, src[..tot + m])
  {
  }

  lemma FilledMax(inode: seq<Inode>, blocks: seq<Block>, i: nat, n: nat)
    requires FilesOk(inode, blocks) && i < |inode| && Filled(inode, blocks, i, n)
    ensures Filled(inode, blocks, i, Max(inode[i].size, n))
  {
  }

  lemma WroteSame(inode: seq<Inode>, blocks: seq<Block>, inode1: seq<Inode>, blocks1: seq<Block>, inode2: seq<Inode>,
                  blocks2: seq<Block>, i: nat, off: nat, d: seq<byte>)
    requires Wrote(inode, blocks, inode1, blocks1, i, off, d) && SameBytes(inode1, blocks1, inode2, blocks2)
    ensures Wrote(inode, blocks, inode2, blocks2, i, off, d)
  {
  }

  lemma FilledGrow(inode: seq<Inode>, blocks: seq<Block>, inode': seq<Inode>, blocks': seq<Block>, i: nat, n: nat)
    requires Filled(inode, blocks, i, n) && AddrsGrow(inode, blocks, inode', blocks') && n <= MAXFILE * BSIZE
    ensures Filled(inode', blocks', i, n)
  {
  }

  lemma FilledBlock(inode: seq<Inode>, blocks: seq<Block>, i: nat, n: nat, m: nat)
    requires Filled(inode, blocks, i, n) && Addr(inode, blocks, i, n / BSIZE) != 0 && n % BSIZE + m <= BSIZE
    ensures Filled(inode, blocks, i, n + m)
  {
  }

  lemma SizeKeeps(inode: seq<Inode>, blocks: seq<Block>, owner: Owner, i: nat, sz: nat)
    requires LinksOk(inode, blocks, owner) && FilesOk(inode, blocks) && i < |inode|
    requires Filled(inode, blocks, i, sz) && sz <= MAXFILE * BSIZE
    ensures var inode' := inode[i := inode[i].(size := sz)];
            && LinksOk(inode', blocks, owner) && FilesOk(inode', blocks) && SameBytes(inode, blocks, inode', blocks)
  {
    hide Addr, IndexAddr, LinksOk;
    AddrsOnly(inode, inode[i := inode[i].(size := sz)], blocks, owner);
  }

  lemma WriteDone(inode: seq<Inode>, blocks: seq<Block>, inode1: seq<Inode>, blocks1: seq<Block>, inode2: seq<Inode>,
                  i: nat, off: nat, d: seq<byte>)
    requires Wrote(inode, blocks, inode1, blocks1, i, off, d) && i < |inode| && SameBytes(inode1, blocks1, inode2, blocks1)
    requires |inode2| == |inode1| == |inode| && (forall j | 0 <= j < |inode| && j != i :: inode2[j] == inode[j])
    requires off <= inode[i].size && off + |d| <= MAXFILE * BSIZE && inode2[i].size == Max(inode[i].size, off + |d|)
    requires forall j | 0 <= j < |inode| :: inode[j].size <= MAXFILE * BSIZE
    ensures Bytes(inode2, blocks1, i) == Write(Bytes(inode, blocks, i), off, d)
    ensures forall j: nat | j < |inode| && j != i :: Bytes(inode2, blocks1, j) == Bytes(inode, blocks, j)
  {
    hide ByteAt;
    assert Wrote(inode, blocks, inode2, blocks1, i, off, d);
    forall j: nat | j < |inode| && j != i ensures Bytes(inode2, blocks1, j) == Bytes(inode, blocks, j) {
      assert forall k: nat | k < inode[j].size :: ByteAt(inode2, blocks1, j, k) == ByteAt(inode, blocks, j, k);
    }
  }

  lemma BytesLength(inode: seq<Inode>, blocks: seq<Block>, i: nat)
    requires i < |inode|
    ensures |Bytes(inode, blocks, i)| == inode[i].size
  {
  }

  lemma HasBlock(inode: seq<Inode>, blocks: seq<Block>, owner: Owner, i: nat, k: nat)
    requires LinksOk(inode, blocks, owner) && FilesOk(inode, blocks) && i < |inode| && k < inode[i].size
    ensures k / BSIZE < MAXFILE && 0 < Addr(inode, blocks, i, k / BSIZE) < |blocks|
    ensures |blocks[Addr(inode, blocks, i, k / BSIZE)]| == BSIZE
  {
  }

  lemma BlockBytes(inode: seq<Inode>, blocks: seq<Block>, i: nat, k: nat, m: nat)
    requires i < |inode| && k + m <= inode[i].size && k % BSIZE + m <= BSIZE
    requires 0 < Addr(inode, blocks, i, k / BSIZE) < |blocks| && |blocks[Addr(inode, blocks, i, k / BSIZE)]| == BSIZE
    ensures blocks[Addr(inode, blocks, i, k / BSIZE)][k % BSIZE..k % BSIZE + m] == Bytes(inode, blocks, i)[k..k + m]
  {
    hide Addr, ByteAt;
    var here := blocks[Addr(inode, blocks, i, k / BSIZE)][k % BSIZE..k % BSIZE + m];
    var there := Bytes(inode, blocks, i)[k..k + m];
    forall d | 0 <= d < m ensures here[d] == there[d] {
      ByteIn(inode, blocks, i, k, d);
    }
  }

  lemma ByteIn(inode: seq<Inode>, blocks: seq<Block>, i: nat, k: nat, d: nat)
    requires k % BSIZE + d < BSIZE && 0 < Addr(inode, blocks, i, k / BSIZE) < |blocks|
    requires |blocks[Addr(inode, blocks, i, k / BSIZE)]| == BSIZE
    ensures ByteAt(inode, blocks, i, k + d) == blocks[Addr(inode, blocks, i, k / BSIZE)][k % BSIZE + d]
  {
  }

  // Truncation.

  ghost predicate Cleared(inode: seq<Inode>, i: nat, k: nat) {
    i < |inode| && |inode[i].addrs| == NDIRECT + 1 && forall j | 0 <= j < k && j <= NDIRECT :: inode[i].addrs[j] == 0
  }

  lemma MarkedLess(bitmap: seq<bool>, owner: Owner, start: nat, a: nat)
    requires Marked(bitmap, owner, start) && a in owner
    ensures a < |bitmap| && bitmap[a] && Marked(bitmap[a := false], owner - {a}, start)
  {
  }

  lemma TruncStart(inode: seq<Inode>, blocks: seq<Block>, owner: Owner, i: nat)
    requires LinksOk(inode, blocks, owner) && i < |inode|
    ensures LinksBut(inode, blocks, owner, i, 0) && Freed(owner, owner, i, 0) && Cleared(inode, i, 0)
  {
  }

  lemma TruncShape(inode: seq<Inode>, blocks: seq<Block>, owner: Owner, i: nat, k: nat)
    requires LinksBut(inode, blocks, owner, i, 0) && i < |inode| && k < NDIRECT
    ensures |inode[i].addrs| == NDIRECT + 1 && inode[i].addrs[k] == Addr(inode, blocks, i, k) && Rooted(inode, blocks, owner)
  {
  }

  lemma TruncSkip(inode: seq<Inode>, blocks: seq<Block>, owner0: Owner, owner: Owner, i: nat, k: nat)
    requires LinksBut(inode, blocks, owner, i, 0) && Freed(owner0, owner, i, k) && Addr(inode, blocks, i, k) == 0
    requires Cleared(inode, i, k) && k < NDIRECT
    ensures Freed(owner0, owner, i, k + 1) && Cleared(inode, i, k + 1)
  {
  }

  lemma LogTrans(logged: set<nat>, dirty: set<nat>, dirty': set<nat>, bmapstart: nat, size: nat, i: nat)
    requires LogOk(logged, dirty, map[], bmapstart, size, i, 0, 0) && LogOk(dirty, dirty', map[], bmapstart, size, i, 0, 0)
    ensures LogOk(logged, dirty', map[], bmapstart, size, i, 0, 0)
  {
  }

  lemma SetMeta(inode0: seq<Inode>, inode: seq<Inode>, i: nat, k: nat, b: nat)
    requires SameMeta(inode0, inode, i) && i < |inode| && k <= NDIRECT && Cleared(inode, i, k) && b == 0
    ensures SameMeta(inode0, SetAddr(inode, i, k, b), i) && Cleared(SetAddr(inode, i, k, b), i, k + 1)
    ensures k < NDIRECT ==> IndexAddr(SetAddr(inode, i, k, b), i) == IndexAddr(inode, i)
  {
  }

  function NoAddrs(): (s: seq<nat>)
    ensures |s| == NDIRECT + 1 && forall k | 0 <= k <= NDIRECT :: s[k] == 0
  {
    seq(NDIRECT + 1, _ => 0)
  }

  /** Exactly the blocks of inode i are no longer owned. */
  ghost predicate Released(owner: Owner, owner': Owner, i: nat) {
    && (forall b | b in owner' :: b in owner && owner'[b] == owner[b])
    && (forall b | b in owner :: b in owner' <==> !InRange(owner[b], i, 0, MAXFILE))
  }

  lemma ClearedIndex(inode: seq<Inode>, blocks: seq<Block>, owner: Owner, i: nat)
    requires LinksBut(inode, blocks, owner, i, 0) && i < |inode|
    ensures |inode[i].addrs| == NDIRECT + 1 && inode[i].addrs[NDIRECT] == IndexAddr(inode, i)
  {
  }

  lemma NoIndirect(inode: seq<Inode>, blocks: seq<Block>, owner0: Owner, owner: Owner, i: nat)
    requires LinksBut(inode, blocks, owner, i, 0) && IndexAddr(inode, i) == 0
    requires Freed(owner0, owner, i, NDIRECT) && Cleared(inode, i, NDIRECT)
    ensures Released(owner0, owner, i) && Cleared(inode, i, NDIRECT + 1)
  {
  }

  lemma IndirectAddr(inode: seq<Inode>, blocks: seq<Block>, owner: Owner, i: nat, j: nat)
    requires LinksBut(inode, blocks, owner, i, j) && i < |inode| && IndexAddr(inode, i) != 0 && j < NINDIRECT
    ensures IndexAddr(inode, i) < |blocks| && Word(blocks[IndexAddr(inode, i)], j) == Addr(inode, blocks, i, NDIRECT + j)
    ensures Rooted(inode, blocks, owner) && 0 !in owner
  {
  }

  lemma ReleasedIndex(inode: seq<Inode>, blocks: seq<Block>, owner0: Owner, owner: Owner, i: nat)
    requires LinksBut(inode, blocks, owner, i, NINDIRECT) && Freed(owner0, owner, i, MAXFILE)
    requires IndexAddr(inode, i) in owner && owner[IndexAddr(inode, i)] == Index(i)
    ensures Released(owner0, owner - {IndexAddr(inode, i)}, i)
  {
  }

  lemma LogBit(dirty: set<nat>, b: nat, bmapstart: nat, size: nat, i: nat)
    requires b < size
    ensures LogOk(dirty, dirty + {bmapstart + b / BPB}, map[], bmapstart, size, i, 0, 0)
  {
  }

  lemma Truncated(inode0: seq<Inode>, inode: seq<Inode>, blocks: seq<Block>, owner0: Owner, owner: Owner, i: nat)
    requires SameMeta(inode0, inode, i) && i < |inode0| && Cleared(inode, i, NDIRECT + 1) && FilesOk(inode0, blocks)
    requires LinksBut(inode, blocks, owner, i, 0) && Released(owner0, owner, i)
    requires forall b | b in owner0 :: !owner0[b].Pending?
    ensures var inode' := inode[i := inode[i].(size := 0)];
            && inode' == inode0[i := inode0[i].(size := 0, addrs := NoAddrs())]
            && LinksOk(inode', blocks, owner) && FilesOk(inode', blocks)
            && (forall j: nat | j < |inode| && j != i :: Bytes(inode', blocks, j) == Bytes(inode0, blocks, j))
            && forall b | b in owner :: !owner[b].Pending?
  {
    var inode' := inode[i := inode[i].(size := 0)];
    assert inode[i].addrs == NoAddrs();
    forall j: nat, bn: nat | j != i ensures Addr(inode', blocks, j, bn) == Addr(inode0, blocks, j, bn) {
    }
    hide Addr, IndexAddr;
    AddrsOnly(inode, inode', blocks, owner);
  }

  lemma BitsReleased(bitmap: seq<bool>, owner: Owner, bitmap': seq<bool>, owner': Owner, start: nat, i: nat)
    requires Marked(bitmap, owner, start) && Marked(bitmap', owner', start) && |bitmap'| == |bitmap| && Released(owner, owner', i)
    ensures forall b | 0 <= b < |bitmap| :: bitmap'[b] <==> bitmap[b] && !(b in owner && InRange(owner[b], i, 0, MAXFILE))
  {
  }

  lemma TypeKeeps(inode: seq<Inode>, blocks: seq<Block>, owner: Owner, i: nat, typ: short)
    requires LinksOk(inode, blocks, owner) && FilesOk(inode, blocks) && i < |inode|
    ensures var inode' := inode[i := inode[i].(typ := typ)];
            && LinksOk(inode', blocks, owner) && FilesOk(inode', blocks)
            && forall j: nat | j < |inode| :: Bytes(inode', blocks, j) == Bytes(inode, blocks, j)
  {
    hide Addr, IndexAddr, LinksOk;
    AddrsOnly(inode, inode[i := inode[i].(typ := typ)], blocks, owner);
  }

  const MAXOPBLOCKS := 10

  lemma WriteNone(inode: seq<Inode>, blocks: seq<Block>, i: nat, off: nat)
    requires i < |inode|
    ensures |Bytes(inode, blocks, i)| == inode[i].size
    ensures off <= inode[i].size ==> Write(Bytes(inode, blocks, i), off, []) == Bytes(inode, blocks, i)
  {
  }

  lemma WriteThen(s: seq<byte>, off: nat, data: seq<byte>, k: nat, n: nat, r: nat)
    requires k + n <= |data| && r <= n
    ensures off <= |s| ==> off + k <= |Write(s, off, data[..k])|
    ensures off <= |s| ==> Write(Write(s, off, data[..k]), off + k, data[k..k + n][..r]) == Write(s, off, data[..k + r])
  {
  }

  function AddrSet(inode: seq<Inode>, blocks: seq<Block>, i: nat, lo: nat, hi: nat): (s: set<nat>)
    requires lo <= hi
    ensures |s| <= hi - lo
    ensures forall bn: nat | lo <= bn < hi :: Addr(inode, blocks, i, bn) in s
    decreases hi - lo
  {
    if lo == hi then {} else AddrSet(inode, blocks, i, lo, hi - 1) + {Addr(inode, blocks, i, hi - 1)}
  }

  /** At most four data blocks, the indirect block, one bitmap block and one
      inode block. */
  lemma FreedFew(dirty: set<nat>, bmapstart: nat, size: nat, i: nat, iblock: nat)
    requires LogOk({} + {iblock}, dirty, map[], bmapstart, size, i, 0, 0)
    ensures size <= BPB ==> |dirty| <= 2
  {
    if size <= BPB {
      forall b | b in dirty ensures b in {iblock, bmapstart} {
      }
      Common.SubsetSize(dirty, {iblock, bmapstart});
    }
  }

  lemma DirtyFew(inode: seq<Inode>, blocks: seq<Block>, owner: Owner, dirty: set<nat>, bmapstart: nat, size: nat,
                 i: nat, off: nat, n: nat, iblock: nat)
    requires LinksOk(inode, blocks, owner) && n <= 3072
    requires LogOk({} + {iblock}, dirty, owner, bmapstart, size, i, off / BSIZE, EndBlock(off, n))
    ensures size <= BPB ==> |dirty| <= 7
  {
    hide Addr, IndexAddr;
    if size <= BPB {
      var lo, hi := off / BSIZE, EndBlock(off, n);
      assert lo <= hi <= lo + 4;
      var addrs := AddrSet(inode, blocks, i, lo, hi);
      var bound := addrs + {iblock, bmapstart, IndexAddr(inode, i)};
      forall b | b in dirty ensures b in bound {
        assert b in owner && owner[b].Content? && owner[b].i == i && lo <= owner[b].bn < hi ==> Addr(inode, blocks, i, owner[b].bn) in addrs;
      }
      Common.SubsetSize(dirty, bound);
    }
  }

  lemma BitIndex(b: nat)
    ensures b % BPB % 8 == b % 8
  {
  }

  /** The bit that balloc looks at is that of block b + bi. */
  lemma BitOf(bits: seq<Block>, bitmap: seq<bool>, b: nat, bi: nat)
    requires Packed(bits, bitmap) && b % BPB == 0 && bi < BPB && b + bi < |bitmap|
    ensures (b + bi) / BPB == b / BPB && (b + bi) % BPB == bi && (b + bi) % 8 == bi % 8
    ensures b / BPB < |bits| && bi / 8 < |bits[b / BPB]| && (TestBit(bits[b / BPB][bi / 8], bi % 8) <==> bitmap[b + bi])
  {
    BitSplit(b, bi);
    BitInRange(bits, bitmap, b + bi);
    assert bitmap[b + bi] <==> BitAt(bits, b + bi);
    hide Packed, TestBit;
  }

  lemma BitSplit(b: nat, bi: nat)
    requires b % BPB == 0 && bi < BPB
    ensures (b + bi) / BPB == b / BPB && (b + bi) % BPB == bi && (b + bi) % 8 == bi % 8
  {
    BitBlock(b / BPB, bi);
    BitInByte(b / BPB, bi);
  }

  lemma BitBlock(q: nat, bi: nat)
    requires bi < BPB
    ensures (q * BPB + bi) / BPB == q && (q * BPB + bi) % BPB == bi
  {
  }

  lemma BitInByte(q: nat, bi: nat)
    ensures (q * BPB + bi) % 8 == bi % 8
  {
    assert q * BPB + bi == 8 * (q * BSIZE + bi / 8) + bi % 8;
  }
}

/** The pipe of kernel/pipe.c: a ring buffer indexed by two 32-bit counters that
    wrap around.  pipewrite and piperead hold pi->lock except while they sleep,
    so each is a series of segments, and an execution of any number of readers
    and writers is an interleaving of segments. */
module Pipe {

  const PIPESIZE := 512
  const WRAP := 0x1_0000_0000

  newtype uint = x: int | 0 <= x < WRAP
  newtype byte = x: int | 0 <= x < 256

  function Add(a: uint, b: uint): (r: uint)
    ensures r as int == (a as int + b as int) % WRAP
  {
    ((a as int + b as int) % WRAP) as uint
  }

  /** Why a segment ended: asleep on a channel, or returned a count or -1. */
  datatype Outcome = Asleep | Returned(r: int)

  /** A 32-bit counter still indexes the ring correctly after wrapping. */
  lemma IndexWraps(k: nat)
    ensures k % WRAP % PIPESIZE == k % PIPESIZE
  {
  }

  /** Comparing wrapped counters tells how full the ring is. */
  lemma CountersTell(sent: nat, taken: nat)
    requires taken <= sent <= taken + PIPESIZE
    ensures sent % WRAP == taken % WRAP <==> sent == taken
    ensures sent % WRAP == (taken % WRAP + PIPESIZE) % WRAP <==> sent == taken + PIPESIZE
    ensures (sent + 1) % WRAP == (sent % WRAP + 1) % WRAP
  {
  }

  /** A byte and the writer it came from. */
  datatype Item = Item(who: nat, ch: byte)

  /** Slots of the ring hold the bytes that are sent and not yet taken. */
  ghost predicate Holds(data: seq<byte>, sent: seq<Item>, taken: nat) {
    && |data| == PIPESIZE
    && taken <= |sent| <= taken + PIPESIZE
    && forall k | taken <= k < |sent| :: data[k % PIPESIZE] == sent[k].ch
  }

  lemma PutHolds(data: seq<byte>, sent: seq<Item>, taken: nat, x: Item)
    requires Holds(data, sent, taken) && |sent| < taken + PIPESIZE
    ensures Holds(data[|sent| % PIPESIZE := x.ch], sent + [x], taken)
  {
  }

  /** What writer who contributed to a stream. */
  function From(s: seq<Item>, who: nat): seq<byte> {
    if s == [] then [] else
      var x := s[|s| - 1];
      From(s[..|s| - 1], who) + if x.who == who then [x.ch] else []
  }

  function Bytes(s: seq<Item>): seq<byte> {
    seq(|s|, i requires 0 <= i < |s| => s[i].ch)
  }

  lemma FromOne(s: seq<Item>, x: Item)
    ensures forall w :: From(s + [x], w) == From(s, w) + if x.who == w then [x.ch] else []
  {
  }

  lemma {:induction false} FromPrefix(s: seq<Item>, k: nat, who: nat)
    requires k <= |s|
    ensures From(s[..k], who) <= From(s, who)
    decreases |s|
  {
    if k < |s| {
      FromPrefix(s[..|s| - 1], k, who);
      assert s[..|s| - 1][..k] == s[..k];
    } else {
      assert s[..k] == s;
    }
  }

  function Least(a: nat, b: nat): nat { if a < b then a else b }

  class Pipe {
    const data: array<byte>
    var nread: uint
    var nwrite: uint
    var readopen: bool
    var writeopen: bool

    ghost var sent: seq<Item>    // every byte put into the ring, in order
    ghost var got: seq<Item>     // every byte taken out of it, in order

    /** First in, first out: what was taken is a prefix of what was put. */
    ghost predicate Valid()
      reads this, data
    {
      && data.Length == PIPESIZE
      && got <= sent
      && Holds(data[..], sent, |got|)
      && nwrite as int == |sent| % WRAP
      && nread as int == |got| % WRAP
    }

    constructor ()
      ensures Valid() && fresh(data) && sent == got == [] && readopen && writeopen
    {
      data := new byte[PIPESIZE];
      readopen, writeopen, nwrite, nread := true, true, 0, 0;
      sent, got := [], [];
    }

    /** pi->data[pi->nwrite++ % PIPESIZE] = ch, by writer who. */
    method Put(ghost who: nat, ch: byte)
      requires Valid() && |sent| < |got| + PIPESIZE
      modifies this`nwrite, this`sent, data
      ensures Valid() && sent == old(sent) + [Item(who, ch)]
    {
      IndexWraps(|sent|);
      CountersTell(|sent|, |got|);
      PutHolds(data[..], sent, |got|, Item(who, ch));
      data[nwrite % PIPESIZE as uint] := ch;
      nwrite := Add(nwrite, 1);
      assert data[..] == old(data[..])[|sent| % PIPESIZE := ch];
      sent := sent + [Item(who, ch)];
    }

    /** ch = pi->data[pi->nread++ % PIPESIZE] */
    method Take() returns (ch: byte)
      requires Valid() && |got| < |sent|
      modifies this`nread, this`got
      ensures Valid() && got == old(got) + [sent[|old(got)|]] && ch == sent[|old(got)|].ch
    {
      IndexWraps(|got|);
      CountersTell(|got|, |got|);
      ch := data[nread % PIPESIZE as uint];
      nread := Add(nread, 1);
      got := got + [sent[|got|]];
    }

    /** One segment of pipewrite: it starts with start bytes of src written and
        ends asleep or returning.  copyin fails from offset copyLimit on, and
        killed() holds from offset killAt on. */
    method PipeWrite(ghost who: nat, src: seq<byte>, start: nat, copyLimit: nat, killAt: nat) returns (i: nat, out: Outcome)
      requires Valid() && start <= |src|
      modifies this`nwrite, this`sent, data
      ensures Valid() && start <= i <= |src|
      ensures old(sent) <= sent && Bytes(sent[|old(sent)|..]) == src[start..i]
      ensures From(sent, who) == old(From(sent, who)) + src[start..i]
      ensures forall w | w != who :: From(sent, w) == old(From(sent, w))
      ensures i > start ==> readopen && i <= killAt && i <= copyLimit
      ensures out == Returned(-1) <==> i < |src| && (!readopen || killAt <= i)
      ensures out == Asleep <==> i < |src| && readopen && i < killAt && |sent| - |got| == PIPESIZE
      ensures out == Asleep || out == Returned(-1) || out == Returned(i)
      ensures out == Returned(i) && i < |src| ==> copyLimit <= i
    {
      hide From;
      i := start;
      while i < |src|
        invariant start <= i <= |src| && Valid()
        invariant i > start ==> readopen && i <= killAt && i <= copyLimit
        invariant old(sent) <= sent && Bytes(sent[|old(sent)|..]) == src[start..i]
        invariant From(sent, who) == old(From(sent, who)) + src[start..i]
        invariant forall w | w != who :: From(sent, w) == old(From(sent, w))
      {
        if !readopen || killAt <= i {
          return i, Returned(-1);
        }
        CountersTell(|sent|, |got|);
        if nwrite == Add(nread, PIPESIZE as uint) {
          return i, Asleep;
        }
        if copyLimit <= i {
          break;
        }
        FromOne(sent, Item(who, src[i]));
        Put(who, src[i]);
        assert src[start..i + 1] == src[start..i] + [src[i]];
        i := i + 1;
      }
      return i, Returned(i);
    }

    /** One segment of piperead(pi, addr, n): asleep, or returning with the
        bytes read.  copyout fails from offset copyLimit on: the byte it fails
        on has left the ring but is not delivered. */
    method PipeRead(n: nat, copyLimit: nat, killed: bool) returns (bytes: seq<byte>, out: Outcome)
      requires Valid()
      modifies this`nread, this`got
      ensures Valid() && old(got) <= got
      ensures bytes <= Bytes(got[|old(got)|..]) && |got| - |old(got)| <= |bytes| + 1
      ensures |got| - |old(got)| == |bytes| + 1 <==> |bytes| == copyLimit < n && |old(got)| + copyLimit < |sent|
      ensures out == Asleep <==> old(got) == sent && writeopen && !killed
      ensures out == Returned(-1) <==> old(got) == sent && writeopen && killed
      ensures out == Asleep || out == Returned(-1) ==> got == old(got)
      ensures out == Asleep || out == Returned(-1) || out == Returned(|bytes|)
      ensures |bytes| == Least(Least(n, copyLimit), |sent| - |old(got)|)
    {
      bytes := [];
      CountersTell(|sent|, |got|);
      if nread == nwrite && writeopen {
        return bytes, if killed then Returned(-1) else Asleep;
      }
      var i := 0;
      while i < n
        invariant 0 <= i <= n && Valid() && old(got) <= got && |got| == |old(got)| + i
        invariant bytes == Bytes(got[|old(got)|..]) && i <= copyLimit
      {
        CountersTell(|sent|, |got|);
        if nread == nwrite {
          break;
        }
        var ch := Take();
        if copyLimit <= i {
          break;
        }
        bytes := bytes + [ch];
        i := i + 1;
      }
      return bytes, Returned(i);
    }

    /** pipeclose; freed says that the memory of the pipe is given back. */
    method PipeClose(writable: bool) returns (freed: bool)
      requires Valid()
      modifies this`readopen, this`writeopen
      ensures Valid() && (freed <==> !readopen && !writeopen)
      ensures writeopen == (old(writeopen) && !writable) && readopen == (old(readopen) && writable)
    {
      if writable {
        writeopen := false;
      } else {
        readopen := false;
      }
      freed := !readopen && !writeopen;
    }
  }

  datatype Turn =
    | WriterRuns(who: nat, copyLimit: nat, killAt: nat)
    | ReaderRuns(n: nat, readLimit: nat, killed: bool)
    | Closed(writable: bool)

  /** Every interleaving of any number of writers, each with its own buffer,
      and readers: the stream taken out is a prefix of the stream put in, which
      consists, writer by writer, of prefixes of their buffers in order. */
  method Interleave(p: Pipe, srcs: seq<seq<byte>>, turns: seq<Turn>) returns (written: seq<nat>)
    requires p.Valid() && p.sent == []
    modifies p, p.data
    ensures p.Valid() && p.got <= p.sent && |written| == |srcs|
    ensures forall w | 0 <= w < |srcs| :: written[w] <= |srcs[w]| && From(p.sent, w) == srcs[w][..written[w]]
    ensures forall w | 0 <= w < |srcs| :: From(p.got, w) <= srcs[w][..written[w]]
  {
    hide Holds;
    written := seq(|srcs|, _ => 0);
    for t := 0 to |turns|
      invariant p.Valid() && |written| == |srcs|
      invariant forall w | 0 <= w < |srcs| :: written[w] <= |srcs[w]| && From(p.sent, w) == srcs[w][..written[w]]
    {
      match turns[t]
      case WriterRuns(who, copyLimit, killAt) =>
        if who < |srcs| {
          var i, _ := p.PipeWrite(who, srcs[who], written[who], copyLimit, killAt);
          assert srcs[who][..written[who]] + srcs[who][written[who]..i] == srcs[who][..i];
          written := written[who := i];
        }
      case ReaderRuns(n, readLimit, killed) =>
        var _, _ := p.PipeRead(n, readLimit, killed);
      case Closed(writable) =>
        var _ := p.PipeClose(writable);
    }
    forall w | 0 <= w < |srcs| ensures From(p.got, w) <= srcs[w][..written[w]] {
      assert p.sent[..|p.got|] == p.got;
      FromPrefix(p.sent, |p.got|, w);
    }
  }
}

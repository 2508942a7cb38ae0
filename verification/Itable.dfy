/** The table of in-memory inodes of kernel/fs.c: ialloc, iget, idup, ilock,
    iunlock and iput, for any number of processes.

    Each method from Ialloc to IputEnd is a section that runs under itable.lock,
    under the sleeplock of the inode, or under that of the disk block; an iput
    that frees the inode is four of them.  refs says which processes hold
    references to an entry, and holder which of them has locked it. */
module Itable {
  import opened Common

  const NINODE := 50

  datatype Dinode = Dinode(typ: nat, nlink: nat, rest: seq<nat>)

  datatype Entry = Entry(inum: nat, ref: nat, valid: bool, copy: Dinode)

  /** At most one entry in use for an inode. */
  ghost predicate Unique(table: seq<Entry>) {
    forall i, j | 0 <= i < |table| && 0 <= j < |table| && table[i].ref > 0 && table[j].ref > 0 && table[i].inum == table[j].inum :: i == j
  }

  /** ref counts the references, and who has locked an entry has one. */
  ghost predicate Counted(table: seq<Entry>, refs: seq<multiset<nat>>, holder: seq<Option<nat>>) {
    && |table| == |refs| == |holder|
    && forall i | 0 <= i < |table| :: table[i].ref == |refs[i]| && (holder[i].Some? ==> holder[i].value in refs[i])
  }

  /** An entry that is valid and not locked is what is on disk, and not free. */
  ghost predicate Coherent(table: seq<Entry>, holder: seq<Option<nat>>, disk: seq<Dinode>) {
    && |holder| == |table|
    && forall i | 0 <= i < |table| && table[i].ref > 0 ::
         table[i].inum < |disk| && (table[i].valid && holder[i].None? ==> Agrees(table[i], disk))
  }

  predicate Agrees(e: Entry, disk: seq<Dinode>) { e.inum < |disk| && e.copy == disk[e.inum] && e.copy.typ != 0 }

  ghost predicate TableOk(table: seq<Entry>, refs: seq<multiset<nat>>, holder: seq<Option<nat>>, disk: seq<Dinode>) {
    Unique(table) && Counted(table, refs, holder) && Coherent(table, holder, disk)
  }

  /** Entry i can become e if e is counted, coherent and the only one. */
  lemma Replace(table: seq<Entry>, refs: seq<multiset<nat>>, holder: seq<Option<nat>>, disk: seq<Dinode>,
                i: nat, e: Entry, m: multiset<nat>, h: Option<nat>)
    requires TableOk(table, refs, holder, disk) && i < |table| && e.ref == |m| && (h.Some? ==> h.value in m)
    requires e.ref > 0 ==> e.inum < |disk| && (e.valid && h.None? ==> Agrees(e, disk))
    requires e.ref > 0 && !(table[i].ref > 0 && e.inum == table[i].inum) ==> forall j | 0 <= j < |table| && table[j].ref > 0 :: table[j].inum != e.inum
    ensures |refs| == |holder| == |table| && TableOk(table[i := e], refs[i := m], holder[i := h], disk)
  {
  }

  lemma Facts(table: seq<Entry>, refs: seq<multiset<nat>>, holder: seq<Option<nat>>, disk: seq<Dinode>, i: nat)
    requires TableOk(table, refs, holder, disk) && i < |table|
    ensures |refs| == |holder| == |table| && table[i].ref == |refs[i]| && (holder[i].Some? ==> holder[i].value in refs[i])
    ensures table[i].ref > 0 ==> table[i].inum < |disk| && (table[i].valid && holder[i].None? ==> Agrees(table[i], disk))
  {
  }

  /** Only the locked entry of an inode can differ from the disk. */
  lemma WriteBack(table: seq<Entry>, refs: seq<multiset<nat>>, holder: seq<Option<nat>>, disk: seq<Dinode>, i: nat)
    requires TableOk(table, refs, holder, disk) && i < |table| == |holder| && table[i].ref > 0 && holder[i].Some?
    ensures table[i].inum < |disk| && TableOk(table, refs, holder, disk[table[i].inum := table[i].copy])
  {
  }

  /** What is free on disk is in no entry that somebody could rely on. */
  lemma AllocateKeeps(table: seq<Entry>, refs: seq<multiset<nat>>, holder: seq<Option<nat>>, disk: seq<Dinode>, inum: nat, x: Dinode)
    requires TableOk(table, refs, holder, disk) && inum < |disk| && disk[inum].typ == 0
    ensures TableOk(table, refs, holder, disk[inum := x])
  {
  }

  /** Where a process stands that frees inode entry i in iput. */
  datatype Phase = Freeing(i: nat) | Freed(i: nat) | Ending(i: nat)

  ghost predicate PhasesOk(phase: map<nat, Phase>, refs: seq<multiset<nat>>, holder: seq<Option<nat>>) {
    && |refs| == |holder|
    && forall p | p in phase :: phase[p].i < |refs| && p in refs[phase[p].i]
                                && (phase[p].Ending? <==> holder[phase[p].i] != Some(p))
  }

  /** Nobody but p itself takes a reference of p away, or its lock. */
  lemma PhasesKept(phase: map<nat, Phase>, refs: seq<multiset<nat>>, holder: seq<Option<nat>>, i: nat, m: multiset<nat>, h: Option<nat>)
    requires PhasesOk(phase, refs, holder) && i < |refs|
    requires forall p | p in phase && p in refs[i] :: p in m && (holder[i] == Some(p) <==> h == Some(p))
    ensures PhasesOk(phase, refs[i := m], holder[i := h])
  {
  }

  lemma PhaseMoves(phase: map<nat, Phase>, refs: seq<multiset<nat>>, holder: seq<Option<nat>>, p: nat, x: Phase, h: Option<nat>)
    requires PhasesOk(phase, refs, holder) && p in phase && x.i == phase[p].i < |holder|
    requires (x.Ending? <==> h != Some(p)) && (h == holder[x.i] || (holder[x.i] == Some(p) && h == None))
    ensures PhasesOk(phase[p := x], refs, holder[x.i := h])
  {
  }

  lemma PhaseEnds(phase: map<nat, Phase>, refs: seq<multiset<nat>>, holder: seq<Option<nat>>, p: nat)
    requires PhasesOk(phase, refs, holder) && p in phase && phase[p].i < |refs|
    ensures PhasesOk(phase - {p}, refs[phase[p].i := refs[phase[p].i] - multiset{p}], holder)
  {
  }

  datatype Event =
    | Alloc(inum: nat, typ: nat)
    | Get(p: nat, inum: nat)
    | Dup(p: nat, q: nat, i: nat)
    | Lock(p: nat, i: nat)
    | Modify(p: nat, i: nat, copy: Dinode)
    | Update(p: nat, i: nat)
    | Unlock(p: nat, i: nat)
    | Put(p: nat, i: nat)
    | Continue(p: nat)

  predicate LockEvent(e: Event) { e.Lock? || e.Modify? || e.Update? || e.Unlock? }

  /** The table, the disk and who has what, at some moment. */
  datatype Moment = Moment(
    table: seq<Entry>, disk: seq<Dinode>, refs: seq<multiset<nat>>, holder: seq<Option<nat>>, phase: map<nat, Phase>)

  /** There is an entry for the inode, or one that is not in use. */
  ghost predicate Room(table: seq<Entry>, inum: nat) {
    exists i | 0 <= i < |table| :: table[i].ref == 0 || table[i].inum == inum
  }

  predicate Has(s: Moment, p: nat, i: nat) {
    p !in s.phase && i < |s.table| == |s.refs| == |s.holder| && p in s.refs[i]
  }

  predicate HasLock(s: Moment, p: nat, i: nat) {
    p !in s.phase && i < |s.table| == |s.holder| && s.holder[i] == Some(p) && s.table[i].inum < |s.disk|
  }

  ghost predicate Possible(e: Event, s: Moment) {
    match e
    case Alloc(inum, _) => inum < |s.disk| && s.disk[inum].typ == 0
    case Get(p, inum) => p !in s.phase && inum < |s.disk| && Room(s.table, inum)
    case Dup(p, _, i) => Has(s, p, i)
    case Lock(p, i) =>
      Has(s, p, i) && s.holder[i].None? && s.table[i].inum < |s.disk| && (s.table[i].valid || s.disk[s.table[i].inum].typ != 0)
    case Modify(p, i, _) => HasLock(s, p, i)
    case Update(p, i) => HasLock(s, p, i)
    case Unlock(p, i) => HasLock(s, p, i) && (s.table[i].valid ==> Agrees(s.table[i], s.disk))
    case Put(p, i) => Has(s, p, i) && s.holder[i] != Some(p)
    case Continue(p) => p in s.phase && s.phase[p].i < |s.table| == |s.refs| == |s.holder|
  }

  /** iget by p has made i an entry for the inode: the one in use, or else the
      first that was not in use. */
  ghost predicate Got(s: Moment, s': Moment, p: nat, inum: nat, i: nat) {
    && i < |s.table| == |s.refs| == |s'.table| && s'.table[i].inum == inum && s'.table == s.table[i := s'.table[i]]
    && s' == s.(table := s'.table, refs := s.refs[i := s.refs[i] + multiset{p}])
    && if s.table[i].ref > 0 then s'.table[i] == s.table[i].(ref := s.table[i].ref + 1)
       else && !s'.table[i].valid && (forall j | 0 <= j < |s.table| && s.table[j].ref > 0 :: s.table[j].inum != inum)
            && (forall j | 0 <= j < i :: s.table[j].ref > 0)
  }

  /** What the next section of an iput that frees does. */
  ghost predicate Continued(s: Moment, s': Moment, p: nat)
    requires p in s.phase && s.phase[p].i < |s.table| == |s.refs| == |s.holder|
  {
    match s.phase[p]
    case Freeing(i) =>
      var x := s.table[i].(copy := s.table[i].copy.(typ := 0));
      x.inum < |s.disk| && s' == s.(table := s.table[i := x], disk := s.disk[x.inum := x.copy], phase := s.phase[p := Freed(i)])
    case Freed(i) =>
      s' == s.(table := s.table[i := s.table[i].(valid := false)], holder := s.holder[i := None], phase := s.phase[p := Ending(i)])
    case Ending(i) =>
      Dropped(s.table, s'.table, i)
      && s' == s.(table := s'.table, refs := s.refs[i := s.refs[i] - multiset{p}], phase := s.phase - {p})
  }

  ghost predicate Effect(e: Event, s: Moment, s': Moment)
    requires Possible(e, s)
  {
    match e
    case Alloc(inum, typ) => s' == s.(disk := s.disk[inum := Dinode(typ, 0, [])])
    case Get(p, inum) => exists i | 0 <= i < |s.table| :: Got(s, s', p, inum, i)
    case Dup(_, q, i) =>
      s' == s.(table := s.table[i := s.table[i].(ref := s.table[i].ref + 1)], refs := s.refs[i := s.refs[i] + multiset{q}])
    case Lock(p, i) =>
      && i < |s'.table| && Agrees(s'.table[i], s.disk) && s'.table[i].valid && s'.table[i].inum == s.table[i].inum
      && s' == s.(table := s.table[i := s'.table[i]], holder := s.holder[i := Some(p)])
    case Modify(_, i, copy) => s' == s.(table := s.table[i := s.table[i].(copy := copy)])
    case Update(_, i) => s' == s.(disk := s.disk[s.table[i].inum := s.table[i].copy])
    case Unlock(_, i) => s' == s.(holder := s.holder[i := None])
    case Put(p, i) =>
      if s.table[i].ref == 1 && s.table[i].valid && s.table[i].copy.nlink == 0
      then s' == s.(holder := s.holder[i := Some(p)], phase := s.phase[p := Freeing(i)])
      else Dropped(s.table, s'.table, i) && s' == s.(table := s'.table, refs := s.refs[i := s.refs[i] - multiset{p}])
    case Continue(p) => Continued(s, s', p)
  }

  /** What an event does; one that is not possible now does nothing. */
  ghost predicate Happened(e: Event, s: Moment, s': Moment) {
    if Possible(e, s) then Effect(e, s, s') else s' == s
  }

  class Table {
    var table: seq<Entry>
    var disk: seq<Dinode>

    // Bookkeeping that the C struct does not have.
    var refs: seq<multiset<nat>>
    var holder: seq<Option<nat>>
    var phase: map<nat, Phase>

    ghost predicate Valid()
      reads this
    {
      |table| == |refs| == |holder| == NINODE && TableOk(table, refs, holder, disk)
    }

    constructor (disk: seq<Dinode>)
      ensures Valid() && this.disk == disk && phase == map[] && forall i | 0 <= i < NINODE :: table[i].ref == 0
    {
      this.disk := disk;
      table := seq(NINODE, _ => Entry(0, 0, false, Dinode(0, 0, [])));
      refs := seq(NINODE, _ => multiset{});
      holder := seq(NINODE, _ => None);
      phase := map[];
    }

    /** ialloc, on a free inode, in its own transaction. */
    method Ialloc(inum: nat, typ: nat)
      requires Valid() && inum < |disk| && disk[inum].typ == 0
      modifies this`disk
      ensures Valid() && disk == old(disk)[inum := Dinode(typ, 0, [])]
    {
      hide TableOk;
      AllocateKeeps(table, refs, holder, disk, inum, Dinode(typ, 0, []));
      disk := disk[inum := Dinode(typ, 0, [])];
    }

    /** iget by process p: the entry in use for the inode, or the first one that
        is not in use.  None is the panic "iget: no inodes". */
    method Iget(p: nat, inum: nat) returns (r: Option<nat>)
      requires Valid() && inum < |disk|
      modifies this`table, this`refs
      ensures Valid()
      ensures r.None? <==> forall i | 0 <= i < NINODE :: old(table)[i].ref > 0 && old(table)[i].inum != inum
      ensures r.None? ==> table == old(table) && refs == old(refs)
      ensures r.Some? ==> && r.value < NINODE && table[r.value].inum == inum
                          && refs == old(refs)[r.value := old(refs)[r.value] + multiset{p}]
                          && (forall i | 0 <= i < NINODE && i != r.value :: table[i] == old(table)[i])
      ensures r.Some? && old(table)[r.value].ref > 0 ==> table[r.value] == old(table)[r.value].(ref := old(table)[r.value].ref + 1)
      ensures r.Some? && old(table)[r.value].ref == 0 ==> !table[r.value].valid
      ensures r.Some? && old(table)[r.value].ref == 0 ==> forall i | 0 <= i < NINODE && old(table)[i].ref > 0 :: old(table)[i].inum != inum
      ensures r.Some? && old(table)[r.value].ref == 0 ==> forall i | 0 <= i < r.value :: old(table)[i].ref > 0
    {
      hide TableOk;
      var empty := NINODE;
      var i := 0;
      while i < NINODE
        invariant 0 <= i <= NINODE && table == old(table) && refs == old(refs)
        invariant forall j | 0 <= j < i :: table[j].ref > 0 ==> table[j].inum != inum
        invariant forall j | 0 <= j < i && j < empty :: table[j].ref > 0
        invariant empty == NINODE || (0 <= empty < i && table[empty].ref == 0)
      {
        if table[i].ref > 0 && table[i].inum == inum {
          More(table, refs, holder, disk, i, p);
          table := table[i := table[i].(ref := table[i].ref + 1)];
          refs := refs[i := refs[i] + multiset{p}];
          return Some(i);
        }
        if empty == NINODE && table[i].ref == 0 {
          empty := i;
        }
        i := i + 1;
      }
      if empty == NINODE {
        return None;
      }
      Facts(table, refs, holder, disk, empty);
      NoReferences(refs[empty]);
      Replace(table, refs, holder, disk, empty, table[empty].(inum := inum, ref := 1, valid := false), refs[empty] + multiset{p}, holder[empty]);
      assert holder[empty := holder[empty]] == holder;
      table := table[empty := table[empty].(inum := inum, ref := 1, valid := false)];
      refs := refs[empty := refs[empty] + multiset{p}];
      return Some(empty);
    }

    /** idup. */
    method Idup(p: nat, q: nat, i: nat)
      requires Valid() && i < NINODE && p in refs[i]
      modifies this`table, this`refs
      ensures Valid() && table == old(table)[i := old(table)[i].(ref := old(table)[i].ref + 1)]
      ensures refs == old(refs)[i := old(refs)[i] + multiset{q}]
    {
      hide TableOk;
      HasReference(refs[i], p);
      Facts(table, refs, holder, disk, i);
      More(table, refs, holder, disk, i, q);
      table := table[i := table[i].(ref := table[i].ref + 1)];
      refs := refs[i := refs[i] + multiset{q}];
    }

    /** ilock by a process with a reference, once nobody else has the lock: the
        entry is then what is on disk. */
    method Ilock(p: nat, i: nat)
      requires Valid() && i < NINODE && p in refs[i] && holder[i].None?
      requires !table[i].valid && table[i].inum < |disk| ==> disk[table[i].inum].typ != 0
      modifies this`table, this`holder
      ensures Valid() && holder == old(holder)[i := Some(p)] && table == old(table)[i := table[i]]
      ensures table[i].inum == old(table)[i].inum < |disk| && table[i].valid && Agrees(table[i], disk)
    {
      hide TableOk;
      HasReference(refs[i], p);
      Facts(table, refs, holder, disk, i);
      Replace(table, refs, holder, disk, i, table[i].(copy := disk[table[i].inum], valid := true), refs[i], Some(p));
      assert refs[i := refs[i]] == refs;
      holder := holder[i := Some(p)];
      if !table[i].valid {
        table := table[i := table[i].(copy := disk[table[i].inum], valid := true)];
      } else {
        assert table[i := table[i].(copy := disk[table[i].inum], valid := true)] == table;
      }
    }

    /** A change by the lock holder. */
    method Change(p: nat, i: nat, copy: Dinode)
      requires Valid() && i < NINODE && holder[i] == Some(p)
      modifies this`table
      ensures Valid() && table == old(table)[i := old(table)[i].(copy := copy)]
    {
      hide TableOk;
      Facts(table, refs, holder, disk, i);
      Replace(table, refs, holder, disk, i, table[i].(copy := copy), refs[i], holder[i]);
      assert refs[i := refs[i]] == refs && holder[i := holder[i]] == holder;
      table := table[i := table[i].(copy := copy)];
    }

    /** iupdate. */
    method Iupdate(p: nat, i: nat)
      requires Valid() && i < NINODE && holder[i] == Some(p)
      modifies this`disk
      ensures Valid() && table[i].inum < |old(disk)| && disk == old(disk)[table[i].inum := table[i].copy]
    {
      hide TableOk;
      Facts(table, refs, holder, disk, i);
      HasReference(refs[i], p);
      WriteBack(table, refs, holder, disk, i);
      disk := disk[table[i].inum := table[i].copy];
    }

    /** iunlock: a change has been written by iupdate before. */
    method Iunlock(p: nat, i: nat)
      requires Valid() && i < NINODE && holder[i] == Some(p)
      requires table[i].valid ==> Agrees(table[i], disk)
      modifies this`holder
      ensures Valid() && holder == old(holder)[i := None]
    {
      hide TableOk;
      Facts(table, refs, holder, disk, i);
      Replace(table, refs, holder, disk, i, table[i], refs[i], None);
      assert refs[i := refs[i]] == refs && table[i := table[i]] == table;
      holder := holder[i := None];
    }

    /** The first section of iput by process p, which does not have the lock.
        If this is the last reference to a valid entry without links then
        nobody has the lock, so that acquiresleep does not block. */
    method IputBegin(p: nat, i: nat) returns (freeing: bool)
      requires Valid() && i < NINODE && p in refs[i] && holder[i] != Some(p)
      modifies this`table, this`refs, this`holder
      ensures Valid()
      ensures freeing <==> old(table)[i].ref == 1 && old(table)[i].valid && old(table)[i].copy.nlink == 0
      ensures freeing ==> old(holder)[i].None? && refs[i] == multiset{p} && Agrees(table[i], disk)
      ensures freeing ==> holder == old(holder)[i := Some(p)] && table == old(table) && refs == old(refs)
      ensures !freeing ==> holder == old(holder) && Dropped(old(table), table, i) && refs == old(refs)[i := old(refs)[i] - multiset{p}]
    {
      hide TableOk;
      HasReference(refs[i], p);
      Facts(table, refs, holder, disk, i);
      freeing := table[i].ref == 1 && table[i].valid && table[i].copy.nlink == 0;
      if freeing {
        LastReference(refs[i], p);
        Replace(table, refs, holder, disk, i, table[i], refs[i], Some(p));
        assert refs[i := refs[i]] == refs && table[i := table[i]] == table;
        holder := holder[i := Some(p)];
      } else {
        IputEnd(p, i);
      }
    }

    /** With itable.lock released: the inode is free on disk. */
    method IputFree(p: nat, i: nat)
      requires Valid() && i < NINODE && holder[i] == Some(p)
      modifies this`table, this`disk
      ensures Valid() && table == old(table)[i := old(table)[i].(copy := old(table)[i].copy.(typ := 0))]
      ensures table[i].inum < |old(disk)| && disk == old(disk)[table[i].inum := table[i].copy]
    {
      hide TableOk;
      Change(p, i, table[i].copy.(typ := 0));
      Iupdate(p, i);
    }

    /** The entry is given up before its lock. */
    method IputUnlock(p: nat, i: nat)
      requires Valid() && i < NINODE && holder[i] == Some(p)
      modifies this`table, this`holder
      ensures Valid() && table == old(table)[i := old(table)[i].(valid := false)] && holder == old(holder)[i := None]
    {
      hide TableOk;
      Facts(table, refs, holder, disk, i);
      Replace(table, refs, holder, disk, i, table[i].(valid := false), refs[i], None);
      assert refs[i := refs[i]] == refs;
      table := table[i := table[i].(valid := false)];
      holder := holder[i := None];
    }

    /** The reference goes, under itable.lock again. */
    method IputEnd(p: nat, i: nat)
      requires Valid() && i < NINODE && p in refs[i] && holder[i] != Some(p)
      modifies this`table, this`refs
      ensures Valid() && Dropped(old(table), table, i) && refs == old(refs)[i := old(refs)[i] - multiset{p}]
    {
      hide TableOk;
      Less(table, refs, holder, disk, i, p);
      table := table[i := table[i].(ref := table[i].ref - 1)];
      refs := refs[i := refs[i] - multiset{p}];
    }

    /** An iput that nothing interrupts: the inode is freed exactly if this was
        the last reference to a valid entry without links. */
    method Iput(p: nat, i: nat)
      requires Valid() && i < NINODE && p in refs[i] && holder[i] != Some(p)
      modifies this`table, this`refs, this`holder, this`disk
      ensures Valid() && refs == old(refs)[i := old(refs)[i] - multiset{p}] && holder == old(holder)
      ensures var e := old(table)[i];
              if e.ref == 1 && e.valid && e.copy.nlink == 0 then
                e.inum < |old(disk)| && disk == old(disk)[e.inum := old(disk)[e.inum].(typ := 0)] && refs[i] == multiset{}
              else disk == old(disk)
      ensures table[i].ref == old(table)[i].ref - 1 && forall j | 0 <= j < NINODE && j != i :: table[j] == old(table)[j]
    {
      hide TableOk;
      var freeing := IputBegin(p, i);
      if freeing {
        IputFree(p, i);
        IputUnlock(p, i);
        IputEnd(p, i);
      }
    }

    // Any interleaving.

    ghost function Now(): Moment
      reads this
    {
      Moment(table, disk, refs, holder, phase)
    }

    /** Every process inside an iput that frees has its reference, and the lock
        until it gives it up. */
    ghost predicate Underway()
      reads this
    {
      Valid() && PhasesOk(phase, refs, holder)
    }

    /** One event; one that is not possible now does nothing. */
    method Perform(e: Event)
      requires Underway()
      modifies this
      ensures Underway()
      ensures Happened(e, old(Now()), Now())
    {
      hide TableOk, PhasesOk;
      match e
      case Alloc(inum, typ) =>
        if inum < |disk| && disk[inum].typ == 0 {
          Ialloc(inum, typ);
        }
      case Get(p, inum) =>
        if p !in phase && inum < |disk| {
          var r := Iget(p, inum);
          if r.Some? {
            Kept(old(refs), old(holder), r.value);
            assert Got(old(Now()), Now(), p, inum, r.value);
          }
        }
      case Dup(p, q, i) =>
        if p !in phase && i < NINODE && p in refs[i] {
          Idup(p, q, i);
          Kept(old(refs), old(holder), i);
        }
      case Put(p, i) =>
        if p !in phase && i < NINODE && p in refs[i] && holder[i] != Some(p) {
          Release(p, i);
        }
      case Continue(p) =>
        if p in phase {
          IputContinue(p);
        }
      case _ =>
        PerformLocked(e);
    }

    method PerformLocked(e: Event)
      requires Underway() && LockEvent(e)
      modifies this
      ensures Underway()
      ensures Happened(e, old(Now()), Now())
    {
      hide TableOk, PhasesOk;
      var p, i := e.p, e.i;
      if p in phase || i >= NINODE {
        return;
      }
      Facts(table, refs, holder, disk, i);
      if holder[i] == Some(p) {
        HasReference(refs[i], p);
      }
      match e
      case Lock(_, _) =>
        if p in refs[i] && holder[i].None? && table[i].inum < |disk| && (table[i].valid || disk[table[i].inum].typ != 0) {
          Ilock(p, i);
          Kept(old(refs), old(holder), i);
        }
      case Modify(_, _, copy) =>
        if holder[i] == Some(p) {
          Change(p, i, copy);
        }
      case Update(_, _) =>
        if holder[i] == Some(p) {
          Iupdate(p, i);
        }
      case Unlock(_, _) =>
        if holder[i] == Some(p) && (table[i].valid ==> Agrees(table[i], disk)) {
          Iunlock(p, i);
          Kept(old(refs), old(holder), i);
        }
    }

    method Release(p: nat, i: nat)
      requires Underway() && p !in phase && i < NINODE && p in refs[i] && holder[i] != Some(p)
      modifies this
      ensures Underway()
      ensures Happened(Put(p, i), old(Now()), Now())
    {
      hide TableOk;
      var freeing := IputBegin(p, i);
      if freeing {
        phase := phase[p := Freeing(i)];
      }
    }

    lemma Kept(refs0: seq<multiset<nat>>, holder0: seq<Option<nat>>, i: nat)
      requires PhasesOk(phase, refs0, holder0) && i < |refs0| == |refs| == |holder0| == |holder|
      requires refs == refs0[i := refs[i]] && holder == holder0[i := holder[i]]
      requires forall p | p in phase && p in refs0[i] :: p in refs[i] && (holder0[i] == Some(p) <==> holder[i] == Some(p))
      ensures PhasesOk(phase, refs, holder)
    {
      PhasesKept(phase, refs0, holder0, i, refs[i], holder[i]);
    }

    lemma Sizes()
      requires Underway()
      ensures |table| == |refs| == |holder| == NINODE
      ensures forall p | p in phase :: phase[p].i < NINODE && p in refs[phase[p].i] && (phase[p].Ending? <==> holder[phase[p].i] != Some(p))
    {
    }

    /** The next section of an iput that frees. */
    method IputContinue(p: nat)
      requires Underway() && p in phase
      modifies this
      ensures Underway() && Happened(Continue(p), old(Now()), Now())
    {
      hide TableOk, PhasesOk;
      Sizes();
      match phase[p]
      case Freeing(i) =>
        PhaseMoves(phase, refs, holder, p, Freed(i), holder[i]);
        assert holder[i := holder[i]] == holder;
        IputFree(p, i);
        phase := phase[p := Freed(i)];
      case Freed(i) =>
        PhaseMoves(phase, refs, holder, p, Ending(i), None);
        IputUnlock(p, i);
        phase := phase[p := Ending(i)];
      case Ending(i) =>
        PhaseEnds(phase, refs, holder, p);
        IputEnd(p, i);
        phase := phase - {p};
    }

    /** However the sections of the processes interleave, the invariant holds
        and an iput that frees keeps its lock until it gives it up. */
    method Run(script: seq<Event>) returns (ghost trace: seq<Moment>)
      requires Underway()
      modifies this
      ensures Underway()
      ensures |trace| == |script| + 1 && trace[0] == old(Now()) && trace[|script|] == Now()
      ensures forall k | 0 <= k < |script| :: Happened(script[k], trace[k], trace[k + 1])
    {
      hide Underway, Happened;
      trace := [Now()];
      for i := 0 to |script|
        invariant Underway()
        invariant |trace| == i + 1 && trace[0] == old(Now()) && trace[i] == Now()
        invariant forall k | 0 <= k < i :: Happened(script[k], trace[k], trace[k + 1])
      {
        Perform(script[i]);
        trace := trace + [Now()];
      }
    }
  }

  /** Entry i lost one reference. */
  ghost predicate Dropped(table: seq<Entry>, table': seq<Entry>, i: nat) {
    i < |table| && table[i].ref > 0 && table' == table[i := table[i].(ref := table[i].ref - 1)]
  }

  lemma More(table: seq<Entry>, refs: seq<multiset<nat>>, holder: seq<Option<nat>>, disk: seq<Dinode>, i: nat, p: nat)
    requires TableOk(table, refs, holder, disk) && i < |table| == |refs| && table[i].ref > 0
    ensures TableOk(table[i := table[i].(ref := table[i].ref + 1)], refs[i := refs[i] + multiset{p}], holder, disk)
  {
    hide TableOk;
    Facts(table, refs, holder, disk, i);
    Replace(table, refs, holder, disk, i, table[i].(ref := table[i].ref + 1), refs[i] + multiset{p}, holder[i]);
    assert holder[i := holder[i]] == holder;
  }

  lemma Less(table: seq<Entry>, refs: seq<multiset<nat>>, holder: seq<Option<nat>>, disk: seq<Dinode>, i: nat, p: nat)
    requires TableOk(table, refs, holder, disk) && i < |table| == |refs| == |holder| && p in refs[i] && holder[i] != Some(p)
    ensures table[i].ref > 0
    ensures TableOk(table[i := table[i].(ref := table[i].ref - 1)], refs[i := refs[i] - multiset{p}], holder, disk)
  {
    hide TableOk;
    HasReference(refs[i], p);
    Facts(table, refs, holder, disk, i);
    Replace(table, refs, holder, disk, i, table[i].(ref := table[i].ref - 1), refs[i] - multiset{p}, holder[i]);
    assert holder[i := holder[i]] == holder;
  }

  lemma NoReferences(m: multiset<nat>)
    requires |m| == 0
    ensures m == multiset{}
  {
  }

  lemma HasReference(m: multiset<nat>, p: nat)
    requires p in m
    ensures |m| > 0 && |m - multiset{p}| == |m| - 1
  {
  }

  /** The last reference is the caller's own. */
  lemma LastReference(m: multiset<nat>, p: nat)
    requires p in m && |m| == 1
    ensures m == multiset{p}
  {
    assert |m - multiset{p}| == 0;
  }
}

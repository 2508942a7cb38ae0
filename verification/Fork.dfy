/** The memory side of kernel/proc.c: allocproc, freeproc and kfork over the
    page tables of a machine. */
module Fork {
  import opened Common
  import opened PageTable
  import opened Vm

  const TRAPFRAME_WORDS := 36
  const A0 := 14             // the word of the saved a0

  /** The fields of struct proc that own memory; None is a null pointer. */
  datatype Proc = Proc(trapframe: Option<nat>, pagetable: Option<nat>, sz: nat)

  /** An address space of n user pages, all of its own, with the trapframe and
      trampoline pages of somebody else at the top. */
  ghost predicate UserSpace(pages: Pages, role: Role, tables: Tables, t: nat, n: nat) {
    && Node(t, 2, 0) in tables && n <= TRAPFRAME
    && forall v: nat | Mapped(pages, tables, t, v) ::
         if v < n then Owned(pages, role, tables, t, v)
         else (v == TRAPFRAME || v == TRAMPOLINE) && !Owned(pages, role, tables, t, v)
  }

  /** The pages in use are those of before, with the same use and contents. */
  ghost predicate Restored(pages: Pages, role: Role, pages': Pages, role': Role) {
    && role' == role && pages'.Keys == pages.Keys
    && forall p | p in role && p in pages :: pages'[p] == pages[p]
  }

  lemma RestoredBy(t: nat, pages: Pages, role: Role, pages': Pages, role': Role)
    requires Confined(t, pages, role, pages', role') && NoneOf(role, t) && NoneOf(role', t)
    ensures Restored(pages, role, pages', role')
  {
  }

  lemma FreeRestored(pages: Pages, free: seq<nat>, role: Role, pages': Pages, free': seq<nat>, role': Role)
    requires FreeOk(pages, free, role) && FreeOk(pages', free', role') && Restored(pages, role, pages', role')
    ensures forall p :: p in free' <==> p in free
  {
  }

  lemma MapTop(pages: Pages, role: Role, tables: Tables, pages': Pages, role': Role, tables': Tables, t: nat, v: nat,
               p: nat, perm: nat, k: nat)
    requires UserSpace(pages, role, tables, t, 0) && MoreTables(pages, role, pages', role') && k <= 1 && perm < 1024
    requires MapsMore(pages, tables, pages', tables', t, v, k, p, perm) && (v == TRAPFRAME || v == TRAMPOLINE)
    requires Node(t, 2, 0) in tables'
    requires p in role' ==> role'[p] == Held
    ensures UserSpace(pages', role', tables', t, 0)
    ensures k == 0 ==> Entry(pages', tables', t, v) == Entry(pages, tables, t, v)
    ensures k == 1 ==> Entry(pages', tables', t, v) == MakePte(p, perm)
    ensures forall x: nat | x != v :: Entry(pages', tables', t, x) == Entry(pages, tables, t, x)
  {
    hide Entry, MakePte;
    assert p + (v - v) == p;
    forall x: nat | Mapped(pages', tables', t, x)
      ensures (x == TRAPFRAME || x == TRAMPOLINE) && !Owned(pages', role', tables', t, x)
    {
      if !(x == v && k == 1) {
        assert Mapped(pages, tables, t, x);
      } else {
        assert Ppn(MakePte(p, perm)) == p;
      }
    }
  }

  lemma UnmapTop(pages: Pages, role: Role, tables: Tables, pages': Pages, role': Role, t: nat, v: nat, n: nat)
    requires UserSpace(pages, role, tables, t, n) && FramesLess(pages, role, pages', role', t, v, 1)
    requires MapsLess(pages, tables, pages', tables, t, v, 1) && v >= n
    ensures UserSpace(pages', role', tables, t, n) && !Mapped(pages', tables, t, v)
    ensures forall x: nat | x != v :: Entry(pages', tables, t, x) == Entry(pages, tables, t, x)
  {
    hide Entry;
    assert forall x: nat | x != v :: Mapped(pages', tables, t, x) == Mapped(pages, tables, t, x);
  }

  lemma NewSpace(pages: Pages, role: Role, tables: Tables, t: nat)
    requires Node(t, 2, 0) in tables && forall v: nat :: Entry(pages, tables, t, v) == 0
    ensures UserSpace(pages, role, tables, t, 0)
  {
  }

  /** The tables of a new address space: trampoline and trapframe share theirs. */
  function TopTables(): set<(nat, nat)> { {(2, 0)} + Path(TRAMPOLINE) }

  lemma TopCost()
    ensures Missing({(2, 0)}, TRAMPOLINE) == 2
    ensures Missing(TopTables(), TRAPFRAME) == 0 && TopTables() + Path(TRAPFRAME) == TopTables()
  {
    assert Path(TRAPFRAME) == Path(TRAMPOLINE);
  }

  /** proc_pagetable. */
  method ProcPagetable(m: Kmem, trapframe: nat, trampoline: nat) returns (r: Option<nat>)
    requires m.Valid() && trapframe in m.role && m.role[trapframe] == Held && trampoline !in m.pages
    modifies m
    ensures m.Valid()
    ensures r.None? ==> Restored(old(m.pages), old(m.role), m.pages, m.role)
    ensures r.Some? ==> && NoneOf(old(m.role), r.value) && Confined(r.value, old(m.pages), old(m.role), m.pages, m.role)
                        && UserSpace(m.pages, m.role, m.tables, r.value, 0)
                        && Entry(m.pages, m.tables, r.value, TRAMPOLINE) == MakePte(trampoline, PTE_R + PTE_X)
                        && Entry(m.pages, m.tables, r.value, TRAPFRAME) == MakePte(trapframe, PTE_R + PTE_W)
    ensures r.Some? <==> |old(m.free)| >= 3
    ensures r.Some? ==> |m.free| == |old(m.free)| - 3 && TablesOf(m.tables, r.value) == TopTables()
  {
    hide Missing, TablesOf, Path;
    TopCost();
    hide SpaceOk, FreeOk, Entry, Confined, NoneOf, UserSpace, Restored, MapsMore, MoreTables, MapsLess, FramesLess, SameEntries, MakePte;
    r := m.UvmCreate();
    if r.None? {
      RestoredSame(m.pages, m.role);
      return;
    }
    var t := r.value;
    NewSpace(m.pages, m.role, m.tables, t);
    var ok := MapAtTop(m, t, TRAMPOLINE, trampoline, PTE_R + PTE_X, old(m.pages), old(m.role));
    if !ok {
      GiveBack(m, t, old(m.pages), old(m.role));
      return None;
    }
    ok := MapAtTop(m, t, TRAPFRAME, trapframe, PTE_R + PTE_W, old(m.pages), old(m.role));
    if !ok {
      assert false;   // the tables for the trampoline are those for the trapframe
    }
  }

  /** mappages of the trampoline or the trapframe page. */
  method MapAtTop(m: Kmem, t: nat, v: nat, p: nat, perm: nat, ghost pages: Pages, ghost role: Role) returns (ok: bool)
    requires m.Valid() && UserSpace(m.pages, m.role, m.tables, t, 0) && (v == TRAPFRAME || v == TRAMPOLINE)
    requires Confined(t, pages, role, m.pages, m.role) && MoreTables(pages, role, m.pages, m.role)
    requires perm < 1024 && IsLeaf(perm) && !Mapped(m.pages, m.tables, t, v)
    requires p in pages ==> p in role && role[p] == Held
    modifies m
    ensures m.Valid() && UserSpace(m.pages, m.role, m.tables, t, 0)
    ensures Confined(t, pages, role, m.pages, m.role) && MoreTables(pages, role, m.pages, m.role)
    ensures ok ==> Entry(m.pages, m.tables, t, v) == MakePte(p, perm)
    ensures !ok ==> Entry(m.pages, m.tables, t, v) == old(Entry(m.pages, m.tables, t, v))
    ensures forall x: nat | x != v :: Entry(m.pages, m.tables, t, x) == old(Entry(m.pages, m.tables, t, x))
    ensures ok <==> |old(m.free)| >= Missing(TablesOf(old(m.tables), t), v)
    ensures ok ==> |m.free| == |old(m.free)| - Missing(TablesOf(old(m.tables), t), v)
    ensures ok ==> TablesOf(m.tables, t) == TablesOf(old(m.tables), t) + Path(v)
  {
    hide SpaceOk, Entry, Confined, MapsMore, MoreTables, MakePte, FreeOk, UserSpace, Missing, TablesOf, Path, TableCost, WithPaths;
    OnePath(TablesOf(m.tables, t), v);
    ghost var k;
    SpaceRoot(m.pages, m.role, m.tables, t);
    ok, k := m.MapPages(t, v, 1, p, perm);
    ConfinedTrans(t, pages, role, old(m.pages), old(m.role), m.pages, m.role);
    MoreTablesTrans(pages, role, old(m.pages), old(m.role), m.pages, m.role);
    Mapping(pages, role, m.pages, m.free, m.role, t, p);
    MapTop(old(m.pages), old(m.role), old(m.tables), m.pages, m.role, m.tables, t, v, p, perm, k);
  }

  method UnmapAtTop(m: Kmem, t: nat, v: nat, ghost n: nat, ghost pages: Pages, ghost role: Role)
    requires m.Valid() && UserSpace(m.pages, m.role, m.tables, t, n) && (v == TRAPFRAME || v == TRAMPOLINE)
    requires Confined(t, pages, role, m.pages, m.role)
    modifies m
    ensures m.Valid() && UserSpace(m.pages, m.role, m.tables, t, n) && !Mapped(m.pages, m.tables, t, v)
    ensures Confined(t, pages, role, m.pages, m.role)
    ensures forall x: nat | x != v :: Entry(m.pages, m.tables, t, x) == old(Entry(m.pages, m.tables, t, x))
  {
    hide SpaceOk, Entry, Confined, MapsLess, FramesLess, FreeOk, Owned, UserSpace;
    SpaceRoot(m.pages, m.role, m.tables, t);
    TopNotOwned(m.pages, m.role, m.tables, t, v, n);
    m.UvmUnmap(t, v, 1, false);
    ConfinedTrans(t, pages, role, old(m.pages), old(m.role), m.pages, m.role);
    UnmapTop(old(m.pages), old(m.role), m.tables, m.pages, m.role, t, v, n);
  }

  /** uvmfree of an address space without user pages and top pages. */
  method GiveBack(m: Kmem, t: nat, ghost pages: Pages, ghost role: Role)
    requires m.Valid() && UserSpace(m.pages, m.role, m.tables, t, 0)
    requires !Mapped(m.pages, m.tables, t, TRAPFRAME) && !Mapped(m.pages, m.tables, t, TRAMPOLINE)
    requires Confined(t, pages, role, m.pages, m.role) && NoneOf(role, t)
    modifies m
    ensures m.Valid() && Restored(pages, role, m.pages, m.role)
  {
    hide SpaceOk, Entry, Confined, FreeOk, Owned, NoneOf, Restored;
    m.UvmFree(t, 0);
    ConfinedTrans(t, pages, role, old(m.pages), old(m.role), m.pages, m.role);
    RestoredBy(t, pages, role, m.pages, m.role);
  }

  lemma SpaceRoot(pages: Pages, role: Role, tables: Tables, t: nat)
    requires exists n :: UserSpace(pages, role, tables, t, n)
    ensures Node(t, 2, 0) in tables
  {
  }

  lemma TopNotOwned(pages: Pages, role: Role, tables: Tables, t: nat, v: nat, n: nat)
    requires UserSpace(pages, role, tables, t, n) && (v == TRAPFRAME || v == TRAMPOLINE)
    ensures n <= v && (Mapped(pages, tables, t, v) ==> !Owned(pages, role, tables, t, v))
  {
  }

  lemma RestoredSame(pages: Pages, role: Role)
    ensures Restored(pages, role, pages, role)
  {
  }

  /** The page to map is not the memory of any address space. */
  lemma Mapping(pages: Pages, role: Role, pages': Pages, free: seq<nat>, role': Role, t: nat, p: nat)
    requires FreeOk(pages', free, role') && MoreTables(pages, role, pages', role') && Confined(t, pages, role, pages', role')
    requires p in pages ==> p in role && role[p] == Held
    ensures p in role' ==> role'[p] == Held
  {
  }

  /** proc_freepagetable: nothing is left of the address space. */
  method ProcFreePagetable(m: Kmem, t: nat, sz: nat)
    requires m.Valid() && UserSpace(m.pages, m.role, m.tables, t, NumPages(sz))
    modifies m
    ensures m.Valid() && Confined(t, old(m.pages), old(m.role), m.pages, m.role) && NoneOf(m.role, t)
  {
    hide SpaceOk, Entry, Confined, FreeOk, Owned, NoneOf;
    NothingChanged(t, m.pages, m.role);
    UnmapAtTop(m, t, TRAMPOLINE, NumPages(sz), old(m.pages), old(m.role));
    UnmapAtTop(m, t, TRAPFRAME, NumPages(sz), old(m.pages), old(m.role));
    ghost var pages1, role1 := m.pages, m.role;
    m.UvmFree(t, NumPages(sz));
    ConfinedTrans(t, old(m.pages), old(m.role), pages1, role1, m.pages, m.role);
  }

  lemma HeldGone(pages: Pages, role: Role, tables: Tables, pages': Pages, t: nat, n: nat, p: nat)
    requires UserSpace(pages, role, tables, t, n) && SameEntries(pages, tables, pages', tables) && p in role && role[p] == Held
    ensures UserSpace(pages', role - {p}, tables, t, n)
  {
    hide Entry;
    assert forall x: nat :: Mapped(pages', tables, t, x) == Mapped(pages, tables, t, x);
  }

  function WithoutFrame(role: Role, tf: Option<nat>): Role {
    if tf.Some? then role - {tf.value} else role
  }

  /** freeproc, of what a process can own while it is being made. */
  method FreeProc(m: Kmem, p: Proc)
    requires m.Valid() && (p.trapframe.Some? ==> p.trapframe.value in m.role && m.role[p.trapframe.value] == Held)
    requires p.pagetable.Some? ==> UserSpace(m.pages, m.role, m.tables, p.pagetable.value, NumPages(p.sz))
    modifies m
    ensures m.Valid()
    ensures p.pagetable.None? ==> Restored(old(m.pages), WithoutFrame(old(m.role), p.trapframe), m.pages, m.role)
    ensures p.pagetable.Some? ==> && NoneOf(m.role, p.pagetable.value)
                                  && Confined(p.pagetable.value, old(m.pages), WithoutFrame(old(m.role), p.trapframe), m.pages, m.role)
  {
    hide SpaceOk, Entry, FreeOk, Owned, NoneOf, SameEntries, UserSpace;
    if p.trapframe.Some? {
      m.KfreeHeld(p.trapframe.value);
      if p.pagetable.Some? {
        HeldGone(old(m.pages), old(m.role), old(m.tables), m.pages, p.pagetable.value, NumPages(p.sz), p.trapframe.value);
      }
    }
    if p.pagetable.Some? {
      ProcFreePagetable(m, p.pagetable.value, p.sz);
    }
  }

  /** A new process whose only user memory is to come: a page is held for its
      trapframe and its address space is empty. */
  ghost predicate NewProc(pages: Pages, role: Role, pages': Pages, role': Role, tables': Tables, tf: nat, c: nat,
                          trampoline: nat) {
    && tf !in role && tf in pages && NoneOf(role, c)
    && Confined(c, pages[tf := Filled(JUNK_ALLOC)], role[tf := Held], pages', role')
    && UserSpace(pages', role', tables', c, 0)
    && Entry(pages', tables', c, TRAMPOLINE) == MakePte(trampoline, PTE_R + PTE_X)
    && Entry(pages', tables', c, TRAPFRAME) == MakePte(tf, PTE_R + PTE_W)
  }

  lemma RestoredVia(pages: Pages, role: Role, tf: nat, page: seq<nat>, pages1: Pages, role1: Role, pages': Pages, role': Role)
    requires tf !in role && tf in pages && Restored(pages[tf := page], role[tf := Held], pages1, role1)
    requires Restored(pages1, role1 - {tf}, pages', role')
    ensures Restored(pages, role, pages', role')
  {
  }

  /** The memory side of allocproc. */
  method AllocProc(m: Kmem, trampoline: nat) returns (r: Option<Proc>)
    requires m.Valid() && trampoline !in m.pages
    modifies m
    ensures m.Valid()
    ensures r.None? ==> Restored(old(m.pages), old(m.role), m.pages, m.role)
    ensures r.Some? ==> && r.value.trapframe.Some? && r.value.pagetable.Some? && r.value.sz == 0
                        && NewProc(old(m.pages), old(m.role), m.pages, m.role, m.tables,
                                   r.value.trapframe.value, r.value.pagetable.value, trampoline)
    ensures r.Some? <==> |old(m.free)| >= 4
    ensures r.Some? ==> |m.free| == |old(m.free)| - 4 && TablesOf(m.tables, r.value.pagetable.value) == TopTables()
  {
    hide TablesOf, TopTables;
    hide SpaceOk, Entry, FreeOk, Restored, UserSpace, Confined, NoneOf, MakePte, SameEntries;
    var tf := m.Kalloc();
    if tf.None? {
      RestoredSame(m.pages, m.role);
      return None;
    }
    ghost var pages1, role1 := m.pages, m.role;
    var pt := ProcPagetable(m, tf.value, trampoline);
    if pt.None? {
      HeldStill(pages1, role1, m.pages, m.role, tf.value);
      ghost var pages2, role2 := m.pages, m.role;
      FreeProc(m, Proc(tf, None, 0));
      RestoredVia(old(m.pages), old(m.role), tf.value, Filled(JUNK_ALLOC), pages2, role2, m.pages, m.role);
      return None;
    }
    NoneBefore(old(m.role), tf.value, pt.value);
    return Some(Proc(tf, pt, 0));
  }

  lemma HeldStill(pages: Pages, role: Role, pages': Pages, role': Role, tf: nat)
    requires Restored(pages, role, pages', role')
    ensures role' == role
  {
  }

  lemma NoneBefore(role: Role, tf: nat, c: nat)
    requires tf !in role && NoneOf(role[tf := Held], c)
    ensures NoneOf(role, c)
  {
    forall p | p in role ensures !Of(role[p], c) {
      assert role[tf := Held][p] == role[p];
    }
  }

  // kfork.

  /** Everything that was in use is as it was. */
  ghost predicate AllKept(pages: Pages, role: Role, tables: Tables, pages': Pages, role': Role, tables': Tables, c: nat) {
    && pages'.Keys == pages.Keys
    && (forall p | p in role && p in pages :: p in role' && role'[p] == role[p] && pages'[p] == pages[p])
    && (forall t: nat, v: nat | t != c :: Entry(pages', tables', t, v) == Entry(pages, tables, t, v))
  }

  lemma KeptBy(pages: Pages, role: Role, tables: Tables, tf: nat, page: seq<nat>, pages': Pages, role': Role,
               tables': Tables, c: nat)
    requires SpaceOk(pages, role, tables) && SpaceOk(pages', role', tables') && tf !in role && tf in pages && |page| == 512
    requires Confined(c, pages[tf := page], role[tf := Held], pages', role') && NoneOf(role, c)
    ensures AllKept(pages, role, tables, pages', role', tables', c)
    ensures tf in role' && role'[tf] == Held
  {
    hide SpaceOk, Entry;
    ChangeData(pages, role, tables, tf, page);
    Come(pages[tf := page], role, tables, tf);
    forall t: nat, v: nat | t != c ensures Entry(pages', tables', t, v) == Entry(pages, tables, t, v) {
      ConfinedEntry(c, pages[tf := page], role[tf := Held], tables, pages', role', tables', t, v);
    }
    forall p | p in role && p in pages ensures p in role' && role'[p] == role[p] && pages'[p] == pages[p] {
      assert role[tf := Held][p] == role[p] && pages[tf := page][p] == pages[p];
    }
  }

  lemma OtherSpace(pages: Pages, role: Role, tables: Tables, t: nat, c: nat)
    requires SpaceOk(pages, role, tables) && Node(t, 2, 0) in tables && NoneOf(role, c)
    ensures t != c
  {
  }

  lemma SpaceKept(pages: Pages, free: seq<nat>, role: Role, tables: Tables, pages': Pages, role': Role,
                  tables': Tables, t: nat, c: nat, n: nat)
    requires FreeOk(pages, free, role) && SpaceOk(pages, role, tables) && SpaceOk(pages', role', tables')
    requires AllKept(pages, role, tables, pages', role', tables', c) && t != c && UserSpace(pages, role, tables, t, n)
    ensures Node(t, 2, 0) in tables'
    ensures forall v: nat | v < n && Mapped(pages', tables', t, v) :: Owned(pages', role', tables', t, v)
  {
    hide Entry, NodeOk;
    var root := tables[Node(t, 2, 0)];
    assert root in role && role[root] == Table(Node(t, 2, 0)) && role'[root] == role[root];
    forall v: nat | v < n && Mapped(pages', tables', t, v) ensures Owned(pages', role', tables', t, v) {
      assert Mapped(pages, tables, t, v);
    }
  }

  lemma ChildSpace(pages: Pages, role: Role, tables: Tables, pages': Pages, free: seq<nat>, role': Role, tables': Tables,
                   t: nat, c: nat, k: nat, n: nat, tf: nat, trampoline: nat)
    requires FreeOk(pages', free, role') && UserSpace(pages, role, tables, c, 0) && Node(c, 2, 0) in tables' && n <= TRAPFRAME
    requires CopiedTo(pages, tables, pages', role', tables', t, c, k, n) && (k == 0 || k == n)
    requires Entry(pages, tables, c, TRAMPOLINE) == MakePte(trampoline, PTE_R + PTE_X) && trampoline !in pages'
    requires Entry(pages, tables, c, TRAPFRAME) == MakePte(tf, PTE_R + PTE_W) && tf in role' && role'[tf] == Held
    ensures UserSpace(pages', role', tables', c, k)
  {
    hide Entry, MakePte;
    forall v: nat | Mapped(pages', tables', c, v)
      ensures if v < k then Owned(pages', role', tables', c, v) else (v == TRAPFRAME || v == TRAMPOLINE) && !Owned(pages', role', tables', c, v)
    {
      if v < k {
        assert CopiedPage(pages', role', tables', t, c, v);
      } else {
        assert Mapped(pages, tables, c, v);
        assert Ppn(MakePte(trampoline, PTE_R + PTE_X)) == trampoline && Ppn(MakePte(tf, PTE_R + PTE_W)) == tf;
      }
    }
  }

  lemma Undone(c: nat, pages: Pages, role: Role, tf: nat, page: seq<nat>, pages1: Pages, role1: Role, pages2: Pages, role2: Role)
    requires tf !in role && tf in pages && NoneOf(role, c) && NoneOf(role2, c)
    requires Confined(c, pages[tf := page], role[tf := Held], pages1, role1)
    requires Confined(c, pages1, role1 - {tf}, pages2, role2)
    ensures Restored(pages, role, pages2, role2)
  {
  }

  /** The child has the parent's registers, except that its a0 is 0. */
  ghost predicate SameRegisters(parent: seq<nat>, child: seq<nat>) {
    && |parent| == |child| == 512
    && forall i | 0 <= i < TRAPFRAME_WORDS :: child[i] == if i == A0 then 0 else parent[i]
  }

  method CopyRegisters(m: Kmem, from: nat, to: nat)
    requires m.Valid() && from in m.role && to in m.role && m.role[to] == Held && from in m.pages && to in m.pages && from != to
    modifies m`pages
    ensures m.Valid() && SameEntries(old(m.pages), m.tables, m.pages, m.tables)
    ensures to in m.pages && m.pages == old(m.pages)[to := m.pages[to]] && SameRegisters(m.pages[from], m.pages[to])
  {
    hide SpaceOk, Entry, SameEntries;
    var words: seq<nat> := m.pages[from][..TRAPFRAME_WORDS] + m.pages[to][TRAPFRAME_WORDS..];
    words := words[A0 := 0];
    m.Fill(to, words);
  }

  /** The child's memory is a copy of the parent's in pages of its own. */
  ghost predicate Forked(pages: Pages, role: Role, tables: Tables, parent: Proc, child: Proc)
    requires parent.pagetable.Some? && child.pagetable.Some?
  {
    var t, c, n := parent.pagetable.value, child.pagetable.value, NumPages(parent.sz);
    && child.sz == parent.sz && t != c
    && UserSpace(pages, role, tables, c, n)
    && forall v: nat | v < n :: CopiedPage(pages, role, tables, t, c, v)
  }

  lemma ForkedSame(pages: Pages, role: Role, tables: Tables, pages': Pages, t: nat, c: nat, n: nat, p: nat, page: seq<nat>)
    requires UserSpace(pages, role, tables, c, n) && SameEntries(pages, tables, pages', tables) && pages' == pages[p := page]
    requires p in pages && p in role && role[p] == Held
    requires forall v: nat | v < n :: CopiedPage(pages, role, tables, t, c, v)
    requires forall v: nat | v < n && Mapped(pages, tables, t, v) :: Owned(pages, role, tables, t, v)
    ensures UserSpace(pages', role, tables, c, n)
    ensures forall v: nat | v < n :: CopiedPage(pages', role, tables, t, c, v)
  {
    hide Entry;
    assert forall x: nat :: Mapped(pages', tables, c, x) == Mapped(pages, tables, c, x);
    forall v: nat | v < n ensures CopiedPage(pages', role, tables, t, c, v) {
      assert CopiedPage(pages, role, tables, t, c, v);
      assert Mapped(pages, tables, t, v) ==> Owned(pages, role, tables, t, v);
    }
  }

  lemma KeptThen(pages: Pages, role: Role, tables: Tables, pages1: Pages, role1: Role, tables1: Tables,
                 pages2: Pages, c: nat, p: nat)
    requires AllKept(pages, role, tables, pages1, role1, tables1, c) && SameEntries(pages1, tables1, pages2, tables1)
    requires p !in role && p in pages1 && p in pages2 && pages2 == pages1[p := pages2[p]]
    ensures AllKept(pages, role, tables, pages2, role1, tables1, c)
  {
  }

  /** The pages that a fork takes: four for the trapframe, the root and the two
      tables at the top, and those of the copy. */
  ghost function ForkCost(pages: Pages, tables: Tables, t: nat, n: nat): nat {
    4 + Cost(TopTables(), MappedBelow(pages, tables, t, n), 0, n)
  }

  lemma ForkCostBound(pages: Pages, tables: Tables, t: nat, n: nat)
    ensures ForkCost(pages, tables, t, n) <= 4 + 3 * n
  {
    CostBound(TopTables(), MappedBelow(pages, tables, t, n), 0, n);
  }

  lemma SameWant(pages: Pages, role: Role, tables: Tables, pages': Pages, role': Role, tables': Tables, t: nat, c: nat, n: nat)
    requires AllKept(pages, role, tables, pages', role', tables', c) && t != c
    ensures MappedBelow(pages', tables', t, n) == MappedBelow(pages, tables, t, n)
  {
    hide Entry;
    assert forall v: nat :: Mapped(pages', tables', t, v) == Mapped(pages, tables, t, v);
  }

  /** The memory side of kfork. */
  method KFork(m: Kmem, parent: Proc, trampoline: nat) returns (r: Option<Proc>)
    requires m.Valid() && trampoline !in m.pages && parent.pagetable.Some? && parent.trapframe.Some?
    requires UserSpace(m.pages, m.role, m.tables, parent.pagetable.value, NumPages(parent.sz))
    requires parent.trapframe.value in m.role && m.role[parent.trapframe.value] == Held
    modifies m
    ensures m.Valid()
    ensures r.None? ==> Restored(old(m.pages), old(m.role), m.pages, m.role) && forall p :: p in m.free <==> p in old(m.free)
    ensures r.Some? ==> r.value.pagetable.Some? && r.value.trapframe.Some?
    ensures r.Some? ==> Forked(m.pages, m.role, m.tables, parent, r.value)
    ensures r.Some? ==> AllKept(old(m.pages), old(m.role), old(m.tables), m.pages, m.role, m.tables, r.value.pagetable.value)
    ensures r.Some? ==> && parent.trapframe.value in m.pages && r.value.trapframe.value in m.pages
                        && SameRegisters(m.pages[parent.trapframe.value], m.pages[r.value.trapframe.value])
                        && r.value.trapframe.value !in old(m.role)
    ensures r.Some? ==> NewPages(old(m.role), m.role, r.value.trapframe.value, r.value.pagetable.value)
    ensures r.Some? <==> |old(m.free)| >= ForkCost(old(m.pages), old(m.tables), parent.pagetable.value, NumPages(parent.sz))
  {
    hide TablesOf, TopTables, Cost, MappedBelow;
    hide SpaceOk, Entry, FreeOk, Restored, UserSpace, Confined, NoneOf, MakePte, SameEntries, CopiedTo, CopiedPage, AllKept, SameRegisters, Owned, NewPages;
    ghost var junk := Filled(JUNK_ALLOC);
    var np := AllocProc(m, trampoline);
    if np.None? {
      FreeRestored(old(m.pages), old(m.free), old(m.role), m.pages, m.free, m.role);
      return None;
    }
    var t, c, tf, n := parent.pagetable.value, np.value.pagetable.value, np.value.trapframe.value, NumPages(parent.sz);
    SpaceRoot(old(m.pages), old(m.role), old(m.tables), t);
    OtherSpace(old(m.pages), old(m.role), old(m.tables), t, c);
    KeptBy(old(m.pages), old(m.role), old(m.tables), tf, junk, m.pages, m.role, m.tables, c);
    SpaceKept(old(m.pages), old(m.free), old(m.role), old(m.tables), m.pages, m.role, m.tables, t, c, n);
    ghost var pages1, role1, tables1 := m.pages, m.role, m.tables;
    SpaceSize(old(m.pages), old(m.role), old(m.tables), t, n);
    SameWant(old(m.pages), old(m.role), old(m.tables), m.pages, m.role, m.tables, t, c, n);
    NoUserPages(m.pages, m.role, m.tables, c, n);
    var ok := m.UvmCopy(t, c, n);
    ConfinedTrans(c, old(m.pages)[tf := junk], old(m.role)[tf := Held], pages1, role1, m.pages, m.role);
    KeptBy(old(m.pages), old(m.role), old(m.tables), tf, junk, m.pages, m.role, m.tables, c);
    ConfinedKeys(c, old(m.pages)[tf := junk], old(m.role)[tf := Held], m.pages, m.role);
    ChildSpace(pages1, role1, tables1, m.pages, m.free, m.role, m.tables, t, c, if ok then n else 0, n, tf, trampoline);
    if !ok {
      ghost var pages2, role2 := m.pages, m.role;
      FreeProc(m, np.value);
      Undone(c, old(m.pages), old(m.role), tf, junk, pages2, role2, m.pages, m.role);
      FreeRestored(old(m.pages), old(m.free), old(m.role), m.pages, m.free, m.role);
      return None;
    }
    ghost var pages2 := m.pages;
    OnlyNewPages(old(m.pages), old(m.role), tf, junk, m.pages, m.role, c);
    SpaceKept(old(m.pages), old(m.free), old(m.role), old(m.tables), m.pages, m.role, m.tables, t, c, n);
    AllCopied(pages1, tables1, m.pages, m.role, m.tables, t, c, n);
    BothHeld(old(m.pages), old(m.free), old(m.role), old(m.tables), m.pages, m.free, m.role, m.tables, c, parent.trapframe.value, tf);
    CopyRegisters(m, parent.trapframe.value, tf);
    ForkedSame(pages2, m.role, m.tables, m.pages, t, c, n, tf, m.pages[tf]);
    KeptThen(old(m.pages), old(m.role), old(m.tables), pages2, m.role, m.tables, m.pages, c, tf);
    return Some(np.value.(sz := parent.sz));
  }

  lemma SpaceSize(pages: Pages, role: Role, tables: Tables, t: nat, n: nat)
    requires UserSpace(pages, role, tables, t, n)
    ensures n <= TRAPFRAME
  {
  }

  lemma NoUserPages(pages: Pages, role: Role, tables: Tables, c: nat, n: nat)
    requires UserSpace(pages, role, tables, c, 0) && n <= TRAPFRAME
    ensures Node(c, 2, 0) in tables && forall v: nat | v < n :: !Mapped(pages, tables, c, v)
  {
  }

  lemma AllCopied(pages: Pages, tables: Tables, pages': Pages, role': Role, tables': Tables, t: nat, c: nat, n: nat)
    requires CopiedTo(pages, tables, pages', role', tables', t, c, n, n)
    ensures forall v: nat | v < n :: CopiedPage(pages', role', tables', t, c, v)
  {
  }

  lemma BothHeld(pages: Pages, free: seq<nat>, role: Role, tables: Tables, pages': Pages, free': seq<nat>,
                 role': Role, tables': Tables,
                 c: nat, tf: nat, tf': nat)
    requires FreeOk(pages, free, role) && FreeOk(pages', free', role') && AllKept(pages, role, tables, pages', role', tables', c)
    requires tf in role && tf' !in role && tf' in role'
    ensures tf in role' && role'[tf] == role[tf] && tf in pages' && tf' in pages' && tf != tf' && pages'[tf] == pages[tf]
  {
  }

  /** No page of the child is a page of the parent. */
  lemma DisjointFrames(pages: Pages, role: Role, tables: Tables, parent: Proc, child: Proc, v: nat, w: nat)
    requires parent.pagetable.Some? && child.pagetable.Some? && Forked(pages, role, tables, parent, child)
    requires v < NumPages(parent.sz) && w < NumPages(parent.sz)
    requires Mapped(pages, tables, child.pagetable.value, v) && Mapped(pages, tables, parent.pagetable.value, w)
    requires Owned(pages, role, tables, parent.pagetable.value, w)
    ensures Ppn(Entry(pages, tables, child.pagetable.value, v)) != Ppn(Entry(pages, tables, parent.pagetable.value, w))
  {
  }

  /** The pages that are new in use are the trapframe tf and pages of c. */
  ghost predicate NewPages(role: Role, role': Role, tf: nat, c: nat) {
    && NoneOf(role, c) && tf in role' && role'[tf] == Held
    && forall p | p in role' && p !in role :: p == tf || Of(role'[p], c)
  }

  lemma OnlyNewPages(pages: Pages, role: Role, tf: nat, page: seq<nat>, pages': Pages, role': Role, c: nat)
    requires Confined(c, pages[tf := page], role[tf := Held], pages', role') && NoneOf(role, c) && tf !in role
    ensures NewPages(role, role', tf, c)
  {
  }

  /** A fork and the freeing of the child give back every page that the fork
      took. */
  method ForkAndFree(m: Kmem, parent: Proc, trampoline: nat)
    requires m.Valid() && trampoline !in m.pages && parent.pagetable.Some? && parent.trapframe.Some?
    requires UserSpace(m.pages, m.role, m.tables, parent.pagetable.value, NumPages(parent.sz))
    requires parent.trapframe.value in m.role && m.role[parent.trapframe.value] == Held
    modifies m
    ensures m.Valid() && Restored(old(m.pages), old(m.role), m.pages, m.role)
    ensures forall p :: p in m.free <==> p in old(m.free)
  {
    hide SpaceOk, Entry, FreeOk, Restored, UserSpace, Confined, NoneOf, AllKept, SameRegisters, NewPages, CopiedPage;
    var r := KFork(m, parent, trampoline);
    if r.Some? {
      var tf, c := r.value.trapframe.value, r.value.pagetable.value;
      ghost var pages1, role1, tables1 := m.pages, m.role, m.tables;
      TrapframeHeld(old(m.role), role1, tf, c);
      FreeProc(m, r.value);
      BothWays(old(m.pages), old(m.free), old(m.role), old(m.tables), pages1, role1, tables1, m.pages, m.role, tf, c);
      FreeRestored(old(m.pages), old(m.free), old(m.role), m.pages, m.free, m.role);
    }
  }

  lemma TrapframeHeld(role: Role, role': Role, tf: nat, c: nat)
    requires NewPages(role, role', tf, c)
    ensures tf in role' && role'[tf] == Held
  {
  }

  lemma BothWays(pages: Pages, free: seq<nat>, role: Role, tables: Tables, pages1: Pages, role1: Role,
                 tables1: Tables, pages2: Pages, role2: Role, tf: nat, c: nat)
    requires FreeOk(pages, free, role) && AllKept(pages, role, tables, pages1, role1, tables1, c)
    requires NewPages(role, role1, tf, c) && tf !in role
    requires Confined(c, pages1, role1 - {tf}, pages2, role2) && NoneOf(role2, c)
    ensures Restored(pages, role, pages2, role2)
  {
    hide Entry;
    forall p | p in role ensures p in role2 && role2[p] == role[p] && p in pages && pages2[p] == pages[p] {
      assert p in role1 - {tf};
    }
    forall p | p in role2 ensures p in role {
      assert !Of(role2[p], c) && p in role1 - {tf};
    }
  }
}

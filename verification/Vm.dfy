/** kernel/vm.c and kernel/kalloc.c on the memory of the machine: page-table
    words are written in place, pages come from and go back to the free list. */
module Vm {
  import opened Common
  import opened PageTable

  const JUNK_FREE := 0x0101_0101_0101_0101
  const JUNK_ALLOC := 0x0505_0505_0505_0505

  function Filled(w: nat): (s: seq<nat>)
    ensures |s| == 512
  {
    seq(512, _ => w)
  }

  lemma TakeFree(pages: Pages, free: seq<nat>, role: Role)
    requires FreeOk(pages, free, role) && free != []
    ensures free[0] in pages && free[0] !in role
    ensures FreeOk(pages, free[1..], role[free[0] := Held])
  {
    assert free == [free[0]] + free[1..];
  }

  lemma GiveFree(pages: Pages, free: seq<nat>, role: Role, p: nat)
    requires FreeOk(pages, free, role) && p in role
    ensures FreeOk(pages, [p] + free, role - {p})
  {
  }

  lemma FirstFree(pages: Pages, free: seq<nat>, p: nat, page: seq<nat>)
    requires FreeOk(pages, free, map[]) && p !in free && |page| == 512
    ensures FreeOk(pages[p := page], [p] + free, map[])
  {
    assert forall q: nat :: q in [p] + free <==> q == p || q in free;
  }

  lemma SameFree(pages: Pages, free: seq<nat>, role: Role, pages': Pages, role': Role)
    requires FreeOk(pages, free, role) && pages'.Keys == pages.Keys && role'.Keys == role.Keys
    requires forall p | p in pages && pages'[p] != pages[p] :: |pages'[p]| == 512
    ensures FreeOk(pages', free, role')
  {
    assert forall p :: p in pages' <==> p in pages.Keys;
    assert forall p :: p in role' <==> p in role.Keys;
  }

  lemma NodePage(pages: Pages, role: Role, tables: Tables, nd: Node)
    requires SpaceOk(pages, role, tables) && nd in tables
    ensures tables[nd] in pages && |pages[tables[nd]]| == 512
    ensures tables[nd] in role && role[tables[nd]] == Table(nd)
  {
    assert NodeOk(pages, tables, nd);
  }

  lemma RootPage(pages: Pages, role: Role, tables: Tables, t: nat)
    requires SpaceOk(pages, role, tables) && Node(t, 2, 0) in tables
    ensures tables[Node(t, 2, 0)] == t
  {
    assert NodeOk(pages, tables, Node(t, 2, 0));
  }

  lemma NodeChild(pages: Pages, role: Role, tables: Tables, nd: Node, i: nat)
    requires SpaceOk(pages, role, tables) && nd in tables && nd.level > 0 && i < 512
    ensures tables[nd] in pages && |pages[tables[nd]]| == 512
    ensures IsValid(pages[tables[nd]][i]) <==> Child(nd, i) in tables
    ensures Child(nd, i) in tables ==> Ppn(pages[tables[nd]][i]) == tables[Child(nd, i)]
  {
    MissingChild(pages, tables, nd, i);
  }

  lemma NoTableBelow(pages: Pages, role: Role, tables: Tables, t: nat, level: nat, v: nat)
    requires SpaceOk(pages, role, tables) && At(t, level, v) !in tables && level <= 2
    ensures At(t, 0, v) !in tables
  {
    NoLeafTable(pages, tables, t, level, v);
  }

  lemma NothingChanged(t: nat, pages: Pages, role: Role)
    ensures Confined(t, pages, role, pages, role) && MoreTables(pages, role, pages, role)
  {
  }

  lemma MoreTablesTrans(pages: Pages, role: Role, pages': Pages, role': Role, pages'': Pages, role'': Role)
    requires MoreTables(pages, role, pages', role') && MoreTables(pages', role', pages'', role'')
    ensures MoreTables(pages, role, pages'', role'')
  {
  }

  lemma AddLevelFrame(pages: Pages, role: Role, pg: nat, nd: Node, i: nat, p: nat, page: seq<nat>)
    requires pg in pages && |pages[pg]| == 512 && p in pages && p !in role && pg in role && role[pg] == Table(nd)
    requires nd.level > 0 && i < 512
    ensures var pages' := Poke(pages[p := page][p := Zeros()], pg, i, MakePte(p, PTE_V));
            && pages'.Keys == pages[p := page].Keys
            && (forall q | q in pages[p := page] && pages'[q] != pages[p := page][q] :: |pages'[q]| == 512)
            && Confined(nd.t, pages, role, pages', role[p := Held][p := Table(Child(nd, i))])
            && MoreTables(pages, role, pages', role[p := Held][p := Table(Child(nd, i))])
  {
  }

  lemma NothingMapped(pages: Pages, tables: Tables, t: nat, v: nat, p: nat, perm: nat)
    requires perm < 1024
    ensures MapsMore(pages, tables, pages, tables, t, v, 0, p, perm)
  {
  }

  lemma StillMaps(pages: Pages, tables: Tables, pages1: Pages, tables1: Tables, pages2: Pages, tables2: Tables,
                  t: nat, v: nat, k: nat, p: nat, perm: nat)
    requires perm < 1024 && MapsMore(pages, tables, pages1, tables1, t, v, k, p, perm)
    requires SameEntries(pages1, tables1, pages2, tables2) && !Mapped(pages, tables, t, v + k)
    ensures MapsMore(pages, tables, pages2, tables2, t, v, k, p, perm) && !Mapped(pages2, tables2, t, v + k)
  {
    hide Entry;
  }

  lemma NothingUnmapped(pages: Pages, role: Role, tables: Tables, t: nat, v: nat)
    ensures MapsLess(pages, tables, pages, tables, t, v, 0) && FramesLess(pages, role, pages, role, t, v, 0)
  {
  }

  /** An unmapped page has no frame. */
  lemma NothingThere(pages: Pages, role: Role, tables: Tables, t: nat, v: nat)
    requires SpaceOk(pages, role, tables) && !Mapped(pages, tables, t, v)
    ensures MapsLess(pages, tables, pages, tables, t, v, 1) && FramesLess(pages, role, pages, role, t, v, 1)
  {
    hide Entry;
  }

  lemma EntryAt(pages: Pages, role: Role, tables: Tables, t: nat, v: nat)
    requires SpaceOk(pages, role, tables)
    ensures At(t, 0, v) !in tables ==> Entry(pages, tables, t, v) == 0
    ensures At(t, 0, v) in tables ==> tables[At(t, 0, v)] in pages && |pages[tables[At(t, 0, v)]]| == 512
                                      && pages[tables[At(t, 0, v)]][v % 512] == Entry(pages, tables, t, v)
  {
    if At(t, 0, v) in tables {
      assert NodeOk(pages, tables, At(t, 0, v));
    }
  }

  lemma NoFrameThere(pages: Pages, role: Role, tables: Tables, t: nat, v: nat)
    requires SpaceOk(pages, role, tables) && !Owned(pages, role, tables, t, v)
    ensures FramesLess(pages, role, pages, role, t, v, 1) && SameEntries(pages, tables, pages, tables)
  {
    hide Entry;
  }

  lemma ClearedOne(pages: Pages, pages1: Pages, pages2: Pages, tables: Tables, t: nat, v: nat)
    requires SameEntries(pages, tables, pages1, tables) && SetOne(pages1, tables, pages2, tables, t, v, 0)
    requires Mapped(pages, tables, t, v)
    ensures MapsLess(pages, tables, pages2, tables, t, v, 1)
  {
    hide Entry;
  }

  lemma FramesThen(pages: Pages, role: Role, pages1: Pages, role1: Role, pages2: Pages, t: nat, v: nat)
    requires FramesLess(pages, role, pages1, role1, t, v, 1) && MoreTables(pages1, role1, pages2, role1)
    ensures FramesLess(pages, role, pages2, role1, t, v, 1)
  {
  }

  lemma FrameAlone(pages: Pages, role: Role, tables: Tables, t: nat, v: nat, page: seq<nat>)
    requires SpaceOk(pages, role, tables) && Owned(pages, role, tables, t, v)
    ensures FramesLess(pages, role, pages[Ppn(Entry(pages, tables, t, v)) := page], role - {Ppn(Entry(pages, tables, t, v))}, t, v, 1)
  {
    hide Entry;
  }

  lemma FrameGone(pages: Pages, role: Role, pages': Pages, role': Role, tables: Tables, t: nat, v: nat, page: seq<nat>)
    requires SameEntries(pages, tables, pages', tables) && Owned(pages, role, tables, t, v)
    requires var pa := Ppn(Entry(pages, tables, t, v));
             role' == role - {pa} && pa in pages && pages' == pages[pa := page]
    ensures Confined(t, pages, role, pages', role') && !Owned(pages', role', tables, t, v)
  {
    hide Entry;
  }

  lemma ConfinedKeys(t: nat, pages: Pages, role: Role, pages': Pages, role': Role)
    requires Confined(t, pages, role, pages', role')
    ensures pages'.Keys == pages.Keys
  {
  }

  lemma StillOwned(pages: Pages, role: Role, pages': Pages, role': Role, tables: Tables, t: nat, v: nat, k: nat)
    requires MapsLess(pages, tables, pages', tables, t, v, k) && FramesLess(pages, role, pages', role', t, v, k)
    ensures Mapped(pages', tables, t, v + k) == Mapped(pages, tables, t, v + k)
    ensures Mapped(pages, tables, t, v + k) ==> Owned(pages', role', tables, t, v + k) == Owned(pages, role, tables, t, v + k)
  {
    hide Entry;
  }

  lemma FramesOneLess(pages: Pages, role: Role, pages1: Pages, role1: Role, pages2: Pages, role2: Role, t: nat, v: nat, k: nat)
    requires pages1.Keys == pages.Keys
    requires FramesLess(pages, role, pages1, role1, t, v, k) && FramesLess(pages1, role1, pages2, role2, t, v + k, 1)
    ensures FramesLess(pages, role, pages2, role2, t, v, k + 1)
  {
  }

  lemma PokeFree(pages: Pages, free: seq<nat>, role: Role, p: nat, i: nat, e: nat)
    requires FreeOk(pages, free, role)
    ensures FreeOk(Poke(pages, p, i, e), free, role)
  {
    SameFree(pages, free, role, Poke(pages, p, i, e), role);
  }

  /** The table being freed is itself still there. */
  lemma PruneNow(pages: Pages, role: Role, tables: Tables, pages': Pages, role': Role, tables': Tables, nd: Node, pg: nat, i: nat)
    requires PrunedFirst(pages, role, tables, pages', role', tables', nd, pg, i) && Inverse(role, tables)
    requires nd in tables && pg == tables[nd]
    ensures nd in tables' && pg in role' && pg in pages' && |pages'[pg]| == 512 && pg in pages && |pages[pg]| == 512
    ensures i < 512 ==> pages'[pg][i] == pages[pg][i]
  {
    assert role[pg] == Table(nd) && !UnderFirst(nd, i, nd);
  }

  lemma RootInverse(pages: Pages, role: Role, tables: Tables)
    requires SpaceOk(pages, role, tables)
    ensures Inverse(role, tables)
  {
  }

  lemma AllUnmapped(pages: Pages, pages': Pages, tables: Tables, t: nat, n: nat)
    requires MapsLess(pages, tables, pages', tables, t, 0, n)
    requires forall v: nat | Mapped(pages, tables, t, v) :: v < n
    ensures forall v: nat :: !Mapped(pages', tables, t, v)
  {
    hide Entry;
  }

  lemma RootFrame(pages: Pages, role: Role, t: nat, page: seq<nat>)
    requires t !in role && t in pages
    ensures var role' := role[t := Held][t := Table(Node(t, 2, 0))];
            Confined(t, pages, role, pages[t := page][t := Zeros()], role') && MoreTables(pages, role, pages[t := page][t := Zeros()], role')
  {
  }

  lemma StillEmpty(pages: Pages, tables: Tables, pages': Pages, tables': Tables, t: nat)
    requires SameEntries(pages, tables, pages', tables') && forall v: nat :: Entry(pages, tables, t, v) == 0
    ensures forall v: nat :: Entry(pages', tables', t, v) == 0
  {
    hide Entry;
  }

  lemma SameButSame(pages: Pages, role: Role, tables: Tables, c: nat, v: nat)
    ensures SameBut(pages, tables, pages, tables, c, v) && DataKept(pages, role, pages, role)
  {
  }

  lemma NothingToCopy(pages: Pages, role: Role, tables: Tables, t: nat, c: nat, v: nat)
    requires !Mapped(pages, tables, t, v) && !Mapped(pages, tables, c, v)
    ensures CopiedPage(pages, role, tables, t, c, v)
  {
  }

  lemma StillUnmapped(pages: Pages, tables: Tables, pages': Pages, tables': Tables, c: nat, v: nat)
    requires SameEntries(pages, tables, pages', tables')
    ensures Mapped(pages', tables', c, v) == Mapped(pages, tables, c, v)
  {
    hide Entry;
  }

  lemma CopyEntries(pages: Pages, tables: Tables, pages2: Pages, tables2: Tables, pages3: Pages, tables3: Tables,
                    c: nat, v: nat, k: nat, m: nat, flags: nat)
    requires flags < 1024 && SameEntries(pages, tables, pages2, tables2) && k <= 1
    requires MapsMore(pages2, tables2, pages3, tables3, c, v, k, m, flags)
    ensures SameBut(pages, tables, pages3, tables3, c, v)
    ensures Entry(pages3, tables3, c, v) == if k == 1 then MakePte(m, flags) else Entry(pages, tables, c, v)
  {
    hide Entry, MakePte;
    assert m + (v - v) == m;
  }

  lemma SameButThen(pages: Pages, tables: Tables, pages1: Pages, tables1: Tables, pages2: Pages, tables2: Tables, c: nat, v: nat)
    requires SameBut(pages, tables, pages1, tables1, c, v) && SameEntries(pages1, tables1, pages2, tables2)
    ensures SameBut(pages, tables, pages2, tables2, c, v)
    ensures Entry(pages2, tables2, c, v) == Entry(pages1, tables1, c, v)
  {
    hide Entry;
  }

  /** Page v of c is a page of its own with these contents and flags. */
  ghost predicate FreshPage(pages: Pages, role: Role, tables: Tables, c: nat, v: nat, page: seq<nat>, perm: nat)
    requires perm < 1024
  {
    var e := Entry(pages, tables, c, v);
    e == MakePte(Ppn(e), perm) && Owned(pages, role, tables, c, v) && Ppn(e) in pages && pages[Ppn(e)] == page
  }

  lemma OwnedNow(pages: Pages, role: Role, tables: Tables, c: nat, v: nat, m: nat)
    requires m in role && role[m] == Frame(c, v) && Ppn(Entry(pages, tables, c, v)) == m
    ensures Owned(pages, role, tables, c, v)
  {
  }

  lemma CopyDone(pages: Pages, role: Role, tables: Tables, pages': Pages, role': Role, tables': Tables, t: nat, c: nat, v: nat)
    requires SameBut(pages, tables, pages', tables', c, v) && t != c && Confined(c, pages, role, pages', role')
    requires Mapped(pages, tables, t, v) && Owned(pages, role, tables, t, v) && IsLeaf(Entry(pages, tables, t, v))
    requires var e := Entry(pages, tables, t, v);
             Ppn(e) in pages && FreshPage(pages', role', tables', c, v, pages[Ppn(e)], Flags(e))
    ensures CopiedPage(pages', role', tables', t, c, v)
  {
    hide Entry, MakePte;
    assert Entry(pages', tables', t, v) == Entry(pages, tables, t, v);
    CopyFlags(Entry(pages, tables, t, v), Ppn(Entry(pages', tables', c, v)));
  }

  lemma CopyStart(pages: Pages, role: Role, tables: Tables, t: nat, c: nat, n: nat)
    requires forall v: nat | v < n :: !Mapped(pages, tables, c, v)
    ensures CopiedTo(pages, tables, pages, role, tables, t, c, 0, n)
  {
  }

  lemma ParentKept(c: nat, pages: Pages, role: Role, tables: Tables, pages': Pages, role': Role, tables': Tables,
                   t: nat, k: nat, n: nat)
    requires Confined(c, pages, role, pages', role') && t != c && k < n
    requires CopiedTo(pages, tables, pages', role', tables', t, c, k, n)
    requires forall v: nat | v < n && Mapped(pages, tables, t, v) :: Owned(pages, role, tables, t, v)
    ensures forall v: nat | v < n && Mapped(pages', tables', t, v) :: Owned(pages', role', tables', t, v)
    ensures !Mapped(pages', tables', c, k)
  {
    hide Entry, Owned, CopiedPage, Confined;
    forall v: nat | v < n && Mapped(pages', tables', t, v) ensures Owned(pages', role', tables', t, v) {
      OwnedKept(c, pages, role, tables, pages', role', tables', t, v);
    }
  }

  /** The pages below n that are mapped. */
  ghost function MappedBelow(pages: Pages, tables: Tables, t: nat, n: nat): set<nat> {
    set v: nat | v < n && Mapped(pages, tables, t, v)
  }

  lemma ParentSame(pages: Pages, tables: Tables, pages': Pages, role': Role, tables': Tables, t: nat, c: nat, k: nat, n: nat)
    requires CopiedTo(pages, tables, pages', role', tables', t, c, k, n) && t != c
    ensures forall v: nat :: Mapped(pages', tables', t, v) == Mapped(pages, tables, t, v)
  {
    hide Entry, CopiedPage;
  }

  lemma CopyOwned(pages: Pages, tables: Tables, pages': Pages, role': Role, tables': Tables, t: nat, c: nat, k: nat, n: nat)
    requires CopiedTo(pages, tables, pages', role', tables', t, c, k, n)
    ensures forall v: nat | v < k && Mapped(pages', tables', c, v) :: Owned(pages', role', tables', c, v)
  {
    hide Entry;
    forall v: nat | v < k && Mapped(pages', tables', c, v) ensures Owned(pages', role', tables', c, v) {
      assert CopiedPage(pages', role', tables', t, c, v);
    }
  }

  lemma CopyUndone(pages: Pages, tables: Tables, pages1: Pages, role1: Role, tables1: Tables, pages2: Pages, role2: Role,
                   t: nat, c: nat, k: nat, n: nat)
    requires CopiedTo(pages, tables, pages1, role1, tables1, t, c, k, n) && k <= n
    requires MapsLess(pages1, tables1, pages2, tables1, c, 0, k)
    ensures CopiedTo(pages, tables, pages2, role2, tables1, t, c, 0, n)
  {
    hide Entry, CopiedPage;
    assert forall v: nat | v >= k :: Mapped(pages2, tables1, c, v) == Mapped(pages1, tables1, c, v);
  }

  lemma OwnedPage(pages: Pages, free: seq<nat>, role: Role, tables: Tables, t: nat, v: nat)
    requires FreeOk(pages, free, role) && Owned(pages, role, tables, t, v)
    ensures var pa := Ppn(Entry(pages, tables, t, v)); pa in role && role[pa] == Frame(t, v) && pa in pages && |pages[pa]| == 512
  {
  }

  /** PGROUNDUP(sz) / PGSIZE. */
  function NumPages(sz: nat): nat {
    (sz + 4095) / 4096
  }

  function Below(n: nat): (r: set<nat>)
    ensures forall v: nat :: v in r <==> v < n
  {
    if n == 0 then {} else Below(n - 1) + {n - 1}
  }

  ghost predicate SameMap(pages: Pages, tables: Tables, pages': Pages, tables': Tables) {
    forall t: nat, x: nat ::
      && Mapped(pages', tables', t, x) == Mapped(pages, tables, t, x)
      && (Mapped(pages, tables, t, x) ==> Entry(pages', tables', t, x) == Entry(pages, tables, t, x))
  }

  /** Exactly [lo, hi) is mapped anew, each page zeroed and owned. */
  ghost predicate Grown(pages: Pages, tables: Tables, pages': Pages, role': Role, tables': Tables, t: nat, lo: nat,
                        hi: nat, perm: nat)
    requires perm < 1024
  {
    && (forall v: nat | lo <= v < hi :: FreshPage(pages', role', tables', t, v, Zeros(), perm))
    && (forall t': nat, x: nat | t' != t || !(lo <= x < hi) :: Entry(pages', tables', t', x) == Entry(pages, tables, t', x))
  }

  lemma NothingGrown(pages: Pages, role: Role, tables: Tables, t: nat, lo: nat, perm: nat)
    requires perm < 1024
    ensures Grown(pages, tables, pages, role, tables, t, lo, lo, perm) && DataKept(pages, role, pages, role)
    ensures RolesKept(role, role) && RolesMore(role, role, t, lo, lo)
  {
  }

  lemma NextUnmapped(pages: Pages, tables: Tables, pages': Pages, role': Role, tables': Tables, t: nat, lo: nat,
                     hi: nat, perm: nat)
    requires perm < 1024 && Grown(pages, tables, pages', role', tables', t, lo, hi, perm) && !Mapped(pages, tables, t, hi)
    ensures !Mapped(pages', tables', t, hi)
  {
    hide Entry;
  }

  lemma FreshKept(pages: Pages, role: Role, tables: Tables, pages': Pages, role': Role, tables': Tables, t: nat,
                  v: nat, page: seq<nat>, perm: nat)
    requires perm < 1024 && FreshPage(pages, role, tables, t, v, page, perm) && DataKept(pages, role, pages', role')
    requires Entry(pages', tables', t, v) == Entry(pages, tables, t, v)
    ensures FreshPage(pages', role', tables', t, v, page, perm)
  {
    hide Entry, MakePte;
  }

  lemma GrownOne(pages: Pages, role: Role, tables: Tables, pages1: Pages, role1: Role, tables1: Tables,
                 pages2: Pages, role2: Role, tables2: Tables,
                 t: nat, lo: nat, hi: nat, perm: nat)
    requires perm < 1024 && lo <= hi && Grown(pages, tables, pages1, role1, tables1, t, lo, hi, perm)
    requires SameBut(pages1, tables1, pages2, tables2, t, hi) && FreshPage(pages2, role2, tables2, t, hi, Zeros(), perm)
    requires DataKept(pages, role, pages1, role1) && DataKept(pages1, role1, pages2, role2)
    requires RolesKept(role, role1) && RolesMore(role, role1, t, lo, hi)
    requires RolesKept(role1, role2) && RolesMore(role1, role2, t, hi, hi + 1)
    ensures Grown(pages, tables, pages2, role2, tables2, t, lo, hi + 1, perm)
    ensures DataKept(pages, role, pages2, role2) && RolesKept(role, role2) && RolesMore(role, role2, t, lo, hi + 1)
  {
    hide Entry, FreshPage, MakePte;
    forall v: nat | lo <= v < hi ensures FreshPage(pages2, role2, tables2, t, v, Zeros(), perm) {
      FreshKept(pages1, role1, tables1, pages2, role2, tables2, t, v, Zeros(), perm);
    }
  }

  lemma GrownSame(pages: Pages, role: Role, tables: Tables, pages1: Pages, role1: Role, tables1: Tables,
                  pages2: Pages, role2: Role, tables2: Tables,
                  t: nat, lo: nat, hi: nat, perm: nat)
    requires perm < 1024 && lo <= hi && Grown(pages, tables, pages1, role1, tables1, t, lo, hi, perm)
    requires SameBut(pages1, tables1, pages2, tables2, t, hi) && Entry(pages2, tables2, t, hi) == Entry(pages1, tables1, t, hi)
    requires DataKept(pages, role, pages1, role1) && DataKept(pages1, role1, pages2, role2)
    requires MoreTables(pages1, role1, pages2, role2)
    requires RolesKept(role, role1) && RolesMore(role, role1, t, lo, hi)
    ensures Grown(pages, tables, pages2, role2, tables2, t, lo, hi, perm)
    ensures DataKept(pages, role, pages2, role2) && RolesKept(role, role2) && RolesMore(role, role2, t, lo, hi)
  {
    hide Entry, FreshPage, MakePte;
    forall v: nat | lo <= v < hi ensures FreshPage(pages2, role2, tables2, t, v, Zeros(), perm) {
      FreshKept(pages1, role1, tables1, pages2, role2, tables2, t, v, Zeros(), perm);
    }
  }

  lemma GrownOwned(pages: Pages, tables: Tables, pages': Pages, role': Role, tables': Tables, t: nat, lo: nat, hi: nat, perm: nat)
    requires perm < 1024 && Grown(pages, tables, pages', role', tables', t, lo, hi, perm)
    ensures forall v: nat | lo <= v < hi && Mapped(pages', tables', t, v) :: Owned(pages', role', tables', t, v)
  {
    forall v: nat | lo <= v < hi && Mapped(pages', tables', t, v) ensures Owned(pages', role', tables', t, v) {
      assert FreshPage(pages', role', tables', t, v, Zeros(), perm);
    }
  }

  /** Giving back [lo, hi) undoes the growth. */
  lemma Shrunk(pages: Pages, role: Role, tables: Tables, pages1: Pages, role1: Role, pages2: Pages, role2: Role, tables': Tables,
               t: nat, lo: nat, hi: nat, perm: nat)
    requires perm < 1024 && lo <= hi && SpaceOk(pages, role, tables)
    requires Grown(pages, tables, pages1, role1, tables', t, lo, hi, perm)
    requires DataKept(pages, role, pages1, role1) && RolesKept(role, role1) && RolesMore(role, role1, t, lo, hi)
    requires MapsLess(pages1, tables', pages2, tables', t, lo, hi - lo)
    requires FramesLess(pages1, role1, pages2, role2, t, lo, hi - lo)
    requires forall v: nat | lo <= v < hi :: !Mapped(pages, tables, t, v)
    ensures SameMap(pages, tables, pages2, tables') && MoreTables(pages, role, pages2, role2)
    ensures DataKept(pages, role, pages2, role2)
  {
    hide Entry, MakePte;
  }

  // How many free pages an operation needs.

  /** The tables of an address space, by level and prefix. */
  ghost function TablesOf(tables: Tables, t: nat): set<(nat, nat)> {
    set nd | nd in tables && nd.t == t :: (nd.level, nd.prefix)
  }

  /** The tables below the root on the way to page v. */
  function Path(v: nat): set<(nat, nat)> { {(1, v / Span(2)), (0, v / Span(1))} }

  function One(b: bool): nat { if b then 1 else 0 }

  function Missing(have: set<(nat, nat)>, v: nat): nat { One((1, v / Span(2)) !in have) + One((0, v / Span(1)) !in have) }

  /** The tables to make for pages [v, v + n), page by page. */
  function TableCost(have: set<(nat, nat)>, v: nat, n: nat): nat
    decreases n
  {
    if n == 0 then 0 else Missing(have, v) + TableCost(have + Path(v), v + 1, n - 1)
  }

  function WithPaths(have: set<(nat, nat)>, v: nat, n: nat): set<(nat, nat)>
    decreases n
  {
    if n == 0 then have else WithPaths(have + Path(v), v + 1, n - 1)
  }

  /** The pages and tables to make for the pages of [v, n) that are in want. */
  function Cost(have: set<(nat, nat)>, want: set<nat>, v: nat, n: nat): nat
    decreases n - v
  {
    if v >= n then 0
    else if v !in want then Cost(have, want, v + 1, n)
    else 1 + Missing(have, v) + Cost(have + Path(v), want, v + 1, n)
  }

  /** A page of its own and two tables are enough for each page. */
  lemma {:induction false} CostBound(have: set<(nat, nat)>, want: set<nat>, v: nat, n: nat)
    requires v <= n
    ensures Cost(have, want, v, n) <= 3 * (n - v)
    decreases n - v
  {
    if v < n {
      CostBound(have, want, v + 1, n);
      CostBound(have + Path(v), want, v + 1, n);
    }
  }

  lemma HasTable(tables: Tables, t: nat, level: nat, v: nat)
    ensures (level, v / Span(level + 1)) in TablesOf(tables, t) <==> At(t, level, v) in tables
  {
    if At(t, level, v) in tables {
      assert (At(t, level, v).level, At(t, level, v).prefix) in TablesOf(tables, t);
    }
  }

  /** One table more, on the way to v. */
  lemma TableAdded(tables: Tables, t: nat, level: nat, v: nat, p: nat)
    requires level < 2 && At(t, level, v) !in tables
    ensures var tables' := tables[At(t, level, v) := p];
            && TablesOf(tables', t) == TablesOf(tables, t) + {(level, v / Span(level + 1))}
            && Missing(TablesOf(tables', t), v) == Missing(TablesOf(tables, t), v) - 1
  {
    var tables' := tables[At(t, level, v) := p];
    HasTable(tables, t, level, v);
    forall x | x in TablesOf(tables, t) ensures x in TablesOf(tables', t) {
      var nd :| nd in tables && nd.t == t && (nd.level, nd.prefix) == x;
      assert nd in tables';
    }
    HasTable(tables', t, level, v);
    assert TablesOf(tables', t) == TablesOf(tables, t) + {(level, v / Span(level + 1))};
  }

  lemma PathThere(tables: Tables, t: nat, v: nat)
    requires At(t, 1, v) in tables && At(t, 0, v) in tables
    ensures Path(v) <= TablesOf(tables, t) && Missing(TablesOf(tables, t), v) == 0
  {
    HasTable(tables, t, 0, v);
    HasTable(tables, t, 1, v);
  }

  lemma OnePath(have: set<(nat, nat)>, v: nat)
    ensures TableCost(have, v, 1) == Missing(have, v) && WithPaths(have, v, 1) == have + Path(v)
  {
  }

  lemma OnlyRoot(pages: Pages, role: Role, tables: Tables, t: nat)
    requires SpaceOk(pages, role, tables) && NoneOf(role, t)
    ensures TablesOf(tables[Node(t, 2, 0) := t], t) == {(2, 0)}
  {
    assert forall nd | nd in tables :: nd.t != t;
    assert (Node(t, 2, 0).level, Node(t, 2, 0).prefix) in TablesOf(tables[Node(t, 2, 0) := t], t);
  }

  lemma StillMissing(tables: Tables, t: nat, level: nat, v: nat)
    requires level < 2 && At(t, level, v) !in tables
    ensures Missing(TablesOf(tables, t), v) > 0
  {
    HasTable(tables, t, level, v);
  }

  class Kmem {
    var pages: Pages
    var free: seq<nat>

    ghost var role: Role
    ghost var tables: Tables

    ghost predicate Valid()
      reads this
    {
      FreeOk(pages, free, role) && SpaceOk(pages, role, tables)
    }

    /** kinit: the pages from first to last - 1 are freed one by one. */
    constructor (first: nat, last: nat)
      requires first <= last
      ensures Valid() && role == map[] && tables == map[]
      ensures forall p: nat :: p in free <==> first <= p < last
    {
      pages, free := map[], [];
      role, tables := map[], map[];
      new;
      for p := first to last
        invariant role == map[] && tables == map[] && FreeOk(pages, free, role)
        invariant forall q: nat :: q in free <==> first <= q < p
      {
        FirstFree(pages, free, p, Filled(JUNK_FREE));
        pages := pages[p := Filled(JUNK_FREE)];
        free := [p] + free;
      }
    }

    method Kalloc() returns (r: Option<nat>)
      requires Valid()
      modifies this`pages, this`free, this`role
      ensures Valid()
      ensures r.None? <==> old(free) == []
      ensures r.None? ==> free == old(free) && role == old(role) && pages == old(pages)
      ensures r.Some? ==> [r.value] + free == old(free)
      ensures r.Some? ==> r.value !in old(role) && role == old(role)[r.value := Held] && r.value in old(pages)
      ensures r.Some? ==> pages == old(pages)[r.value := Filled(JUNK_ALLOC)]
      ensures SameEntries(old(pages), old(tables), pages, tables)
    {
      hide SpaceOk, Entry, FreeOk;
      if free == [] {
        return None;
      }
      var p := free[0];
      TakeFree(pages, free, role);
      Come(pages, role, tables, p);
      free := free[1..];
      assert [p] + free == old(free);
      role := role[p := Held];
      Fill(p, Filled(JUNK_ALLOC));
      return Some(p);
    }

    /** memset or memmove to a page that is no table. */
    method Fill(p: nat, page: seq<nat>)
      requires Valid() && p in role && !role[p].Table? && |page| == 512
      modifies this`pages
      ensures Valid() && p in old(pages) && pages == old(pages)[p := page]
      ensures SameEntries(old(pages), old(tables), pages, tables)
    {
      hide SpaceOk, Entry;
      ChangeData(pages, role, tables, p, page);
      pages := pages[p := page];
    }

    method Kfree(p: nat)
      requires FreeOk(pages, free, role) && p in role
      modifies this`pages, this`free, this`role
      ensures FreeOk(pages, free, role) && role == old(role) - {p}
      ensures p in old(pages) && pages == old(pages)[p := Filled(JUNK_FREE)] && free == [p] + old(free)
    {
      GiveFree(pages, free, role, p);
      pages := pages[p := Filled(JUNK_FREE)];
      free := [p] + free;
      role := role - {p};
    }

    /** kfree of a page that no page table knows of. */
    method KfreeHeld(p: nat)
      requires Valid() && p in role && role[p] == Held
      modifies this`pages, this`free, this`role
      ensures Valid() && role == old(role) - {p} && p in old(pages) && pages == old(pages)[p := Filled(JUNK_FREE)]
      ensures free == [p] + old(free)
      ensures SameEntries(old(pages), old(tables), pages, tables)
    {
      hide SpaceOk, Entry, FreeOk, SameEntries;
      ChangeData(pages, role, tables, p, Filled(JUNK_FREE));
      Go(pages[p := Filled(JUNK_FREE)], role, tables, p);
      Kfree(p);
    }

    /** The body of walk's loop where a table is missing. */
    method AddLevel(ghost t: nat, level: nat, v: nat, pg: nat) returns (r: Option<nat>)
      requires Valid() && 0 < level <= 2 && At(t, level, v) in tables && pg == tables[At(t, level, v)]
      requires pg in pages && |pages[pg]| == 512 && !IsValid(pages[pg][Index(level, v)])
      modifies this
      ensures Valid() && Confined(t, old(pages), old(role), pages, role) && MoreTables(old(pages), old(role), pages, role)
      ensures SameEntries(old(pages), old(tables), pages, tables)
      ensures forall nd | nd in old(tables) :: nd in tables && tables[nd] == old(tables)[nd]
      ensures At(t, level - 1, v) !in old(tables)
      ensures r.Some? ==> tables == old(tables)[At(t, level - 1, v) := r.value] && [r.value] + free == old(free)
      ensures r.None? ==> tables == old(tables) && free == old(free) == []
    {
      hide SpaceOk, Entry, FreeOk, Confined, MoreTables, Poke;
      PathStep(t, level, v);
      NodeChild(pages, role, tables, At(t, level, v), Index(level, v));
      ghost var nd := At(t, level, v);
      var i := Index(level, v);
      NodePage(pages, role, tables, nd);
      r := Kalloc();
      if r.None? {
        NothingChanged(t, pages, role);
        return;
      }
      var p := r.value;
      AddLevelFrame(old(pages), old(role), pg, nd, i, p, pages[p]);
      AddTable(pages, role, tables, nd, i, p);
      ghost var role0, pages0 := role, pages;
      pages := Poke(pages[p := Zeros()], pg, i, MakePte(p, PTE_V));
      role := role[p := Table(Child(nd, i))];
      tables := tables[Child(nd, i) := p];
      SameFree(pages0, free, role0, pages, role);
    }

    method Walk(t: nat, v: nat, alloc: bool) returns (r: Option<nat>)
      requires Valid() && Node(t, 2, 0) in tables && v < MAXVPN
      modifies this
      ensures Valid() && Confined(t, old(pages), old(role), pages, role) && MoreTables(old(pages), old(role), pages, role)
      ensures SameEntries(old(pages), old(tables), pages, tables)
      ensures forall nd | nd in old(tables) :: nd in tables && tables[nd] == old(tables)[nd]
      ensures r.Some? ==> At(t, 0, v) in tables && tables[At(t, 0, v)] == r.value
      ensures alloc ==> (r.Some? <==> |old(free)| >= Missing(TablesOf(old(tables), t), v))
      ensures alloc && r.Some? ==> TablesOf(tables, t) == TablesOf(old(tables), t) + Path(v)
      ensures alloc && r.Some? ==> |free| == |old(free)| - Missing(TablesOf(old(tables), t), v)
      ensures r.None? ==> if alloc then free == [] else At(t, 0, v) !in tables
      ensures !alloc ==> pages == old(pages) && free == old(free) && role == old(role) && tables == old(tables)
    {
      hide SpaceOk, Entry, FreeOk, Missing, TablesOf;
      PathTop(t, v);
      RootPage(pages, role, tables, t);
      var level, pg := 2, t;
      while level > 0
        invariant level < 2 ==> At(t, 1, v) in tables
        invariant TablesOf(old(tables), t) <= TablesOf(tables, t) <= TablesOf(old(tables), t) + Path(v)
        invariant |free| - Missing(TablesOf(tables, t), v) == |old(free)| - Missing(TablesOf(old(tables), t), v)
        invariant 0 <= level <= 2 && At(t, level, v) in tables && pg == tables[At(t, level, v)]
        invariant Valid() && Confined(t, old(pages), old(role), pages, role) && MoreTables(old(pages), old(role), pages, role)
        invariant SameEntries(old(pages), old(tables), pages, tables)
        invariant forall nd | nd in old(tables) :: nd in tables && tables[nd] == old(tables)[nd]
        invariant !alloc ==> pages == old(pages) && free == old(free) && role == old(role) && tables == old(tables)
      {
        PathStep(t, level, v);
        NodeChild(pages, role, tables, At(t, level, v), Index(level, v));
        var e := pages[pg][Index(level, v)];
        if IsValid(e) {
          pg := Ppn(e);
        } else {
          if !alloc {
            NoTableBelow(pages, role, tables, t, level - 1, v);
            return None;
          }
          ghost var tables1 := tables;
          var c := AddLevel(t, level, v, pg);
          if c.None? {
            StillMissing(tables, t, level - 1, v);
            return None;
          }
          TableAdded(tables1, t, level - 1, v, c.value);
          pg := c.value;
        }
        level := level - 1;
      }
      PathThere(tables, t, v);
      return Some(pg);
    }
  
    /** *pte = e. */
    method SetEntry(ghost t: nat, v: nat, pg: nat, e: nat)
      requires Valid() && At(t, 0, v) in tables && pg == tables[At(t, 0, v)]
      requires IsValid(e) ==> IsLeaf(e)
      requires Mapped(pages, tables, t, v) ==> !Owned(pages, role, tables, t, v)
      modifies this`pages
      ensures Valid() && Confined(t, old(pages), role, pages, role) && MoreTables(old(pages), role, pages, role)
      ensures SetOne(old(pages), tables, pages, tables, t, v, e)
    {
      hide SpaceOk, Entry, FreeOk;
      NodePage(pages, role, tables, At(t, 0, v));
      SetLeaf(pages, role, tables, t, v, e);
      ghost var pages0 := pages;
      pages := Poke(pages, pg, v % 512, e);
      SameFree(pages0, free, role, pages, role);
    }

    /** mappages of n pages; k of them are mapped, all if it succeeds. */
    method MapPages(t: nat, v: nat, n: nat, p: nat, perm: nat) returns (ok: bool, ghost k: nat)
      requires Valid() && Node(t, 2, 0) in tables && n > 0 && v + n <= MAXVPN && perm < 1024 && IsLeaf(perm)
      requires forall x | v <= x < v + n :: !Mapped(pages, tables, t, x)
      modifies this
      ensures Valid() && Confined(t, old(pages), old(role), pages, role) && MoreTables(old(pages), old(role), pages, role)
      ensures forall nd | nd in old(tables) :: nd in tables && tables[nd] == old(tables)[nd]
      ensures if ok then k == n else k < n && free == []
      ensures ok <==> |old(free)| >= TableCost(TablesOf(old(tables), t), v, n)
      ensures ok ==> |free| == |old(free)| - TableCost(TablesOf(old(tables), t), v, n)
      ensures ok ==> TablesOf(tables, t) == WithPaths(TablesOf(old(tables), t), v, n)
      ensures MapsMore(old(pages), old(tables), pages, tables, t, v, k, p, perm)
    {
      hide SpaceOk, Entry, FreeOk, Confined, MoreTables, SameEntries, SetOne, MapsMore, MakePte, Missing, TablesOf, Path;
      NothingChanged(t, pages, role);
      NothingMapped(pages, tables, t, v, p, perm);
      k := 0;
      var a, pa, last := v, p, v + n - 1;
      while true
        invariant v <= a <= last && a == v + k && pa == p + k
        invariant WithPaths(TablesOf(tables, t), a, n - k) == WithPaths(TablesOf(old(tables), t), v, n)
        invariant |free| - TableCost(TablesOf(tables, t), a, n - k) == |old(free)| - TableCost(TablesOf(old(tables), t), v, n)
        invariant Valid() && Confined(t, old(pages), old(role), pages, role) && MoreTables(old(pages), old(role), pages, role)
        invariant forall nd | nd in old(tables) :: nd in tables && tables[nd] == old(tables)[nd]
        invariant MapsMore(old(pages), old(tables), pages, tables, t, v, k, p, perm)
        decreases last - a
      {
        ghost var pages1, role1, tables1 := pages, role, tables;
        var pte := Walk(t, a, true);
        ConfinedTrans(t, old(pages), old(role), pages1, role1, pages, role);
        MoreTablesTrans(old(pages), old(role), pages1, role1, pages, role);
        ghost var pages2, tables2 := pages, tables;
        StillMaps(old(pages), old(tables), pages1, tables1, pages2, tables2, t, v, k, p, perm);
        if pte.None? {
          return false, k;
        }
        SetEntry(t, a, pte.value, MakePte(pa, perm));
        ConfinedTrans(t, old(pages), old(role), pages2, role, pages, role);
        MoreTablesTrans(old(pages), old(role), pages2, role, pages, role);
        MapsOneMore(old(pages), old(tables), pages1, tables1, pages2, tables2, pages, tables, t, v, k, p, perm);
        k := k + 1;
        if a == last {
          break;
        }
        a, pa := a + 1, pa + 1;
      }
      return true, k;
    }
  
    /** The body of uvmunmap's loop. */
    method UnmapOne(t: nat, v: nat, doFree: bool)
      requires Valid() && Node(t, 2, 0) in tables && v < MAXVPN
      requires Mapped(pages, tables, t, v) ==> (Owned(pages, role, tables, t, v) <==> doFree)
      modifies this
      ensures Valid() && Confined(t, old(pages), old(role), pages, role)
      ensures MapsLess(old(pages), old(tables), pages, tables, t, v, 1)
      ensures FramesLess(old(pages), old(role), pages, role, t, v, 1)
      ensures tables == old(tables)
    {
      hide SpaceOk, Entry, FreeOk, Confined, MoreTables, SameEntries, SetOne, MapsLess, FramesLess, Owned;
      NothingChanged(t, pages, role);
      EntryAt(pages, role, tables, t, v);
      var pte := Walk(t, v, false);
      if pte.None? {
        NothingThere(pages, role, tables, t, v);
        return;
      }
      var e := pages[pte.value][v % 512];
      if !IsValid(e) {
        NothingThere(pages, role, tables, t, v);
        return;
      }
      if doFree {
        FreeFrame(t, v, Ppn(e));
      } else {
        NoFrameThere(pages, role, tables, t, v);
      }
      ghost var pages1 := pages;
      SetEntry(t, v, pte.value, 0);
      ConfinedTrans(t, old(pages), old(role), pages1, role, pages, role);
      FramesThen(old(pages), old(role), pages1, role, pages, t, v);
      ClearedOne(old(pages), pages1, pages, tables, t, v);
    }

    /** kfree of the memory at (t, v), which stays mapped for a moment. */
    method FreeFrame(ghost t: nat, ghost v: nat, pa: nat)
      requires Valid() && Mapped(pages, tables, t, v) && Owned(pages, role, tables, t, v) && pa == Ppn(Entry(pages, tables, t, v))
      modifies this`pages, this`free, this`role
      ensures Valid() && Confined(t, old(pages), old(role), pages, role)
      ensures SameEntries(old(pages), tables, pages, tables) && FramesLess(old(pages), old(role), pages, role, t, v, 1)
      ensures !Owned(pages, role, tables, t, v)
    {
      hide SpaceOk, Entry, FreeOk, Confined, SameEntries, FramesLess, MapsLess;
      FrameAlone(pages, role, tables, t, v, Filled(JUNK_FREE));
      Disown(pages, role, tables, pa);
      SameFree(pages, free, role, pages, role[pa := Held]);
      role := role[pa := Held];
      KfreeHeld(pa);
      assert role == old(role) - {pa};
      FrameGone(old(pages), old(role), pages, role, tables, t, v, pages[pa]);
    }

    /** uvmunmap; with doFree the frames go back to the free list. */
    method UvmUnmap(t: nat, v: nat, n: nat, doFree: bool)
      requires Valid() && Node(t, 2, 0) in tables && v + n <= MAXVPN
      requires forall x: nat | v <= x < v + n && Mapped(pages, tables, t, x) :: Owned(pages, role, tables, t, x) <==> doFree
      modifies this
      ensures Valid() && Confined(t, old(pages), old(role), pages, role)
      ensures MapsLess(old(pages), old(tables), pages, tables, t, v, n)
      ensures FramesLess(old(pages), old(role), pages, role, t, v, n)
      ensures tables == old(tables)
    {
      hide SpaceOk, Entry, FreeOk, Confined, MapsLess, FramesLess, Owned;
      NothingChanged(t, pages, role);
      NothingUnmapped(pages, role, tables, t, v);
      for a := v to v + n
        invariant Valid() && Confined(t, old(pages), old(role), pages, role)
        invariant MapsLess(old(pages), old(tables), pages, tables, t, v, a - v)
        invariant FramesLess(old(pages), old(role), pages, role, t, v, a - v)
        invariant tables == old(tables)
      {
        StillOwned(old(pages), old(role), pages, role, tables, t, v, a - v);
        ghost var pages1, role1 := pages, role;
        UnmapOne(t, a, doFree);
        ConfinedTrans(t, old(pages), old(role), pages1, role1, pages, role);
        MapsOneLess(old(pages), tables, pages1, tables, pages, tables, t, v, a - v);
        ConfinedKeys(t, old(pages), old(role), pages1, role1);
        FramesOneLess(old(pages), old(role), pages1, role1, pages, role, t, v, a - v);
      }
    }
  
    method FreeWalk(pg: nat, ghost nd: Node)
      requires FreeOk(pages, free, role) && Inverse(role, tables) && nd in tables && pg == tables[nd] && nd.level <= 2
      requires SubtreeOk(pages, tables, nd) && NoLeaves(pages, tables, nd)
      modifies this
      ensures FreeOk(pages, free, role) && Inverse(role, tables)
      ensures Pruned(old(pages), old(role), old(tables), pages, role, tables, nd)
      decreases nd.level
    {
      hide FreeOk, Inverse, SubtreeOk, NoLeaves, PrunedFirst, Pruned;
      PruneStart(pages, role, tables, nd);
      for i := 0 to 512
        invariant FreeOk(pages, free, role) && nd in tables
        invariant PrunedFirst(old(pages), old(role), old(tables), pages, role, tables, nd, pg, i)
      {
        PruneEntry(old(pages), old(tables), nd, i);
        PruneNow(old(pages), old(role), old(tables), pages, role, tables, nd, pg, i);
        var e := pages[pg][i];
        if IsValid(e) && !IsLeaf(e) {
          PruneReady(old(pages), old(role), old(tables), pages, role, tables, nd, pg, i);
          PruneInverse(old(pages), old(role), old(tables), pages, role, tables, nd, pg, i);
          ghost var pages1, role1, tables1 := pages, role, tables;
          FreeWalk(Ppn(e), Child(nd, i));
          PruneChild(old(pages), old(role), old(tables), pages1, role1, tables1, pages, role, tables, nd, pg, i);
          ghost var pages2 := pages;
          pages := Poke(pages, pg, i, 0);
          PokeFree(pages2, free, role, pg, i, 0);
          PruneNow(old(pages), old(role), old(tables), pages, role, tables, nd, pg, i + 1);
        } else if IsValid(e) {
          assert false;   // panic("freewalk: leaf")
        } else {
          PruneSkip(old(pages), old(role), old(tables), pages, role, tables, nd, pg, i);
        }
      }
      PruneNow(old(pages), old(role), old(tables), pages, role, tables, nd, pg, 512);
      PruneEnd(old(pages), old(role), old(tables), pages, role, tables, nd, pg, Filled(JUNK_FREE));
      Kfree(pg);
      tables := tables - {nd};
    }
  
    /** freewalk of a whole tree without mappings. */
    method FreeTree(t: nat)
      requires Valid() && Node(t, 2, 0) in tables
      requires forall v: nat :: !Mapped(pages, tables, t, v)
      modifies this
      ensures Valid() && Confined(t, old(pages), old(role), pages, role) && NoneOf(role, t)
    {
      hide SpaceOk, FreeOk, Entry, Pruned, Confined, NoneOf, SubtreeOk, NoLeaves, Inverse;
      RootReady(pages, role, tables, t);
      RootInverse(pages, role, tables);
      FreeWalk(t, Node(t, 2, 0));
      RootDone(old(pages), old(role), old(tables), pages, role, tables, t);
    }

    /** uvmfree of n pages: all of the address space is given back. */
    method UvmFree(t: nat, n: nat)
      requires Valid() && Node(t, 2, 0) in tables && n <= MAXVPN
      requires forall v: nat | Mapped(pages, tables, t, v) :: v < n && Owned(pages, role, tables, t, v)
      modifies this
      ensures Valid() && Confined(t, old(pages), old(role), pages, role) && NoneOf(role, t)
    {
      hide SpaceOk, FreeOk, Entry, MapsLess, FramesLess, Confined, NoneOf, Owned;
      if n > 0 {
        UvmUnmap(t, 0, n, true);
        AllUnmapped(old(pages), pages, tables, t, n);
      } else {
        NothingChanged(t, pages, role);
      }
      ghost var pages1, role1 := pages, role;
      FreeTree(t);
      ConfinedTrans(t, old(pages), old(role), pages1, role1, pages, role);
    }

    /** uvmcreate. */
    method UvmCreate() returns (r: Option<nat>)
      requires Valid()
      modifies this
      ensures Valid() && SameEntries(old(pages), old(tables), pages, tables)
      ensures r.None? <==> old(free) == []
      ensures r.None? ==> role == old(role) && pages == old(pages) && tables == old(tables)
      ensures r.Some? ==> [r.value] + free == old(free) && TablesOf(tables, r.value) == {(2, 0)}
      ensures r.Some? ==> && Node(r.value, 2, 0) in tables && NoneOf(old(role), r.value) && r.value !in old(role)
                          && Confined(r.value, old(pages), old(role), pages, role)
                          && MoreTables(old(pages), old(role), pages, role)
                          && forall v: nat :: Entry(pages, tables, r.value, v) == 0
    {
      hide SpaceOk, FreeOk, Entry, Confined, NoneOf, SameEntries, MoreTables;
      r := Kalloc();
      if r.None? {
        return;
      }
      var t := r.value;
      FreshRoot(old(pages), old(role), tables, t);
      NewRoot(pages, role, tables, t);
      SameTrans(old(pages), tables, pages, tables, pages[t := Zeros()], tables[Node(t, 2, 0) := t]);
      RootFrame(old(pages), old(role), t, pages[t]);
      SameFree(pages, free, role, pages[t := Zeros()], role[t := Table(Node(t, 2, 0))]);
      pages := pages[t := Zeros()];
      role := role[t := Table(Node(t, 2, 0))];
      OnlyRoot(old(pages), old(role), tables, t);
      tables := tables[Node(t, 2, 0) := t];
      StillEmpty(old(pages), old(tables), pages, tables, t);
    }
  
    /** A new page with these contents at (c, v): kalloc, memset or memmove,
        mappages, and kfree if that fails. */
    method MapFresh(c: nat, v: nat, page: seq<nat>, perm: nat) returns (ok: bool)
      requires Valid() && Node(c, 2, 0) in tables && v < MAXVPN && |page| == 512 && perm < 1024 && IsLeaf(perm)
      requires !Mapped(pages, tables, c, v)
      modifies this
      ensures Valid() && Confined(c, old(pages), old(role), pages, role) && DataKept(old(pages), old(role), pages, role)
      ensures forall nd | nd in old(tables) :: nd in tables && tables[nd] == old(tables)[nd]
      ensures SameBut(old(pages), old(tables), pages, tables, c, v)
      ensures !ok ==> Entry(pages, tables, c, v) == old(Entry(pages, tables, c, v)) && MoreTables(old(pages), old(role), pages, role)
      ensures ok ==> RolesKept(old(role), role) && RolesMore(old(role), role, c, v, v + 1)
      ensures ok ==> FreshPage(pages, role, tables, c, v, page, perm)
      ensures ok <==> |old(free)| >= 1 + Missing(TablesOf(old(tables), c), v)
      ensures ok ==> |free| == |old(free)| - 1 - Missing(TablesOf(old(tables), c), v)
      ensures ok ==> TablesOf(tables, c) == TablesOf(old(tables), c) + Path(v)
    {
      hide SpaceOk, FreeOk, Entry, Confined, SameEntries, MoreTables, Owned, MapsMore, SameBut, DataKept, RolesKept, RolesMore;
      hide Missing, TablesOf, Path, TableCost, WithPaths;
      OnePath(TablesOf(tables, c), v);
      var r := Kalloc();
      if r.None? {
        NothingChanged(c, pages, role);
        SameButSame(pages, role, tables, c, v);
        return false;
      }
      var mem := r.value;
      ghost var pages1 := pages;
      Fill(mem, page);
      ghost var pages2, tables2 := pages, tables;
      assert pages == old(pages)[mem := page] && role == old(role)[mem := Held];
      SameTrans(old(pages), tables, pages1, tables, pages, tables);
      StillUnmapped(old(pages), tables, pages, tables, c, v);
      var mapped, k := MapPages(c, v, 1, mem, perm);
      ConfinedVia(c, old(pages), old(role), mem, page, pages, role, v, Filled(JUNK_FREE));
      DataKeptVia(c, old(pages), old(role), mem, page, pages, role, v, Filled(JUNK_FREE));
      CopyEntries(old(pages), old(tables), pages2, tables2, pages, tables, c, v, k, mem, perm);
      if !mapped {
        ghost var pages3 := pages;
        KfreeHeld(mem);
        SameButThen(old(pages), old(tables), pages3, tables, pages, tables, c, v);
        return false;
      }
      Adopt(pages, role, tables, mem, c, v);
      SameFree(pages, free, role, pages, role[mem := Frame(c, v)]);
      role := role[mem := Frame(c, v)];
      OwnedNow(pages, role, tables, c, v, mem);
      return true;
    }

    /** The body of uvmcopy's loop. */
    method CopyOne(t: nat, c: nat, v: nat) returns (ok: bool)
      requires Valid() && t != c && Node(t, 2, 0) in tables && Node(c, 2, 0) in tables && v < TRAPFRAME
      requires Mapped(pages, tables, t, v) ==> Owned(pages, role, tables, t, v)
      requires !Mapped(pages, tables, c, v)
      modifies this
      ensures Valid() && Confined(c, old(pages), old(role), pages, role)
      ensures forall nd | nd in old(tables) :: nd in tables && tables[nd] == old(tables)[nd]
      ensures SameBut(old(pages), old(tables), pages, tables, c, v) && DataKept(old(pages), old(role), pages, role)
      ensures if ok then CopiedPage(pages, role, tables, t, c, v) else !Mapped(pages, tables, c, v)
      ensures !old(Mapped(pages, tables, t, v)) ==> ok && free == old(free) && tables == old(tables)
      ensures old(Mapped(pages, tables, t, v)) ==>
                && (ok <==> |old(free)| >= 1 + Missing(TablesOf(old(tables), c), v))
                && (ok ==> |free| == |old(free)| - 1 - Missing(TablesOf(old(tables), c), v))
                && (ok ==> TablesOf(tables, c) == TablesOf(old(tables), c) + Path(v))
    {
      hide Missing, TablesOf, Path;
      hide SpaceOk, FreeOk, Entry, Confined, SameEntries, MoreTables, Owned, SameBut, CopiedPage, DataKept, FreshPage;
      NothingChanged(c, pages, role);
      SameButSame(pages, role, tables, c, v);
      EntryAt(pages, role, tables, t, v);
      var pte := Walk(t, v, false);
      if pte.None? {
        NothingToCopy(pages, role, tables, t, c, v);
        return true;
      }
      var e := pages[pte.value][v % 512];
      if !IsValid(e) {
        NothingToCopy(pages, role, tables, t, c, v);
        return true;
      }
      var pa := Ppn(e);
      OwnedPage(pages, free, role, tables, t, v);
      EntryIsLeaf(pages, role, tables, t, v);
      CopyFlags(e, pa);
      ok := MapFresh(c, v, pages[pa], Flags(e));
      if ok {
        CopyDone(old(pages), old(role), old(tables), pages, role, tables, t, c, v);
      }
    }

    /** uvmcopy of n pages from t to c. */
    method UvmCopy(t: nat, c: nat, n: nat) returns (ok: bool)
      requires Valid() && t != c && Node(t, 2, 0) in tables && Node(c, 2, 0) in tables && n <= TRAPFRAME
      requires forall v: nat | v < n && Mapped(pages, tables, t, v) :: Owned(pages, role, tables, t, v)
      requires forall v: nat | v < n :: !Mapped(pages, tables, c, v)
      modifies this
      ensures Valid() && Confined(c, old(pages), old(role), pages, role)
      ensures forall nd | nd in old(tables) :: nd in tables && tables[nd] == old(tables)[nd]
      ensures CopiedTo(old(pages), old(tables), pages, role, tables, t, c, if ok then n else 0, n)
      ensures ok <==> |old(free)| >= Cost(TablesOf(old(tables), c), MappedBelow(old(pages), old(tables), t, n), 0, n)
    {
      hide Missing, TablesOf, Path;
      hide SpaceOk, FreeOk, Entry, Confined, Owned, CopiedTo, CopiedPage, DataKept, SameBut, MapsLess, FramesLess;
      NothingChanged(c, pages, role);
      CopyStart(pages, role, tables, t, c, n);
      ghost var want := MappedBelow(pages, tables, t, n);
      for i := 0 to n
        invariant |free| - Cost(TablesOf(tables, c), want, i, n) == |old(free)| - Cost(TablesOf(old(tables), c), want, 0, n)
        invariant Valid() && Confined(c, old(pages), old(role), pages, role)
        invariant forall nd | nd in old(tables) :: nd in tables && tables[nd] == old(tables)[nd]
        invariant CopiedTo(old(pages), old(tables), pages, role, tables, t, c, i, n)
      {
        ghost var pages1, role1, tables1 := pages, role, tables;
        ParentKept(c, old(pages), old(role), old(tables), pages, role, tables, t, i, n);
        ParentSame(old(pages), old(tables), pages, role, tables, t, c, i, n);
        ok := CopyOne(t, c, i);
        ConfinedTrans(c, old(pages), old(role), pages1, role1, pages, role);
        CopyStep(old(pages), old(tables), pages1, role1, tables1, pages, role, tables, t, c, i, n, ok);
        if !ok {
          ghost var pages2, role2 := pages, role;
          CopyOwned(old(pages), old(tables), pages, role, tables, t, c, i, n);
          UvmUnmap(c, 0, i, true);
          ConfinedTrans(c, old(pages), old(role), pages2, role2, pages, role);
          CopyUndone(old(pages), old(tables), pages2, role2, tables, pages, role, t, c, i, n);
          return false;
        }
      }
      return true;
    }
  
    /** uvmdealloc. */
    method UvmDealloc(t: nat, oldsz: nat, newsz: nat) returns (sz: nat)
      requires Valid() && Node(t, 2, 0) in tables && NumPages(oldsz) <= MAXVPN
      requires forall v: nat | NumPages(newsz) <= v < NumPages(oldsz) && Mapped(pages, tables, t, v) :: Owned(pages, role, tables, t, v)
      modifies this
      ensures Valid() && Confined(t, old(pages), old(role), pages, role) && tables == old(tables)
      ensures sz == if newsz < oldsz then newsz else oldsz
      ensures var n := NumPages(oldsz) - NumPages(sz);
              && MapsLess(old(pages), tables, pages, tables, t, NumPages(sz), n)
              && FramesLess(old(pages), old(role), pages, role, t, NumPages(sz), n)
    {
      hide SpaceOk, FreeOk, Entry, Confined, Owned, MapsLess, FramesLess;
      NothingChanged(t, pages, role);
      if newsz >= oldsz {
        NothingUnmapped(pages, role, tables, t, NumPages(oldsz));
        return oldsz;
      }
      if NumPages(newsz) < NumPages(oldsz) {
        UvmUnmap(t, NumPages(newsz), NumPages(oldsz) - NumPages(newsz), true);
      } else {
        NothingUnmapped(pages, role, tables, t, NumPages(newsz));
      }
      return newsz;
    }

    /** uvmalloc: all of the new pages, each zeroed and in a frame of its own,
        or none.  A failure (0) may leave tables behind, but no frame. */
    method UvmAlloc(t: nat, oldsz: nat, newsz: nat, xperm: nat) returns (sz: nat, ghost ok: bool)
      requires Valid() && Node(t, 2, 0) in tables && NumPages(newsz) <= MAXVPN && xperm in {0, PTE_W, PTE_X, PTE_W + PTE_X}
      requires forall v: nat | NumPages(oldsz) <= v < NumPages(newsz) :: !Mapped(pages, tables, t, v)
      modifies this
      ensures Valid() && Confined(t, old(pages), old(role), pages, role) && DataKept(old(pages), old(role), pages, role)
      ensures forall nd | nd in old(tables) :: nd in tables && tables[nd] == old(tables)[nd]
      ensures sz == if !ok then 0 else if newsz < oldsz then oldsz else newsz
      ensures ok ==> Grown(old(pages), old(tables), pages, role, tables, t, NumPages(oldsz), NumPages(sz), PTE_R + PTE_U + xperm)
      ensures !ok ==> SameMap(old(pages), old(tables), pages, tables) && MoreTables(old(pages), old(role), pages, role)
      ensures ok <==> newsz < oldsz || |old(free)| >= Cost(TablesOf(old(tables), t), Below(NumPages(newsz)), NumPages(oldsz), NumPages(newsz))
    {
      hide Missing, TablesOf, Path;
      hide SpaceOk, FreeOk, Entry, Confined, Owned, MapsLess, FramesLess, SameBut, DataKept, MoreTables, Grown, SameMap, RolesKept, RolesMore, FreshPage;
      NothingChanged(t, pages, role);
      NothingGrown(pages, role, tables, t, NumPages(oldsz), PTE_R + PTE_U + xperm);
      if newsz < oldsz {
        return oldsz, true;
      }
      var lo, perm := NumPages(oldsz), PTE_R + PTE_U + xperm;
      for a := lo to NumPages(newsz)
        invariant |free| - Cost(TablesOf(tables, t), Below(NumPages(newsz)), a, NumPages(newsz))
                  == |old(free)| - Cost(TablesOf(old(tables), t), Below(NumPages(newsz)), lo, NumPages(newsz))
        invariant Valid() && Confined(t, old(pages), old(role), pages, role) && DataKept(old(pages), old(role), pages, role)
        invariant forall nd | nd in old(tables) :: nd in tables && tables[nd] == old(tables)[nd]
        invariant RolesKept(old(role), role) && RolesMore(old(role), role, t, lo, a)
        invariant Grown(old(pages), old(tables), pages, role, tables, t, lo, a, perm)
      {
        ghost var pages1, role1, tables1 := pages, role, tables;
        NextUnmapped(old(pages), old(tables), pages, role, tables, t, lo, a, perm);
        var mapped := MapFresh(t, a, Zeros(), perm);
        ConfinedTrans(t, old(pages), old(role), pages1, role1, pages, role);
        if !mapped {
          GrownSame(old(pages), old(role), old(tables), pages1, role1, tables1, pages, role, tables, t, lo, a, perm);
          GrownOwned(old(pages), old(tables), pages, role, tables, t, lo, a, perm);
          ghost var pages2, role2 := pages, role;
          assert NumPages(a * 4096) == a && NumPages(lo * 4096) == lo;
          var _ := UvmDealloc(t, a * 4096, lo * 4096);
          ConfinedTrans(t, old(pages), old(role), pages2, role2, pages, role);
          Shrunk(old(pages), old(role), old(tables), pages2, role2, pages, role, tables, t, lo, a, perm);
          return 0, false;
        }
        GrownOne(old(pages), old(role), old(tables), pages1, role1, tables1, pages, role, tables, t, lo, a, perm);
      }
      return newsz, true;
    }
  }
}

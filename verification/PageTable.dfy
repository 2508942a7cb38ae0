/** The Sv39 page tree of kernel/vm.c as values: which page of memory is which
    table, and the flat map of addresses that the tree stands for.

    Physical pages and virtual pages are numbered; a page is 512 words. */
module PageTable {

  const ENTRIES := 512
  const MAXVPN := 0x400_0000            // MAXVA in pages
  const TRAMPOLINE := MAXVPN - 1
  const TRAPFRAME := MAXVPN - 2

  const PTE_V := 1
  const PTE_R := 2
  const PTE_W := 4
  const PTE_X := 8
  const PTE_U := 16

  type Pages = map<nat, seq<nat>>

  /** The table of address space t at a level that serves the virtual pages
      with this prefix; t is also the page number of the root. */
  datatype Node = Node(t: nat, level: nat, prefix: nat)

  /** What an allocated page is used for: nothing that the page tables know of,
      a table, or the memory at virtual page v of address space t. */
  datatype Use = Held | Table(node: Node) | Frame(t: nat, v: nat)

  type Role = map<nat, Use>
  type Tables = map<Node, nat>

  predicate IsValid(e: nat) { e % 2 == 1 }

  predicate IsLeaf(e: nat) { e / 2 % 8 != 0 }

  function Ppn(e: nat): nat { e / 1024 }

  function Flags(e: nat): nat { e % 1024 }

  function MakePte(p: nat, perm: nat): (e: nat)
    requires perm < 1024
    ensures IsValid(e) && Ppn(e) == p && Flags(e) / 2 == perm / 2 && (IsLeaf(e) <==> IsLeaf(perm))
  {
    p * 1024 + (if perm % 2 == 1 then perm else perm + 1)
  }

  function Span(level: nat): nat {
    if level == 0 then 1 else if level == 1 then 512 else if level == 2 then 0x4_0000 else 0x800_0000
  }

  /** PX(level, va). */
  function Index(level: nat, v: nat): (i: nat)
    ensures i < 512
  {
    v / Span(level) % 512
  }

  /** The table on the way to v at a level. */
  function At(t: nat, level: nat, v: nat): Node {
    Node(t, level, v / Span(level + 1))
  }

  function Child(nd: Node, i: nat): Node
    requires nd.level > 0
  {
    Node(nd.t, nd.level - 1, nd.prefix * 512 + i)
  }

  function Parent(nd: Node): Node {
    Node(nd.t, nd.level + 1, nd.prefix / 512)
  }

  lemma PathStep(t: nat, level: nat, v: nat)
    requires 0 < level <= 2
    ensures Child(At(t, level, v), Index(level, v)) == At(t, level - 1, v)
  {
  }

  lemma PathTop(t: nat, v: nat)
    requires v < MAXVPN
    ensures At(t, 2, v) == Node(t, 2, 0)
  {
  }

  // The tree.

  ghost predicate EntryOk(tables: Tables, nd: Node, i: nat, e: nat) {
    if nd.level == 0 then
      IsValid(e) ==> IsLeaf(e)
    else if IsValid(e) then
      Child(nd, i) in tables && e == MakePte(tables[Child(nd, i)], PTE_V)
    else
      Child(nd, i) !in tables
  }

  ghost predicate NodeOk(pages: Pages, tables: Tables, nd: Node)
    requires nd in tables
  {
    && tables[nd] in pages && |pages[tables[nd]]| == 512
    && nd.level <= 2
    && (if nd.level == 2 then nd.prefix == 0 && tables[nd] == nd.t else Parent(nd) in tables)
    && forall i | 0 <= i < 512 :: EntryOk(tables, nd, i, pages[tables[nd]][i])
  }

  ghost predicate TreeOk(pages: Pages, tables: Tables) {
    forall nd | nd in tables :: NodeOk(pages, tables, nd)
  }

  /** A page is at most one table: no table is shared or is also a frame. */
  ghost predicate Inverse(role: Role, tables: Tables) {
    && (forall nd | nd in tables :: tables[nd] in role && role[tables[nd]] == Table(nd))
    && (forall p | p in role && role[p].Table? :: role[p].node in tables && tables[role[p].node] == p)
  }

  // The flat map: the word for virtual page v of address space t.

  ghost function Entry(pages: Pages, tables: Tables, t: nat, v: nat): nat {
    var nd := Node(t, 0, v / 512);
    if nd in tables && tables[nd] in pages && |pages[tables[nd]]| == 512 then pages[tables[nd]][v % 512] else 0
  }

  ghost predicate Mapped(pages: Pages, tables: Tables, t: nat, v: nat) {
    IsValid(Entry(pages, tables, t, v))
  }

  /** Page f is the memory of (t, v) exactly if it is mapped there by its owner. */
  ghost predicate FramesOk(pages: Pages, role: Role, tables: Tables) {
    forall p | p in role && role[p].Frame? ::
      Mapped(pages, tables, role[p].t, role[p].v) && Ppn(Entry(pages, tables, role[p].t, role[p].v)) == p
  }

  ghost predicate Owned(pages: Pages, role: Role, tables: Tables, t: nat, v: nat) {
    var p := Ppn(Entry(pages, tables, t, v));
    p in role && role[p] == Frame(t, v)
  }

  ghost predicate FreeOk(pages: Pages, free: seq<nat>, role: Role) {
    && (forall p | p in pages :: |pages[p]| == 512)
    && (forall i, j | 0 <= i < j < |free| :: free[i] != free[j])
    && (forall p :: p in pages <==> p in free || p in role)
    && (forall p | p in free :: p !in role)
  }

  ghost predicate SpaceOk(pages: Pages, role: Role, tables: Tables) {
    Inverse(role, tables) && TreeOk(pages, tables) && FramesOk(pages, role, tables)
  }

  /** The walk of the hardware from the root page, section 4.3.2 of the RISC-V
      Privileged Architecture; a leaf above level 0 would be a larger page. */
  function Translate(pages: Pages, page: nat, level: nat, v: nat): (e: nat)
    decreases level
  {
    if page !in pages || |pages[page]| != 512 then
      0
    else
      var e := pages[page][Index(level, v)];
      if !IsValid(e) then 0
      else if level == 0 || IsLeaf(e) then e
      else Translate(pages, Ppn(e), level - 1, v)
  }

  lemma {:induction false} TranslateFrom(pages: Pages, tables: Tables, t: nat, level: nat, v: nat)
    requires TreeOk(pages, tables) && At(t, level, v) in tables && level <= 2
    ensures var e := Entry(pages, tables, t, v);
            Translate(pages, tables[At(t, level, v)], level, v) == if IsValid(e) then e else 0
  {
    var nd, i := At(t, level, v), Index(level, v);
    assert NodeOk(pages, tables, nd);
    var e := pages[tables[nd]][i];
    assert EntryOk(tables, nd, i, e);
    if level > 0 {
      PathStep(t, level, v);
      if IsValid(e) {
        TranslateFrom(pages, tables, t, level - 1, v);
      } else {
        NoLeafTable(pages, tables, t, level - 1, v);
      }
    }
  }

  /** A table that is missing on the way has nothing below it. */
  lemma {:induction false} NoLeafTable(pages: Pages, tables: Tables, t: nat, level: nat, v: nat)
    requires TreeOk(pages, tables) && At(t, level, v) !in tables && level <= 2
    ensures At(t, 0, v) !in tables
  {
    if level > 0 {
      assert Parent(At(t, level - 1, v)) == At(t, level, v);
      if At(t, level - 1, v) in tables {
        assert NodeOk(pages, tables, At(t, level - 1, v));
      }
      NoLeafTable(pages, tables, t, level - 1, v);
    }
  }

  /** The tree means the flat map. */
  lemma TreeIsFlatMap(pages: Pages, tables: Tables, t: nat, v: nat)
    requires TreeOk(pages, tables) && Node(t, 2, 0) in tables && v < MAXVPN
    ensures var e := Entry(pages, tables, t, v);
            Translate(pages, t, 2, v) == if IsValid(e) then e else 0
  {
    PathTop(t, v);
    assert NodeOk(pages, tables, Node(t, 2, 0));
    TranslateFrom(pages, tables, t, 2, v);
  }

  // One step of walk: a new table.

  function Zeros(): (s: seq<nat>)
    ensures |s| == 512 && forall i | 0 <= i < 512 :: s[i] == 0
  {
    seq(512, _ => 0)
  }

  function Poke(pages: Pages, p: nat, i: nat, e: nat): Pages {
    if p in pages && i < |pages[p]| then
      var page: seq<nat> := pages[p][i := e];
      pages[p := page]
    else
      pages
  }

  lemma AddTableNode(pages: Pages, role: Role, tables: Tables, nd: Node, i: nat, p: nat, x: Node)
    requires Inverse(role, tables) && TreeOk(pages, tables) && nd in tables && nd.level > 0 && i < 512
    requires !IsValid(pages[tables[nd]][i]) && p in role && role[p] == Held && p in pages
    requires x == Child(nd, i) || x in tables
    ensures var c := Child(nd, i);
            NodeOk(Poke(pages[p := Zeros()], tables[nd], i, MakePte(p, PTE_V)), tables[c := p], x)
  {
  }

  lemma AddTableEntry(pages: Pages, role: Role, tables: Tables, nd: Node, i: nat, p: nat, t: nat, v: nat)
    requires Inverse(role, tables) && TreeOk(pages, tables) && nd in tables && nd.level > 0 && i < 512
    requires !IsValid(pages[tables[nd]][i]) && p in role && role[p] == Held && p in pages
    ensures Entry(Poke(pages[p := Zeros()], tables[nd], i, MakePte(p, PTE_V)), tables[Child(nd, i) := p], t, v)
            == Entry(pages, tables, t, v)
  {
  }

  lemma AddTable(pages: Pages, role: Role, tables: Tables, nd: Node, i: nat, p: nat)
    requires SpaceOk(pages, role, tables) && nd in tables && nd.level > 0 && i < 512
    requires tables[nd] in pages && |pages[tables[nd]]| == 512
    requires !IsValid(pages[tables[nd]][i]) && p in role && role[p] == Held && p in pages
    ensures Child(nd, i) !in tables
    ensures var c := Child(nd, i);
            var pages', tables' := Poke(pages[p := Zeros()], tables[nd], i, MakePte(p, PTE_V)), tables[c := p];
            && SpaceOk(pages', role[p := Table(c)], tables')
            && SameEntries(pages, tables, pages', tables')
  {
    hide NodeOk, Entry;
    var c := Child(nd, i);
    var pages', tables' := Poke(pages[p := Zeros()], tables[nd], i, MakePte(p, PTE_V)), tables[c := p];
    MissingChild(pages, tables, nd, i);
    forall x | x in tables' ensures NodeOk(pages', tables', x) {
      AddTableNode(pages, role, tables, nd, i, p, x);
    }
    forall t: nat, v: nat ensures Entry(pages', tables', t, v) == Entry(pages, tables, t, v) {
      AddTableEntry(pages, role, tables, nd, i, p, t, v);
    }
  }

  lemma MissingChild(pages: Pages, tables: Tables, nd: Node, i: nat)
    requires TreeOk(pages, tables) && nd in tables && nd.level > 0 && i < 512
    ensures tables[nd] in pages && |pages[tables[nd]]| == 512
    ensures IsValid(pages[tables[nd]][i]) <==> Child(nd, i) in tables
    ensures Child(nd, i) in tables ==> Ppn(pages[tables[nd]][i]) == tables[Child(nd, i)]
  {
  }

  // Writing the word of one virtual page.

  lemma SetLeafEntry(pages: Pages, role: Role, tables: Tables, t: nat, v: nat, e: nat, t': nat, v': nat)
    requires Inverse(role, tables) && TreeOk(pages, tables) && At(t, 0, v) in tables
    ensures Entry(Poke(pages, tables[At(t, 0, v)], v % 512, e), tables, t', v')
            == if t' == t && v' == v then e else Entry(pages, tables, t', v')
  {
  }

  lemma SetLeafNode(pages: Pages, role: Role, tables: Tables, t: nat, v: nat, e: nat, x: Node)
    requires Inverse(role, tables) && TreeOk(pages, tables) && At(t, 0, v) in tables && x in tables
    requires IsValid(e) ==> IsLeaf(e)
    ensures NodeOk(Poke(pages, tables[At(t, 0, v)], v % 512, e), tables, x)
  {
  }

  /** The word of (t, v) can be changed if no frame is lost by it. */
  lemma SetLeaf(pages: Pages, role: Role, tables: Tables, t: nat, v: nat, e: nat)
    requires SpaceOk(pages, role, tables) && At(t, 0, v) in tables
    requires IsValid(e) ==> IsLeaf(e)
    requires Mapped(pages, tables, t, v) ==> !Owned(pages, role, tables, t, v)
    ensures var pages' := Poke(pages, tables[At(t, 0, v)], v % 512, e);
            && SpaceOk(pages', role, tables)
            && SetOne(pages, tables, pages', tables, t, v, e)
  {
    hide NodeOk, Entry;
    var pages' := Poke(pages, tables[At(t, 0, v)], v % 512, e);
    forall x | x in tables ensures NodeOk(pages', tables, x) {
      SetLeafNode(pages, role, tables, t, v, e, x);
    }
    forall t': nat, v': nat ensures Entry(pages', tables, t', v') == if t' == t && v' == v then e else Entry(pages, tables, t', v') {
      SetLeafEntry(pages, role, tables, t, v, e, t', v');
    }
  }

  /** The holder of a page that is mapped at (t, v) can make it the frame of (t, v). */
  lemma Adopt(pages: Pages, role: Role, tables: Tables, p: nat, t: nat, v: nat)
    requires SpaceOk(pages, role, tables) && p in role && role[p] == Held
    requires Mapped(pages, tables, t, v) && Ppn(Entry(pages, tables, t, v)) == p
    ensures SpaceOk(pages, role[p := Frame(t, v)], tables)
  {
  }

  lemma Disown(pages: Pages, role: Role, tables: Tables, p: nat)
    requires SpaceOk(pages, role, tables) && p in role && role[p].Frame?
    ensures SpaceOk(pages, role[p := Held], tables)
  {
  }

  /** A page that is no table can change its contents, and a page that is held
      can come and go. */
  lemma ChangeData(pages: Pages, role: Role, tables: Tables, p: nat, page: seq<nat>)
    requires SpaceOk(pages, role, tables) && (p in role ==> !role[p].Table?) && |page| == 512
    ensures SpaceOk(pages[p := page], role, tables)
    ensures SameEntries(pages, tables, pages[p := page], tables)
  {
    hide NodeOk, Entry;
    var pages' := pages[p := page];
    forall nd | nd in tables ensures NodeOk(pages', tables, nd) {
      DataNode(pages, role, tables, p, page, nd);
    }
    forall t: nat, v: nat ensures Entry(pages', tables, t, v) == Entry(pages, tables, t, v) {
      DataEntry(pages, role, tables, p, page, t, v);
    }
  }

  lemma DataNode(pages: Pages, role: Role, tables: Tables, p: nat, page: seq<nat>, nd: Node)
    requires Inverse(role, tables) && (p in role ==> !role[p].Table?) && nd in tables && NodeOk(pages, tables, nd)
    ensures NodeOk(pages[p := page], tables, nd)
  {
  }

  lemma DataEntry(pages: Pages, role: Role, tables: Tables, p: nat, page: seq<nat>, t: nat, v: nat)
    requires SpaceOk(pages, role, tables) && (p in role ==> !role[p].Table?)
    ensures Entry(pages[p := page], tables, t, v) == Entry(pages, tables, t, v)
  {
  }

  lemma Come(pages: Pages, role: Role, tables: Tables, p: nat)
    requires SpaceOk(pages, role, tables) && p !in role
    ensures SpaceOk(pages, role[p := Held], tables)
  {
  }

  lemma Go(pages: Pages, role: Role, tables: Tables, p: nat)
    requires SpaceOk(pages, role, tables) && p in role && role[p] == Held
    ensures SpaceOk(pages, role - {p}, tables)
  {
  }

  // Changes confined to one address space.

  predicate Of(u: Use, t: nat) {
    (u.Table? && u.node.t == t) || (u.Frame? && u.t == t)
  }

  /** Every page that is not used by t keeps its use and its contents. */
  ghost predicate Confined(t: nat, pages: Pages, role: Role, pages': Pages, role': Role) {
    && pages'.Keys == pages.Keys
    && (forall p | p in role && !Of(role[p], t) :: p in role' && role'[p] == role[p])
    && (forall p | p in role' && !Of(role'[p], t) :: p in role && role[p] == role'[p])
    && (forall p | p in role && !Of(role[p], t) && p in pages :: p in pages' && pages'[p] == pages[p])
  }

  /** No page changes its use, only tables change their contents, and the new
      pages are tables. */
  ghost predicate MoreTables(pages: Pages, role: Role, pages': Pages, role': Role) {
    && (forall p | p in role :: p in role' && role'[p] == role[p])
    && (forall p | p in role && !role[p].Table? && p in pages :: p in pages' && pages'[p] == pages[p])
    && (forall p | p in role' && p !in role :: role'[p].Table?)
  }

  lemma ConfinedTrans(t: nat, pages: Pages, role: Role, pages': Pages, role': Role, pages'': Pages, role'': Role)
    requires Confined(t, pages, role, pages', role') && Confined(t, pages', role', pages'', role'')
    ensures Confined(t, pages, role, pages'', role'')
  {
  }

  /** Then every other address space translates as before. */
  lemma ConfinedEntry(t: nat, pages: Pages, role: Role, tables: Tables, pages': Pages, role': Role, tables': Tables,
                      t': nat, v: nat)
    requires SpaceOk(pages, role, tables) && SpaceOk(pages', role', tables')
    requires Confined(t, pages, role, pages', role') && t' != t
    ensures Entry(pages', tables', t', v) == Entry(pages, tables, t', v)
  {
  }

  // Changes of the flat map.

  ghost predicate SameEntries(pages: Pages, tables: Tables, pages': Pages, tables': Tables) {
    forall t: nat, x: nat :: Entry(pages', tables', t, x) == Entry(pages, tables, t, x)
  }

  ghost predicate SetOne(pages: Pages, tables: Tables, pages': Pages, tables': Tables, t: nat, v: nat, e: nat) {
    forall t': nat, x: nat :: Entry(pages', tables', t', x) == if t' == t && x == v then e else Entry(pages, tables, t', x)
  }

  /** Exactly [v, v + k) is mapped anew, to consecutive pages from p. */
  ghost predicate MapsMore(pages: Pages, tables: Tables, pages': Pages, tables': Tables, t: nat, v: nat, k: nat,
                           p: nat, perm: nat)
    requires perm < 1024
  {
    forall t': nat, x: nat :: Entry(pages', tables', t', x)
      == if t' == t && v <= x < v + k then MakePte(p + (x - v), perm) else Entry(pages, tables, t', x)
  }

  /** Exactly the mappings in [v, v + n) are gone. */
  ghost predicate MapsLess(pages: Pages, tables: Tables, pages': Pages, tables': Tables, t: nat, v: nat, n: nat) {
    forall t': nat, x: nat :: Entry(pages', tables', t', x)
      == if t' == t && v <= x < v + n && Mapped(pages, tables, t', x) then 0 else Entry(pages, tables, t', x)
  }

  lemma SameTrans(pages: Pages, tables: Tables, pages': Pages, tables': Tables, pages'': Pages, tables'': Tables)
    requires SameEntries(pages, tables, pages', tables') && SameEntries(pages', tables', pages'', tables'')
    ensures SameEntries(pages, tables, pages'', tables'')
  {
  }

  lemma MapsOneMore(pages: Pages, tables: Tables, pages1: Pages, tables1: Tables, pages2: Pages, tables2: Tables,
                    pages3: Pages, tables3: Tables, t: nat, v: nat, k: nat, p: nat, perm: nat)
    requires perm < 1024 && MapsMore(pages, tables, pages1, tables1, t, v, k, p, perm)
    requires SameEntries(pages1, tables1, pages2, tables2)
    requires SetOne(pages2, tables2, pages3, tables3, t, v + k, MakePte(p + k, perm))
    ensures MapsMore(pages, tables, pages3, tables3, t, v, k + 1, p, perm)
  {
  }

  lemma MapsOneLess(pages: Pages, tables: Tables, pages1: Pages, tables1: Tables, pages2: Pages, tables2: Tables,
                    t: nat, v: nat, k: nat)
    requires MapsLess(pages, tables, pages1, tables1, t, v, k)
    requires MapsLess(pages1, tables1, pages2, tables2, t, v + k, 1)
    ensures MapsLess(pages, tables, pages2, tables2, t, v, k + 1)
  {
  }

  /** Exactly the frames of [v, v + n) are gone, and the others are as before. */
  ghost predicate FramesLess(pages: Pages, role: Role, pages': Pages, role': Role, t: nat, v: nat, n: nat) {
    && (forall p | p in role' && !role'[p].Table? && p in pages :: p in pages' && pages'[p] == pages[p])
    && (forall p | p in role' :: p in role && role'[p] == role[p])
    && (forall p | p in role :: p in role' <==> !(role[p].Frame? && role[p].t == t && v <= role[p].v < v + n))
  }

  // Parts of the tree.

  /** x is nd or below it. */
  predicate Under(nd: Node, x: Node) {
    x.t == nd.t && x.level <= nd.level <= 2 && x.prefix / Span(nd.level - x.level) == nd.prefix
  }

  /** x is below one of the first i children of nd. */
  predicate UnderFirst(nd: Node, i: nat, x: Node) {
    && x.t == nd.t && x.level < nd.level <= 2
    && var q := x.prefix / Span(nd.level - 1 - x.level); q / 512 == nd.prefix && q % 512 < i
  }

  lemma UnderSplit(nd: Node, i: nat, x: Node)
    requires 0 < nd.level <= 2 && i < 512
    ensures Under(nd, x) <==> x == nd || UnderFirst(nd, 512, x)
    ensures UnderFirst(nd, i + 1, x) <==> UnderFirst(nd, i, x) || Under(Child(nd, i), x)
    ensures !(UnderFirst(nd, i, x) && Under(Child(nd, i), x))
  {
  }

  ghost predicate SubtreeOk(pages: Pages, tables: Tables, nd: Node) {
    forall x | x in tables && Under(nd, x) :: NodeOk(pages, tables, x)
  }

  ghost predicate NoLeaves(pages: Pages, tables: Tables, nd: Node) {
    forall x | x in tables && Under(nd, x) && x.level == 0 && tables[x] in pages ::
      forall i | 0 <= i < |pages[tables[x]]| :: !IsValid(pages[tables[x]][i])
  }

  /** Nothing is below a child that is not there. */
  lemma {:induction false} NothingUnder(pages: Pages, tables: Tables, nd: Node, i: nat, x: Node)
    requires SubtreeOk(pages, tables, nd) && 0 < nd.level <= 2 && i < 512
    requires Child(nd, i) !in tables && Under(Child(nd, i), x)
    ensures x !in tables
    decreases nd.level - x.level
  {
    var c := Child(nd, i);
    UnderSplit(nd, i, x);
    if x != c {
      UnderParent(c, x);
      NothingUnder(pages, tables, nd, i, Parent(x));
    }
  }

  lemma UnderParent(nd: Node, x: Node)
    requires Under(nd, x) && x != nd
    ensures x.level < nd.level && Under(nd, Parent(x))
  {
  }

  lemma UnderChild(nd: Node, x: Node, k: nat)
    requires Under(nd, x) && x.level > 0 && k < 512
    ensures Under(nd, Child(x, k))
  {
  }

  // Freeing a part of the tree.

  /** The tables under nd are gone, and nothing else has changed. */
  ghost predicate Pruned(pages: Pages, role: Role, tables: Tables, pages': Pages, role': Role, tables': Tables, nd: Node) {
    && pages'.Keys == pages.Keys
    && (forall p | p in role' && p in pages :: pages'[p] == pages[p])
    && (forall x | x in tables' :: x in tables && tables'[x] == tables[x])
    && (forall x | x in tables :: x in tables' <==> !Under(nd, x))
    && (forall p | p in role' :: p in role && role'[p] == role[p])
    && (forall p | p in role :: p in role' <==> !(role[p].Table? && Under(nd, role[p].node)))
  }

  /** The tables under the first i children of nd are gone; page pg, the table
      nd itself, is still there from entry i on. */
  ghost predicate PrunedFirst(pages: Pages, role: Role, tables: Tables, pages': Pages, role': Role, tables': Tables,
                              nd: Node, pg: nat, i: nat) {
    && pages'.Keys == pages.Keys
    && (forall p | p in role' && p in pages && p != pg :: pages'[p] == pages[p])
    && pg in pages && |pages'[pg]| == |pages[pg]| == 512
    && (forall j | i <= j < 512 :: pages'[pg][j] == pages[pg][j])
    && (forall x | x in tables' :: x in tables && tables'[x] == tables[x])
    && (forall x | x in tables :: x in tables' <==> !UnderFirst(nd, i, x))
    && (forall p | p in role' :: p in role && role'[p] == role[p])
    && (forall p | p in role :: p in role' <==> !(role[p].Table? && UnderFirst(nd, i, role[p].node)))
  }

  lemma PruneStart(pages: Pages, role: Role, tables: Tables, nd: Node)
    requires SubtreeOk(pages, tables, nd) && nd in tables && nd.level <= 2
    ensures PrunedFirst(pages, role, tables, pages, role, tables, nd, tables[nd], 0)
  {
  }

  /** The entries of a table whose subtree is freed. */
  lemma PruneEntry(pages: Pages, tables: Tables, nd: Node, i: nat)
    requires SubtreeOk(pages, tables, nd) && NoLeaves(pages, tables, nd) && nd in tables && nd.level <= 2 && i < 512
    ensures tables[nd] in pages && |pages[tables[nd]]| == 512
    ensures var e := pages[tables[nd]][i];
            if IsValid(e) then nd.level > 0 && !IsLeaf(e) && Child(nd, i) in tables && Ppn(e) == tables[Child(nd, i)]
            else nd.level > 0 ==> Child(nd, i) !in tables
  {
  }

  lemma PruneSkip(pages: Pages, role: Role, tables: Tables, pages': Pages, role': Role, tables': Tables, nd: Node,
                  pg: nat, i: nat)
    requires PrunedFirst(pages, role, tables, pages', role', tables', nd, pg, i) && i < 512 && Inverse(role, tables)
    requires SubtreeOk(pages, tables, nd) && (0 < nd.level <= 2 ==> Child(nd, i) !in tables)
    ensures PrunedFirst(pages, role, tables, pages', role', tables', nd, pg, i + 1)
  {
    if 0 < nd.level <= 2 {
      forall x | x in tables ensures UnderFirst(nd, i + 1, x) <==> UnderFirst(nd, i, x) {
        UnderSplit(nd, i, x);
        if Under(Child(nd, i), x) {
          NothingUnder(pages, tables, nd, i, x);
        }
      }
    }
  }

  lemma PruneInverse(pages: Pages, role: Role, tables: Tables, pages': Pages, role': Role, tables': Tables, nd: Node,
                     pg: nat, i: nat)
    requires PrunedFirst(pages, role, tables, pages', role', tables', nd, pg, i) && Inverse(role, tables)
    ensures Inverse(role', tables')
  {
  }

  lemma PruneReadyNode(pages: Pages, role: Role, tables: Tables, pages': Pages, role': Role, tables': Tables,
                       nd: Node, pg: nat, i: nat, x: Node)
    requires PrunedFirst(pages, role, tables, pages', role', tables', nd, pg, i) && i < 512 && Inverse(role, tables)
    requires SubtreeOk(pages, tables, nd) && NoLeaves(pages, tables, nd) && nd in tables && pg == tables[nd] && 0 < nd.level <= 2
    requires x in tables && Under(Child(nd, i), x)
    ensures x in tables' && tables[x] in pages && tables[x] in pages'
    ensures pages'[tables[x]] == pages[tables[x]] && NodeOk(pages', tables', x)
  {
    UnderSplit(nd, i, x);
    assert NodeOk(pages, tables, x);
    assert tables[x] != pg;
    if x == Child(nd, i) {
      assert Parent(x) == nd;
      assert !UnderFirst(nd, i, nd);
    } else {
      UnderParent(Child(nd, i), x);
      UnderSplit(nd, i, Parent(x));
    }
    forall k | 0 <= k < 512 ensures EntryOk(tables', x, k, pages'[tables[x]][k]) {
      assert EntryOk(tables, x, k, pages[tables[x]][k]);
      if x.level > 0 {
        UnderChild(Child(nd, i), x, k);
        UnderSplit(nd, i, Child(x, k));
      }
    }
  }

  /** The subtree of child i is still as it was. */
  lemma PruneReady(pages: Pages, role: Role, tables: Tables, pages': Pages, role': Role, tables': Tables, nd: Node,
                   pg: nat, i: nat)
    requires PrunedFirst(pages, role, tables, pages', role', tables', nd, pg, i) && i < 512 && Inverse(role, tables)
    requires SubtreeOk(pages, tables, nd) && NoLeaves(pages, tables, nd) && nd in tables && pg == tables[nd] && 0 < nd.level <= 2
    requires Child(nd, i) in tables
    ensures Child(nd, i) in tables' && tables'[Child(nd, i)] == tables[Child(nd, i)]
    ensures SubtreeOk(pages', tables', Child(nd, i)) && NoLeaves(pages', tables', Child(nd, i))
  {
    hide NodeOk, PrunedFirst;
    assert forall x | x in tables' :: x in tables && tables'[x] == tables[x] by {
      PruneSub(pages, role, tables, pages', role', tables', nd, pg, i);
    }
    assert Under(Child(nd, i), Child(nd, i));
    forall x | x in tables && Under(Child(nd, i), x)
      ensures x in tables' && tables[x] in pages && tables[x] in pages'
      ensures pages'[tables[x]] == pages[tables[x]] && NodeOk(pages', tables', x)
      ensures Under(nd, x)
    {
      PruneReadyNode(pages, role, tables, pages', role', tables', nd, pg, i, x);
      UnderSplit(nd, i, x);
      UnderSplit(nd, 511, x);
    }
  }

  lemma PruneSub(pages: Pages, role: Role, tables: Tables, pages': Pages, role': Role, tables': Tables, nd: Node, pg: nat, i: nat)
    requires PrunedFirst(pages, role, tables, pages', role', tables', nd, pg, i)
    ensures forall x | x in tables' :: x in tables && tables'[x] == tables[x]
  {
  }

  /** Child i is freed and its entry cleared. */
  lemma PruneChild(pages: Pages, role: Role, tables: Tables, pages1: Pages, role1: Role, tables1: Tables,
                   pages2: Pages, role2: Role, tables2: Tables, nd: Node, pg: nat, i: nat)
    requires PrunedFirst(pages, role, tables, pages1, role1, tables1, nd, pg, i) && i < 512 && Inverse(role, tables)
    requires nd in tables && pg == tables[nd] && 0 < nd.level <= 2
    requires Pruned(pages1, role1, tables1, pages2, role2, tables2, Child(nd, i))
    ensures PrunedFirst(pages, role, tables, Poke(pages2, pg, i, 0), role2, tables2, nd, pg, i + 1)
  {
    forall x | x in tables ensures UnderFirst(nd, i + 1, x) <==> UnderFirst(nd, i, x) || Under(Child(nd, i), x) {
      UnderSplit(nd, i, x);
    }
    assert role[pg] == Table(nd) && !UnderFirst(nd, i, nd) && !Under(Child(nd, i), nd);
    hide Under, UnderFirst;
  }

  /** The table itself is freed. */
  lemma PruneEnd(pages: Pages, role: Role, tables: Tables, pages': Pages, role': Role, tables': Tables, nd: Node,
                 pg: nat, page: seq<nat>)
    requires PrunedFirst(pages, role, tables, pages', role', tables', nd, pg, 512) && Inverse(role, tables)
    requires nd in tables && pg == tables[nd] && nd.level <= 2
    ensures Pruned(pages, role, tables, pages'[pg := page], role' - {pg}, tables' - {nd}, nd)
    ensures Inverse(role' - {pg}, tables' - {nd})
  {
    forall x | x in tables ensures Under(nd, x) <==> x == nd || UnderFirst(nd, 512, x) {
      if nd.level > 0 {
        UnderSplit(nd, 0, x);
      }
    }
    assert !UnderFirst(nd, 512, nd);
    assert role[pg] == Table(nd);
  }

  // Whole address spaces.

  /** Every table hangs from its root. */
  lemma {:induction false} HasRoot(pages: Pages, tables: Tables, x: Node)
    requires TreeOk(pages, tables) && x in tables
    ensures Node(x.t, 2, 0) in tables && Under(Node(x.t, 2, 0), x)
    decreases 2 - x.level
  {
    assert NodeOk(pages, tables, x);
    if x.level < 2 {
      HasRoot(pages, tables, Parent(x));
    }
  }

  ghost predicate NoneOf(role: Role, t: nat) {
    forall p | p in role :: !Of(role[p], t)
  }

  /** A held page is the root of no address space. */
  lemma FreshRoot(pages: Pages, role: Role, tables: Tables, t: nat)
    requires SpaceOk(pages, role, tables) && (t in role ==> !role[t].Table?)
    ensures NoneOf(role, t)
    ensures forall x | x in tables :: x.t != t
    ensures forall v: nat :: Entry(pages, tables, t, v) == 0
  {
    assert Node(t, 2, 0) !in tables;
    forall x | x in tables ensures x.t != t {
      HasRoot(pages, tables, x);
    }
  }

  lemma NewRoot(pages: Pages, role: Role, tables: Tables, t: nat)
    requires SpaceOk(pages, role, tables) && t in role && role[t] == Held && t in pages
    ensures SpaceOk(pages[t := Zeros()], role[t := Table(Node(t, 2, 0))], tables[Node(t, 2, 0) := t])
    ensures SameEntries(pages, tables, pages[t := Zeros()], tables[Node(t, 2, 0) := t])
  {
    hide NodeOk, Entry;
    var root := Node(t, 2, 0);
    FreshRoot(pages, role, tables, t);
    ChangeData(pages, role, tables, t, Zeros());
    var pages', tables' := pages[t := Zeros()], tables[root := t];
    forall x | x in tables' ensures NodeOk(pages', tables', x) {
      NewRootNode(pages', tables, t, x);
    }
    forall t': nat, v: nat ensures Entry(pages', tables', t', v) == Entry(pages', tables, t', v) {
      NewRootEntry(pages', tables, t, t', v);
    }
  }

  lemma NewRootNode(pages: Pages, tables: Tables, t: nat, x: Node)
    requires TreeOk(pages, tables) && (forall x | x in tables :: x.t != t) && t in pages && pages[t] == Zeros()
    requires x == Node(t, 2, 0) || x in tables
    ensures NodeOk(pages, tables[Node(t, 2, 0) := t], x)
  {
  }

  lemma NewRootEntry(pages: Pages, tables: Tables, t: nat, t': nat, v: nat)
    ensures Entry(pages, tables[Node(t, 2, 0) := t], t', v) == Entry(pages, tables, t', v)
  {
  }

  lemma RootReady(pages: Pages, role: Role, tables: Tables, t: nat)
    requires SpaceOk(pages, role, tables) && Node(t, 2, 0) in tables
    requires forall v: nat :: !Mapped(pages, tables, t, v)
    ensures SubtreeOk(pages, tables, Node(t, 2, 0)) && NoLeaves(pages, tables, Node(t, 2, 0)) && tables[Node(t, 2, 0)] == t
  {
    assert NodeOk(pages, tables, Node(t, 2, 0));
    forall x | x in tables && x.t == t && x.level == 0 && tables[x] in pages
      ensures forall i | 0 <= i < |pages[tables[x]]| :: !IsValid(pages[tables[x]][i])
    {
      assert NodeOk(pages, tables, x);
      forall i | 0 <= i < |pages[tables[x]]| ensures !IsValid(pages[tables[x]][i]) {
        var v := x.prefix * 512 + i;
        assert v / 512 == x.prefix && v % 512 == i;
        assert !Mapped(pages, tables, t, v);
      }
    }
  }

  lemma RootDoneNode(pages: Pages, role: Role, tables: Tables, pages': Pages, role': Role, tables': Tables, t: nat, x: Node)
    requires SpaceOk(pages, role, tables) && Inverse(role', tables')
    requires Pruned(pages, role, tables, pages', role', tables', Node(t, 2, 0)) && x in tables'
    ensures x.t != t && x in tables && tables[x] == tables'[x]
    ensures tables[x] in pages && tables[x] in pages' && pages'[tables[x]] == pages[tables[x]] && NodeOk(pages', tables', x)
  {
  }

  /** Freeing the whole tree leaves no trace of the address space. */
  lemma RootDone(pages: Pages, role: Role, tables: Tables, pages': Pages, role': Role, tables': Tables, t: nat)
    requires SpaceOk(pages, role, tables) && Inverse(role', tables')
    requires forall v: nat :: !Mapped(pages, tables, t, v)
    requires Pruned(pages, role, tables, pages', role', tables', Node(t, 2, 0))
    ensures SpaceOk(pages', role', tables') && Confined(t, pages, role, pages', role') && NoneOf(role', t)
  {
    hide NodeOk;
    forall x | x in tables' ensures NodeOk(pages', tables', x) && x.t != t {
      RootDoneNode(pages, role, tables, pages', role', tables', t, x);
    }
    forall p | p in role' && role'[p].Frame?
      ensures role'[p].t != t && Entry(pages', tables', role'[p].t, role'[p].v) == Entry(pages, tables, role'[p].t, role'[p].v)
    {
      assert Mapped(pages, tables, role[p].t, role[p].v);
      var x := Node(role[p].t, 0, role[p].v / 512);
      assert x in tables' ;
      RootDoneNode(pages, role, tables, pages', role', tables', t, x);
    }
  }

  // Copying an address space.

  ghost predicate SameBut(pages: Pages, tables: Tables, pages': Pages, tables': Tables, t: nat, v: nat) {
    forall t': nat, x: nat | t' != t || x != v :: Entry(pages', tables', t', x) == Entry(pages, tables, t', x)
  }

  /** Page v of c is a copy, in a frame of its own, of page v of t. */
  ghost predicate CopiedPage(pages: Pages, role: Role, tables: Tables, t: nat, c: nat, v: nat) {
    var e, e' := Entry(pages, tables, t, v), Entry(pages, tables, c, v);
    && (IsValid(e) <==> IsValid(e'))
    && (IsValid(e) ==>
         && Owned(pages, role, tables, c, v) && Flags(e') == Flags(e)
         && Ppn(e) in pages && Ppn(e') in pages && pages[Ppn(e')] == pages[Ppn(e)])
  }

  lemma CopyFlags(e: nat, p: nat)
    requires IsValid(e) && IsLeaf(e)
    ensures Flags(e) < 1024 && IsLeaf(Flags(e)) && Flags(MakePte(p, Flags(e))) == Flags(e)
  {
    hide MakePte;
    var q, f := e / 1024, e % 1024;
    assert e / 2 == 512 * q + f / 2;
    assert e / 2 % 8 == f / 2 % 8 by {
      assert e / 2 == 8 * (64 * q + f / 2 / 8) + f / 2 % 8;
    }
    assert f % 2 == 1;
    PteParts(p, f);
  }

  lemma PteParts(p: nat, f: nat)
    requires f < 1024 && f % 2 == 1
    ensures Flags(MakePte(p, f)) == f
  {
  }

  lemma EntryIsLeaf(pages: Pages, role: Role, tables: Tables, t: nat, v: nat)
    requires SpaceOk(pages, role, tables) && Mapped(pages, tables, t, v)
    ensures IsLeaf(Entry(pages, tables, t, v))
  {
  }

  /** A page that was free is held, filled, and then mapped in c or given back. */
  lemma ConfinedVia(c: nat, pages: Pages, role: Role, m: nat, page: seq<nat>, pages': Pages, role': Role, v: nat, junk: seq<nat>)
    requires m !in role && m in pages
    requires Confined(c, pages[m := page], role[m := Held], pages', role')
    ensures m in role' && role'[m] == Held && m in pages' && pages'[m] == page
    ensures Confined(c, pages, role, pages', role'[m := Frame(c, v)])
    ensures Confined(c, pages, role, pages'[m := junk], role' - {m})
  {
  }

  /** Pages other than tables keep their use and their contents. */
  ghost predicate DataKept(pages: Pages, role: Role, pages': Pages, role': Role) {
    forall p | p in role && !role[p].Table? && p in pages :: p in role' && role'[p] == role[p] && p in pages' && pages'[p] == pages[p]
  }

  ghost predicate RolesKept(role: Role, role': Role) {
    forall p | p in role :: p in role' && role'[p] == role[p]
  }

  /** The new pages are tables and frames of [lo, hi). */
  ghost predicate RolesMore(role: Role, role': Role, t: nat, lo: nat, hi: nat) {
    forall p | p in role' && p !in role :: role'[p].Table? || (role'[p].Frame? && role'[p].t == t && lo <= role'[p].v < hi)
  }

  lemma DataKeptVia(c: nat, pages: Pages, role: Role, m: nat, page: seq<nat>, pages': Pages, role': Role, v: nat, junk: seq<nat>)
    requires m !in role && m in pages && MoreTables(pages[m := page], role[m := Held], pages', role')
    ensures DataKept(pages, role, pages', role'[m := Frame(c, v)])
    ensures DataKept(pages, role, pages'[m := junk], role' - {m})
    ensures MoreTables(pages, role, pages'[m := junk], role' - {m})
    ensures RolesKept(role, role'[m := Frame(c, v)]) && RolesMore(role, role'[m := Frame(c, v)], c, v, v + 1)
  {
  }

  /** The first k pages are copied, the others up to n are not mapped in c, and
      nothing else has changed in the flat map. */
  ghost predicate CopiedTo(pages: Pages, tables: Tables, pages': Pages, role': Role, tables': Tables, t: nat, c: nat,
                           k: nat, n: nat) {
    && (forall v: nat | v < k :: CopiedPage(pages', role', tables', t, c, v))
    && (forall v: nat | k <= v < n :: !Mapped(pages', tables', c, v))
    && (forall t': nat, x: nat | t' != c || x >= n :: Entry(pages', tables', t', x) == Entry(pages, tables, t', x))
  }

  lemma CopyKept(pages: Pages, role: Role, tables: Tables, pages': Pages, role': Role, tables': Tables, t: nat,
                 c: nat, k: nat, v: nat)
    requires CopiedPage(pages, role, tables, t, c, v) && v != k && t != c
    requires SameBut(pages, tables, pages', tables', c, k) && DataKept(pages, role, pages', role')
    requires Mapped(pages, tables, t, v) ==> Owned(pages, role, tables, t, v)
    ensures CopiedPage(pages', role', tables', t, c, v)
  {
  }

  lemma CopyStep(pages: Pages, tables: Tables, pages1: Pages, role1: Role, tables1: Tables, pages2: Pages,
                 role2: Role, tables2: Tables,
                 t: nat, c: nat, k: nat, n: nat, ok: bool)
    requires CopiedTo(pages, tables, pages1, role1, tables1, t, c, k, n) && t != c && k < n
    requires SameBut(pages1, tables1, pages2, tables2, c, k) && DataKept(pages1, role1, pages2, role2)
    requires forall v: nat | v < k && Mapped(pages1, tables1, t, v) :: Owned(pages1, role1, tables1, t, v)
    requires if ok then CopiedPage(pages2, role2, tables2, t, c, k) else !Mapped(pages2, tables2, c, k)
    ensures CopiedTo(pages, tables, pages2, role2, tables2, t, c, if ok then k + 1 else k, n)
  {
    hide Entry, CopiedPage;
    forall v: nat | v < k ensures CopiedPage(pages2, role2, tables2, t, c, v) {
      CopyKept(pages1, role1, tables1, pages2, role2, tables2, t, c, k, v);
    }
    assert forall v: nat | v != k :: Mapped(pages2, tables2, c, v) == Mapped(pages1, tables1, c, v);
  }

  /** What belongs to another address space still does. */
  lemma OwnedKept(c: nat, pages: Pages, role: Role, tables: Tables, pages': Pages, role': Role, tables': Tables, t: nat, v: nat)
    requires Confined(c, pages, role, pages', role') && t != c
    requires Entry(pages', tables', t, v) == Entry(pages, tables, t, v)
    ensures Owned(pages', role', tables', t, v) == Owned(pages, role, tables, t, v)
  {
  }
}

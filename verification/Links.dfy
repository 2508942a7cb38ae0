/** Link counts and directories of kernel/sysfile.c: create, link and unlink
    over the directory entries of kernel/fs.c.

    Each method is a section that runs under the locks of the inodes that it
    changes; system calls of different processes interleave as sections. */
module Links {
  import opened Common

  const ROOT := 1
  const SHRT_MAX := 32767

  datatype Type = Free | Dir | File | Device

  datatype Dirent = Dirent(inum: nat, name: string)

  datatype Inode = Inode(typ: Type, nlink: int, entries: seq<Dirent>)

  /** The value of a C short. */
  function Short(x: int): (y: int)
    ensures -32768 <= y <= SHRT_MAX
    ensures -32768 <= x <= SHRT_MAX ==> y == x
  {
    (x + 32768) % 65536 - 32768
  }

  predicate Live(x: Inode) { x.typ == Dir && x.nlink > 0 }

  predicate Counts(e: Dirent, i: nat) { e.inum == i && e.name != "." }

  function One(b: bool): nat { if b then 1 else 0 }

  /** The number of entries that count as links to inode i. */
  function Names(es: seq<Dirent>, i: nat): nat {
    if es == [] then 0 else Names(es[..|es| - 1], i) + One(Counts(es[|es| - 1], i))
  }

  function Share(x: Inode, i: nat): nat { if Live(x) then Names(x.entries, i) else 0 }

  /** The number of links to inode i from the directories that have links. */
  function Total(inodes: seq<Inode>, i: nat): nat {
    if inodes == [] then 0 else Total(inodes[..|inodes| - 1], i) + Share(inodes[|inodes| - 1], i)
  }

  lemma {:induction false} NamesUpdate(es: seq<Dirent>, k: nat, e: Dirent, i: nat)
    requires k < |es|
    ensures Names(es[k := e], i) + One(Counts(es[k], i)) == Names(es, i) + One(Counts(e, i))
  {
    var n := |es| - 1;
    if k == n {
      assert es[k := e][..n] == es[..n];
    } else {
      assert es[k := e][..n] == es[..n][k := e];
      NamesUpdate(es[..n], k, e, i);
    }
  }

  lemma {:induction false} TotalUpdate(inodes: seq<Inode>, d: nat, x: Inode, i: nat)
    requires d < |inodes|
    ensures Total(inodes[d := x], i) + Share(inodes[d], i) == Total(inodes, i) + Share(x, i)
  {
    var n := |inodes| - 1;
    if d == n {
      assert inodes[d := x][..n] == inodes[..n];
    } else {
      assert inodes[d := x][..n] == inodes[..n][d := x];
      TotalUpdate(inodes[..n], d, x, i);
    }
  }

  lemma {:induction false} NamesZero(es: seq<Dirent>, i: nat)
    ensures Names(es, i) == 0 <==> forall k | 0 <= k < |es| :: !Counts(es[k], i)
  {
    if es != [] {
      var n := |es| - 1;
      NamesZero(es[..n], i);
      assert forall k | 0 <= k < n :: es[..n][k] == es[k];
    }
  }

  lemma {:induction false} TotalAtLeast(inodes: seq<Inode>, d: nat, i: nat)
    requires d < |inodes|
    ensures Total(inodes, i) >= Share(inodes[d], i)
  {
    var n := |inodes| - 1;
    if d < n {
      assert inodes[..n][d] == inodes[d];
      TotalAtLeast(inodes[..n], d, i);
    }
  }

  lemma {:induction false} TotalZero(inodes: seq<Inode>, i: nat)
    requires forall d | 0 <= d < |inodes| :: Share(inodes[d], i) == 0
    ensures Total(inodes, i) == 0
  {
    if inodes != [] {
      TotalZero(inodes[..|inodes| - 1], i);
    }
  }

  /** If all the links are in d, they are all of them. */
  lemma TotalOne(inodes: seq<Inode>, d: nat, i: nat)
    requires d < |inodes| && forall c | 0 <= c < |inodes| && c != d :: Share(inodes[c], i) == 0
    ensures Total(inodes, i) == Share(inodes[d], i)
  {
    var x := Inode(Free, 0, []);
    TotalUpdate(inodes, d, x, i);
    TotalZero(inodes[d := x], i);
  }

  // dirlookup and dirlink.

  /** The first entry with the name. */
  method Dirlookup(es: seq<Dirent>, name: string) returns (r: Option<nat>)
    ensures r.None? ==> forall k | 0 <= k < |es| :: es[k].inum == 0 || es[k].name != name
    ensures r.Some? ==> r.value < |es| && es[r.value].inum != 0 && es[r.value].name == name
    ensures r.Some? ==> forall k | 0 <= k < r.value :: es[k].inum == 0 || es[k].name != name
  {
    var k := 0;
    while k < |es|
      invariant 0 <= k <= |es| && forall j | 0 <= j < k :: es[j].inum == 0 || es[j].name != name
    {
      if es[k].inum != 0 && es[k].name == name {
        return Some(k);
      }
      k := k + 1;
    }
    return None;
  }

  /** es with entry e in a slot that was empty or at the end. */
  ghost predicate Added(es: seq<Dirent>, es': seq<Dirent>, k: nat, e: Dirent) {
    if k < |es| then es[k].inum == 0 && es' == es[k := e] else k == |es| && es' == es + [e]
  }

  ghost predicate Present(es: seq<Dirent>, name: string) {
    exists j | 0 <= j < |es| :: es[j].inum != 0 && es[j].name == name
  }

  ghost predicate HasSlot(es: seq<Dirent>) {
    exists j | 0 <= j < |es| :: es[j].inum == 0
  }

  /** dirlink.  The write fails if the directory has to grow and there is no
      room for it. */
  method Dirlink(es: seq<Dirent>, name: string, inum: nat, room: bool) returns (r: Option<seq<Dirent>>, ghost k: nat)
    ensures r.Some? ==> Added(es, r.value, k, Dirent(inum, name)) && (forall j | 0 <= j < k :: es[j].inum != 0)
    ensures r.None? <==> Present(es, name) || (!room && !HasSlot(es))
  {
    var there := Dirlookup(es, name);
    if there.Some? {
      return None, 0;
    }
    var off := 0;
    while off < |es|
      invariant 0 <= off <= |es| && forall j | 0 <= j < off :: es[j].inum != 0
    {
      if es[off].inum == 0 {
        break;
      }
      off := off + 1;
    }
    k := off;
    var e := Dirent(inum, name);
    if off < |es| {
      r := Some(es[off := e]);
    } else if room {
      r := Some(es + [e]);
    } else {
      r := None;
    }
  }

  lemma NamesAdded(es: seq<Dirent>, es': seq<Dirent>, k: nat, e: Dirent, i: nat)
    requires Added(es, es', k, e) && i != 0
    ensures Names(es', i) == Names(es, i) + One(Counts(e, i))
  {
  }

  // What holds between sections.

  /** The entry that names a directory: directory and slot. */
  type Place = map<nat, (nat, nat)>

  /** "." and ".." come first; no other entry has these names or names the
      directory itself or the root. */
  ghost predicate EntriesOk(es: seq<Dirent>, d: nat, n: nat) {
    && |es| >= 2 && 0 < d < n && es[0] == Dirent(d, ".") && es[1].name == ".." && 0 < es[1].inum < n
    && (forall k | 2 <= k < |es| && es[k].inum != 0 :: Ordinary(es[k], d, n))
    && UniqueNames(es)
  }

  ghost predicate DirOk(inodes: seq<Inode>, d: nat)
    requires d < |inodes|
  {
    EntriesOk(inodes[d].entries, d, |inodes|) && Live(inodes[inodes[d].entries[1].inum])
  }

  predicate Ordinary(e: Dirent, d: nat, n: nat) {
    e.name != "." && e.name != ".." && e.inum < n && e.inum != ROOT && e.inum != d
  }

  ghost predicate UniqueNames(es: seq<Dirent>) {
    forall j, k | 0 <= j < k < |es| && es[j].inum != 0 && es[k].inum != 0 :: es[j].name != es[k].name
  }

  ghost predicate DirsOk(inodes: seq<Inode>) {
    && |inodes| > ROOT && Live(inodes[ROOT])
    && forall d | 0 <= d < |inodes| && Live(inodes[d]) :: DirOk(inodes, d)
  }

  /** A free inode is empty, and so is a directory without links. */
  ghost predicate RestOk(inodes: seq<Inode>) {
    && |inodes| > 0 && inodes[0].typ == Free
    && (forall i | 0 <= i < |inodes| && inodes[i].typ == Free :: inodes[i].nlink == 0)
    && (forall i | 0 <= i < |inodes| && inodes[i].typ != Dir :: inodes[i].entries == [])
    && (forall d | 0 <= d < |inodes| && inodes[d].typ == Dir :: ParentEntry(inodes[d].entries, |inodes|))
    && (forall d, k | 0 <= d < |inodes| && !Live(inodes[d]) && 0 <= k < |inodes[d].entries| && inodes[d].entries[k].inum != 0 ::
          inodes[d].entries[k].inum < |inodes| && (inodes[d].entries[k].name == "." || inodes[d].entries[k].name == ".."))
  }

  predicate ParentEntry(es: seq<Dirent>, n: nat) {
    |es| >= 2 && es[0].name == "." && es[0].inum > 0 && es[1].name == ".." && 0 < es[1].inum < n
  }

  predicate IsChild(inodes: seq<Inode>, c: nat) { 0 < c < |inodes| && c != ROOT && Live(inodes[c]) }

  /** Entry k of d names directory c, whose ".." is d. */
  predicate InPlace(inodes: seq<Inode>, c: nat, d: nat, k: nat) {
    && c < |inodes| && |inodes[c].entries| >= 2 && d < |inodes| && Live(inodes[d]) && 2 <= k < |inodes[d].entries|
    && inodes[d].entries[k].inum == c && inodes[c].entries[1].inum == d
  }

  /** Entry k of d, other than "." and "..", names directory c. */
  predicate NamesDir(inodes: seq<Inode>, d: nat, k: nat, c: nat) {
    && d < |inodes| && Live(inodes[d]) && 2 <= k < |inodes[d].entries| && inodes[d].entries[k].inum == c
    && 0 < c < |inodes| && inodes[c].typ == Dir
  }

  /** Every directory but the root is named by exactly one entry, in its
      parent. */
  ghost predicate Placed(inodes: seq<Inode>, place: Place) {
    && |inodes| > ROOT && |inodes[ROOT].entries| >= 2 && inodes[ROOT].entries[1].inum == ROOT
    && (forall c: nat | IsChild(inodes, c) :: c in place && InPlace(inodes, c, place[c].0, place[c].1))
    && (forall d: nat, k: nat, c: nat | NamesDir(inodes, d, k, c) :: c in place && place[c] == (d, k))
  }

  /** nlink is the number of links, with those that link has yet to make. */
  ghost predicate Accounted(inodes: seq<Inode>, pending: seq<nat>) {
    && |pending| == |inodes|
    && forall i: nat | 0 < i < |inodes| :: inodes[i].nlink == Total(inodes, i) + pending[i]
  }

  ghost predicate PendingOk(inodes: seq<Inode>, pending: seq<nat>) {
    && |pending| == |inodes|
    && forall i | 0 <= i < |inodes| && pending[i] > 0 :: inodes[i].typ == File || inodes[i].typ == Device
  }

  ghost predicate TreeOk(inodes: seq<Inode>, pending: seq<nat>, place: Place) {
    && DirsOk(inodes) && RestOk(inodes) && Placed(inodes, place) && PendingOk(inodes, pending)
    && forall i | 0 <= i < |inodes| :: inodes[i].nlink <= SHRT_MAX
  }

  // Linking a file.

  function Linked(inodes: seq<Inode>, d: nat, es: seq<Dirent>): seq<Inode> {
    if d < |inodes| then inodes[d := inodes[d].(entries := es)] else inodes
  }

  lemma LinkedTotal(inodes: seq<Inode>, d: nat, es: seq<Dirent>, k: nat, e: Dirent, i: nat)
    requires d < |inodes| && Added(inodes[d].entries, es, k, e) && i != 0
    ensures Total(Linked(inodes, d, es), i) == Total(inodes, i) + One(Live(inodes[d]) && Counts(e, i))
  {
    TotalUpdate(inodes, d, inodes[d].(entries := es), i);
    NamesAdded(inodes[d].entries, es, k, e, i);
  }

  lemma LinkedAccounted(inodes: seq<Inode>, pending: seq<nat>, d: nat, es: seq<Dirent>, k: nat, name: string, i: nat)
    requires Accounted(inodes, pending) && 0 < d < |inodes| && 0 < i < |inodes| && pending[i] > 0
    requires Added(inodes[d].entries, es, k, Dirent(i, name)) && name != "."
    ensures Accounted(Linked(inodes, d, es), pending[i := pending[i] - 1]) <==> Live(inodes[d])
  {
    var inodes' := Linked(inodes, d, es);
    forall x: nat | 0 < x < |inodes|
      ensures Total(inodes', x) == Total(inodes, x) + One(Live(inodes[d]) && x == i) && inodes'[x].nlink == inodes[x].nlink
    {
      LinkedTotal(inodes, d, es, k, Dirent(i, name), x);
    }
    hide Total;
    if !Live(inodes[d]) {
      assert inodes'[i].nlink != Total(inodes', i) + pending[i := pending[i] - 1][i];
    }
  }

  /** A directory can change everything but its "..", as long as it has links. */
  lemma KeepDirs(inodes: seq<Inode>, d: nat, x: Inode)
    requires DirsOk(inodes) && d < |inodes| && Live(inodes[d]) && Live(x)
    requires EntriesOk(x.entries, d, |inodes|) && |inodes[d].entries| >= 2 && x.entries[1] == inodes[d].entries[1]
    ensures DirsOk(inodes[d := x])
  {
  }

  lemma LinkedDirs(inodes: seq<Inode>, d: nat, es: seq<Dirent>, k: nat, e: Dirent)
    requires DirsOk(inodes) && d < |inodes| && Live(inodes[d]) && Added(inodes[d].entries, es, k, e) && Ordinary(e, d, |inodes|)
    requires forall j | 0 <= j < |inodes[d].entries| :: inodes[d].entries[j].inum == 0 || inodes[d].entries[j].name != e.name
    ensures DirsOk(Linked(inodes, d, es)) && k >= 2 && EntriesOk(es, d, |inodes|)
    ensures |inodes[d].entries| >= 2 && es[1] == inodes[d].entries[1]
  {
    hide EntriesOk;
    assert DirOk(inodes, d);
    EntriesTwo(inodes[d].entries, d, |inodes|);
    EntriesAdded(inodes[d].entries, es, k, e, d, |inodes|);
    hide Added;
    KeepDirs(inodes, d, inodes[d].(entries := es));
  }

  lemma DirFacts(inodes: seq<Inode>, d: nat)
    requires DirsOk(inodes) && d < |inodes| && Live(inodes[d])
    ensures EntriesOk(inodes[d].entries, d, |inodes|) && |inodes[d].entries| >= 2 && d > 0
    ensures inodes[d].entries[1].inum < |inodes| && Live(inodes[inodes[d].entries[1].inum])
  {
  }

  /** An entry for something other than a directory moves no directory. */
  lemma LinkedPlaced(inodes: seq<Inode>, place: Place, d: nat, es: seq<Dirent>, k: nat, e: Dirent)
    requires Placed(inodes, place) && d < |inodes| && Live(inodes[d]) && |inodes[d].entries| >= 2
    requires Added(inodes[d].entries, es, k, e) && 0 < e.inum < |inodes| && inodes[e.inum].typ != Dir && k >= 2
    ensures Placed(Linked(inodes, d, es), place)
  {
    var inodes' := Linked(inodes, d, es);
    forall c: nat | IsChild(inodes', c) ensures IsChild(inodes, c) {
    }
    forall c: nat, d': nat, k': nat | InPlace(inodes, c, d', k') && IsChild(inodes', c) ensures InPlace(inodes', c, d', k') {
    }
    forall d': nat, k': nat, c: nat | NamesDir(inodes', d', k', c) ensures NamesDir(inodes, d', k', c) {
    }
    hide IsChild, InPlace, NamesDir;
  }

  lemma LinkedRest(inodes: seq<Inode>, d: nat, es: seq<Dirent>)
    requires RestOk(inodes) && d < |inodes| && Live(inodes[d]) && ParentEntry(es, |inodes|)
    ensures RestOk(Linked(inodes, d, es))
  {
  }

  lemma LinkedTree(inodes: seq<Inode>, pending: seq<nat>, place: Place, d: nat, es: seq<Dirent>, k: nat, e: Dirent)
    requires TreeOk(inodes, pending, place) && d < |inodes| && Live(inodes[d]) && Added(inodes[d].entries, es, k, e)
    requires Ordinary(e, d, |inodes|) && e.inum > 0 && inodes[e.inum].typ != Dir
    requires forall j | 0 <= j < |inodes[d].entries| :: inodes[d].entries[j].inum == 0 || inodes[d].entries[j].name != e.name
    ensures TreeOk(Linked(inodes, d, es), pending, place)
  {
    hide DirsOk, RestOk, Placed, EntriesOk, Added;
    LinkedDirs(inodes, d, es, k, e);
    LinkedPlaced(inodes, place, d, es, k, e);
    EntriesTwo(es, d, |inodes|);
    LinkedRest(inodes, d, es);
  }

  lemma EntriesTwo(es: seq<Dirent>, d: nat, n: nat)
    requires EntriesOk(es, d, n)
    ensures |es| >= 2 && 0 < es[1].inum < n && es[0] == Dirent(d, ".") && es[1].name == ".." && 0 < d < n
  {
  }

  lemma EntriesAdded(es: seq<Dirent>, es': seq<Dirent>, k: nat, e: Dirent, d: nat, n: nat)
    requires EntriesOk(es, d, n) && Added(es, es', k, e) && Ordinary(e, d, n)
    requires forall j | 0 <= j < |es| :: es[j].inum == 0 || es[j].name != e.name
    ensures k >= 2 && EntriesOk(es', d, n) && es'[1] == es[1]
  {
  }

  // Creating a file or a device.

  function NewFile(inodes: seq<Inode>, i: nat, typ: Type): seq<Inode> {
    if i < |inodes| then inodes[i := Inode(typ, 1, [])] else inodes
  }

  lemma NewFileAccounted(inodes: seq<Inode>, pending: seq<nat>, i: nat, typ: Type)
    requires Accounted(inodes, pending) && 0 < i < |inodes| && inodes[i].typ == Free && inodes[i].nlink == 0 && (typ == File || typ == Device)
    ensures pending[i] == 0 && Accounted(NewFile(inodes, i, typ), pending[i := 1])
  {
    forall x: nat ensures Total(NewFile(inodes, i, typ), x) == Total(inodes, x) {
      TotalUpdate(inodes, i, Inode(typ, 1, []), x);
    }
    hide Total;
    assert inodes[i].nlink == Total(inodes, i) + pending[i];
  }

  lemma NewFileTree(inodes: seq<Inode>, pending: seq<nat>, place: Place, i: nat, typ: Type)
    requires TreeOk(inodes, pending, place) && 0 < i < |inodes| && inodes[i].typ == Free && (typ == File || typ == Device)
    ensures TreeOk(NewFile(inodes, i, typ), pending[i := 1], place)
  {
    hide DirsOk, RestOk, Placed;
    FreeNlink(inodes, i);
    SameDirs(inodes, place, i, Inode(typ, 1, []));
  }

  lemma RootLive(inodes: seq<Inode>)
    requires DirsOk(inodes)
    ensures |inodes| > ROOT && Live(inodes[ROOT])
  {
  }

  /** An inode that is no directory can become another one that is none. */
  lemma NotLiveDirs(inodes: seq<Inode>, i: nat, x: Inode)
    requires DirsOk(inodes) && i < |inodes| && !Live(inodes[i]) && !Live(x)
    ensures DirsOk(inodes[i := x])
  {
  }

  // Creating a directory.

  function NewDirEntries(i: nat, d: nat): seq<Dirent> { [Dirent(i, "."), Dirent(d, "..")] }

  function NewDir(inodes: seq<Inode>, i: nat, d: nat, es: seq<Dirent>): seq<Inode> {
    if i < |inodes| && d < |inodes| then
      inodes[i := Inode(Dir, 1, NewDirEntries(i, d))][d := inodes[d].(entries := es, nlink := Short(inodes[d].nlink + 1))]
    else
      inodes
  }

  lemma NewDirTotal(inodes: seq<Inode>, i: nat, d: nat, es: seq<Dirent>, k: nat, name: string, x: nat)
    requires i < |inodes| && d < |inodes| && i != d && inodes[i].typ == Free && x > 0 && name != "."
    requires Added(inodes[d].entries, es, k, Dirent(i, name))
    ensures var y := NewDir(inodes, i, d, es);
            && Total(y, x) + Share(inodes[d], x) == Total(inodes, x) + One(x == d) + Share(y[d], x)
            && Names(es, x) == Names(inodes[d].entries, x) + One(x == i)
  {
    var made := Inode(Dir, 1, NewDirEntries(i, d));
    TotalUpdate(inodes, i, made, x);
    TotalUpdate(inodes[i := made], d, NewDir(inodes, i, d, es)[d], x);
    NamesAdded(inodes[d].entries, es, k, Dirent(i, name), x);
    assert NewDirEntries(i, d)[..1] == [Dirent(i, ".")] && [Dirent(i, ".")][..0] == [];
    assert Names([Dirent(i, ".")], x) == 0;
    assert Share(made, x) == One(x == d);
  }

  /** Making a directory keeps the count exactly if its parent has links, and
      room for one more. */
  lemma NewDirAccounted(inodes: seq<Inode>, pending: seq<nat>, i: nat, d: nat, es: seq<Dirent>, k: nat, name: string)
    requires Accounted(inodes, pending) && 0 < i < |inodes| && 0 < d < |inodes| && inodes[i].typ == Free && inodes[i].nlink == 0
    requires inodes[d].typ == Dir && inodes[d].nlink <= SHRT_MAX && ParentEntry(inodes[d].entries, |inodes|)
    requires Added(inodes[d].entries, es, k, Dirent(i, name)) && name != "."
    ensures Accounted(NewDir(inodes, i, d, es), pending) <==> Live(inodes[d]) && inodes[d].nlink < SHRT_MAX
  {
    var inodes' := NewDir(inodes, i, d, es);
    if !Live(inodes[d]) {
      var p := inodes[d].entries[1].inum;
      NewDirTotal(inodes, i, d, es, k, name, p);
      NamesZero(inodes[d].entries, p);
      assert Counts(inodes[d].entries[1], p);
      assert inodes[p].nlink == Total(inodes, p) + pending[p] && inodes[d].nlink == Total(inodes, d) + pending[d];
      hide Total, Names;
      assert inodes'[p].nlink != Total(inodes', p) + pending[p];
    } else if inodes[d].nlink == SHRT_MAX {
      assert inodes'[d].nlink != Total(inodes', d) + pending[d];
    } else {
      forall x: nat | 0 < x < |inodes| ensures inodes'[x].nlink == Total(inodes', x) + pending[x] {
        NewDirTotal(inodes, i, d, es, k, name, x);
        assert inodes[x].nlink == Total(inodes, x) + pending[x];
        hide Total, Names;
      }
    }
  }

  lemma AddDir(inodes: seq<Inode>, i: nat, d: nat)
    requires DirsOk(inodes) && 0 < i < |inodes| && d < |inodes| && !Live(inodes[i]) && Live(inodes[d])
    ensures DirsOk(inodes[i := Inode(Dir, 1, NewDirEntries(i, d))])
  {
  }

  /** Nothing names an inode without links. */
  lemma NoNames(inodes: seq<Inode>, i: nat, d: nat, k: nat)
    requires DirsOk(inodes) && Total(inodes, i) == 0 && d < |inodes| && Live(inodes[d]) && 2 <= k < |inodes[d].entries| && i > 0
    ensures inodes[d].entries[k].inum != i
  {
    DirFacts(inodes, d);
    TotalAtLeast(inodes, d, i);
    NamesZero(inodes[d].entries, i);
    assert !Counts(inodes[d].entries[k], i);
  }

  lemma {:induction false} NewDirPlaced(inodes: seq<Inode>, place: Place, i: nat, d: nat, es: seq<Dirent>, k: nat, name: string)
    requires DirsOk(inodes) && Placed(inodes, place) && 0 < i < |inodes| && d < |inodes| && i != d
    requires inodes[i].typ == Free && i != ROOT
    requires Live(inodes[d]) && inodes[d].nlink < SHRT_MAX && Total(inodes, i) == 0
    requires Added(inodes[d].entries, es, k, Dirent(i, name)) && k >= 2 && |inodes[d].entries| >= 2
    ensures Placed(NewDir(inodes, i, d, es), place[i := (d, k)])
  {
    hide DirsOk, Total;
    var inodes' := NewDir(inodes, i, d, es);
    NewDirKept(inodes, i, d, es, k, name);
    forall d': nat, k': nat, c: nat | NamesDir(inodes', d', k', c)
      ensures (d' == d && k' == k && c == i) || (NamesDir(inodes, d', k', c) && c != i)
    {
      NewDirNames(inodes, i, d, es, k, name, d', k', c);
    }
    hide IsChild, InPlace, NamesDir, Added;
  }

  lemma {:induction false} NewDirNames(inodes: seq<Inode>, i: nat, d: nat, es: seq<Dirent>, k: nat, name: string,
                                       d': nat, k': nat, c: nat)
    requires DirsOk(inodes) && 0 < i < |inodes| && d < |inodes| && i != d && inodes[i].typ == Free && Total(inodes, i) == 0
    requires Live(inodes[d]) && inodes[d].nlink < SHRT_MAX
    requires Added(inodes[d].entries, es, k, Dirent(i, name)) && NamesDir(NewDir(inodes, i, d, es), d', k', c)
    ensures (d' == d && k' == k && c == i) || (NamesDir(inodes, d', k', c) && c != i)
  {
    hide DirsOk, Total;
    if d' != i && !(d' == d && k' == k) {
      NoNames(inodes, i, d', k');
    }
  }

  lemma NewDirKept(inodes: seq<Inode>, i: nat, d: nat, es: seq<Dirent>, k: nat, name: string)
    requires 0 < i < |inodes| && d < |inodes| && i != d && inodes[i].typ == Free
    requires Live(inodes[d]) && inodes[d].nlink < SHRT_MAX && |inodes[d].entries| >= 2 && k >= 2
    requires Added(inodes[d].entries, es, k, Dirent(i, name))
    ensures var inodes' := NewDir(inodes, i, d, es);
            && InPlace(inodes', i, d, k)
            && (forall c: nat | IsChild(inodes', c) && c != i :: IsChild(inodes, c))
            && (forall c: nat, d': nat, k': nat | InPlace(inodes, c, d', k') && IsChild(inodes', c) && c != i :: InPlace(inodes', c, d', k'))
  {
  }

  lemma NewDirTree(inodes: seq<Inode>, pending: seq<nat>, place: Place, i: nat, d: nat, es: seq<Dirent>, k: nat, name: string)
    requires TreeOk(inodes, pending, place) && Accounted(inodes, pending) && 0 < i < |inodes| && d < |inodes|
    requires inodes[i].typ == Free
    requires Live(inodes[d]) && inodes[d].nlink < SHRT_MAX && name != "." && name != ".."
    requires Added(inodes[d].entries, es, k, Dirent(i, name))
    requires forall j | 0 <= j < |inodes[d].entries| :: inodes[d].entries[j].inum == 0 || inodes[d].entries[j].name != name
    ensures TreeOk(NewDir(inodes, i, d, es), pending, place[i := (d, k)])
  {
    hide DirsOk, Placed, EntriesOk, Added, Total;
    RootLive(inodes);
    FreeNlink(inodes, i);
    assert inodes[i].nlink == Total(inodes, i) + pending[i];
    LinkedDirs(inodes, d, es, k, Dirent(i, name));
    var d' := inodes[d].(entries := es, nlink := Short(inodes[d].nlink + 1));
    KeepDirs(inodes, d, d');
    AddDir(inodes[d := d'], i, d);
    assert NewDir(inodes, i, d, es) == inodes[d := d'][i := Inode(Dir, 1, NewDirEntries(i, d))];
    NewDirPlaced(inodes, place, i, d, es, k, name);
    EntriesTwo(es, d, |inodes|);
    NewDirRest(inodes, i, d, es);
    hide RestOk;
  }

  lemma FreeNlink(inodes: seq<Inode>, i: nat)
    requires RestOk(inodes) && i < |inodes| && inodes[i].typ == Free
    ensures inodes[i].nlink == 0 && inodes[i].entries == []
  {
  }

  lemma NewDirRest(inodes: seq<Inode>, i: nat, d: nat, es: seq<Dirent>)
    requires RestOk(inodes) && 0 < i < |inodes| && 0 < d < |inodes| && i != d && Live(inodes[d]) && ParentEntry(es, |inodes|)
    requires inodes[d].nlink < SHRT_MAX
    ensures RestOk(NewDir(inodes, i, d, es))
  {
  }

  // Unlinking.

  const NOENT := Dirent(0, "")

  predicate IsEmpty(es: seq<Dirent>) { forall k | 2 <= k < |es| :: es[k].inum == 0 }

  function Unlinked(inodes: seq<Inode>, d: nat, k: nat, i: nat): seq<Inode>
    requires d < |inodes| && i < |inodes| && k < |inodes[d].entries|
  {
    var es := inodes[d].entries[k := NOENT];
    var nlink := if inodes[i].typ == Dir then Short(inodes[d].nlink - 1) else inodes[d].nlink;
    var inodes1 := inodes[d := inodes[d].(entries := es, nlink := nlink)];
    inodes1[i := inodes1[i].(nlink := Short(inodes1[i].nlink - 1))]
  }

  lemma {:induction false} TotalTwo(inodes: seq<Inode>, a: nat, b: nat, i: nat)
    requires a < b < |inodes|
    ensures Total(inodes, i) >= Share(inodes[a], i) + Share(inodes[b], i)
  {
    var n := |inodes| - 1;
    if b == n {
      assert inodes[..n][a] == inodes[a];
      TotalAtLeast(inodes[..n], a, i);
    } else {
      assert inodes[..n][a] == inodes[a] && inodes[..n][b] == inodes[b];
      TotalTwo(inodes[..n], a, b, i);
    }
  }

  lemma {:induction false} ShareAtLeast(inodes: seq<Inode>, d: nat, k: nat, i: nat)
    requires d < |inodes| && Live(inodes[d]) && k < |inodes[d].entries| && Counts(inodes[d].entries[k], i)
    ensures Share(inodes[d], i) >= 1
  {
    NamesZero(inodes[d].entries, i);
  }

  /** What an entry names has links. */
  lemma {:induction false} NamedHasLinks(inodes: seq<Inode>, pending: seq<nat>, d: nat, k: nat)
    requires DirsOk(inodes) && Accounted(inodes, pending) && d < |inodes| && Live(inodes[d]) && 2 <= k < |inodes[d].entries|
    requires inodes[d].entries[k].inum != 0
    ensures var i := inodes[d].entries[k].inum; i < |inodes| && i != d && i != ROOT && inodes[i].nlink >= 1 && Total(inodes, i) >= 1
  {
    DirFacts(inodes, d);
    var i := inodes[d].entries[k].inum;
    ShareAtLeast(inodes, d, k, i);
    TotalAtLeast(inodes, d, i);
    assert inodes[i].nlink == Total(inodes, i) + pending[i];
  }

  /** The only link to an empty directory is the entry in its parent. */
  lemma {:induction false} EmptyElsewhere(inodes: seq<Inode>, place: Place, d: nat, k: nat, i: nat, c: nat, j: nat)
    requires DirsOk(inodes) && Placed(inodes, place) && NamesDir(inodes, d, k, i) && IsEmpty(inodes[i].entries) && i != ROOT
    requires c < |inodes| && Live(inodes[c]) && j < |inodes[c].entries| && !(c == d && j == k)
    ensures !Counts(inodes[c].entries[j], i)
  {
    DirFacts(inodes, c);
    if j == 1 && c != ROOT {
      assert IsChild(inodes, c);
      assert InPlace(inodes, c, place[c].0, place[c].1);
    } else if j >= 2 {
      assert NamesDir(inodes, c, j, i) == (inodes[c].entries[j].inum == i);
    }
  }

  lemma {:induction false} EmptyShare(inodes: seq<Inode>, place: Place, d: nat, k: nat, i: nat, c: nat)
    requires DirsOk(inodes) && Placed(inodes, place) && NamesDir(inodes, d, k, i) && IsEmpty(inodes[i].entries) && i != ROOT
    requires c < |inodes|
    ensures Share(inodes[c], i) == One(c == d)
  {
    if Live(inodes[c]) {
      var es := inodes[c].entries;
      DirFacts(inodes, c);
      if c == d {
        NamesUpdate(es, k, NOENT, i);
        es := es[k := NOENT];
      }
      forall j | 0 <= j < |es| ensures !Counts(es[j], i) {
        if !(c == d && j == k) {
          EmptyElsewhere(inodes, place, d, k, i, c, j);
        }
      }
      NamesZero(es, i);
    }
  }

  lemma {:induction false} EmptyDirLinks(inodes: seq<Inode>, place: Place, d: nat, k: nat, i: nat)
    requires DirsOk(inodes) && Placed(inodes, place) && NamesDir(inodes, d, k, i) && IsEmpty(inodes[i].entries) && i != ROOT
    ensures Total(inodes, i) == 1
  {
    hide DirsOk, Placed;
    forall c | 0 <= c < |inodes| ensures Share(inodes[c], i) == One(c == d) {
      EmptyShare(inodes, place, d, k, i, c);
    }
    TotalOne(inodes, d, i);
  }

  /** The parent of an empty directory has another link than its "..". */
  lemma {:induction false} ParentLinks(inodes: seq<Inode>, place: Place, d: nat, i: nat)
    requires DirsOk(inodes) && Placed(inodes, place) && d < |inodes| && Live(inodes[d]) && IsChild(inodes, i) && i != d
    requires IsEmpty(inodes[i].entries) && |inodes[i].entries| >= 2 && inodes[i].entries[1].inum == d
    ensures Total(inodes, d) >= 2
  {
    DirFacts(inodes, i);
    DirFacts(inodes, d);
    ShareAtLeast(inodes, i, 1, d);
    var p: nat;
    if d == ROOT {
      p := ROOT;
      ShareAtLeast(inodes, ROOT, 1, ROOT);
    } else {
      assert IsChild(inodes, d);
      p := place[d].0;
      assert InPlace(inodes, d, p, place[d].1);
      DirFacts(inodes, p);
      ShareAtLeast(inodes, p, place[d].1, d);
    }
    if p < i {
      TotalTwo(inodes, p, i, d);
    } else {
      TotalTwo(inodes, i, p, d);
    }
  }

  lemma {:induction false} UnlinkedTotal(inodes: seq<Inode>, d: nat, k: nat, i: nat, x: nat)
    requires d < |inodes| && i < |inodes| && d != i && Live(inodes[d]) && k < |inodes[d].entries|
    requires Counts(inodes[d].entries[k], i) && x > 0
    requires Live(Unlinked(inodes, d, k, i)[d])
    ensures var y := Unlinked(inodes, d, k, i);
            Total(y, x) + One(x == i) + Share(inodes[i], x) == Total(inodes, x) + Share(y[i], x)
  {
    var y := Unlinked(inodes, d, k, i);
    TotalUpdate(inodes, d, y[d], x);
    TotalUpdate(inodes[d := y[d]], i, y[i], x);
    NamesUpdate(inodes[d].entries, k, NOENT, x);
  }

  lemma UnlinkFileAccounted(inodes: seq<Inode>, pending: seq<nat>, d: nat, k: nat, i: nat)
    requires Accounted(inodes, pending) && 0 < i < |inodes| && d < |inodes| && d != i && Live(inodes[d])
    requires k < |inodes[d].entries| && Counts(inodes[d].entries[k], i) && inodes[i].typ != Dir
    requires 1 <= inodes[i].nlink <= SHRT_MAX
    ensures Accounted(Unlinked(inodes, d, k, i), pending)
  {
    var y := Unlinked(inodes, d, k, i);
    forall x: nat | 0 < x < |inodes| ensures y[x].nlink == Total(y, x) + pending[x] {
      UnlinkedTotal(inodes, d, k, i, x);
      assert inodes[x].nlink == Total(inodes, x) + pending[x];
      hide Total;
    }
  }

  lemma {:induction false} EmptyNames(es: seq<Dirent>, i: nat, d: nat, x: nat)
    requires |es| >= 2 && es[0] == Dirent(i, ".") && es[1] == Dirent(d, "..") && IsEmpty(es) && x > 0
    ensures Names(es, x) == One(x == d)
  {
    if |es| == 2 {
      assert es[..1][..0] == [] && es[..1] == [es[0]];
      assert Names([es[0]], x) == 0;
    } else {
      EmptyNames(es[..|es| - 1], i, d, x);
    }
  }

  lemma UnlinkDirAccounted(inodes: seq<Inode>, pending: seq<nat>, d: nat, k: nat, i: nat)
    requires Accounted(inodes, pending) && 0 < i < |inodes| && 0 < d < |inodes| && d != i && Live(inodes[d])
    requires k < |inodes[d].entries| && Counts(inodes[d].entries[k], i) && inodes[i].typ == Dir && inodes[i].nlink == 1
    requires 2 <= inodes[d].nlink <= SHRT_MAX
    requires var es := inodes[i].entries; |es| >= 2 && es[0] == Dirent(i, ".") && es[1] == Dirent(d, "..") && IsEmpty(es)
    ensures Accounted(Unlinked(inodes, d, k, i), pending)
  {
    var y := Unlinked(inodes, d, k, i);
    forall x: nat | 0 < x < |inodes| ensures y[x].nlink == Total(y, x) + pending[x] {
      UnlinkedTotal(inodes, d, k, i, x);
      EmptyNames(inodes[i].entries, i, d, x);
      assert inodes[x].nlink == Total(inodes, x) + pending[x];
      hide Total;
    }
  }

  lemma EntriesLess(es: seq<Dirent>, k: nat, d: nat, n: nat)
    requires EntriesOk(es, d, n) && 2 <= k < |es|
    ensures EntriesOk(es[k := NOENT], d, n)
  {
  }

  lemma UnlinkDirs(inodes: seq<Inode>, d: nat, k: nat, i: nat)
    requires DirsOk(inodes) && d < |inodes| && i < |inodes| && d != i && i != ROOT && Live(inodes[d])
    requires 2 <= k < |inodes[d].entries|
    requires Live(Unlinked(inodes, d, k, i)[d]) && !Live(Unlinked(inodes, d, k, i)[i])
    requires forall c | 0 <= c < |inodes| && c != i && Live(inodes[c]) && |inodes[c].entries| >= 2 :: inodes[c].entries[1].inum != i
    ensures DirsOk(Unlinked(inodes, d, k, i))
  {
    hide EntriesOk;
    DirFacts(inodes, d);
    EntriesLess(inodes[d].entries, k, d, |inodes|);
    var y := Unlinked(inodes, d, k, i);
    KeepDirs(inodes, d, y[d]);
    var inodes1 := inodes[d := y[d]];
    assert y == inodes1[i := y[i]];
    forall c | 0 <= c < |y| && Live(y[c]) ensures DirOk(y, c) {
      assert DirOk(inodes1, c);
      EntriesTwo(inodes1[c].entries, c, |inodes1|);
    }
  }

  lemma UnlinkPlaced(inodes: seq<Inode>, place: Place, d: nat, k: nat, i: nat)
    requires Placed(inodes, place) && d < |inodes| && i < |inodes| && d != i && i != ROOT && Live(inodes[d])
    requires 2 <= k < |inodes[d].entries|
    requires inodes[d].entries[k].inum == i && i > 0
    requires Live(Unlinked(inodes, d, k, i)[d]) && !Live(Unlinked(inodes, d, k, i)[i]) && (Live(inodes[i]) ==> IsEmpty(inodes[i].entries))
    ensures Placed(Unlinked(inodes, d, k, i), place)
  {
    var y := Unlinked(inodes, d, k, i);
    forall c: nat | IsChild(y, c) ensures IsChild(inodes, c) && c != i {
    }
    forall c: nat, d': nat, k': nat | InPlace(inodes, c, d', k') && IsChild(y, c) && c != i ensures InPlace(y, c, d', k') {
    }
    forall d': nat, k': nat, c: nat | NamesDir(y, d', k', c) ensures NamesDir(inodes, d', k', c) {
    }
    hide IsChild, InPlace, NamesDir;
  }

  lemma UnlinkRest(inodes: seq<Inode>, d: nat, k: nat, i: nat)
    requires RestOk(inodes) && d < |inodes| && i < |inodes| && d != i && Live(inodes[d]) && 2 <= k < |inodes[d].entries|
    requires Live(Unlinked(inodes, d, k, i)[d]) && inodes[i].typ != Free
    requires inodes[i].typ == Dir ==> IsEmpty(inodes[i].entries) && inodes[i].entries[0] == Dirent(i, ".")
    ensures RestOk(Unlinked(inodes, d, k, i))
  {
  }

  lemma {:induction false} UnlinkFile(inodes: seq<Inode>, pending: seq<nat>, place: Place, d: nat, k: nat)
    requires TreeOk(inodes, pending, place) && Accounted(inodes, pending) && d < |inodes| && Live(inodes[d])
    requires 2 <= k < |inodes[d].entries| && inodes[d].entries[k].inum != 0
    requires inodes[d].entries[k].inum < |inodes| && inodes[inodes[d].entries[k].inum].typ != Dir
    ensures var y := Unlinked(inodes, d, k, inodes[d].entries[k].inum); TreeOk(y, pending, place) && Accounted(y, pending)
  {
    hide EntriesOk, Total, Placed, RestOk;
    var i := inodes[d].entries[k].inum;
    NamedHasLinks(inodes, pending, d, k);
    OrdinaryName(inodes, d, k);
    UnlinkFileAccounted(inodes, pending, d, k, i);
    hide Accounted;
    forall c | 0 <= c < |inodes| && c != i && Live(inodes[c]) && |inodes[c].entries| >= 2 ensures inodes[c].entries[1].inum != i {
      DirFacts(inodes, c);
    }
    UnlinkDirs(inodes, d, k, i);
    UnlinkPlaced(inodes, place, d, k, i);
    NotFree(inodes, i);
    UnlinkRest(inodes, d, k, i);
    hide DirsOk;
  }

  lemma OrdinaryName(inodes: seq<Inode>, d: nat, k: nat)
    requires DirsOk(inodes) && d < |inodes| && Live(inodes[d]) && 2 <= k < |inodes[d].entries| && inodes[d].entries[k].inum != 0
    ensures Ordinary(inodes[d].entries[k], d, |inodes|)
  {
  }

  lemma NotFree(inodes: seq<Inode>, i: nat)
    requires RestOk(inodes) && i < |inodes| && inodes[i].nlink > 0
    ensures inodes[i].typ != Free
  {
  }

  lemma {:induction false} UnlinkDir(inodes: seq<Inode>, pending: seq<nat>, place: Place, d: nat, k: nat)
    requires TreeOk(inodes, pending, place) && Accounted(inodes, pending) && d < |inodes| && Live(inodes[d])
    requires 2 <= k < |inodes[d].entries| && inodes[d].entries[k].inum != 0
    requires inodes[d].entries[k].inum < |inodes| && inodes[inodes[d].entries[k].inum].typ == Dir
    requires IsEmpty(inodes[inodes[d].entries[k].inum].entries)
    ensures var y := Unlinked(inodes, d, k, inodes[d].entries[k].inum); TreeOk(y, pending, place) && Accounted(y, pending)
  {
    hide EntriesOk, Total, RestOk, Placed, DirsOk, IsEmpty;
    var i := inodes[d].entries[k].inum;
    NamedHasLinks(inodes, pending, d, k);
    OrdinaryName(inodes, d, k);
    RootLive(inodes);
    DirFacts(inodes, d);
    EmptyDirLinks(inodes, place, d, k, i);
    assert inodes[i].nlink == Total(inodes, i) + pending[i] && inodes[d].nlink == Total(inodes, d) + pending[d];
    DirFacts(inodes, i);
    EntriesTwo(inodes[i].entries, i, |inodes|);
    ChildOf(inodes, place, d, k, i);
    ParentLinks(inodes, place, d, i);
    UnlinkDirAccounted(inodes, pending, d, k, i);
    hide Accounted;
    forall c | 0 <= c < |inodes| && c != i && Live(inodes[c]) && |inodes[c].entries| >= 2 ensures inodes[c].entries[1].inum != i {
      EmptyElsewhere(inodes, place, d, k, i, c, 1);
      DirFacts(inodes, c);
      EntriesTwo(inodes[c].entries, c, |inodes|);
    }
    UnlinkDirs(inodes, d, k, i);
    UnlinkPlaced(inodes, place, d, k, i);
    UnlinkRest(inodes, d, k, i);
  }

  lemma ChildOf(inodes: seq<Inode>, place: Place, d: nat, k: nat, i: nat)
    requires Placed(inodes, place) && NamesDir(inodes, d, k, i) && IsChild(inodes, i)
    ensures |inodes[i].entries| >= 2 && inodes[i].entries[1].inum == d
  {
  }

  // The system calls.

  class Directories {
    var inodes: seq<Inode>

    ghost var pending: seq<nat>    // links that link has counted and not yet made
    ghost var place: Place

    ghost predicate Valid()
      reads this
    {
      |pending| == |inodes| && TreeOk(inodes, pending, place) && Accounted(inodes, pending)
    }

    /** A new file system: the root directory only. */
    constructor (n: nat)
      requires n > ROOT
      ensures Valid() && |inodes| == n && inodes[ROOT] == Inode(Dir, 1, NewDirEntries(ROOT, ROOT))
      ensures forall i | 0 <= i < n && i != ROOT :: inodes[i] == Inode(Free, 0, [])
    {
      inodes := seq(n, i => if i == ROOT then Inode(Dir, 1, NewDirEntries(ROOT, ROOT)) else Inode(Free, 0, []));
      pending := seq(n, _ => 0);
      place := map[];
      new;
      forall x: nat | 0 < x < n ensures Total(inodes, x) == One(x == ROOT) {
        RootTotal(inodes, x);
      }
      hide Total;
      assert EntriesOk(NewDirEntries(ROOT, ROOT), ROOT, n);
      hide EntriesOk;
    }

    /** The first half of link: the count goes up before the entry is made. */
    method LinkBegin(i: nat) returns (ok: bool)
      requires Valid() && 0 < i < |inodes| && inodes[i].typ != Free
      modifies this`inodes, this`pending
      ensures ok <==> old(inodes)[i].typ != Dir
      ensures !ok ==> unchanged(this)
      ensures ok ==> inodes == old(inodes)[i := old(inodes)[i].(nlink := Short(old(inodes)[i].nlink + 1))] && pending == old(pending)[i := old(pending)[i] + 1]
      ensures ok ==> if old(inodes)[i].nlink < SHRT_MAX then Valid() else !Accounted(inodes, pending)
    {
      hide DirsOk, RestOk, Placed, Total;
      if inodes[i].typ == Dir {
        return false;
      }
      BumpLink(inodes, pending, place, i);
      inodes := inodes[i := inodes[i].(nlink := Short(inodes[i].nlink + 1))];
      pending := pending[i := pending[i] + 1];
      return true;
    }

    /** The second half of link.  Without a directory, or if it cannot take the
        entry, the count goes down again. */
    method LinkEnd(i: nat, d: Option<nat>, name: string, room: bool) returns (ok: bool)
      requires Valid() && 0 < i < |inodes| && pending[i] > 0
      requires d.Some? ==> d.value < |inodes| && inodes[d.value].typ == Dir
      modifies this`inodes, this`pending
      ensures ok <==> d.Some? && !Present(old(inodes)[d.value].entries, name) && (room || HasSlot(old(inodes)[d.value].entries))
      ensures ok ==> if old(Live(inodes[d.value])) then Valid() else !Accounted(inodes, pending)
      ensures ok ==> exists es, k :: Added(old(inodes)[d.value].entries, es, k, Dirent(i, name)) && inodes == Linked(old(inodes), d.value, es)
      ensures !ok ==> Valid() && inodes == old(inodes)[i := old(inodes)[i].(nlink := old(inodes)[i].nlink - 1)]
      ensures pending == old(pending)[i := old(pending)[i] - 1]
    {
      hide TreeOk, Accounted, Added, Total;
      DropLink(inodes, pending, place, i);
      if d.Some? {
        var es, k := Dirlink(inodes[d.value].entries, name, i, room);
        if es.Some? {
          LinkDone(inodes, pending, place, i, d.value, es.value, k, name);
          inodes := inodes[d.value := inodes[d.value].(entries := es.value)];
          pending := pending[i := pending[i] - 1];
          assert inodes == Linked(old(inodes), d.value, es.value);
          return true;
        }
      }
      inodes := inodes[i := inodes[i].(nlink := Short(inodes[i].nlink - 1))];
      pending := pending[i := pending[i] - 1];
      return false;
    }

    /** ialloc: the first free inode, or 0. */
    method Ialloc() returns (i: nat)
      ensures i != 0 ==> i < |inodes| && inodes[i].typ == Free && forall j | 0 < j < i :: inodes[j].typ != Free
      ensures i == 0 ==> forall j | 0 < j < |inodes| :: inodes[j].typ != Free
    {
      i := 1;
      while i < |inodes|
        invariant i > 0 && forall j | 0 < j < i && j < |inodes| :: inodes[j].typ != Free
      {
        if inodes[i].typ == Free {
          return;
        }
        i := i + 1;
      }
      return 0;
    }

    /** create in directory d.  room says which of the directory writes have
        room: in the parent, and two in the new directory.  Nothing changes
        unless an inode is made. */
    method Create(d: nat, name: string, typ: Type, room: bool, room1: bool, room2: bool)
      returns (r: Option<nat>, ghost made: bool)
      requires Valid() && d < |inodes| && inodes[d].typ == Dir && typ != Free
      modifies this`inodes, this`place
      ensures made ==> r.Some? && Created(old(inodes), inodes, d, name, typ, r.value)
      ensures made ==> if old(Live(inodes[d])) && (typ == Dir ==> old(inodes)[d].nlink < SHRT_MAX) then Valid() else !Accounted(inodes, pending)
      ensures !made ==> unchanged(this)
      ensures made <==> && !Present(old(inodes)[d].entries, name) && HasFree(old(inodes))
                        && (room || HasSlot(old(inodes)[d].entries)) && (typ == Dir ==> room1 && room2)
      ensures made ==> forall j | 0 < j < r.value :: old(inodes)[j].typ != Free
      ensures !made && !Present(inodes[d].entries, name) ==> r.None?
      ensures forall k: nat | FirstNamed(old(inodes), d, k, name) ::
                var i := old(inodes)[d].entries[k].inum;
                r == if typ == File && (old(inodes)[i].typ == File || old(inodes)[i].typ == Device) then Some(i) else None
    {
      hide TreeOk, Accounted, Added, Total;
      var there := Dirlookup(inodes[d].entries, name);
      if there.Some? {
        var e := inodes[d].entries[there.value];
        EntryInRange(inodes, pending, place, d, there.value);
        if typ == File && (inodes[e.inum].typ == File || inodes[e.inum].typ == Device) {
          return Some(e.inum), false;
        }
        return None, false;
      }
      var i := Ialloc();
      if i == 0 {
        return None, false;
      }
      FreeEmpty(inodes, pending, place, i);
      if typ == Dir {
        r := MakeDir(d, name, i, room, room1, room2);
      } else {
        r := MakeFile(d, name, i, typ, room);
      }
      made := r.Some?;
    }

    /** create, from the new inode on, for a file or a device. */
    method MakeFile(d: nat, name: string, i: nat, typ: Type, room: bool) returns (r: Option<nat>)
      requires Valid() && d < |inodes| && inodes[d].typ == Dir && 0 < i < |inodes| && inodes[i] == Inode(Free, 0, []) && (typ == File || typ == Device)
      requires forall j | 0 <= j < |inodes[d].entries| :: inodes[d].entries[j].inum == 0 || inodes[d].entries[j].name != name
      modifies this`inodes
      ensures r.None? <==> !room && !HasSlot(old(inodes)[d].entries)
      ensures r.None? ==> inodes == old(inodes)
      ensures r.Some? ==> r.value == i && Created(old(inodes), inodes, d, name, typ, i)
      ensures r.Some? ==> if old(Live(inodes[d])) then Valid() else !Accounted(inodes, pending)
    {
      hide TreeOk, Accounted, Added, Total, Created;
      NewFileAccounted(inodes, pending, i, typ);
      NewFileTree(inodes, pending, place, i, typ);
      inodes := inodes[i := Inode(typ, 1, [])];
      var es, k := Dirlink(inodes[d].entries, name, i, room);
      if es.None? {
        inodes := inodes[i := Inode(Free, 0, [])];
        assert inodes == old(inodes);
        return None;
      }
      LinkDone(inodes, pending[i := 1], place, i, d, es.value, k, name);
      assert pending[i := 1][i := 0] == pending;
      inodes := inodes[d := inodes[d].(entries := es.value)];
      CreatedBy(old(inodes), d, name, typ, i, es.value, k);
      assert inodes == Linked(NewFile(old(inodes), i, typ), d, es.value);
      return Some(i);
    }

    /** The same for a directory. */
    method MakeDir(d: nat, name: string, i: nat, room: bool, room1: bool, room2: bool) returns (r: Option<nat>)
      requires Valid() && d < |inodes| && inodes[d].typ == Dir && 0 < i < |inodes| && inodes[i] == Inode(Free, 0, [])
      requires forall j | 0 <= j < |inodes[d].entries| :: inodes[d].entries[j].inum == 0 || inodes[d].entries[j].name != name
      modifies this`inodes, this`place
      ensures r.None? <==> !room1 || !room2 || (!room && !HasSlot(old(inodes)[d].entries))
      ensures r.None? ==> inodes == old(inodes) && place == old(place)
      ensures r.Some? ==> r.value == i && Created(old(inodes), inodes, d, name, Dir, i)
      ensures r.Some? ==> if old(Live(inodes[d])) && old(inodes)[d].nlink < SHRT_MAX then Valid() else !Accounted(inodes, pending)
    {
      hide TreeOk, Accounted, Total, Created;
      inodes := inodes[i := Inode(Dir, 1, [])];
      var es1, k1 := Dirlink(inodes[i].entries, ".", i, room1);
      if es1.Some? {
        inodes := inodes[i := inodes[i].(entries := es1.value)];
        var es2, k2 := Dirlink(inodes[i].entries, "..", d, room2);
        if es2.Some? {
          inodes := inodes[i := inodes[i].(entries := es2.value)];
          var es, k := Dirlink(inodes[d].entries, name, i, room);
          if es.Some? {
            assert es2.value == NewDirEntries(i, d);
            MakeDirDone(old(inodes), pending, place, i, d, es.value, k, name);
            inodes := inodes[d := inodes[d].(entries := es.value, nlink := Short(inodes[d].nlink + 1))];
            assert inodes == NewDir(old(inodes), i, d, es.value);
            place := place[i := (d, k)];
            CreatedBy(old(inodes), d, name, Dir, i, es.value, k);
            return Some(i);
          }
        }
      }
      inodes := inodes[i := Inode(Free, 0, [])];
      assert inodes == old(inodes);
      return None;
    }

    /** The start of unlink, in any state: the first entry with the name, and
        the panic "unlink: nlink < 1". */
    method UnlinkFind(d: nat, name: string) returns (off: Option<nat>, panic: bool)
      requires d < |inodes| && forall k | 0 <= k < |inodes[d].entries| :: inodes[d].entries[k].inum < |inodes|
      ensures off.None? <==> name == "." || name == ".." || !Present(inodes[d].entries, name)
      ensures off.Some? ==> off.value < |inodes[d].entries| && WasNamed(inodes, d, off.value, name)
      ensures off.Some? ==> forall k | 0 <= k < off.value :: inodes[d].entries[k].inum == 0 || inodes[d].entries[k].name != name
      ensures panic <==> off.Some? && inodes[inodes[d].entries[off.value].inum].nlink < 1
    {
      if name == "." || name == ".." {
        return None, false;
      }
      off := Dirlookup(inodes[d].entries, name);
      panic := off.Some? && inodes[inodes[d].entries[off.value].inum].nlink < 1;
    }

    /** unlink.  Its panic needs an entry for an inode without links. */
    method Unlink(d: nat, name: string) returns (ok: bool)
      requires Valid() && d < |inodes| && inodes[d].typ == Dir
      modifies this`inodes
      ensures Valid() && |inodes| == |old(inodes)|
      ensures !ok ==> inodes == old(inodes)
      ensures ok ==> exists k: nat | 2 <= k < |old(inodes)[d].entries| ::
                && FirstNamed(old(inodes), d, k, name) && !FullDir(old(inodes), old(inodes)[d].entries[k].inum)
                && inodes == Unlinked(old(inodes), d, k, old(inodes)[d].entries[k].inum)
      ensures !ok ==> || name == "." || name == ".."
                      || forall k: nat | FirstNamed(inodes, d, k, name) :: FullDir(inodes, inodes[d].entries[k].inum)
      ensures name == "." || name == ".." ==> !ok
    {
      hide TreeOk, Accounted, Total, Unlinked;
      forall k | 0 <= k < |inodes[d].entries| ensures inodes[d].entries[k].inum < |inodes| {
        if inodes[d].entries[k].inum != 0 {
          EntryInRange(inodes, pending, place, d, k);
        }
      }
      var off, panic := UnlinkFind(d, name);
      if off.None? {
        return false;
      }
      var k := off.value;
      var i := inodes[d].entries[k].inum;
      FoundEntry(inodes, pending, place, d, k);
      if panic {
        assert false;   // panic("unlink: nlink < 1")
      }
      if inodes[i].typ == Dir {
        var empty := IsDirEmpty(inodes[i].entries);
        if !empty {
          assert FullDir(inodes, i);
          return false;
        }
        UnlinkDir(inodes, pending, place, d, k);
      } else {
        UnlinkFile(inodes, pending, place, d, k);
      }
      UnlinkSteps(inodes, d, k, i);
      var dir := inodes[i].typ == Dir;
      inodes := inodes[d := inodes[d].(entries := inodes[d].entries[k := NOENT])];
      if dir {
        inodes := inodes[d := inodes[d].(nlink := Short(inodes[d].nlink - 1))];
      }
      inodes := inodes[i := inodes[i].(nlink := Short(inodes[i].nlink - 1))];
      assert FirstNamed(old(inodes), d, k, name);
      return true;
    }

    /** The branch of iput that frees an inode without links. */
    method FreeInode(i: nat)
      requires Valid() && 0 < i < |inodes| && inodes[i].nlink == 0
      modifies this`inodes
      ensures Valid() && inodes == old(inodes)[i := Inode(Free, 0, [])]
    {
      hide TreeOk, Accounted, Total;
      FreeDone(inodes, pending, place, i);
      inodes := inodes[i := Inode(Free, 0, [])];
    }
  }

  lemma {:induction false} RootTotal(inodes: seq<Inode>, x: nat)
    requires |inodes| > ROOT && x > 0
    requires forall i | 0 <= i < |inodes| :: inodes[i] == if i == ROOT then Inode(Dir, 1, NewDirEntries(ROOT, ROOT)) else Inode(Free, 0, [])
    ensures Total(inodes, x) == One(x == ROOT)
  {
    EmptyNames(NewDirEntries(ROOT, ROOT), ROOT, ROOT, x);
    TotalOne(inodes, ROOT, x);
  }

  /** A link to come can be counted exactly if the count has room for it. */
  lemma {:induction false} BumpLink(inodes: seq<Inode>, pending: seq<nat>, place: Place, i: nat)
    requires TreeOk(inodes, pending, place) && Accounted(inodes, pending) && 0 < i < |inodes|
    requires inodes[i].typ == File || inodes[i].typ == Device
    ensures var y, q := inodes[i := inodes[i].(nlink := Short(inodes[i].nlink + 1))], pending[i := pending[i] + 1];
            if inodes[i].nlink < SHRT_MAX then TreeOk(y, q, place) && Accounted(y, q) else !Accounted(y, q)
  {
    var y, q := inodes[i := inodes[i].(nlink := Short(inodes[i].nlink + 1))], pending[i := pending[i] + 1];
    forall x: nat ensures Total(y, x) == Total(inodes, x) {
      TotalUpdate(inodes, i, y[i], x);
    }
    hide Total;
    assert inodes[i].nlink == Total(inodes, i) + pending[i];
    if inodes[i].nlink < SHRT_MAX {
      SameDirs(inodes, place, i, y[i]);
    } else {
      assert y[i].nlink != Total(y, i) + q[i];
    }
  }

  /** A change to a file is no change to the directories. */
  lemma SameDirs(inodes: seq<Inode>, place: Place, i: nat, x: Inode)
    requires DirsOk(inodes) && Placed(inodes, place) && RestOk(inodes) && i < |inodes|
    requires inodes[i].typ != Dir && x.typ != Dir && x.entries == [] && (x.typ == Free ==> x.nlink == 0) && (i == 0 ==> x.typ == Free)
    ensures DirsOk(inodes[i := x]) && Placed(inodes[i := x], place) && RestOk(inodes[i := x])
  {
    hide DirsOk, Placed, RestOk;
    NotLiveDirs(inodes, i, x);
    RootLive(inodes);
    SamePlaced(inodes, place, i, x);
    SameRest(inodes, i, x);
  }

  lemma SamePlaced(inodes: seq<Inode>, place: Place, i: nat, x: Inode)
    requires Placed(inodes, place) && i < |inodes| && inodes[i].typ != Dir && x.typ != Dir && Live(inodes[ROOT])
    ensures Placed(inodes[i := x], place)
  {
    var y := inodes[i := x];
    forall c: nat | IsChild(y, c) ensures IsChild(inodes, c) {
    }
    forall c: nat, d': nat, k': nat | InPlace(inodes, c, d', k') && IsChild(y, c) ensures InPlace(y, c, d', k') {
    }
    forall d': nat, k': nat, c: nat | NamesDir(y, d', k', c) ensures NamesDir(inodes, d', k', c) {
    }
    hide IsChild, InPlace, NamesDir;
  }

  lemma SameRest(inodes: seq<Inode>, i: nat, x: Inode)
    requires RestOk(inodes) && i < |inodes| && x.typ != Dir && x.entries == [] && (x.typ == Free ==> x.nlink == 0) && (i == 0 ==> x.typ == Free)
    ensures RestOk(inodes[i := x])
  {
  }

  lemma {:induction false} DropLink(inodes: seq<Inode>, pending: seq<nat>, place: Place, i: nat)
    requires TreeOk(inodes, pending, place) && Accounted(inodes, pending) && 0 < i < |inodes| && |pending| == |inodes|
    requires pending[i] > 0
    ensures var y, q := inodes[i := inodes[i].(nlink := Short(inodes[i].nlink - 1))], pending[i := pending[i] - 1];
            TreeOk(y, q, place) && Accounted(y, q) && y[i].nlink == inodes[i].nlink - 1
  {
    var y, q := inodes[i := inodes[i].(nlink := Short(inodes[i].nlink - 1))], pending[i := pending[i] - 1];
    forall x: nat ensures Total(y, x) == Total(inodes, x) {
      TotalUpdate(inodes, i, y[i], x);
    }
    hide Total;
    assert inodes[i].nlink == Total(inodes, i) + pending[i];
    SameDirs(inodes, place, i, y[i]);
  }

  lemma {:induction false} LinkDone(inodes: seq<Inode>, pending: seq<nat>, place: Place, i: nat, d: nat,
                                    es: seq<Dirent>, k: nat, name: string)
    requires TreeOk(inodes, pending, place) && Accounted(inodes, pending) && 0 < i < |inodes| && |pending| == |inodes|
    requires pending[i] > 0
    requires d < |inodes| && inodes[d].typ == Dir && Added(inodes[d].entries, es, k, Dirent(i, name))
    requires forall j | 0 <= j < |inodes[d].entries| :: inodes[d].entries[j].inum == 0 || inodes[d].entries[j].name != name
    ensures var y, q := Linked(inodes, d, es), pending[i := pending[i] - 1];
            if Live(inodes[d]) then TreeOk(y, q, place) && Accounted(y, q) else !Accounted(y, q)
  {
    hide DirsOk, Placed, Added, Total;
    RootLive(inodes);
    NewName(inodes, d, name);
    hide RestOk;
    LinkedAccounted(inodes, pending, d, es, k, name, i);
    hide Accounted;
    if Live(inodes[d]) {
      LinkedTree(inodes, pending, place, d, es, k, Dirent(i, name));
    }
  }

  /** A name that is not there is neither "." nor "..". */
  lemma NewName(inodes: seq<Inode>, d: nat, name: string)
    requires RestOk(inodes) && d < |inodes| && inodes[d].typ == Dir
    requires forall j | 0 <= j < |inodes[d].entries| :: inodes[d].entries[j].inum == 0 || inodes[d].entries[j].name != name
    ensures name != "." && name != ".." && d > 0 && ParentEntry(inodes[d].entries, |inodes|)
  {
  }

  lemma EntryInRange(inodes: seq<Inode>, pending: seq<nat>, place: Place, d: nat, k: nat)
    requires TreeOk(inodes, pending, place) && d < |inodes| && inodes[d].typ == Dir && k < |inodes[d].entries|
    requires inodes[d].entries[k].inum != 0
    ensures inodes[d].entries[k].inum < |inodes|
  {
  }

  lemma FreeEmpty(inodes: seq<Inode>, pending: seq<nat>, place: Place, i: nat)
    requires TreeOk(inodes, pending, place) && i < |inodes| && inodes[i].typ == Free
    ensures inodes[i] == Inode(Free, 0, [])
  {
  }

  lemma {:induction false} MakeDirDone(inodes: seq<Inode>, pending: seq<nat>, place: Place, i: nat, d: nat,
                                       es: seq<Dirent>, k: nat, name: string)
    requires TreeOk(inodes, pending, place) && Accounted(inodes, pending) && 0 < i < |inodes| && d < |inodes|
    requires inodes[i] == Inode(Free, 0, []) && inodes[d].typ == Dir && Added(inodes[d].entries, es, k, Dirent(i, name))
    requires forall j | 0 <= j < |inodes[d].entries| :: inodes[d].entries[j].inum == 0 || inodes[d].entries[j].name != name
    ensures var y := NewDir(inodes, i, d, es);
            if Live(inodes[d]) && inodes[d].nlink < SHRT_MAX then TreeOk(y, pending, place[i := (d, k)]) && Accounted(y, pending)
            else !Accounted(y, pending)
  {
    hide DirsOk, Placed, Added, Total, NewDir;
    NewName(inodes, d, name);
    hide RestOk;
    NewDirAccounted(inodes, pending, i, d, es, k, name);
    if Live(inodes[d]) && inodes[d].nlink < SHRT_MAX {
      NewDirTree(inodes, pending, place, i, d, es, k, name);
    }
  }

  method IsDirEmpty(es: seq<Dirent>) returns (empty: bool)
    ensures empty <==> IsEmpty(es)
  {
    var off := 2;
    while off < |es|
      invariant 2 <= off && forall k | 2 <= k < off && k < |es| :: es[k].inum == 0
    {
      if es[off].inum != 0 {
        return false;
      }
      off := off + 1;
    }
    return true;
  }

  /** The entry that dirlookup finds. */
  ghost predicate FirstNamed(inodes: seq<Inode>, d: nat, k: nat, name: string) {
    WasNamed(inodes, d, k, name) && forall j | 0 <= j < k :: inodes[d].entries[j].inum == 0 || inodes[d].entries[j].name != name
  }

  predicate WasNamed(inodes: seq<Inode>, d: nat, k: nat, name: string) {
    && d < |inodes| && k < |inodes[d].entries| && inodes[d].entries[k].name == name
    && 0 < inodes[d].entries[k].inum < |inodes|
  }

  predicate FullDir(inodes: seq<Inode>, i: nat) {
    i < |inodes| && inodes[i].typ == Dir && !IsEmpty(inodes[i].entries)
  }

  /** An entry with an ordinary name is in a directory with links, and names an
      inode with links. */
  lemma {:induction false} FoundEntry(inodes: seq<Inode>, pending: seq<nat>, place: Place, d: nat, k: nat)
    requires TreeOk(inodes, pending, place) && Accounted(inodes, pending) && d < |inodes| && inodes[d].typ == Dir
    requires k < |inodes[d].entries| && inodes[d].entries[k].inum != 0 && inodes[d].entries[k].name != "."
    requires inodes[d].entries[k].name != ".."
    ensures Live(inodes[d]) && k >= 2
    ensures inodes[d].entries[k].inum < |inodes| && inodes[d].entries[k].inum != d && inodes[inodes[d].entries[k].inum].nlink >= 1
  {
    hide Total;
    assert Live(inodes[d]);
    DirFacts(inodes, d);
    NamedHasLinks(inodes, pending, d, k);
  }

  lemma UnlinkSteps(inodes: seq<Inode>, d: nat, k: nat, i: nat)
    requires d < |inodes| && i < |inodes| && d != i && k < |inodes[d].entries|
    ensures var inodes1 := inodes[d := inodes[d].(entries := inodes[d].entries[k := NOENT])];
            var inodes2 := if inodes[i].typ == Dir then inodes1[d := inodes1[d].(nlink := Short(inodes1[d].nlink - 1))] else inodes1;
            Unlinked(inodes, d, k, i) == inodes2[i := inodes2[i].(nlink := Short(inodes2[i].nlink - 1))]
  {
  }

  lemma {:induction false} FreeDone(inodes: seq<Inode>, pending: seq<nat>, place: Place, i: nat)
    requires TreeOk(inodes, pending, place) && Accounted(inodes, pending) && 0 < i < |inodes| && inodes[i].nlink == 0
    ensures TreeOk(inodes[i := Inode(Free, 0, [])], pending, place) && Accounted(inodes[i := Inode(Free, 0, [])], pending)
  {
    var y := inodes[i := Inode(Free, 0, [])];
    forall x: nat ensures Total(y, x) == Total(inodes, x) {
      TotalUpdate(inodes, i, y[i], x);
    }
    assert inodes[i].nlink == Total(inodes, i) + pending[i];
    FreePlaced(inodes, place, i);
    hide Total;
    NotLiveDirs(inodes, i, y[i]);
    hide DirsOk, Placed;
  }

  lemma {:induction false} FreePlaced(inodes: seq<Inode>, place: Place, i: nat)
    requires DirsOk(inodes) && Placed(inodes, place) && 0 < i < |inodes| && inodes[i].nlink == 0 && Total(inodes, i) == 0
    ensures Placed(inodes[i := Inode(Free, 0, [])], place)
  {
    hide DirsOk, Total;
    RootLive(inodes);
    var y := inodes[i := Inode(Free, 0, [])];
    forall c: nat | IsChild(y, c) ensures IsChild(inodes, c) {
    }
    forall c: nat, d': nat, k': nat | InPlace(inodes, c, d', k') && IsChild(y, c) ensures InPlace(y, c, d', k') {
    }
    forall d': nat, k': nat, c: nat | NamesDir(y, d', k', c) ensures NamesDir(inodes, d', k', c) {
    }
    hide IsChild, InPlace, NamesDir;
  }

  ghost predicate HasFree(inodes: seq<Inode>) {
    exists i | 0 < i < |inodes| :: inodes[i].typ == Free
  }

  /** inode i is made and named in d. */
  ghost predicate Created(inodes: seq<Inode>, inodes': seq<Inode>, d: nat, name: string, typ: Type, i: nat) {
    && 0 < i < |inodes| && inodes[i].typ == Free && d < |inodes|
    && exists es, k :: Added(inodes[d].entries, es, k, Dirent(i, name)) && inodes' == Making(inodes, d, typ, i, es)
  }

  function Making(inodes: seq<Inode>, d: nat, typ: Type, i: nat, es: seq<Dirent>): seq<Inode> {
    if typ == Dir then NewDir(inodes, i, d, es) else Linked(NewFile(inodes, i, typ), d, es)
  }

  lemma CreatedBy(inodes: seq<Inode>, d: nat, name: string, typ: Type, i: nat, es: seq<Dirent>, k: nat)
    requires 0 < i < |inodes| && inodes[i].typ == Free && d < |inodes| && Added(inodes[d].entries, es, k, Dirent(i, name))
    ensures Created(inodes, Making(inodes, d, typ, i, es), d, name, typ, i)
  {
  }

  /** A run after which the counts are wrong: a directory is made and removed
      while a process still uses it, and then a file is made in it. */
  method RemovedDirectory() returns (fs: Directories)
    ensures !Accounted(fs.inodes, fs.pending)
  {
    hide TreeOk, Accounted, Total, Created, Unlinked;
    fs := new Directories(4);
    ghost var made;
    var a, f;
    ghost var inodes0 := fs.inodes;
    assert inodes0[2].typ == Free;
    a, made := fs.Create(ROOT, "a", Dir, true, true, true);
    ghost var inodes1 := fs.inodes;
    AfterMkdir(inodes0, inodes1, a.value);
    assert inodes1[ROOT].entries[2].name == "a";
    var ok := fs.Unlink(ROOT, "a");
    AfterUnlink(inodes1, fs.inodes, a.value);
    f, made := fs.Create(a.value, "f", File, true, true, true);
  }

  /** Directory a in the root, and otherwise free inodes. */
  ghost predicate JustA(inodes: seq<Inode>, a: nat) {
    && |inodes| == 4 && 1 < a < 4 && inodes[ROOT] == Inode(Dir, 2, [Dirent(ROOT, "."), Dirent(ROOT, ".."), Dirent(a, "a")])
    && inodes[a] == Inode(Dir, 1, NewDirEntries(a, ROOT)) && forall i | 0 <= i < 4 && i != ROOT && i != a :: inodes[i].typ == Free
  }

  lemma AfterMkdir(inodes: seq<Inode>, inodes': seq<Inode>, a: nat)
    requires Created(inodes, inodes', ROOT, "a", Dir, a) && |inodes| == 4
    requires inodes[ROOT] == Inode(Dir, 1, NewDirEntries(ROOT, ROOT))
    requires forall i | 0 <= i < 4 && i != ROOT :: inodes[i] == Inode(Free, 0, [])
    ensures JustA(inodes', a)
  {
  }

  lemma AfterUnlink(inodes: seq<Inode>, inodes': seq<Inode>, a: nat)
    requires JustA(inodes, a)
    requires exists k: nat | 2 <= k < |inodes[ROOT].entries| ::
               && FirstNamed(inodes, ROOT, k, "a") && !FullDir(inodes, inodes[ROOT].entries[k].inum)
               && inodes' == Unlinked(inodes, ROOT, k, inodes[ROOT].entries[k].inum)
    ensures |inodes'| == 4 && inodes'[a] == Inode(Dir, 0, NewDirEntries(a, ROOT))
    ensures exists i | 0 < i < 4 :: inodes'[i].typ == Free
  {
    var k: nat :| 2 <= k < |inodes[ROOT].entries| && FirstNamed(inodes, ROOT, k, "a")
                  && inodes' == Unlinked(inodes, ROOT, k, inodes[ROOT].entries[k].inum);
    assert k == 2;
    assert inodes'[5 - a].typ == Free;
  }

  // The count is a short.

  const MAXENTRIES := 17152   // MAXFILE blocks of entries
  const HALF := 16384

  function Letter(k: nat): char
    requires k < 32
  {
    ('a' as int + k) as char
  }

  /** The k-th of 32768 names of three letters. */
  function Name(k: nat): string
    requires k <= SHRT_MAX
  {
    [Letter(k / 1024), Letter(k / 32 % 32), Letter(k % 32)]
  }

  function Number(name: string): int
    requires |name| == 3
  {
    (name[0] as int - 'a' as int) * 1024 + (name[1] as int - 'a' as int) * 32 + name[2] as int - 'a' as int
  }

  lemma NumberOfName(k: nat)
    requires k <= SHRT_MAX
    ensures Number(Name(k)) == k
  {
    assert k / 32 == k / 1024 * 32 + k / 32 % 32;
  }

  ghost predicate Unused(es: seq<Dirent>, n: nat) {
    forall j: nat | n <= j <= SHRT_MAX :: !Present(es, Name(j))
  }

  lemma NothingElse(es: seq<Dirent>, es': seq<Dirent>, k: nat, e: Dirent, name: string)
    requires Added(es, es', k, e) && name != e.name && !Present(es, name)
    ensures !Present(es', name)
  {
    forall i | 0 <= i < |es'| && es'[i].inum != 0 ensures es'[i].name != name {
      if i != k {
        assert es'[i] == es[i];
      }
    }
  }

  lemma StillUnused(es: seq<Dirent>, es': seq<Dirent>, k: nat, n: nat, inum: nat)
    requires Unused(es, n) && n <= SHRT_MAX && Added(es, es', k, Dirent(inum, Name(n)))
    ensures Unused(es', n + 1)
  {
    forall j: nat | n + 1 <= j <= SHRT_MAX ensures !Present(es', Name(j)) {
      NumberOfName(n);
      NumberOfName(j);
      NothingElse(es, es', k, Dirent(inum, Name(n)), Name(j));
    }
  }

  /** File f has the first n names, in the root and then in directory d. */
  ghost predicate Many(inodes: seq<Inode>, d: nat, f: nat, n: nat) {
    && 1 < d < |inodes| && 1 < f < |inodes| && d != f && Live(inodes[ROOT]) && Live(inodes[d])
    && inodes[f].typ == File && inodes[f].nlink == n
    && |inodes[ROOT].entries| <= 3 + (if n < HALF then n else HALF)
    && |inodes[d].entries| <= 2 + (if n < HALF then 0 else n - HALF)
    && Unused(inodes[ROOT].entries, n) && Unused(inodes[d].entries, n)
    && Dirent(f, Name(0)) in inodes[ROOT].entries
    && forall i | 0 <= i < |inodes| && i != ROOT && i != d :: inodes[i].entries == []
  }

  lemma ManyMore(inodes: seq<Inode>, d: nat, f: nat, n: nat, c: nat, es: seq<Dirent>, k: nat)
    requires Many(inodes, d, f, n) && n < SHRT_MAX && c == (if n < HALF then ROOT else d)
    requires Added(inodes[c].entries, es, k, Dirent(f, Name(n)))
    ensures Many(Linked(inodes[f := inodes[f].(nlink := n + 1)], c, es), d, f, n + 1)
  {
    StillUnused(inodes[c].entries, es, k, n, f);
    assert Dirent(f, Name(0)) in es || c != ROOT by {
      if c == ROOT {
        var i :| 0 <= i < |inodes[ROOT].entries| && inodes[ROOT].entries[i] == Dirent(f, Name(0));
        assert es[i] == Dirent(f, Name(0));
      }
    }
  }

  /** One link more, by the two halves of link. */
  method AnotherLink(fs: Directories, d: nat, f: nat, n: nat)
    requires fs.Valid() && Many(fs.inodes, d, f, n) && n < SHRT_MAX
    modifies fs
    ensures fs.Valid() && Many(fs.inodes, d, f, n + 1) && |fs.inodes| == |old(fs.inodes)|
  {
    hide TreeOk, Accounted, Added, Unused, Present;
    var c := if n < HALF then ROOT else d;
    UnusedName(fs.inodes[c].entries, n);
    var ok := fs.LinkBegin(f);
    ok := fs.LinkEnd(f, Some(c), Name(n), true);
    ghost var es, k :| Added(old(fs.inodes)[c].entries, es, k, Dirent(f, Name(n)))
                       && fs.inodes == Linked(old(fs.inodes)[f := old(fs.inodes)[f].(nlink := n + 1)], c, es);
    ManyMore(old(fs.inodes), d, f, n, c, es, k);
  }

  lemma UnusedName(es: seq<Dirent>, n: nat)
    requires Unused(es, n) && n <= SHRT_MAX
    ensures !Present(es, Name(n))
  {
  }

  /** A directory in the root and a file in it, with one name. */
  method OneLink() returns (fs: Directories, d: nat, f: nat)
    ensures fresh(fs) && fs.Valid() && Many(fs.inodes, d, f, 1)
  {
    hide TreeOk, Accounted, Total, Created, Unused;
    fs := new Directories(4);
    ghost var made;
    ghost var inodes0 := fs.inodes;
    assert inodes0[2].typ == Free;
    var r;
    r, made := fs.Create(ROOT, "d", Dir, true, true, true);
    d := r.value;
    ghost var inodes1 := fs.inodes;
    AfterFirst(inodes0, inodes1, d);
    r, made := fs.Create(ROOT, Name(0), File, true, true, true);
    f := r.value;
    AfterSecond(inodes1, fs.inodes, d, f);
  }

  lemma AfterFirst(inodes: seq<Inode>, inodes': seq<Inode>, d: nat)
    requires Created(inodes, inodes', ROOT, "d", Dir, d) && |inodes| == 4
    requires inodes[ROOT] == Inode(Dir, 1, NewDirEntries(ROOT, ROOT))
    requires forall i | 0 <= i < 4 && i != ROOT :: inodes[i] == Inode(Free, 0, [])
    ensures |inodes'| == 4 && 1 < d < 4 && inodes'[ROOT] == Inode(Dir, 2, NewDirEntries(ROOT, ROOT) + [Dirent(d, "d")])
    ensures inodes'[d] == Inode(Dir, 1, NewDirEntries(d, ROOT)) && HasFree(inodes')
    ensures forall i | 0 <= i < 4 && i != ROOT && i != d :: inodes'[i].entries == []
    ensures Unused(inodes'[ROOT].entries, 0) && Unused(inodes'[d].entries, 0)
  {
    assert inodes'[5 - d].typ == Free;
  }

  lemma AfterSecond(inodes: seq<Inode>, inodes': seq<Inode>, d: nat, f: nat)
    requires Created(inodes, inodes', ROOT, Name(0), File, f) && |inodes| == 4 && 1 < d < 4
    requires inodes[ROOT] == Inode(Dir, 2, NewDirEntries(ROOT, ROOT) + [Dirent(d, "d")])
    requires inodes[d] == Inode(Dir, 1, NewDirEntries(d, ROOT))
    requires forall i | 0 <= i < 4 && i != ROOT && i != d :: inodes[i].entries == []
    requires Unused(inodes[ROOT].entries, 0) && Unused(inodes[d].entries, 0)
    ensures Many(inodes', d, f, 1)
  {
    var es, k :| Added(inodes[ROOT].entries, es, k, Dirent(f, Name(0))) && inodes' == Making(inodes, ROOT, File, f, es);
    StillUnused(inodes[ROOT].entries, es, k, 0, f);
    hide Unused;
    assert es[3] == Dirent(f, Name(0));
  }

  /** A run after which the counts are wrong although every directory involved
      has links: a file gets SHRT_MAX names, which fit in two directories, and
      one more makes the count negative.  Unlinking it is then a panic. */
  method TooManyLinks() returns (fs: Directories, panic: bool)
    ensures !Accounted(fs.inodes, fs.pending) && panic
    ensures forall i | 0 <= i < |fs.inodes| :: |fs.inodes[i].entries| <= MAXENTRIES
  {
    hide TreeOk, Accounted, Unused;
    var d, f;
    fs, d, f := OneLink();
    for n := 1 to SHRT_MAX
      invariant fs.Valid() && Many(fs.inodes, d, f, n)
    {
      AnotherLink(fs, d, f, n);
    }
    RootEntries(fs.inodes, fs.pending, fs.place, f);
    ghost var inodes := fs.inodes;
    var ok := fs.LinkBegin(f);
    assert fs.inodes[ROOT] == inodes[ROOT];
    var off;
    off, panic := fs.UnlinkFind(ROOT, Name(0));
  }

  /** All entries of the root are in range, and the one for the name is f. */
  lemma RootEntries(inodes: seq<Inode>, pending: seq<nat>, place: Place, f: nat)
    requires TreeOk(inodes, pending, place) && Dirent(f, Name(0)) in inodes[ROOT].entries && f != 0
    ensures forall k | 0 <= k < |inodes[ROOT].entries| :: inodes[ROOT].entries[k].inum < |inodes|
    ensures Present(inodes[ROOT].entries, Name(0))
    ensures forall k: nat | WasNamed(inodes, ROOT, k, Name(0)) :: inodes[ROOT].entries[k].inum == f
  {
    forall k | 0 <= k < |inodes[ROOT].entries| && inodes[ROOT].entries[k].inum != 0
      ensures inodes[ROOT].entries[k].inum < |inodes|
    {
      EntryInRange(inodes, pending, place, ROOT, k);
    }
    DirFacts(inodes, ROOT);
    hide Placed, RestOk;
  }
}

/** What re-reading a directory from a remote listing means (vfs/dir.go). */
module DirListing {
  import opened Wrappers
  import opened DirModel

  /** One entry of a remote listing; an entry of unknown type is an error. */
  datatype Entry = ObjectEntry(leaf: string, obj: nat) | DirEntry(leaf: string) | UnknownEntry(leaf: string)

  /** The listing of a directory, with the listings of its sub-directories that a recursive read goes
      on to use, by name. */
  datatype Tree = Tree(entries: seq<Entry>, below: map<string, Tree>)

  /** A sub-directory that is not in the tree is read as an empty one. */
  function Below(t: Tree, leaf: string): (u: Tree)
  {
    if leaf in t.below then t.below[leaf] else Tree([], map[])
  }

  /** The listing of the sub-directory that `p` leads to. */
  function TreeAt(t: Tree, p: seq<string>): (u: Tree)
    decreases |p|
  {
    if p == [] then t else TreeAt(Below(t, p[0]), p[1..])
  }

  function Rank(t: Tree): (n: nat)
  {
    if t.entries == [] then 0 else 1
  }

  predicate Skipped(leaf: string) {
    leaf == "." || leaf == ".."
  }

  /** The names a listing contains. */
  function Listed(entries: seq<Entry>): (s: set<string>)
  {
    set e | e in entries && !Skipped(e.leaf) :: e.leaf
  }

  /** A listing contains the names of its entries, but for those of the directory itself and its parent. */
  lemma {:induction false} ListedIff(entries: seq<Entry>, name: string)
    ensures name in Listed(entries) <==> name != "." && name != ".." && exists e :: e in entries && e.leaf == name
  {
    if exists e :: e in entries && e.leaf == name {
      var e :| e in entries && e.leaf == name;
      assert !Skipped(name) ==> e.leaf in Listed(entries);
    }
  }

  /** None of the first `n` entries, nor in a recursive read anything below them, is of unknown type. */
  predicate ReadableTo(t: Tree, n: nat, deep: bool)
    requires n <= |t.entries|
    decreases Rank(t), t, 1
  {
    forall i :: 0 <= i < n ==> Skipped(t.entries[i].leaf) || Known(t, i, deep)
  }

  predicate Known(t: Tree, i: nat, deep: bool)
    requires i < |t.entries|
    decreases Rank(t), t, 0
  {
    match t.entries[i]
    case ObjectEntry(_, _) => true
    case DirEntry(leaf) => deep ==> Readable(Below(t, leaf), deep)
    case UnknownEntry(_) => false
  }

  predicate Readable(t: Tree, deep: bool)
    decreases Rank(t), t, 2
  {
    ReadableTo(t, |t.entries|, deep)
  }

  predicate SameKind(e: Entry, node: Node) {
    match node
    case DirNode(_) => e.DirEntry?
    case FileNode(_) => e.ObjectEntry?
  }

  /** The listing never calls `name` anything but what `node` is. */
  predicate NeverOther(entries: seq<Entry>, name: string, node: Node)
  {
    forall e :: e in entries && e.leaf == name ==> SameKind(e, node)
  }

  /** No later entry has the name of entry `i`. */
  predicate IsLast(entries: seq<Entry>, i: nat)
    requires i < |entries|
  {
    forall j :: i < j < |entries| ==> entries[j].leaf != entries[i].leaf
  }

  /** Every listed name has a last entry. */
  lemma {:induction false} LastFor(entries: seq<Entry>, name: string) returns (i: nat)
    requires name in Listed(entries)
    ensures i < |entries| && entries[i].leaf == name && IsLast(entries, i)
  {
    var e :| e in entries && e.leaf == name;
    i := |entries| - 1;
    while entries[i].leaf != name
      invariant 0 <= i < |entries|
      invariant forall j :: i < j < |entries| ==> entries[j].leaf != name
      invariant exists j :: 0 <= j <= i && entries[j].leaf == name
      decreases i
    {
      i := i - 1;
    }
  }

  /** A node made since there were `dirs` directories and `files` files. */
  predicate IsNew(node: Node, dirs: nat, files: nat) {
    match node
    case DirNode(c) => c >= dirs
    case FileNode(f) => f >= files
  }

  /** `items` is `was` with the listed names brought up to date: a listed name keeps its node
      unless the listing once called it something else, and then has a new one. */
  ghost predicate Merged(
    was: map<string, Node>, items: map<string, Node>, entries: seq<Entry>, dirs: nat, files: nat)
  {
    && items.Keys == was.Keys + Listed(entries)
    && (forall n :: n in was && n !in Listed(entries) ==> items[n] == was[n])
    && (forall n :: n in Listed(entries) ==> MergedAt(was, items[n], entries, n, dirs, files))
  }

  ghost predicate MergedAt(
    was: map<string, Node>, node: Node, entries: seq<Entry>, n: string, dirs: nat, files: nat)
  {
    if n in was && NeverOther(entries, n, was[n]) then node == was[n] else IsNew(node, dirs, files)
  }

  lemma {:induction false} ListedMore(entries: seq<Entry>, e: Entry)
    ensures Listed(entries + [e]) == Listed(entries) + if Skipped(e.leaf) then {} else {e.leaf}
  {
    assert forall x :: x in entries + [e] <==> x in entries || x == e;
    assert !Skipped(e.leaf) ==> e.leaf in Listed(entries + [e]) by {
      assert e in entries + [e];
    }
    forall n | n in Listed(entries) ensures n in Listed(entries + [e]) {
      var x :| x in entries && !Skipped(x.leaf) && x.leaf == n;
      assert x in entries + [e];
    }
  }

  lemma {:induction false} NeverOtherMore(entries: seq<Entry>, e: Entry, n: string, node: Node)
    ensures NeverOther(entries + [e], n, node) <==>
      NeverOther(entries, n, node) && (e.leaf == n ==> SameKind(e, node))
  {
    assert forall x :: x in entries + [e] <==> x in entries || x == e;
  }

  /** One more entry is merged: its name gets `node`, reused when the kind is unchanged. */
  lemma {:induction false} MergedMore(
    was: map<string, Node>, items: map<string, Node>, entries: seq<Entry>, e: Entry, node: Node, dirs: nat, files: nat)
    requires Merged(was, items, entries, dirs, files)
    requires !Skipped(e.leaf) && SameKind(e, node)
    requires if e.leaf in items && SameKind(e, items[e.leaf]) then node == items[e.leaf] else IsNew(node, dirs, files)
    requires forall n :: n in was ==> !IsNew(was[n], dirs, files)
    ensures Merged(was, items[e.leaf := node], entries + [e], dirs, files)
  {
    ListedMore(entries, e);
    forall n | n in Listed(entries + [e])
      ensures MergedAt(was, items[e.leaf := node][n], entries + [e], n, dirs, files)
    {
      if n in was {
        NeverOtherMore(entries, e, n, was[n]);
        if n !in Listed(entries) {
          NotListed(entries, n);
        }
      }
    }
  }

  lemma {:induction false} NotListed(entries: seq<Entry>, n: string)
    requires n !in Listed(entries) && !Skipped(n)
    ensures forall e :: e in entries ==> e.leaf != n
  {
    forall e | e in entries ensures e.leaf != n {
      assert !Skipped(e.leaf) ==> e.leaf in Listed(entries);
    }
  }

  lemma {:induction false} MergedSkip(
    was: map<string, Node>, items: map<string, Node>, entries: seq<Entry>, e: Entry, dirs: nat, files: nat)
    requires Merged(was, items, entries, dirs, files) && Skipped(e.leaf)
    ensures Merged(was, items, entries + [e], dirs, files)
  {
    ListedMore(entries, e);
    forall n | n in Listed(entries + [e])
      ensures MergedAt(was, items[n], entries + [e], n, dirs, files)
    {
      if n in was {
        NeverOtherMore(entries, e, n, was[n]);
      }
    }
  }

  // --- What becomes of a directory --------------------------------------------------------

  /** `now` is directory `was` after its listing was read.  Its marks are the surviving ones that are
      not listed; its entries are the listed ones and those that are still marked. */
  ghost predicate RereadCell(
    was: Dir, files: seq<File>, emptyDirs: bool, now: Dir, entries: seq<Entry>, dirs: nat)
  {
    var kept := Kept(was, files, emptyDirs);
    && now.virtual == kept - Listed(entries)
    && now.items.Keys == Listed(entries) + was.items.Keys * kept.Keys
    && (forall n :: n in now.items && n !in Listed(entries) ==> now.items[n] == was.items[n])
    && (forall n :: n in Listed(entries) ==> MergedAt(was.items, now.items[n], entries, n, dirs, |files|))
  }

  /** What directory `c` was: a new one had nothing in it. */
  function Was(ds: seq<Dir>, c: nat): (d: Dir)
  {
    if c < |ds| then ds[c] else Dir(None, [], map[], map[], 0, false)
  }

  /** The sub-directories of `c` that are not listed, but whose marks outlive a purge, are left alone
      with everything below them. */
  ghost predicate Aside(
    ds: seq<Dir>, up: seq<set<nat>>, files: seq<File>, emptyDirs: bool, rs: seq<Dir>, c: nat, entries: seq<Entry>)
    requires |up| == |ds|
  {
    c < |ds| ==>
      forall leaf :: leaf in ds[c].items && ds[c].items[leaf].DirNode? ==>
        AsideAt(ds, up, files, emptyDirs, rs, c, entries, leaf)
  }

  ghost predicate AsideAt(
    ds: seq<Dir>, up: seq<set<nat>>, files: seq<File>, emptyDirs: bool, rs: seq<Dir>, c: nat, entries: seq<Entry>,
    leaf: string)
    requires c < |ds| == |up| && leaf in ds[c].items && ds[c].items[leaf].DirNode?
  {
    leaf in Kept(ds[c], files, emptyDirs) && leaf !in Listed(entries) ==> Quiet(ds, rs, up, ds[c].items[leaf].dir)
  }

  /** `rs` and `more` are `ds` and `files` as far as directory `c` goes, after its listing was read and,
      in a recursive read, those of all the sub-directories it lists. */
  ghost predicate Reread(
    ds: seq<Dir>, up: seq<set<nat>>, files: seq<File>, emptyDirs: bool, rs: seq<Dir>, more: seq<File>,
    c: nat, t: Tree, deep: bool)
    requires |up| == |ds|
    decreases Rank(t), t, 2
  {
    && c < |rs| && RereadCell(Was(ds, c), files, emptyDirs, rs[c], t.entries, |ds|)
    && Aside(ds, up, files, emptyDirs, rs, c, t.entries)
    && ShowsAll(ds, up, files, emptyDirs, rs, more, rs[c].items, t, |t.entries|, deep)
  }

  /** The last of the first `n` entries for each name is shown. */
  ghost predicate ShowsAll(
    ds: seq<Dir>, up: seq<set<nat>>, files: seq<File>, emptyDirs: bool, rs: seq<Dir>, more: seq<File>,
    items: map<string, Node>, t: Tree, n: nat, deep: bool)
    requires |up| == |ds| && n <= |t.entries|
    decreases Rank(t), t, 1
  {
    forall i :: 0 <= i < n && IsLast(t.entries[..n], i) && !Skipped(t.entries[i].leaf) ==>
      t.entries[i].leaf in items && Shows(ds, up, files, emptyDirs, rs, more, items[t.entries[i].leaf], t, i, deep)
  }

  /** A listed object is shown by a file that has this object, a directory by a directory, which a
      recursive read has read. */
  ghost predicate Shows(
    ds: seq<Dir>, up: seq<set<nat>>, files: seq<File>, emptyDirs: bool, rs: seq<Dir>, more: seq<File>,
    node: Node, t: Tree, i: nat, deep: bool)
    requires |up| == |ds| && i < |t.entries|
    decreases Rank(t), t, 0
  {
    match t.entries[i]
    case ObjectEntry(_, obj) => ShowsObject(more, node, obj)
    case DirEntry(leaf) =>
      node.DirNode? && (deep ==> Reread(ds, up, files, emptyDirs, rs, more, node.dir, Below(t, leaf), deep))
    case UnknownEntry(_) => false
  }

  predicate ShowsObject(files: seq<File>, node: Node, obj: nat)
  {
    node.FileNode? && node.file < |files| && files[node.file].obj == Some(obj)
  }

  /** What is shown is of the kind that is listed. */
  lemma {:induction false} ShowsKind(
    ds: seq<Dir>, up: seq<set<nat>>, files: seq<File>, emptyDirs: bool, rs: seq<Dir>, more: seq<File>,
    node: Node, t: Tree, i: nat, deep: bool)
    requires |up| == |ds| && i < |t.entries| && Shows(ds, up, files, emptyDirs, rs, more, node, t, i, deep)
    ensures SameKind(t.entries[i], node)
    ensures t.entries[i].ObjectEntry? ==> ShowsObject(more, node, t.entries[i].obj)
  {
  }

  // --- What a read leaves alone -----------------------------------------------------------

  /** From `ds` to `rs` directories were only added, and nothing changed at or below `c`. */
  ghost predicate Quiet(ds: seq<Dir>, rs: seq<Dir>, up: seq<set<nat>>, c: nat)
    requires |up| == |ds|
  {
    && |ds| <= |rs|
    && forall x :: 0 <= x < |ds| && c in up[x] ==> rs[x].items == ds[x].items && rs[x].virtual == ds[x].virtual
  }

  lemma {:induction false} QuietTrans(
    ds: seq<Dir>, rs: seq<Dir>, ts: seq<Dir>, up: seq<set<nat>>, vp: seq<set<nat>>, c: nat)
    requires |up| == |ds| <= |rs| == |vp| && forall x :: 0 <= x < |ds| ==> vp[x] == up[x]
    requires Quiet(ds, rs, up, c) && Quiet(rs, ts, vp, c)
    ensures Quiet(ds, ts, up, c)
  {
  }

  lemma {:induction false} QuietBelow(ds: seq<Dir>, rs: seq<Dir>, up: seq<set<nat>>, c: nat, g: nat)
    requires Linked(ds, up) && c < |ds| && g < |ds| && ds[g].parent == Some(c) && Quiet(ds, rs, up, c)
    ensures Quiet(ds, rs, up, g)
  {
    assert ChainOf(ds, up, g);
    OwnChain(ds, up);
    forall x | 0 <= x < |ds| && g in up[x] ensures c in up[x] {
      ChainIn(ds, up, x, g);
    }
  }

  /** The chains of the directories there were are the same. */
  ghost predicate Extends(up: seq<set<nat>>, vp: seq<set<nat>>)
  {
    |up| <= |vp| && forall x :: 0 <= x < |up| ==> vp[x] == up[x]
  }

  /** No file at or below `c` got another object. */
  ghost predicate QuietFiles(files: seq<File>, more: seq<File>, up: seq<set<nat>>, c: nat)
  {
    && |files| <= |more|
    && forall f :: 0 <= f < |files| && files[f].dir < |up| && c in up[files[f].dir] ==> more[f].obj == files[f].obj
  }

  lemma {:induction false} QuietFilesBelow(
    ds: seq<Dir>, up: seq<set<nat>>, files: seq<File>, more: seq<File>, c: nat, g: nat)
    requires Linked(ds, up) && c < |ds| && g < |ds| && ds[g].parent == Some(c) && QuietFiles(files, more, up, c)
    ensures QuietFiles(files, more, up, g)
  {
    assert ChainOf(ds, up, g);
    OwnChain(ds, up);
    forall x | 0 <= x < |ds| && g in up[x] ensures c in up[x] {
      ChainIn(ds, up, x, g);
    }
  }

  /** Files stay where they are, and only files at or below `d` got another object. */
  ghost predicate FilesBelow(files: seq<File>, more: seq<File>, up: seq<set<nat>>, d: nat)
  {
    && |files| <= |more|
    && forall f :: 0 <= f < |files| ==>
      && more[f].dir == files[f].dir && more[f].leaf == files[f].leaf
      && (more[f].obj == files[f].obj || (files[f].dir < |up| ==> d in up[files[f].dir]))
  }

  lemma {:induction false} FilesBelowTrans(
    files: seq<File>, more: seq<File>, most: seq<File>, up: seq<set<nat>>, vp: seq<set<nat>>, d: nat)
    requires Extends(up, vp) && FilesBelow(files, more, up, d) && FilesBelow(more, most, vp, d)
    ensures FilesBelow(files, most, up, d)
  {
  }

  /** Files stay where they are, and only the file `leaf` of `d` and, in a recursive read, files below
      `node` got another object. */
  ghost predicate FilesAt(
    files: seq<File>, more: seq<File>, up: seq<set<nat>>, d: nat, leaf: string, node: Node, deep: bool)
  {
    && |files| <= |more|
    && forall f :: 0 <= f < |files| ==>
      && more[f].dir == files[f].dir && more[f].leaf == files[f].leaf
      && (more[f].obj == files[f].obj || (files[f].dir == d && files[f].leaf == leaf)
          || (deep && node.DirNode? && (files[f].dir < |up| ==> node.dir in up[files[f].dir])))
  }

  lemma {:induction false} FilesAtBelow(
    ds: seq<Dir>, up: seq<set<nat>>, files: seq<File>, more: seq<File>, d: nat, leaf: string, node: Node, deep: bool)
    requires Linked(ds, up) && d < |ds| && FilesAt(files, more, up, d, leaf, node, deep)
    requires node.DirNode? && node.dir < |ds| ==> ds[node.dir].parent == Some(d)
    ensures FilesBelow(files, more, up, d)
  {
    OwnChain(ds, up);
    forall x | 0 <= x < |ds| && node.DirNode? && node.dir in up[x] ensures d in up[x] {
      ChainIn(ds, up, x, node.dir);
      assert ChainOf(ds, up, node.dir);
    }
  }

  /** From `ds` to `rs` no mark was added, and what is still pending is as it was. */
  ghost predicate Fewer(ds: seq<Dir>, files: seq<File>, rs: seq<Dir>, more: seq<File>)
  {
    && |files| <= |more|
    && forall x, n :: 0 <= x < |rs| && n in rs[x].virtual ==> StillPending(ds, files, rs, more, x, n)
  }

  ghost predicate StillPending(ds: seq<Dir>, files: seq<File>, rs: seq<Dir>, more: seq<File>, x: nat, n: string)
    requires x < |rs| && n in rs[x].virtual
  {
    && x < |ds| && n in ds[x].virtual && rs[x].virtual[n] == ds[x].virtual[n]
    && (n in rs[x].items ==>
          && n in ds[x].items && rs[x].items[n] == ds[x].items[n]
          && (rs[x].items[n].FileNode? ==>
                rs[x].items[n].file < |files| <= |more| && more[rs[x].items[n].file] == files[rs[x].items[n].file]))
  }

  lemma {:induction false} FewerTrans(
    ds: seq<Dir>, files: seq<File>, rs: seq<Dir>, more: seq<File>, ts: seq<Dir>, most: seq<File>)
    requires Fewer(ds, files, rs, more) && Fewer(rs, more, ts, most)
    ensures Fewer(ds, files, ts, most)
  {
    forall x, n | 0 <= x < |ts| && n in ts[x].virtual ensures StillPending(ds, files, ts, most, x, n) {
      assert StillPending(rs, more, ts, most, x, n);
      assert StillPending(ds, files, rs, more, x, n);
    }
  }

  /** The same marks on the same entries survive. */
  lemma {:induction false} KeptSame(
    ds: seq<Dir>, files: seq<File>, rs: seq<Dir>, more: seq<File>, emptyDirs: bool, x: nat)
    requires Fewer(ds, files, rs, more) && x < |ds| && x < |rs|
    requires rs[x].items == ds[x].items && rs[x].virtual == ds[x].virtual
    ensures Kept(rs[x], more, emptyDirs) == Kept(ds[x], files, emptyDirs)
  {
    forall n | n in rs[x].virtual
      ensures Survives(rs[x], more, emptyDirs, n) == Survives(ds[x], files, emptyDirs, n)
    {
      assert StillPending(ds, files, rs, more, x, n);
    }
  }

  /** What survived once survives again. */
  lemma {:induction false} KeptAgain(
    ds: seq<Dir>, files: seq<File>, rs: seq<Dir>, more: seq<File>, emptyDirs: bool, c: nat, entries: seq<Entry>)
    requires Fewer(ds, files, rs, more) && c < |rs|
    requires RereadCell(Was(ds, c), files, emptyDirs, rs[c], entries, |ds|)
    ensures Kept(rs[c], more, emptyDirs) == rs[c].virtual
  {
    forall n | n in rs[c].virtual ensures Survives(rs[c], more, emptyDirs, n) {
      assert StillPending(ds, files, rs, more, c, n);
      assert Survives(ds[c], files, emptyDirs, n);
    }
  }

  // --- Changing what a read is measured against -------------------------------------------

  lemma {:induction false} AsideFrame(
    ds: seq<Dir>, up: seq<set<nat>>, files: seq<File>, emptyDirs: bool, rs: seq<Dir>, vp: seq<set<nat>>,
    more: seq<File>, ts: seq<Dir>, c: nat, entries: seq<Entry>)
    requires |up| == |ds| && Extends(up, vp) && Sound(rs, vp, more) && c < |rs| && Quiet(rs, ts, vp, c)
    requires RereadCell(Was(ds, c), files, emptyDirs, rs[c], entries, |ds|)
    requires Aside(ds, up, files, emptyDirs, rs, c, entries)
    ensures Aside(ds, up, files, emptyDirs, ts, c, entries)
  {
    if c < |ds| {
      forall leaf | leaf in ds[c].items && ds[c].items[leaf].DirNode?
        ensures AsideAt(ds, up, files, emptyDirs, ts, c, entries, leaf)
      {
        assert AsideAt(ds, up, files, emptyDirs, rs, c, entries, leaf);
        if leaf in Kept(ds[c], files, emptyDirs) && leaf !in Listed(entries) {
          var g := ds[c].items[leaf].dir;
          assert rs[c].items[leaf] == ds[c].items[leaf];
          CachedChild(rs, vp, more, c, leaf);
          QuietBelow(rs, ts, vp, c, g);
          QuietTrans(ds, rs, ts, up, vp, g);
        }
      }
    }
  }

  /** Later changes elsewhere do not matter. */
  lemma {:induction false} RereadFrame(
    ds: seq<Dir>, up: seq<set<nat>>, files: seq<File>, emptyDirs: bool, rs: seq<Dir>, vp: seq<set<nat>>,
    more: seq<File>, ts: seq<Dir>, most: seq<File>, c: nat, t: Tree, deep: bool)
    requires |up| == |ds| && Extends(up, vp) && Sound(rs, vp, more)
    requires Quiet(rs, ts, vp, c) && QuietFiles(more, most, vp, c)
    requires Reread(ds, up, files, emptyDirs, rs, more, c, t, deep)
    ensures Reread(ds, up, files, emptyDirs, ts, most, c, t, deep)
    decreases Rank(t), t
  {
    OwnChain(rs, vp);
    AsideFrame(ds, up, files, emptyDirs, rs, vp, more, ts, c, t.entries);
    var all := t.entries[..|t.entries|];
    forall i | 0 <= i < |t.entries| && IsLast(all, i) && !Skipped(t.entries[i].leaf)
      ensures t.entries[i].leaf in ts[c].items
      ensures Shows(ds, up, files, emptyDirs, ts, most, ts[c].items[t.entries[i].leaf], t, i, deep)
    {
      var leaf := t.entries[i].leaf;
      assert Shows(ds, up, files, emptyDirs, rs, more, rs[c].items[leaf], t, i, deep);
      assert NamedItem(rs, more, c, leaf);
      if t.entries[i].DirEntry? && deep {
        var g := rs[c].items[leaf].dir;
        QuietBelow(rs, ts, vp, c, g);
        QuietFilesBelow(rs, vp, more, most, c, g);
        RereadFrame(ds, up, files, emptyDirs, rs, vp, more, ts, most, g, Below(t, leaf), deep);
      }
    }
  }

  /** `c` is in `rs` what it was in `ds`: nothing changed in it, or it is new and empty. */
  ghost predicate SameBase(ds: seq<Dir>, rs: seq<Dir>, up: seq<set<nat>>, c: nat)
    requires |up| == |ds|
  {
    && |ds| <= |rs|
    && if c < |ds| then Quiet(ds, rs, up, c) else Was(rs, c).items == map[] && Was(rs, c).virtual == map[]
  }

  lemma {:induction false} SameCell(
    ds: seq<Dir>, up: seq<set<nat>>, files: seq<File>, rs: seq<Dir>, more: seq<File>, emptyDirs: bool, now: Dir,
    entries: seq<Entry>, c: nat)
    requires Sound(ds, up, files) && SameBase(ds, rs, up, c) && Fewer(ds, files, rs, more)
    requires RereadCell(Was(rs, c), more, emptyDirs, now, entries, |rs|)
    ensures RereadCell(Was(ds, c), files, emptyDirs, now, entries, |ds|)
  {
    OwnChain(ds, up);
    if c < |ds| {
      KeptSame(ds, files, rs, more, emptyDirs, c);
    }
    assert Was(rs, c).items == Was(ds, c).items;
    assert Kept(Was(rs, c), more, emptyDirs) == Kept(Was(ds, c), files, emptyDirs);
    forall n | n in Listed(entries) ensures MergedAt(Was(ds, c).items, now.items[n], entries, n, |ds|, |files|) {
      assert MergedAt(Was(rs, c).items, now.items[n], entries, n, |rs|, |more|);
    }
  }

  lemma {:induction false} AsideBase(
    ds: seq<Dir>, up: seq<set<nat>>, files: seq<File>, rs: seq<Dir>, vp: seq<set<nat>>, more: seq<File>,
    emptyDirs: bool, ts: seq<Dir>, c: nat, entries: seq<Entry>)
    requires Sound(ds, up, files) && Extends(up, vp) && |vp| == |rs|
    requires SameBase(ds, rs, up, c) && Fewer(ds, files, rs, more)
    requires Aside(rs, vp, more, emptyDirs, ts, c, entries)
    ensures Aside(ds, up, files, emptyDirs, ts, c, entries)
  {
    if c < |ds| {
      OwnChain(ds, up);
      KeptSame(ds, files, rs, more, emptyDirs, c);
      forall leaf | leaf in ds[c].items && ds[c].items[leaf].DirNode?
        ensures AsideAt(ds, up, files, emptyDirs, ts, c, entries, leaf)
      {
        assert AsideAt(rs, vp, more, emptyDirs, ts, c, entries, leaf);
        CachedChild(ds, up, files, c, leaf);
        QuietBelow(ds, rs, up, c, ds[c].items[leaf].dir);
        if Quiet(rs, ts, vp, ds[c].items[leaf].dir) {
          QuietTrans(ds, rs, ts, up, vp, ds[c].items[leaf].dir);
        }
      }
    }
  }

  /** A read from `rs` on is a read from `ds` on, where nothing happened to `c` in between. */
  lemma {:induction false} RereadBase(
    ds: seq<Dir>, up: seq<set<nat>>, files: seq<File>, rs: seq<Dir>, vp: seq<set<nat>>, more: seq<File>,
    emptyDirs: bool, ts: seq<Dir>, most: seq<File>, c: nat, t: Tree, deep: bool)
    requires Sound(ds, up, files) && Extends(up, vp) && |vp| == |rs|
    requires SameBase(ds, rs, up, c) && Fewer(ds, files, rs, more)
    requires Reread(rs, vp, more, emptyDirs, ts, most, c, t, deep)
    ensures Reread(ds, up, files, emptyDirs, ts, most, c, t, deep)
    decreases Rank(t), t
  {
    SameCell(ds, up, files, rs, more, emptyDirs, ts[c], t.entries, c);
    AsideBase(ds, up, files, rs, vp, more, emptyDirs, ts, c, t.entries);
    var all := t.entries[..|t.entries|];
    forall i | 0 <= i < |t.entries| && IsLast(all, i) && !Skipped(t.entries[i].leaf)
      ensures t.entries[i].leaf in ts[c].items
      ensures Shows(ds, up, files, emptyDirs, ts, most, ts[c].items[t.entries[i].leaf], t, i, deep)
    {
      var leaf := t.entries[i].leaf;
      assert Shows(rs, vp, more, emptyDirs, ts, most, ts[c].items[leaf], t, i, deep);
      if t.entries[i].DirEntry? && deep {
        var g := ts[c].items[leaf].dir;
        ChildBase(ds, up, files, rs, more, emptyDirs, ts[c], t.entries, c, i);
        RereadBase(ds, up, files, rs, vp, more, emptyDirs, ts, most, g, Below(t, leaf), deep);
      }
    }
  }

  lemma {:induction false} ChildBase(
    ds: seq<Dir>, up: seq<set<nat>>, files: seq<File>, rs: seq<Dir>, more: seq<File>, emptyDirs: bool, now: Dir,
    entries: seq<Entry>, c: nat, i: nat)
    requires Sound(ds, up, files) && SameBase(ds, rs, up, c)
    requires RereadCell(Was(rs, c), more, emptyDirs, now, entries, |rs|)
    requires i < |entries| && !Skipped(entries[i].leaf)
    requires entries[i].leaf in now.items && now.items[entries[i].leaf].DirNode?
    ensures SameBase(ds, rs, up, now.items[entries[i].leaf].dir)
  {
    var leaf := entries[i].leaf;
    OwnChain(ds, up);
    assert entries[i] in entries;
    assert leaf in Listed(entries);
    assert MergedAt(Was(rs, c).items, now.items[leaf], entries, leaf, |rs|, |more|);
    if leaf in Was(rs, c).items && now.items[leaf] == Was(rs, c).items[leaf] {
      assert NamedItem(ds, files, c, leaf);
      QuietBelow(ds, rs, up, c, now.items[leaf].dir);
    }
  }

  lemma {:induction false} CellTwice(
    ds: seq<Dir>, files: seq<File>, rs: seq<Dir>, more: seq<File>, emptyDirs: bool, now: Dir,
    entries: seq<Entry>, c: nat)
    requires Fewer(ds, files, rs, more) && |ds| <= |rs| && c < |rs|
    requires RereadCell(Was(ds, c), files, emptyDirs, rs[c], entries, |ds|)
    requires RereadCell(rs[c], more, emptyDirs, now, entries, |rs|)
    ensures RereadCell(Was(ds, c), files, emptyDirs, now, entries, |ds|)
  {
    KeptAgain(ds, files, rs, more, emptyDirs, c, entries);
    forall n | n in Listed(entries) ensures MergedAt(Was(ds, c).items, now.items[n], entries, n, |ds|, |files|) {
      assert MergedAt(Was(ds, c).items, rs[c].items[n], entries, n, |ds|, |files|);
      assert MergedAt(rs[c].items, now.items[n], entries, n, |rs|, |more|);
    }
  }

  lemma {:induction false} AsideTwice(
    ds: seq<Dir>, up: seq<set<nat>>, files: seq<File>, rs: seq<Dir>, vp: seq<set<nat>>, more: seq<File>,
    emptyDirs: bool, ts: seq<Dir>, c: nat, entries: seq<Entry>)
    requires |up| == |ds| && |vp| == |rs| && Extends(up, vp) && Fewer(ds, files, rs, more) && c < |rs|
    requires RereadCell(Was(ds, c), files, emptyDirs, rs[c], entries, |ds|)
    requires Aside(ds, up, files, emptyDirs, rs, c, entries) && Aside(rs, vp, more, emptyDirs, ts, c, entries)
    ensures Aside(ds, up, files, emptyDirs, ts, c, entries)
  {
    if c < |ds| {
      KeptAgain(ds, files, rs, more, emptyDirs, c, entries);
      forall leaf | leaf in ds[c].items && ds[c].items[leaf].DirNode?
        ensures AsideAt(ds, up, files, emptyDirs, ts, c, entries, leaf)
      {
        assert AsideAt(ds, up, files, emptyDirs, rs, c, entries, leaf);
        if leaf in Kept(ds[c], files, emptyDirs) && leaf !in Listed(entries) {
          assert rs[c].items[leaf] == ds[c].items[leaf];
          assert AsideAt(rs, vp, more, emptyDirs, ts, c, entries, leaf);
          QuietTrans(ds, rs, ts, up, vp, ds[c].items[leaf].dir);
        }
      }
    }
  }

  /** Reading one listing twice is reading it once. */
  lemma {:induction false} RereadTwice(
    ds: seq<Dir>, up: seq<set<nat>>, files: seq<File>, rs: seq<Dir>, vp: seq<set<nat>>, more: seq<File>,
    emptyDirs: bool, ts: seq<Dir>, most: seq<File>, c: nat, t: Tree, deep: bool)
    requires |up| == |ds| && Extends(up, vp) && Sound(rs, vp, more) && Fewer(ds, files, rs, more)
    requires Reread(ds, up, files, emptyDirs, rs, more, c, t, deep)
    requires Reread(rs, vp, more, emptyDirs, ts, most, c, t, deep)
    ensures Reread(ds, up, files, emptyDirs, ts, most, c, t, deep)
    decreases Rank(t), t
  {
    CellTwice(ds, files, rs, more, emptyDirs, ts[c], t.entries, c);
    AsideTwice(ds, up, files, rs, vp, more, emptyDirs, ts, c, t.entries);
    var all := t.entries[..|t.entries|];
    forall i | 0 <= i < |t.entries| && IsLast(all, i) && !Skipped(t.entries[i].leaf)
      ensures t.entries[i].leaf in ts[c].items
      ensures Shows(ds, up, files, emptyDirs, ts, most, ts[c].items[t.entries[i].leaf], t, i, deep)
    {
      var leaf := t.entries[i].leaf;
      assert Shows(ds, up, files, emptyDirs, rs, more, rs[c].items[leaf], t, i, deep);
      assert Shows(rs, vp, more, emptyDirs, ts, most, ts[c].items[leaf], t, i, deep);
      if t.entries[i].DirEntry? && deep {
        var g := ts[c].items[leaf].dir;
        assert t.entries[i] in t.entries;
        assert MergedAt(rs[c].items, ts[c].items[leaf], t.entries, leaf, |rs|, |more|);
        if ts[c].items[leaf] == rs[c].items[leaf] {
          RereadTwice(ds, up, files, rs, vp, more, emptyDirs, ts, most, g, Below(t, leaf), deep);
        } else {
          RereadNew(ds, up, files, rs, vp, more, emptyDirs, ts, most, g, Below(t, leaf), deep);
        }
      }
    }
  }

  /** A directory that is new to `rs` is new to `ds`. */
  lemma {:induction false} RereadNew(
    ds: seq<Dir>, up: seq<set<nat>>, files: seq<File>, rs: seq<Dir>, vp: seq<set<nat>>, more: seq<File>,
    emptyDirs: bool, ts: seq<Dir>, most: seq<File>, c: nat, t: Tree, deep: bool)
    requires |up| == |ds| <= |rs| == |vp| && |rs| <= c && |files| <= |more|
    requires Reread(rs, vp, more, emptyDirs, ts, most, c, t, deep)
    ensures Reread(ds, up, files, emptyDirs, ts, most, c, t, deep)
    decreases Rank(t), t
  {
    assert Kept(Was(rs, c), more, emptyDirs) == map[] == Kept(Was(ds, c), files, emptyDirs);
    forall n | n in Listed(t.entries)
      ensures MergedAt(Was(ds, c).items, ts[c].items[n], t.entries, n, |ds|, |files|)
    {
      assert MergedAt(Was(rs, c).items, ts[c].items[n], t.entries, n, |rs|, |more|);
    }
    var all := t.entries[..|t.entries|];
    forall i | 0 <= i < |t.entries| && IsLast(all, i) && !Skipped(t.entries[i].leaf)
      ensures t.entries[i].leaf in ts[c].items
      ensures Shows(ds, up, files, emptyDirs, ts, most, ts[c].items[t.entries[i].leaf], t, i, deep)
    {
      var leaf := t.entries[i].leaf;
      assert Shows(rs, vp, more, emptyDirs, ts, most, ts[c].items[leaf], t, i, deep);
      if t.entries[i].DirEntry? && deep {
        assert t.entries[i] in t.entries;
        assert MergedAt(Was(rs, c).items, ts[c].items[leaf], t.entries, leaf, |rs|, |more|);
        RereadNew(ds, up, files, rs, vp, more, emptyDirs, ts, most, ts[c].items[leaf].dir, Below(t, leaf), deep);
      }
    }
  }
}

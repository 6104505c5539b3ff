/** What the result of a re-read depends on, and which paths it keeps (vfs/dir.go). */
module DirOrder {
  import opened Wrappers
  import opened DirModel
  import opened DirListing
  import opened DirReading

  // --- The order of a listing -------------------------------------------------------------

  /** The same listings, each in some order. */
  ghost predicate SameTree(t: Tree, u: Tree)
    decreases t
  {
    && multiset(t.entries) == multiset(u.entries) && t.below.Keys == u.below.Keys
    && forall leaf :: leaf in t.below ==> SameTree(t.below[leaf], u.below[leaf])
  }

  /** No listing that is read has two different entries for one name. */
  ghost predicate Unambiguous(t: Tree, deep: bool)
    decreases Rank(t), t
  {
    && (forall e, f :: e in t.entries && f in t.entries && e.leaf == f.leaf && !Skipped(e.leaf) ==> e == f)
    && (deep ==> forall i :: 0 <= i < |t.entries| && ListsDir(t, i) ==> Unambiguous(Below(t, t.entries[i].leaf), deep))
  }

  predicate ListsDir(t: Tree, i: nat)
    requires i < |t.entries|
  {
    t.entries[i].DirEntry? && !Skipped(t.entries[i].leaf)
  }

  lemma {:induction false} SameTreeSelf(t: Tree)
    ensures SameTree(t, t)
    decreases t
  {
    forall leaf | leaf in t.below ensures SameTree(t.below[leaf], t.below[leaf]) {
      SameTreeSelf(t.below[leaf]);
    }
  }

  lemma {:induction false} SameEntries(entries: seq<Entry>, others: seq<Entry>)
    requires multiset(entries) == multiset(others)
    ensures forall e :: e in entries <==> e in others
    ensures Listed(entries) == Listed(others)
    ensures forall n, node :: NeverOther(entries, n, node) <==> NeverOther(others, n, node)
  {
    forall e ensures e in entries <==> e in others {
      assert e in multiset(entries) <==> e in multiset(others);
    }
    assert Listed(entries) == Listed(others);
    forall n, node ensures NeverOther(entries, n, node) <==> NeverOther(others, n, node) {
    }
  }

  /** For one directory the order never matters, but for the kind and the object of a node. */
  lemma {:induction false} CellOrderFree(
    was: Dir, files: seq<File>, emptyDirs: bool, now: Dir, entries: seq<Entry>, others: seq<Entry>, dirs: nat)
    requires multiset(entries) == multiset(others) && RereadCell(was, files, emptyDirs, now, entries, dirs)
    ensures RereadCell(was, files, emptyDirs, now, others, dirs)
  {
    SameEntries(entries, others);
    forall n | n in Listed(others) ensures MergedAt(was.items, now.items[n], others, n, dirs, |files|) {
      assert MergedAt(was.items, now.items[n], entries, n, dirs, |files|);
    }
  }

  lemma {:induction false} AsideOrderFree(
    ds: seq<Dir>, up: seq<set<nat>>, files: seq<File>, emptyDirs: bool, rs: seq<Dir>, c: nat,
    entries: seq<Entry>, others: seq<Entry>)
    requires |up| == |ds| && Listed(entries) == Listed(others) && Aside(ds, up, files, emptyDirs, rs, c, entries)
    ensures Aside(ds, up, files, emptyDirs, rs, c, others)
  {
    if c < |ds| {
      forall leaf | leaf in ds[c].items && ds[c].items[leaf].DirNode?
        ensures AsideAt(ds, up, files, emptyDirs, rs, c, others, leaf)
      {
        assert AsideAt(ds, up, files, emptyDirs, rs, c, entries, leaf);
      }
    }
  }

  /** The entry of the other order for a name that has only one. */
  lemma {:induction false} OnlyEntry(t: Tree, u: Tree, i: nat) returns (j: nat)
    requires multiset(t.entries) == multiset(u.entries) && i < |u.entries| && !Skipped(u.entries[i].leaf)
    requires forall e, f :: e in t.entries && f in t.entries && e.leaf == f.leaf && !Skipped(e.leaf) ==> e == f
    ensures j < |t.entries| && IsLast(t.entries, j) && t.entries[j] == u.entries[i]
  {
    SameEntries(t.entries, u.entries);
    assert u.entries[i] in u.entries;
    j := LastFor(t.entries, u.entries[i].leaf);
    assert t.entries[j] in t.entries;
  }

  lemma {:induction false} RereadReordered(
    ds: seq<Dir>, up: seq<set<nat>>, files: seq<File>, emptyDirs: bool, rs: seq<Dir>, more: seq<File>,
    c: nat, t: Tree, u: Tree, deep: bool)
    requires |up| == |ds| && SameTree(t, u) && Unambiguous(t, deep)
    requires Reread(ds, up, files, emptyDirs, rs, more, c, t, deep)
    ensures Reread(ds, up, files, emptyDirs, rs, more, c, u, deep)
    decreases Rank(t), t, 1
  {
    CellOrderFree(Was(ds, c), files, emptyDirs, rs[c], t.entries, u.entries, |ds|);
    assert Aside(ds, up, files, emptyDirs, rs, c, u.entries) by {
      SameEntries(t.entries, u.entries);
      AsideOrderFree(ds, up, files, emptyDirs, rs, c, t.entries, u.entries);
    }
    var all := u.entries[..|u.entries|];
    forall i | 0 <= i < |u.entries| && IsLast(all, i) && !Skipped(u.entries[i].leaf)
      ensures u.entries[i].leaf in rs[c].items
      ensures Shows(ds, up, files, emptyDirs, rs, more, rs[c].items[u.entries[i].leaf], u, i, deep)
    {
      ReorderedEntry(ds, up, files, emptyDirs, rs, more, c, t, u, i, deep);
    }
  }

  lemma {:induction false} ReorderedEntry(
    ds: seq<Dir>, up: seq<set<nat>>, files: seq<File>, emptyDirs: bool, rs: seq<Dir>, more: seq<File>,
    c: nat, t: Tree, u: Tree, i: nat, deep: bool)
    requires |up| == |ds| && SameTree(t, u) && Unambiguous(t, deep)
    requires Reread(ds, up, files, emptyDirs, rs, more, c, t, deep)
    requires i < |u.entries| && !Skipped(u.entries[i].leaf)
    ensures u.entries[i].leaf in rs[c].items
    ensures Shows(ds, up, files, emptyDirs, rs, more, rs[c].items[u.entries[i].leaf], u, i, deep)
    decreases Rank(t), t, 0
  {
    var leaf := u.entries[i].leaf;
    var j := OnlyEntry(t, u, i);
    LastShown(ds, up, files, emptyDirs, rs, more, c, t, j, deep);
    if u.entries[i].DirEntry? && deep {
      assert ListsDir(t, j);
      RereadReordered(
        ds, up, files, emptyDirs, rs, more, rs[c].items[leaf].dir, Below(t, leaf), Below(u, leaf), deep);
    }
  }

  function ToEnd(entries: seq<Entry>, i: nat): (r: seq<Entry>)
    requires i < |entries|
    ensures |r| == |entries| && r[|r| - 1] == entries[i]
  {
    entries[..i] + entries[i + 1..] + [entries[i]]
  }

  lemma {:induction false} ToEndSame(entries: seq<Entry>, i: nat)
    requires i < |entries|
    ensures multiset(ToEnd(entries, i)) == multiset(entries)
  {
    assert entries == entries[..i] + [entries[i]] + entries[i + 1..];
  }

  /** The last entry of a name decides what is shown for it. */
  lemma {:induction false} LastShown(
    ds: seq<Dir>, up: seq<set<nat>>, files: seq<File>, emptyDirs: bool, rs: seq<Dir>, more: seq<File>,
    c: nat, t: Tree, i: nat, deep: bool)
    requires |up| == |ds| && Reread(ds, up, files, emptyDirs, rs, more, c, t, deep)
    requires i < |t.entries| && IsLast(t.entries, i) && !Skipped(t.entries[i].leaf)
    ensures t.entries[i].leaf in rs[c].items
    ensures Shows(ds, up, files, emptyDirs, rs, more, rs[c].items[t.entries[i].leaf], t, i, deep)
  {
    Prefixes(t, 0);
  }

  /** One node cannot show two different entries for its name. */
  lemma {:induction false} ShowsOne(
    ds: seq<Dir>, up: seq<set<nat>>, files: seq<File>, emptyDirs: bool, rs: seq<Dir>, more: seq<File>, node: Node,
    t: Tree, i: nat, u: Tree, j: nat, deep: bool)
    requires |up| == |ds| && i < |t.entries| && j < |u.entries| && t.entries[i].leaf == u.entries[j].leaf
    requires Shows(ds, up, files, emptyDirs, rs, more, node, t, i, deep)
    requires Shows(ds, up, files, emptyDirs, rs, more, node, u, j, deep)
    ensures t.entries[i] == u.entries[j]
  {
    ShowsKind(ds, up, files, emptyDirs, rs, more, node, t, i, deep);
    ShowsKind(ds, up, files, emptyDirs, rs, more, node, u, j, deep);
  }

  /** If a name has another entry than the last one, reading that one last has another result. */
  lemma {:induction false} OtherOrder(
    ds: seq<Dir>, up: seq<set<nat>>, files: seq<File>, emptyDirs: bool, rs: seq<Dir>, more: seq<File>,
    c: nat, t: Tree, deep: bool, i: nat, k: nat)
    requires |up| == |ds| && Reread(ds, up, files, emptyDirs, rs, more, c, t, deep)
    requires i < |t.entries| && IsLast(t.entries, i) && !Skipped(t.entries[i].leaf)
    requires k < |t.entries| && t.entries[k].leaf == t.entries[i].leaf && t.entries[k] != t.entries[i]
    ensures SameTree(t, Tree(ToEnd(t.entries, k), t.below))
    ensures !Reread(ds, up, files, emptyDirs, rs, more, c, Tree(ToEnd(t.entries, k), t.below), deep)
  {
    var u := Tree(ToEnd(t.entries, k), t.below);
    ToEndSame(t.entries, k);
    SameTreeSelf(t);
    LastShown(ds, up, files, emptyDirs, rs, more, c, t, i, deep);
    if Reread(ds, up, files, emptyDirs, rs, more, c, u, deep) {
      var n := |u.entries| - 1;
      LastShown(ds, up, files, emptyDirs, rs, more, c, u, n, deep);
      ShowsOne(ds, up, files, emptyDirs, rs, more, rs[c].items[t.entries[i].leaf], t, i, u, n, deep);
    }
  }

  /** The last of two different entries for one name, and another one. */
  lemma {:induction false} TwoEntries(entries: seq<Entry>) returns (i: nat, k: nat)
    requires exists e, f :: e in entries && f in entries && e.leaf == f.leaf && !Skipped(e.leaf) && e != f
    ensures i < |entries| && IsLast(entries, i) && !Skipped(entries[i].leaf)
    ensures k < |entries| && entries[k].leaf == entries[i].leaf && entries[k] != entries[i]
  {
    var e, f :| e in entries && f in entries && e.leaf == f.leaf && !Skipped(e.leaf) && e != f;
    i := LastFor(entries, e.leaf);
    var g := if entries[i] != e then e else f;
    k :| 0 <= k < |entries| && entries[k] == g;
  }

  /** A listing with two different entries for one name, at any depth that is read, has an order in
      which the result is another. */
  lemma {:induction false} AmbiguousOrderMatters(
    ds: seq<Dir>, up: seq<set<nat>>, files: seq<File>, emptyDirs: bool, rs: seq<Dir>, more: seq<File>,
    c: nat, t: Tree, deep: bool) returns (u: Tree)
    requires |up| == |ds| && Reread(ds, up, files, emptyDirs, rs, more, c, t, deep) && !Unambiguous(t, deep)
    ensures SameTree(t, u) && !Reread(ds, up, files, emptyDirs, rs, more, c, u, deep)
    decreases Rank(t), t
  {
    if exists e, f :: e in t.entries && f in t.entries && e.leaf == f.leaf && !Skipped(e.leaf) && e != f {
      var i, k := TwoEntries(t.entries);
      u := Tree(ToEnd(t.entries, k), t.below);
      OtherOrder(ds, up, files, emptyDirs, rs, more, c, t, deep, i, k);
    } else {
      var j :| 0 <= j < |t.entries| && ListsDir(t, j) && !Unambiguous(Below(t, t.entries[j].leaf), deep);
      u := DeeperOrder(ds, up, files, emptyDirs, rs, more, c, t, j);
    }
  }

  lemma {:induction false} DeeperOrder(
    ds: seq<Dir>, up: seq<set<nat>>, files: seq<File>, emptyDirs: bool, rs: seq<Dir>, more: seq<File>,
    c: nat, t: Tree, j: nat) returns (u: Tree)
    requires |up| == |ds| && Reread(ds, up, files, emptyDirs, rs, more, c, t, true)
    requires forall e, f :: e in t.entries && f in t.entries && e.leaf == f.leaf && !Skipped(e.leaf) ==> e == f
    requires j < |t.entries| && ListsDir(t, j) && !Unambiguous(Below(t, t.entries[j].leaf), true)
    ensures SameTree(t, u) && !Reread(ds, up, files, emptyDirs, rs, more, c, u, true)
    decreases Rank(t), t, 0
  {
    var leaf := t.entries[j].leaf;
    assert t.entries[j] in t.entries;
    var i := LastFor(t.entries, leaf);
    assert t.entries[i] in t.entries && t.entries[i] == t.entries[j];
    LastShown(ds, up, files, emptyDirs, rs, more, c, t, i, true);
    var g := rs[c].items[leaf].dir;
    var w := AmbiguousOrderMatters(ds, up, files, emptyDirs, rs, more, g, Below(t, leaf), true);
    assert leaf in t.below;
    u := Tree(t.entries, t.below[leaf := w]);
    forall l | l in t.below ensures SameTree(t.below[l], u.below[l]) {
      SameTreeSelf(t.below[l]);
    }
    assert Below(u, leaf) == w;
    if Reread(ds, up, files, emptyDirs, rs, more, c, u, true) {
      LastShown(ds, up, files, emptyDirs, rs, more, c, u, i, true);
    }
  }

  /** The result of a re-read is that of every other order of the listings exactly when no listing that
      is read has two different entries for one name. */
  lemma {:induction false} RereadOrderFree(
    ds: seq<Dir>, up: seq<set<nat>>, files: seq<File>, emptyDirs: bool, rs: seq<Dir>, more: seq<File>,
    c: nat, t: Tree, deep: bool)
    requires |up| == |ds| && Reread(ds, up, files, emptyDirs, rs, more, c, t, deep)
    ensures (forall u :: SameTree(t, u) ==> Reread(ds, up, files, emptyDirs, rs, more, c, u, deep)) <==>
      Unambiguous(t, deep)
  {
    if Unambiguous(t, deep) {
      forall u | SameTree(t, u) ensures Reread(ds, up, files, emptyDirs, rs, more, c, u, deep) {
        RereadReordered(ds, up, files, emptyDirs, rs, more, c, t, u, deep);
      }
    } else {
      var u := AmbiguousOrderMatters(ds, up, files, emptyDirs, rs, more, c, t, deep);
    }
  }

  /** Two objects of one name make a listing ambiguous. */
  lemma {:induction false} TwoObjects(leaf: string, a: nat, b: nat, deep: bool)
    requires !Skipped(leaf)
    ensures Unambiguous(Tree([ObjectEntry(leaf, a), ObjectEntry(leaf, b)], map[]), deep) <==> a == b
  {
    var t := Tree([ObjectEntry(leaf, a), ObjectEntry(leaf, b)], map[]);
    assert t.entries[0] in t.entries && t.entries[1] in t.entries;
  }

  // --- Two reads --------------------------------------------------------------------------

  /** Directory `c` of `rs` and `k` of `ts` agree on every name, every mark and every node there was
      before, and on the kinds and objects of what they list; so do the sub-directories they list. */
  ghost predicate Alike(
    rs: seq<Dir>, more: seq<File>, c: nat, ts: seq<Dir>, most: seq<File>, k: nat, t: Tree, deep: bool,
    dirs: nat, files: nat)
    decreases Rank(t), t
  {
    && c < |rs| && k < |ts| && rs[c].virtual == ts[k].virtual && rs[c].items.Keys == ts[k].items.Keys
    && (forall n :: n in rs[c].items && !IsNew(rs[c].items[n], dirs, files) ==> ts[k].items[n] == rs[c].items[n])
    && (forall n :: n in rs[c].virtual ==> rs[c].virtual[n] != Del)
    && forall i :: 0 <= i < |t.entries| && IsLast(t.entries, i) && !Skipped(t.entries[i].leaf) ==>
      AlikeEntry(rs, more, c, ts, most, k, t, i, deep, dirs, files)
  }

  ghost predicate AlikeEntry(
    rs: seq<Dir>, more: seq<File>, c: nat, ts: seq<Dir>, most: seq<File>, k: nat, t: Tree, i: nat, deep: bool,
    dirs: nat, files: nat)
    requires i < |t.entries| && c < |rs| && k < |ts|
    decreases Rank(t), t, 0
  {
    var leaf := t.entries[i].leaf;
    && leaf in rs[c].items && leaf in ts[k].items
    && SameKind(t.entries[i], rs[c].items[leaf]) && SameKind(t.entries[i], ts[k].items[leaf])
    && (t.entries[i].ObjectEntry? ==>
          && ShowsObject(more, rs[c].items[leaf], t.entries[i].obj)
          && ShowsObject(most, ts[k].items[leaf], t.entries[i].obj))
    && (deep && t.entries[i].DirEntry? ==>
          Alike(rs, more, rs[c].items[leaf].dir, ts, most, ts[k].items[leaf].dir, Below(t, leaf), deep, dirs, files))
  }

  lemma {:induction false} SameNodes(
    was: Dir, files: seq<File>, emptyDirs: bool, a: Dir, b: Dir, entries: seq<Entry>, dirs: nat)
    requires RereadCell(was, files, emptyDirs, a, entries, dirs) && RereadCell(was, files, emptyDirs, b, entries, dirs)
    ensures a.virtual == b.virtual && a.items.Keys == b.items.Keys
    ensures forall n :: n in a.items && !IsNew(a.items[n], dirs, |files|) ==> b.items[n] == a.items[n]
    ensures forall n :: n in a.virtual ==> a.virtual[n] != Del
  {
    forall n | n in a.items && !IsNew(a.items[n], dirs, |files|) ensures b.items[n] == a.items[n] {
      if n in Listed(entries) {
        assert MergedAt(was.items, a.items[n], entries, n, dirs, |files|);
        assert MergedAt(was.items, b.items[n], entries, n, dirs, |files|);
      }
    }
  }

  /** Two reads of one listing agree, at every depth. */
  lemma {:induction false} RereadDeterministic(
    ds: seq<Dir>, up: seq<set<nat>>, files: seq<File>, emptyDirs: bool, rs: seq<Dir>, more: seq<File>, c: nat,
    ts: seq<Dir>, most: seq<File>, k: nat, t: Tree, deep: bool)
    requires |up| == |ds| && Reread(ds, up, files, emptyDirs, rs, more, c, t, deep)
    requires Reread(ds, up, files, emptyDirs, ts, most, k, t, deep)
    requires c == k || (c >= |ds| && k >= |ds|)
    ensures Alike(rs, more, c, ts, most, k, t, deep, |ds|, |files|)
    decreases Rank(t), t
  {
    var was := Was(ds, c);
    SameNodes(was, files, emptyDirs, rs[c], ts[k], t.entries, |ds|);
    forall i | 0 <= i < |t.entries| && IsLast(t.entries, i) && !Skipped(t.entries[i].leaf)
      ensures AlikeEntry(rs, more, c, ts, most, k, t, i, deep, |ds|, |files|)
    {
      var leaf := t.entries[i].leaf;
      assert t.entries[i] in t.entries;
      LastShown(ds, up, files, emptyDirs, rs, more, c, t, i, deep);
      LastShown(ds, up, files, emptyDirs, ts, most, k, t, i, deep);
      ShowsKind(ds, up, files, emptyDirs, rs, more, rs[c].items[leaf], t, i, deep);
      ShowsKind(ds, up, files, emptyDirs, ts, most, ts[k].items[leaf], t, i, deep);
      assert MergedAt(was.items, rs[c].items[leaf], t.entries, leaf, |ds|, |files|);
      assert MergedAt(was.items, ts[k].items[leaf], t.entries, leaf, |ds|, |files|);
      if deep && t.entries[i].DirEntry? {
        RereadDeterministic(ds, up, files, emptyDirs, rs, more, rs[c].items[leaf].dir,
          ts, most, ts[k].items[leaf].dir, Below(t, leaf), deep);
      }
    }
  }

  // --- Paths ------------------------------------------------------------------------------

  /** Every directory on the path is listed, and only as a directory, or is not listed but has a mark
      that outlives a purge; in that case the read goes no further. */
  ghost predicate KeepsPath(
    ds: seq<Dir>, files: seq<File>, emptyDirs: bool, c: nat, t: Tree, p: seq<string>, deep: bool)
    requires c < |ds|
    decreases |p|
  {
    p != [] && p[0] in ds[c].items && ds[c].items[p[0]].DirNode? && ds[c].items[p[0]].dir < |ds| ==>
      if p[0] in Listed(t.entries) then
        && NeverOther(t.entries, p[0], ds[c].items[p[0]])
        && (deep ==> KeepsPath(ds, files, emptyDirs, ds[c].items[p[0]].dir, Below(t, p[0]), p[1..], deep))
      else p[0] in Kept(ds[c], files, emptyDirs)
  }

  /** The listing that the directory at the end of the path is read with, if it is. */
  function ReadWith(t: Tree, p: seq<string>, deep: bool): (u: Option<Tree>)
    decreases |p|
  {
    if p == [] then Some(t)
    else if deep && p[0] in Listed(t.entries) then ReadWith(Below(t, p[0]), p[1..], deep)
    else None
  }

  /** Where nothing changed, paths lead where they led. */
  lemma {:induction false} QuietWalk(
    ds: seq<Dir>, up: seq<set<nat>>, files: seq<File>, rs: seq<Dir>, g: nat, x: nat, q: seq<string>)
    requires Sound(ds, up, files) && Quiet(ds, rs, up, g) && x < |ds| && g in up[x]
    ensures Walk(rs, x, q) == Walk(ds, x, q)
    ensures Walk(ds, x, q).Some? ==> Walk(ds, x, q).value < |ds| && g in up[Walk(ds, x, q).value]
    decreases |q|
  {
    if q != [] && q[0] in ds[x].items && ds[x].items[q[0]].DirNode? {
      CachedChild(ds, up, files, x, q[0]);
      QuietWalk(ds, up, files, rs, g, ds[x].items[q[0]].dir, q[1..]);
    }
  }

  /** A path through a new directory does not lead to an old one. */
  lemma {:induction false} NewWalk(
    ds: seq<Dir>, up: seq<set<nat>>, files: seq<File>, rs: seq<Dir>, vp: seq<set<nat>>, more: seq<File>,
    g: nat, q: seq<string>)
    requires Sound(ds, up, files) && Sound(rs, vp, more) && Extends(up, vp) && |ds| <= g < |rs|
    ensures Walk(rs, g, q).Some? ==> Walk(rs, g, q).value >= |ds|
  {
    if Walk(rs, g, q).Some? {
      WalkReaches(rs, vp, more, g, g, q);
      var x := Walk(rs, g, q).value;
      if x < |ds| {
        ChainIn(ds, up, x, g);
      }
    }
  }

  /** What a read does to the entry that leads to a sub-directory. */
  lemma {:induction false} ChildKept(
    ds: seq<Dir>, up: seq<set<nat>>, files: seq<File>, emptyDirs: bool, rs: seq<Dir>, more: seq<File>,
    c: nat, t: Tree, leaf: string, deep: bool)
    requires Sound(ds, up, files) && c < |ds| && Reread(ds, up, files, emptyDirs, rs, more, c, t, deep)
    requires !deep ==> OnlyAt(ds, rs, c)
    requires leaf in ds[c].items && ds[c].items[leaf].DirNode?
    ensures var node := ds[c].items[leaf];
      var kept :=
        if leaf in Listed(t.entries) then NeverOther(t.entries, leaf, node) else leaf in Kept(ds[c], files, emptyDirs);
      && (kept ==> leaf in rs[c].items && rs[c].items[leaf] == node)
      && (!kept && leaf in rs[c].items ==> IsNew(rs[c].items[leaf], |ds|, |files|))
      && (kept && leaf in Listed(t.entries) && deep ==>
            Reread(ds, up, files, emptyDirs, rs, more, node.dir, Below(t, leaf), deep))
      && (kept && !(leaf in Listed(t.entries) && deep) ==> Quiet(ds, rs, up, node.dir))
  {
    CachedChild(ds, up, files, c, leaf);
    if leaf in Listed(t.entries) {
      assert MergedAt(ds[c].items, rs[c].items[leaf], t.entries, leaf, |ds|, |files|);
      var i := LastFor(t.entries, leaf);
      assert t.entries[i] in t.entries;
      LastShown(ds, up, files, emptyDirs, rs, more, c, t, i, deep);
    } else {
      assert AsideAt(ds, up, files, emptyDirs, rs, c, t.entries, leaf);
    }
  }

  /** A path leads to the same directory after a read exactly when the read keeps it. */
  lemma {:induction false} RereadWalkIff(
    ds: seq<Dir>, up: seq<set<nat>>, files: seq<File>, emptyDirs: bool, rs: seq<Dir>, vp: seq<set<nat>>,
    more: seq<File>, c: nat, t: Tree, p: seq<string>, deep: bool)
    requires Sound(ds, up, files) && Sound(rs, vp, more) && Extends(up, vp) && c < |ds| <= |rs|
    requires Reread(ds, up, files, emptyDirs, rs, more, c, t, deep) && (!deep ==> OnlyAt(ds, rs, c))
    requires Walk(ds, c, p).Some?
    ensures Walk(rs, c, p) == Walk(ds, c, p) <==> KeepsPath(ds, files, emptyDirs, c, t, p, deep)
    decreases |p|
  {
    if p != [] {
      var leaf, q := p[0], p[1..];
      CachedChild(ds, up, files, c, leaf);
      ChildKept(ds, up, files, emptyDirs, rs, more, c, t, leaf, deep);
      var g := ds[c].items[leaf].dir;
      OwnChain(ds, up);
      WalkPath(ds, up, files, g, q);
      if leaf in rs[c].items && rs[c].items[leaf] == DirNode(g) {
        if leaf in Listed(t.entries) && deep {
          RereadWalkIff(ds, up, files, emptyDirs, rs, vp, more, g, Below(t, leaf), q, deep);
        } else {
          QuietWalk(ds, up, files, rs, g, g, q);
        }
      } else if leaf in rs[c].items && rs[c].items[leaf].DirNode? {
        CachedChild(rs, vp, more, c, leaf);
        NewWalk(ds, up, files, rs, vp, more, rs[c].items[leaf].dir, q);
      }
    }
  }

  /** What became of the directory at the end of a path that is kept. */
  lemma {:induction false} RereadAt(
    ds: seq<Dir>, up: seq<set<nat>>, files: seq<File>, emptyDirs: bool, rs: seq<Dir>, more: seq<File>,
    c: nat, t: Tree, p: seq<string>, deep: bool)
    requires Sound(ds, up, files) && c < |ds| <= |rs|
    requires Reread(ds, up, files, emptyDirs, rs, more, c, t, deep) && (!deep ==> OnlyAt(ds, rs, c))
    requires Walk(ds, c, p).Some? && KeepsPath(ds, files, emptyDirs, c, t, p, deep)
    ensures Walk(ds, c, p).value < |ds|
    ensures var e, u := Walk(ds, c, p).value, ReadWith(t, p, deep);
      && (u.Some? ==> RereadCell(ds[e], files, emptyDirs, rs[e], u.value.entries, |ds|))
      && (u.None? ==> rs[e].items == ds[e].items && rs[e].virtual == ds[e].virtual)
    decreases |p|
  {
    if p != [] {
      var leaf := p[0];
      CachedChild(ds, up, files, c, leaf);
      ChildKept(ds, up, files, emptyDirs, rs, more, c, t, leaf, deep);
      var g := ds[c].items[leaf].dir;
      if leaf in Listed(t.entries) && deep {
        RereadAt(ds, up, files, emptyDirs, rs, more, g, Below(t, leaf), p[1..], deep);
      } else {
        OwnChain(ds, up);
        QuietWalk(ds, up, files, rs, g, g, p[1..]);
      }
    }
  }

  /** Pending work is found after a read where it was before exactly when the read keeps the path to it
      and does not list it there. */
  lemma {:induction false} RereadKeepsPendingIff(
    ds: seq<Dir>, up: seq<set<nat>>, files: seq<File>, emptyDirs: bool, rs: seq<Dir>, vp: seq<set<nat>>,
    more: seq<File>, c: nat, t: Tree, p: seq<string>, name: string, deep: bool)
    requires Sound(ds, up, files) && Sound(rs, vp, more) && Extends(up, vp) && c < |ds| <= |rs|
    requires Reread(ds, up, files, emptyDirs, rs, more, c, t, deep) && (!deep ==> OnlyAt(ds, rs, c))
    requires Walk(ds, c, p).Some? && Walk(ds, c, p).value < |ds|
    requires name in Kept(ds[Walk(ds, c, p).value], files, emptyDirs)
    ensures FoundPending(ds, rs, c, p, name) <==>
      && KeepsPath(ds, files, emptyDirs, c, t, p, deep)
      && (ReadWith(t, p, deep).Some? ==> name !in Listed(ReadWith(t, p, deep).value.entries))
  {
    RereadWalkIff(ds, up, files, emptyDirs, rs, vp, more, c, t, p, deep);
    if KeepsPath(ds, files, emptyDirs, c, t, p, deep) {
      RereadAt(ds, up, files, emptyDirs, rs, more, c, t, p, deep);
    }
  }

  /** A tree with a directory `a` that is not marked, and a file pending in it. */
  function LostTree(): (ds: seq<Dir>)
  {
    [ Dir(None, [], map["a" := DirNode(1)], map[], 1, true),
      Dir(Some(0), ["a"], map["f" := FileNode(0)], map["f" := AddFile], 1, true)]
  }

  function LostChains(): (up: seq<set<nat>>)
  {
    [{0}, {0, 1}]
  }

  /** The file is being written. */
  function LostFiles(): (files: seq<File>)
  {
    [File(1, "f", None, 1, false)]
  }

  lemma {:induction false} LostHeld(a: nat)
    ensures Held(LostTree(), LostChains(), a, 2) == if a in {0, 1} then 1 else 0
  {
    assert |map["f" := AddFile]| == 1;
    assert Held(LostTree(), LostChains(), a, 1) == 0;
  }

  lemma {:induction false} LostSound()
    ensures Sound(LostTree(), LostChains(), LostFiles())
  {
    var ds, up := LostTree(), LostChains();
    assert ChainOf(ds, up, 0) && ChainOf(ds, up, 1);
    forall a | 0 <= a < |ds| ensures ds[a].virtuals == Held(ds, up, a, |ds|) {
      LostHeld(a);
    }
  }

  /** A case in which a read loses pending work: when the root is listed without `a`, the directory is
      dropped with the upload in it, unlike what forgetting does. */
  lemma {:induction false} ReadLosesPending(emptyDirs: bool, rs: seq<Dir>, more: seq<File>, deep: bool)
    requires Reread(LostTree(), LostChains(), LostFiles(), emptyDirs, rs, more, 0, Tree([], map[]), deep)
    ensures Sound(LostTree(), LostChains(), LostFiles()) && Walk(LostTree(), 0, ["a"]) == Some(1)
    ensures "f" in Kept(LostTree()[1], LostFiles(), emptyDirs)
    ensures |rs| > 0 && Walk(rs, 0, ["a"]) == None
  {
    LostSound();
    assert Walk(LostTree(), 1, []) == Some(1) && ["a"][1..] == [];
    assert "a" !in Kept(LostTree()[0], LostFiles(), emptyDirs);
    assert "f" in LostTree()[1].virtual;
  }
}

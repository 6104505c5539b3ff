/** Moving a directory in the cache (vfs/dir.go). */
module DirRename {
  import opened Wrappers
  import opened DirModel

  /** The parent chains after `d` got the parent `np` in place of `op`. */
  ghost function Rehung(up: seq<set<nat>>, d: nat, op: nat, np: nat): (vp: seq<set<nat>>)
    requires op < |up| && np < |up|
    ensures |vp| == |up|
  {
    seq(|up|, x requires 0 <= x < |up| => if d in up[x] then (up[x] - up[op]) + up[np] else up[x])
  }

  lemma {:induction false} RehungChain(ds: seq<Dir>, up: seq<set<nat>>, d: nat, np: nat, x: nat)
    requires Linked(ds, up) && d < |ds| && np < |ds| && ds[d].parent.Some? && d !in up[np]
    requires x < |ds| && d in up[x]
    ensures up[ds[d].parent.value] <= up[x]
    ensures up[np] * up[x] <= up[ds[d].parent.value]
    ensures d !in up[ds[d].parent.value]
  {
    assert ChainOf(ds, up, d);
    ChainIn(ds, up, x, d);
    forall b | b in up[np] && b in up[x] ensures b in up[ds[d].parent.value] {
      ChainLinear(ds, up, x, b, d);
      ChainIn(ds, up, np, b);
    }
  }

  /** Re-parenting keeps links well-founded when the new parent is not inside `d`. */
  lemma {:induction false} RehungLinked(ds: seq<Dir>, up: seq<set<nat>>, d: nat, np: nat, rs: seq<Dir>)
    requires Linked(ds, up) && d < |ds| == |rs| && np < |ds| && ds[d].parent.Some? && d !in up[np]
    requires forall x :: 0 <= x < |ds| ==> rs[x].parent == if x == d then Some(np) else ds[x].parent
    ensures Linked(rs, Rehung(up, d, ds[d].parent.value, np))
  {
    var op := ds[d].parent.value;
    var vp := Rehung(up, d, op, np);
    OwnChain(ds, up);
    forall x | 0 <= x < |rs| ensures ChainOf(rs, vp, x) {
      assert ChainOf(ds, up, x);
      if d in up[x] {
        RehungChain(ds, up, d, np, x);
        if x != d {
          var p := ds[x].parent.value;
          RehungChain(ds, up, d, np, p);
        }
      }
    }
  }

  /** What the re-parenting owes the counter of `a`: the marks below `d` leave the chain of the
      old parent and enter that of the new one. */
  lemma {:induction false} HeldMoved(ds: seq<Dir>, up: seq<set<nat>>, d: nat, np: nat, rs: seq<Dir>, a: nat, n: nat)
    requires Linked(ds, up) && d < |ds| == |rs| && np < |ds| && ds[d].parent.Some? && d !in up[np]
    requires forall x :: 0 <= x < |ds| ==> rs[x].virtual == ds[x].virtual
    requires n <= |ds|
    ensures var op := ds[d].parent.value;
      Held(rs, Rehung(up, d, op, np), a, n) == Held(ds, up, a, n)
        + (if a in up[np] && a !in up[op] then Held(ds, up, d, n) else 0)
        - (if a in up[op] && a !in up[np] then Held(ds, up, d, n) else 0)
  {
    if n > 0 {
      HeldMoved(ds, up, d, np, rs, a, n - 1);
      if d in up[n - 1] {
        RehungChain(ds, up, d, np, n - 1);
      }
    }
  }

  /** Re-parenting moves no counts, so the counters stay right exactly when nothing is pending in
      the moved tree, or the parent is the same. */
  lemma {:induction false} MoveCounts(ds: seq<Dir>, up: seq<set<nat>>, d: nat, np: nat, rs: seq<Dir>)
    requires Linked(ds, up) && Counted(ds, up)
    requires d < |ds| == |rs| && np < |ds| && ds[d].parent.Some? && d !in up[np]
    requires forall x :: 0 <= x < |ds| ==> rs[x].virtual == ds[x].virtual && rs[x].virtuals == ds[x].virtuals
    ensures Counted(rs, Rehung(up, d, ds[d].parent.value, np)) <==>
      ds[d].virtuals == 0 || ds[d].parent.value == np
  {
    var op := ds[d].parent.value;
    var vp := Rehung(up, d, op, np);
    OwnChain(ds, up);
    forall a | 0 <= a < |ds|
      ensures Held(rs, vp, a, |rs|) == ds[a].virtuals
        + (if a in up[np] && a !in up[op] then ds[d].virtuals else 0)
        - (if a in up[op] && a !in up[np] then ds[d].virtuals else 0)
    {
      HeldMoved(ds, up, d, np, rs, a, |ds|);
    }
    if op != np {
      if op in up[np] && np in up[op] {
        ChainIn(ds, up, np, op);
        ChainIn(ds, up, op, np);
        SameChainSameDir(ds, up, op, np);
      }
      assert op !in up[np] || np !in up[op];
      if ds[d].virtuals != 0 {
        assert rs[op].virtuals != Held(rs, vp, op, |rs|) || rs[np].virtuals != Held(rs, vp, np, |rs|);
      }
    }
  }

  lemma {:induction false} SameChainSameDir(ds: seq<Dir>, up: seq<set<nat>>, a: nat, b: nat)
    requires Linked(ds, up) && a < |ds| && b < |ds| && up[a] == up[b]
    ensures a == b
  {
    assert ChainOf(ds, up, a) && ChainOf(ds, up, b);
    if a != b {
      var p := ds[a].parent.value;
      assert b in up[p];
      ChainIn(ds, up, p, b);
    }
  }

  /** Marking entries neither repairs nor breaks the counters. */
  lemma {:induction false} MarksKeepBalance(ds: seq<Dir>, up: seq<set<nat>>, d: nat, v: map<string, VState>)
    requires d < |ds| && Linked(ds, up)
    ensures Linked(WithMarks(ds, up, d, v), up)
    ensures Counted(WithMarks(ds, up, d, v), up) <==> Counted(ds, up)
  {
    var rs := WithMarks(ds, up, d, v);
    WithMarksAt(ds, up, d, v);
    SameShapeLinked(ds, rs, up);
    if Counted(ds, up) {
      WithMarksCounted(ds, up, d, v);
    }
    if Counted(rs, up) {
      WithMarksCounted(rs, up, d, ds[d].virtual);
      WithMarksTwice(ds, up, d, v, ds[d].virtual);
      WithMarksSame(ds, up, d);
    }
  }

  // --- Paths ------------------------------------------------------------------------------

  /** Everything cached below `d` has its proper path; what is cached in `d` itself links back to
      `d` and has at least its proper name, though perhaps under a path `d` no longer has. */
  ghost predicate NamedBelow(ds: seq<Dir>, up: seq<set<nat>>, files: seq<File>, d: nat)
    requires d < |ds| == |up|
  {
    && (forall x, leaf :: 0 <= x < |ds| && x != d && d in up[x] && leaf in ds[x].items ==>
      NamedItem(ds, files, x, leaf))
    && (forall leaf :: leaf in ds[d].items ==> Tagged(ds, files, d, leaf, ds[d].items[leaf]))
  }

  predicate Tagged(ds: seq<Dir>, files: seq<File>, d: nat, leaf: string, node: Node)
    requires d < |ds|
  {
    match node
    case DirNode(c) =>
      && c < |ds| && ds[c].parent == Some(d)
      && ds[c].path != [] && ds[c].path[|ds[c].path| - 1] == leaf
    case FileNode(f) => f < |files| && files[f].dir == d && files[f].leaf == leaf
  }

  /** Only the paths of directories below `d` may have changed, that of `d` being `p` now. */
  ghost predicate Repathed(ds: seq<Dir>, rs: seq<Dir>, up: seq<set<nat>>, d: nat, p: seq<string>)
    requires d < |ds| == |up|
  {
    && |rs| == |ds| && rs[d].path == p
    && (forall x :: 0 <= x < |ds| ==> rs[x] == ds[x].(path := rs[x].path))
    && (forall x :: 0 <= x < |ds| && d !in up[x] ==> rs[x] == ds[x])
  }

  /** The children of `d` called `names` already have their new path. */
  ghost predicate Renaming(
    ds: seq<Dir>, rs: seq<Dir>, up: seq<set<nat>>, files: seq<File>, d: nat, p: seq<string>, names: set<string>)
    requires d < |ds| == |up|
  {
    && Repathed(ds, rs, up, d, p) && NamedBelow(rs, up, files, d)
    && forall leaf :: leaf in names && leaf in rs[d].items ==> NamedItem(rs, files, d, leaf)
  }

  /** Child `c` of `d`, called `leaf`, was renamed with everything below it. */
  lemma {:induction false} RenamedChild(
    ds: seq<Dir>, rs: seq<Dir>, ts: seq<Dir>, up: seq<set<nat>>, files: seq<File>,
    d: nat, p: seq<string>, names: set<string>, leaf: string, c: nat)
    requires Linked(ds, up) && d < |ds|
    requires Renaming(ds, rs, up, files, d, p, names)
    requires leaf in rs[d].items && rs[d].items[leaf] == DirNode(c) && c < |ds|
    requires Repathed(rs, ts, up, c, p + [leaf]) && ts[c].parent == Some(d)
    requires forall x, l :: 0 <= x < |ts| && c in up[x] && l in ts[x].items ==> NamedItem(ts, files, x, l)
    ensures Renaming(ds, ts, up, files, d, p, names + {leaf})
  {
    assert ChainOf(ds, up, c);
    OwnChain(ds, up);
    forall x | 0 <= x < |ds| && c in up[x] ensures d in up[x] && x != d {
      ChainIn(ds, up, x, c);
    }
    forall x, l | 0 <= x < |ts| && x != d && d in up[x] && l in ts[x].items ensures NamedItem(ts, files, x, l) {
      if c !in up[x] {
        assert NamedItem(rs, files, x, l);
        if rs[x].items[l].DirNode? {
          assert ChainOf(ds, up, rs[x].items[l].dir);
        }
      }
    }
    forall l | l in ts[d].items
      ensures Tagged(ts, files, d, l, ts[d].items[l]) && (l in names + {leaf} ==> NamedItem(ts, files, d, l))
    {
      assert Tagged(rs, files, d, l, rs[d].items[l]);
      if rs[d].items[l].DirNode? {
        var g := rs[d].items[l].dir;
        assert ChainOf(ds, up, g);
        if g != c {
          assert c !in up[g];
        }
      }
    }
  }

  /** A child that is still to be renamed is ready for it. */
  lemma {:induction false} ReadyToRename(
    ds: seq<Dir>, rs: seq<Dir>, up: seq<set<nat>>, files: seq<File>, d: nat, p: seq<string>, names: set<string>,
    leaf: string)
    requires Linked(ds, up) && d < |ds| && Renaming(ds, rs, up, files, d, p, names)
    requires leaf in rs[d].items && rs[d].items[leaf].DirNode?
    ensures var c := rs[d].items[leaf].dir;
      && c < |ds| && c != d && d in up[c] && rs[c].parent == Some(d) && NamedBelow(rs, up, files, c)
      && rs[c].path != [] && rs[c].path[|rs[c].path| - 1] == leaf && Cached(rs, c)
      && Ids(up) - up[c] < Ids(up) - up[d]
  {
    assert Tagged(rs, files, d, leaf, rs[d].items[leaf]);
    var c := rs[d].items[leaf].dir;
    assert ChainOf(ds, up, c);
    GoesDown(ds, up, d, c);
    OwnChain(ds, up);
    forall x, l | 0 <= x < |ds| && c in up[x] && l in rs[x].items ensures NamedItem(rs, files, x, l) {
      ChainIn(ds, up, x, c);
    }
    forall l | l in rs[c].items ensures Tagged(rs, files, c, l, rs[c].items[l]) {
      assert NamedItem(rs, files, c, l);
    }
  }

  lemma {:induction false} RenamingStart(ds: seq<Dir>, up: seq<set<nat>>, files: seq<File>, d: nat, p: seq<string>)
    requires Linked(ds, up) && d < |ds| && NamedBelow(ds, up, files, d)
    ensures Renaming(ds, ds[d := ds[d].(path := p)], up, files, d, p, {})
  {
    var rs := ds[d := ds[d].(path := p)];
    OwnChain(ds, up);
    forall x, l | 0 <= x < |ds| && x != d && d in up[x] && l in rs[x].items ensures NamedItem(rs, files, x, l) {
      assert NamedItem(ds, files, x, l);
      if rs[x].items[l].DirNode? {
        assert ChainOf(ds, up, rs[x].items[l].dir);
      }
    }
    forall l | l in rs[d].items ensures Tagged(rs, files, d, l, rs[d].items[l]) {
      assert Tagged(ds, files, d, l, ds[d].items[l]);
      if rs[d].items[l].DirNode? {
        assert ChainOf(ds, up, rs[d].items[l].dir);
      }
    }
  }

  // --- The move itself --------------------------------------------------------------------

  function Name(path: seq<string>): (leaf: string)
    requires path != []
  {
    path[|path| - 1]
  }

  /** The cells after `d` was given the parent `np` and the path `p`: the new parent loses the
      entry under the OLD name of `d`, and gains one under the new name. */
  function Moved(ds: seq<Dir>, d: nat, np: nat, p: seq<string>): (rs: seq<Dir>)
    requires d < |ds| && np < |ds| && d != np && ds[d].path != [] && p != []
  {
    var es := ds[d := ds[d].(parent := Some(np), path := p, read := false)];
    es[np := es[np].(items := (es[np].items - {Name(ds[d].path)})[Name(p) := DirNode(d)])]
  }

  /** `d` may be moved under `np`, where its path will be `p`. */
  ghost predicate Movable(ds: seq<Dir>, up: seq<set<nat>>, d: nat, np: nat, p: seq<string>)
  {
    && Linked(ds, up) && d < |ds| && np < |ds| && d !in up[np]
    && ds[d].parent.Some? && ds[d].path != [] && p != [] && p == ds[np].path + [Name(p)]
  }

  lemma {:induction false} MovedBelow(
    ds: seq<Dir>, up: seq<set<nat>>, files: seq<File>, d: nat, np: nat, p: seq<string>)
    requires Movable(ds, up, d, np, p) && Named(ds, files) && d != np
    ensures var vp := Rehung(up, d, ds[d].parent.value, np);
      Linked(Moved(ds, d, np, p), vp) && NamedBelow(Moved(ds, d, np, p), vp, files, d)
  {
    var op := ds[d].parent.value;
    var vp, rs := Rehung(up, d, op, np), Moved(ds, d, np, p);
    RehungLinked(ds, up, d, np, rs);
    OwnChain(ds, up);
    assert ChainOf(ds, up, d);
    forall x, leaf | 0 <= x < |rs| && x != d && d in vp[x] && leaf in rs[x].items
      ensures NamedItem(rs, files, x, leaf)
    {
      assert d in up[x];
      assert NamedItem(ds, files, x, leaf);
    }
    forall leaf | leaf in rs[d].items ensures Tagged(rs, files, d, leaf, rs[d].items[leaf]) {
      assert NamedItem(ds, files, d, leaf);
    }
  }

  /** After the move and the renaming below, only the old parent's entry for `d` is out of place. */
  lemma {:induction false} MovedNamed(
    ds: seq<Dir>, up: seq<set<nat>>, files: seq<File>, d: nat, np: nat, p: seq<string>, rs: seq<Dir>, x: nat,
    leaf: string)
    requires Movable(ds, up, d, np, p) && Named(ds, files) && d != np
    requires Repathed(Moved(ds, d, np, p), rs, Rehung(up, d, ds[d].parent.value, np), d, p)
    requires forall x, leaf :: 0 <= x < |rs| && d in Rehung(up, d, ds[d].parent.value, np)[x] && leaf in rs[x].items ==>
      NamedItem(rs, files, x, leaf)
    requires x < |rs| && leaf in rs[x].items
    requires !(x == ds[d].parent.value != np && leaf == Name(ds[d].path))
    ensures NamedItem(rs, files, x, leaf)
  {
    var vp := Rehung(up, d, ds[d].parent.value, np);
    OwnChain(ds, up);
    assert ChainOf(ds, up, d);
    if d !in vp[x] {
      assert d !in up[x];
      if x == np && leaf == Name(p) {
        assert rs[x].items[leaf] == DirNode(d);
      } else {
        assert NamedItem(ds, files, x, leaf);
        if ds[x].items[leaf].DirNode? {
          var g := ds[x].items[leaf].dir;
          assert ChainOf(ds, up, g);
        }
      }
    }
  }

  /** All entries are in place, but for that of `d` in its old parent, if that is another. */
  ghost predicate NamedBut(ds: seq<Dir>, files: seq<File>, op: nat, np: nat, oldName: string)
  {
    forall x, leaf :: 0 <= x < |ds| && leaf in ds[x].items && !(x == op != np && leaf == oldName) ==>
      NamedItem(ds, files, x, leaf)
  }

  lemma {:induction false} MovedAllNamed(
    ds: seq<Dir>, up: seq<set<nat>>, files: seq<File>, d: nat, np: nat, p: seq<string>, rs: seq<Dir>)
    requires Movable(ds, up, d, np, p) && Named(ds, files) && d != np
    requires Repathed(Moved(ds, d, np, p), rs, Rehung(up, d, ds[d].parent.value, np), d, p)
    requires forall x, leaf :: 0 <= x < |rs| && d in Rehung(up, d, ds[d].parent.value, np)[x] && leaf in rs[x].items ==>
      NamedItem(rs, files, x, leaf)
    ensures NamedBut(rs, files, ds[d].parent.value, np, Name(ds[d].path))
    ensures Linked(rs, Rehung(up, d, ds[d].parent.value, np))
  {
    MovedBelow(ds, up, files, d, np, p);
    SameShapeOfParents(Moved(ds, d, np, p), rs, Rehung(up, d, ds[d].parent.value, np));
    forall x, leaf | 0 <= x < |rs| && leaf in rs[x].items
      && !(x == ds[d].parent.value != np && leaf == Name(ds[d].path))
      ensures NamedItem(rs, files, x, leaf)
    {
      MovedNamed(ds, up, files, d, np, p, rs, x, leaf);
    }
  }

  /** `rs` is `ds` with `d` moved under `np`, and the paths below `d` following suit. */
  ghost predicate HasMoved(ds: seq<Dir>, rs: seq<Dir>, up: seq<set<nat>>, d: nat, np: nat, p: seq<string>)
  {
    && Movable(ds, up, d, np, p) && d != np
    && Repathed(Moved(ds, d, np, p), rs, Rehung(up, d, ds[d].parent.value, np), d, p)
  }

  lemma {:induction false} MovedCounts(ds: seq<Dir>, rs: seq<Dir>, up: seq<set<nat>>, d: nat, np: nat, p: seq<string>)
    requires HasMoved(ds, rs, up, d, np, p) && Counted(ds, up)
    ensures Counted(rs, Rehung(up, d, ds[d].parent.value, np)) <==>
      rs[d].virtuals == 0 || ds[d].parent.value == np
  {
    var ms := Moved(ds, d, np, p);
    forall x | 0 <= x < |ds| ensures rs[x].virtual == ds[x].virtual && rs[x].virtuals == ds[x].virtuals {
      assert ms[x].virtual == ds[x].virtual && ms[x].virtuals == ds[x].virtuals;
    }
    MoveCounts(ds, up, d, np, rs);
  }

  /** `ms` with the old entry deleted and the new one added, both as pending changes. */
  ghost function Shown(
    ms: seq<Dir>, vp: seq<set<nat>>, d: nat, op: nat, oldName: string, np: nat, newName: string): (rs: seq<Dir>)
    requires op < |ms| == |vp| && np < |ms|
  {
    Added(Deleted(ms, vp, op, oldName), vp, np, newName, DirNode(d))
  }

  lemma {:induction false} AddedKeepsBalance(
    ds: seq<Dir>, up: seq<set<nat>>, d: nat, items: map<string, Node>, v: map<string, VState>)
    requires d < |ds| && Linked(ds, up)
    ensures var es := ds[d := ds[d].(items := items)];
      Linked(WithMarks(es, up, d, v), up) && (Counted(WithMarks(es, up, d, v), up) <==> Counted(ds, up))
  {
    var es := ds[d := ds[d].(items := items)];
    SameShapeLinked(ds, es, up);
    forall a | 0 <= a < |ds|
      ensures Held(es, up, a, |es|) == Held(ds, up, a, |ds|) && es[a].virtuals == ds[a].virtuals
    {
      HeldFrame(ds, es, up, a, |ds|);
    }
    MarksKeepBalance(es, up, d, v);
  }

  lemma {:induction false} ShownBalance(
    ms: seq<Dir>, vp: seq<set<nat>>, d: nat, op: nat, oldName: string, np: nat, newName: string)
    requires Linked(ms, vp) && op < |ms| && np < |ms|
    ensures var rs := Shown(ms, vp, d, op, oldName, np, newName);
      Linked(rs, vp) && (Counted(rs, vp) <==> Counted(ms, vp))
  {
    AddedKeepsBalance(ms, vp, op, ms[op].items - {oldName}, ms[op].virtual[oldName := Del]);
    var es := Deleted(ms, vp, op, oldName);
    AddedKeepsBalance(es, vp, np, es[np].items[newName := DirNode(d)], es[np].virtual[newName := AddDir]);
  }

  lemma {:induction false} DeletedAt(ds: seq<Dir>, up: seq<set<nat>>, d: nat, leaf: string)
    requires d < |ds| == |up|
    ensures var rs := Deleted(ds, up, d, leaf);
      && |rs| == |ds| && rs[d].items == ds[d].items - {leaf}
      && (forall x :: 0 <= x < |ds| ==> rs[x].parent == ds[x].parent && rs[x].path == ds[x].path)
      && (forall x :: 0 <= x < |ds| && x != d ==> rs[x].items == ds[x].items && rs[x].virtual == ds[x].virtual)
  {
    var es := ds[d := ds[d].(items := ds[d].items - {leaf})];
    WithMarksAt(es, up, d, ds[d].virtual[leaf := Del]);
  }

  lemma {:induction false} ShownAt(
    ms: seq<Dir>, vp: seq<set<nat>>, d: nat, op: nat, oldName: string, np: nat, newName: string)
    requires op < |ms| == |vp| && np < |ms|
    ensures var rs := Shown(ms, vp, d, op, oldName, np, newName);
      && |rs| == |ms|
      && (forall x :: 0 <= x < |ms| ==> rs[x].parent == ms[x].parent && rs[x].path == ms[x].path)
      && (forall x :: 0 <= x < |ms| && x != op && x != np ==>
        rs[x].items == ms[x].items && rs[x].virtual == ms[x].virtual)
      && (op != np ==> rs[op].items == ms[op].items - {oldName} && rs[np].items == ms[np].items[newName := DirNode(d)])
      && (op == np ==> rs[op].items == (ms[op].items - {oldName})[newName := DirNode(d)])
  {
    DeletedAt(ms, vp, op, oldName);
    AddedAt(Deleted(ms, vp, op, oldName), vp, np, newName, DirNode(d));
  }

  lemma {:induction false} ShownNamed(
    ms: seq<Dir>, vp: seq<set<nat>>, files: seq<File>, d: nat, op: nat, oldName: string, np: nat, newName: string)
    requires Linked(ms, vp) && op < |ms| && np < |ms|
    requires NamedBut(ms, files, op, np, oldName)
    requires newName in ms[np].items && ms[np].items[newName] == DirNode(d)
    ensures Named(Shown(ms, vp, d, op, oldName, np, newName), files)
  {
    var rs := Shown(ms, vp, d, op, oldName, np, newName);
    ShownAt(ms, vp, d, op, oldName, np, newName);
    forall x, leaf | 0 <= x < |rs| && leaf in rs[x].items ensures NamedItem(rs, files, x, leaf) {
      assert leaf in ms[x].items && rs[x].items[leaf] == ms[x].items[leaf];
      assert NamedItem(ms, files, x, leaf);
    }
  }

  /** Showing a move leaves the counter of the moved directory alone. */
  lemma {:induction false} CounterKept(
    ms: seq<Dir>, vp: seq<set<nat>>, ds: seq<Dir>, up: seq<set<nat>>, d: nat, op: nat, oldName: string, np: nat,
    newName: string)
    requires Linked(ds, up) && |ms| == |ds| && d < |ds| && op < |ds| && np < |ds|
    requires ds[d].parent == Some(op) && d !in up[np] && vp == Rehung(up, d, op, np)
    ensures Shown(ms, vp, d, op, oldName, np, newName)[d].virtuals == ms[d].virtuals
  {
    assert ChainOf(ds, up, d);
    assert d !in vp[op] && d !in vp[np];
    var ns := ms[op := ms[op].(items := ms[op].items - {oldName})];
    WithMarksAt(ns, vp, op, ms[op].virtual[oldName := Del]);
    var es := Deleted(ms, vp, op, oldName);
    var fs := es[np := es[np].(items := es[np].items[newName := DirNode(d)])];
    WithMarksAt(fs, vp, np, es[np].virtual[newName := AddDir]);
  }

  /** What could be reached inside a moved directory is reached from its new place. */
  lemma {:induction false} MovedWalk(
    ds: seq<Dir>, rs: seq<Dir>, up: seq<set<nat>>, files: seq<File>, d: nat, x: nat, q: seq<string>)
    requires Sound(ds, up, files) && d < |ds| == |rs| && x < |ds| && d in up[x]
    requires forall y :: 0 <= y < |ds| && d in up[y] ==> rs[y].items == ds[y].items
    ensures Walk(rs, x, q) == Walk(ds, x, q)
    decreases |q|
  {
    if q != [] && q[0] in ds[x].items && ds[x].items[q[0]].DirNode? {
      assert NamedItem(ds, files, x, q[0]);
      var c := ds[x].items[q[0]].dir;
      assert ChainOf(ds, up, c);
      MovedWalk(ds, rs, up, files, d, c, q[1..]);
    }
  }

  lemma {:induction false} MovedVirtuals(ds: seq<Dir>, rs: seq<Dir>, up: seq<set<nat>>, d: nat, np: nat, p: seq<string>)
    requires HasMoved(ds, rs, up, d, np, p)
    ensures rs[d].virtuals == ds[d].virtuals
    ensures rs[np].path == ds[np].path
    ensures Name(p) in rs[np].items && rs[np].items[Name(p)] == DirNode(d)
  {
    var ms := Moved(ds, d, np, p);
    assert rs[d] == ms[d].(path := rs[d].path) && rs[np] == ms[np].(path := rs[np].path);
    assert d !in Rehung(up, d, ds[d].parent.value, np)[np];
  }

  // --- What a move does elsewhere ---------------------------------------------------------

  /** The whole of Dir.Rename for the directory `d`, called `oldName` in `op`: forget it, move it to
      `newName` in `np`, and show the move in both. */
  ghost predicate HasRenamed(
    ds: seq<Dir>, rs: seq<Dir>, up: seq<set<nat>>, files: seq<File>, emptyDirs: bool,
    was: seq<Dir>, ms: seq<Dir>, d: nat, op: nat, oldName: string, np: nat, newName: string)
  {
    && Sound(ds, up, files) && d < |ds| && op < |ds| && np < |ds| && d !in up[np]
    && oldName in ds[op].items && ds[op].items[oldName] == DirNode(d)
    && Forgotten(ds, was, up, files, emptyDirs, d)
    && HasMoved(was, ms, up, d, np, ds[np].path + [newName])
    && rs == Shown(ms, Rehung(up, d, op, np), d, op, oldName, np, newName)
  }

  /** Forgetting leaves what is outside the tree alone. */
  lemma {:induction false} ForgottenOutside(
    ds: seq<Dir>, was: seq<Dir>, up: seq<set<nat>>, files: seq<File>, emptyDirs: bool, d: nat, x: nat)
    requires Forgotten(ds, was, up, files, emptyDirs, d) && x < |ds| && d !in up[x]
    ensures was[x].items == ds[x].items && was[x].virtual == ds[x].virtual
  {
    if Reached(ds, up, d, x) {
      ReachedIsBelow(ds, up, d, x);
    }
  }

  lemma {:induction false} MovedOutside(
    was: seq<Dir>, ms: seq<Dir>, up: seq<set<nat>>, d: nat, np: nat, p: seq<string>, x: nat)
    requires HasMoved(was, ms, up, d, np, p) && x < |was| && d !in up[x]
    ensures |ms| == |was| && ms[x].virtual == was[x].virtual
    ensures ms[x].items ==
      if x == np then (was[np].items - {Name(was[d].path)})[Name(p) := DirNode(d)] else was[x].items
  {
    OwnChain(was, up);
    assert d !in Rehung(up, d, was[d].parent.value, np)[x];
    assert ms[x] == Moved(was, d, np, p)[x];
  }

  function ItemsAfter(
    items: map<string, Node>, atOld: bool, atNew: bool, oldName: string, newName: string, d: nat)
    : (r: map<string, Node>)
  {
    var kept := if atOld || atNew then items - {oldName} else items;
    if atNew then kept[newName := DirNode(d)] else kept
  }

  function MarksAfter(
    v: map<string, VState>, atOld: bool, atNew: bool, oldName: string, newName: string): (r: map<string, VState>)
  {
    var w := if atOld then v[oldName := Del] else v;
    if atNew then w[newName := AddDir] else w
  }

  /** Outside the moved tree, before the move is shown. */
  lemma {:induction false} OutsideMoved(
    ds: seq<Dir>, rs: seq<Dir>, up: seq<set<nat>>, files: seq<File>, emptyDirs: bool,
    was: seq<Dir>, ms: seq<Dir>, d: nat, op: nat, oldName: string, np: nat, newName: string, x: nat)
    requires HasRenamed(ds, rs, up, files, emptyDirs, was, ms, d, op, oldName, np, newName)
    requires x < |ds| && d !in up[x]
    ensures |ms| == |ds| && ms[x].virtual == ds[x].virtual
    ensures ms[x].items == ItemsAfter(ds[x].items, false, x == np, oldName, newName, d)
  {
    var p := ds[np].path + [newName];
    CachedChild(ds, up, files, op, oldName);
    assert Name(p) == newName && Name(was[d].path) == oldName;
    ForgottenOutside(ds, was, up, files, emptyDirs, d, x);
    MovedOutside(was, ms, up, d, np, p, x);
  }

  lemma {:induction false} ItemsAgain(
    items: map<string, Node>, atOld: bool, atNew: bool, oldName: string, newName: string, d: nat)
    ensures var m := ItemsAfter(items, false, atNew, oldName, newName, d);
      var k := if atOld then m - {oldName} else m;
      (if atNew then k[newName := DirNode(d)] else k) == ItemsAfter(items, atOld, atNew, oldName, newName, d)
  {
  }

  /** The entries and marks of a directory outside the moved tree afterwards. */
  lemma {:induction false} RenamedOutside(
    ds: seq<Dir>, rs: seq<Dir>, up: seq<set<nat>>, files: seq<File>, emptyDirs: bool,
    was: seq<Dir>, ms: seq<Dir>, d: nat, op: nat, oldName: string, np: nat, newName: string, x: nat)
    requires HasRenamed(ds, rs, up, files, emptyDirs, was, ms, d, op, oldName, np, newName)
    requires x < |ds| && d !in up[x]
    ensures |rs| == |ds|
    ensures rs[x].items == ItemsAfter(ds[x].items, x == op, x == np, oldName, newName, d)
    ensures rs[x].virtual == MarksAfter(ds[x].virtual, x == op, x == np, oldName, newName)
  {
    OutsideMoved(ds, rs, up, files, emptyDirs, was, ms, d, op, oldName, np, newName, x);
    ShownMarks(ms, Rehung(up, d, op, np), d, op, oldName, np, newName, x);
    ItemsAgain(ds[x].items, x == op, x == np, oldName, newName, d);
  }

  lemma {:induction false} ShownMarks(
    ms: seq<Dir>, vp: seq<set<nat>>, d: nat, op: nat, oldName: string, np: nat, newName: string, x: nat)
    requires op < |ms| == |vp| && np < |ms| && x < |ms|
    ensures var rs := Shown(ms, vp, d, op, oldName, np, newName);
      && |rs| == |ms|
      && rs[x].virtual == MarksAfter(ms[x].virtual, x == op, x == np, oldName, newName)
      && rs[x].items ==
        (var k := if x == op then ms[x].items - {oldName} else ms[x].items;
         if x == np then k[newName := DirNode(d)] else k)
  {
    var ns := ms[op := ms[op].(items := ms[op].items - {oldName})];
    WithMarksAt(ns, vp, op, ms[op].virtual[oldName := Del]);
    var es := Deleted(ms, vp, op, oldName);
    AddedAt(es, vp, np, newName, DirNode(d));
  }

  /** Where a moved directory is in the end. */
  lemma {:induction false} MovedPlace(
    ds: seq<Dir>, rs: seq<Dir>, up: seq<set<nat>>, files: seq<File>, emptyDirs: bool,
    was: seq<Dir>, ms: seq<Dir>, d: nat, op: nat, oldName: string, np: nat, newName: string)
    requires HasRenamed(ds, rs, up, files, emptyDirs, was, ms, d, op, oldName, np, newName)
    ensures |rs| == |ds|
    ensures rs[d].parent == Some(np) && rs[d].path == ds[np].path + [newName] && !rs[d].read
    ensures newName in rs[np].items && rs[np].items[newName] == DirNode(d)
    ensures newName in rs[np].virtual && rs[np].virtual[newName] == AddDir
    ensures op != np || oldName != newName ==>
      oldName !in rs[op].items && oldName in rs[op].virtual && rs[op].virtual[oldName] == Del
  {
    var vp := Rehung(up, d, op, np);
    ShownMarks(ms, vp, d, op, oldName, np, newName, np);
    ShownMarks(ms, vp, d, op, oldName, np, newName, op);
    ShownPlace(ms, vp, d, op, oldName, np, newName);
    MovedCell(was, ms, up, d, np, ds[np].path + [newName]);
  }

  lemma {:induction false} ShownPlace(
    ms: seq<Dir>, vp: seq<set<nat>>, d: nat, op: nat, oldName: string, np: nat, newName: string)
    requires op < |ms| == |vp| && np < |ms| && d < |ms|
    ensures var rs := Shown(ms, vp, d, op, oldName, np, newName);
      |rs| == |ms| && rs[d].parent == ms[d].parent && rs[d].path == ms[d].path && rs[d].read == ms[d].read
  {
    var ns := ms[op := ms[op].(items := ms[op].items - {oldName})];
    var v := ms[op].virtual[oldName := Del];
    WithMarksAt(ns, vp, op, v);
    var es := Deleted(ms, vp, op, oldName);
    var fs := es[np := es[np].(items := es[np].items[newName := DirNode(d)])];
    WithMarksAt(fs, vp, np, es[np].virtual[newName := AddDir]);
  }

  lemma {:induction false} MovedCell(
    was: seq<Dir>, ms: seq<Dir>, up: seq<set<nat>>, d: nat, np: nat, p: seq<string>)
    requires HasMoved(was, ms, up, d, np, p)
    ensures |ms| == |was| && ms[d].parent == Some(np) && ms[d].path == p && !ms[d].read
  {
    assert ms[d] == Moved(was, d, np, p)[d].(path := ms[d].path);
  }

  /** What `RenamedOutside` says, of every directory. */
  ghost predicate OutsideAfter(
    ds: seq<Dir>, rs: seq<Dir>, up: seq<set<nat>>, d: nat, op: nat, oldName: string, np: nat, newName: string)
  {
    && |rs| == |ds| == |up|
    && forall x :: 0 <= x < |ds| && d !in up[x] ==> CellAfter(ds[x], rs[x], x == op, x == np, oldName, newName, d)
  }

  ghost predicate CellAfter(a: Dir, b: Dir, atOld: bool, atNew: bool, oldName: string, newName: string, d: nat)
  {
    && b.items == ItemsAfter(a.items, atOld, atNew, oldName, newName, d)
    && b.virtual == MarksAfter(a.virtual, atOld, atNew, oldName, newName)
  }

  lemma {:induction false} AllOutside(
    ds: seq<Dir>, rs: seq<Dir>, up: seq<set<nat>>, files: seq<File>, emptyDirs: bool,
    was: seq<Dir>, ms: seq<Dir>, d: nat, op: nat, oldName: string, np: nat, newName: string)
    requires HasRenamed(ds, rs, up, files, emptyDirs, was, ms, d, op, oldName, np, newName)
    ensures OutsideAfter(ds, rs, up, d, op, oldName, np, newName) && np < |ds| && d !in up[np]
  {
    forall x | 0 <= x < |ds| && d !in up[x]
      ensures |rs| == |ds| && CellAfter(ds[x], rs[x], x == op, x == np, oldName, newName, d)
    {
      RenamedOutside(ds, rs, up, files, emptyDirs, was, ms, d, op, oldName, np, newName, x);
    }
    RenamedOutside(ds, rs, up, files, emptyDirs, was, ms, d, op, oldName, np, newName, np);
  }

  /** Entry `n` of `x`, outside the moved tree, is not one that the move is about. */
  predicate Elsewhere(up: seq<set<nat>>, d: nat, op: nat, oldName: string, np: nat, newName: string, x: nat, n: string)
    requires x < |up|
  {
    d !in up[x] && !(x == op && n == oldName) && !(x == np && n == newName)
  }

  predicate KeepsNode(ds: seq<Dir>, rs: seq<Dir>, x: nat, n: string)
    requires x < |ds| && n in ds[x].items
  {
    x < |rs| && n in rs[x].items && rs[x].items[n] == ds[x].items[n]
  }

  /** Pending work: an entry that is cached, and whose mark outlives a purge. */
  ghost predicate Pending(ds: seq<Dir>, files: seq<File>, emptyDirs: bool, x: nat, n: string)
    requires x < |ds|
  {
    n in ds[x].items && n in Kept(ds[x], files, emptyDirs)
  }

  ghost predicate KeepsPending(ds: seq<Dir>, rs: seq<Dir>, files: seq<File>, emptyDirs: bool, x: nat, n: string)
    requires x < |ds| && n in ds[x].items
  {
    KeepsNode(ds, rs, x, n) && Pending(rs, files, emptyDirs, x, n)
  }

  lemma {:induction false} CellKeeps(
    a: Dir, b: Dir, files: seq<File>, emptyDirs: bool, atOld: bool, atNew: bool, oldName: string, newName: string,
    d: nat, n: string)
    requires CellAfter(a, b, atOld, atNew, oldName, newName, d)
    requires !(atOld && n == oldName) && !(atNew && n == newName) && n in a.items
    ensures n in b.items && b.items[n] == a.items[n] <==> !(atNew && n == oldName)
    ensures n in Kept(a, files, emptyDirs) ==>
      (n in b.items && b.items[n] == a.items[n] && n in Kept(b, files, emptyDirs) <==> !(atNew && n == oldName))
  {
  }

  /** Which entries elsewhere a move drops: that of the new parent under the old name, and no other. */
  lemma {:induction false} RenameDrops(
    ds: seq<Dir>, rs: seq<Dir>, up: seq<set<nat>>, files: seq<File>, emptyDirs: bool,
    d: nat, op: nat, oldName: string, np: nat, newName: string, x: nat, n: string)
    requires OutsideAfter(ds, rs, up, d, op, oldName, np, newName)
    requires x < |ds| && n in ds[x].items && Elsewhere(up, d, op, oldName, np, newName, x, n)
    ensures KeepsNode(ds, rs, x, n) <==> !(x == np && n == oldName)
    ensures Pending(ds, files, emptyDirs, x, n) ==>
      (KeepsPending(ds, rs, files, emptyDirs, x, n) <==> !(x == np && n == oldName))
  {
    CellKeeps(ds[x], rs[x], files, emptyDirs, x == op, x == np, oldName, newName, d, n);
  }

  /** The new parent has an entry of its own under the old name. */
  predicate Clashes(ds: seq<Dir>, op: nat, oldName: string, np: nat, newName: string)
    requires np < |ds|
  {
    op != np && oldName != newName && oldName in ds[np].items
  }

  /** A move keeps all entries elsewhere exactly when there is no clash of names. */
  lemma {:induction false} RenameKeepsEntriesIff(
    ds: seq<Dir>, rs: seq<Dir>, up: seq<set<nat>>, files: seq<File>, emptyDirs: bool,
    was: seq<Dir>, ms: seq<Dir>, d: nat, op: nat, oldName: string, np: nat, newName: string)
    requires HasRenamed(ds, rs, up, files, emptyDirs, was, ms, d, op, oldName, np, newName)
    ensures
      (forall x, n :: 0 <= x < |ds| && n in ds[x].items && Elsewhere(up, d, op, oldName, np, newName, x, n) ==>
        KeepsNode(ds, rs, x, n)) <==> !Clashes(ds, op, oldName, np, newName)
  {
    AllOutside(ds, rs, up, files, emptyDirs, was, ms, d, op, oldName, np, newName);
    KeepsEntriesIff(ds, rs, up, files, emptyDirs, d, op, oldName, np, newName);
  }

  lemma {:induction false} KeepsEntriesIff(
    ds: seq<Dir>, rs: seq<Dir>, up: seq<set<nat>>, files: seq<File>, emptyDirs: bool,
    d: nat, op: nat, oldName: string, np: nat, newName: string)
    requires OutsideAfter(ds, rs, up, d, op, oldName, np, newName) && np < |ds| && d !in up[np]
    ensures
      (forall x, n :: 0 <= x < |ds| && n in ds[x].items && Elsewhere(up, d, op, oldName, np, newName, x, n) ==>
        KeepsNode(ds, rs, x, n)) <==> !Clashes(ds, op, oldName, np, newName)
  {
    if Clashes(ds, op, oldName, np, newName) {
      assert Elsewhere(up, d, op, oldName, np, newName, np, oldName);
      RenameDrops(ds, rs, up, files, emptyDirs, d, op, oldName, np, newName, np, oldName);
    } else {
      forall x, n | 0 <= x < |ds| && n in ds[x].items && Elsewhere(up, d, op, oldName, np, newName, x, n)
        ensures KeepsNode(ds, rs, x, n)
      {
        RenameDrops(ds, rs, up, files, emptyDirs, d, op, oldName, np, newName, x, n);
      }
    }
  }

  /** Inside a moved tree a move is the forgetting that comes first, and nothing else. */
  lemma {:induction false} MovedInside(
    ds: seq<Dir>, rs: seq<Dir>, up: seq<set<nat>>, files: seq<File>, emptyDirs: bool,
    was: seq<Dir>, ms: seq<Dir>, d: nat, op: nat, oldName: string, np: nat, newName: string, x: nat)
    requires HasRenamed(ds, rs, up, files, emptyDirs, was, ms, d, op, oldName, np, newName)
    requires x < |ds| && d in up[x]
    ensures |rs| == |ds| == |was| && rs[x].items == was[x].items && rs[x].virtual == was[x].virtual
  {
    CachedChild(ds, up, files, op, oldName);
    assert x != op && x != np;
    assert ms[x] == Moved(was, d, np, ds[np].path + [newName])[x].(path := ms[x].path);
    ShownMarks(ms, Rehung(up, d, op, np), d, op, oldName, np, newName, x);
  }

  /** A move loses no pending work inside the moved tree: what outlives a purge is found under the new
      path, with the same mark and the same node. */
  lemma {:induction false} RenameKeepsPending(
    ds: seq<Dir>, rs: seq<Dir>, up: seq<set<nat>>, files: seq<File>, emptyDirs: bool,
    was: seq<Dir>, ms: seq<Dir>, d: nat, op: nat, oldName: string, np: nat, newName: string,
    q: seq<string>, name: string)
    requires HasRenamed(ds, rs, up, files, emptyDirs, was, ms, d, op, oldName, np, newName)
    requires Walk(ds, d, q).Some? && Walk(ds, d, q).value < |ds|
    requires name in Kept(ds[Walk(ds, d, q).value], files, emptyDirs)
    ensures |rs| == |ds| && Walk(rs, np, [newName] + q) == Walk(ds, d, q)
    ensures FoundPending(ds, rs, d, q, name)
  {
    RenamedOutside(ds, rs, up, files, emptyDirs, was, ms, d, op, oldName, np, newName, np);
    ForgetKeepsPending(ds, was, up, files, emptyDirs, d, q, name);
    WalkInside(ds, rs, up, files, emptyDirs, was, ms, d, op, oldName, np, newName, q);
    assert ([newName] + q)[1..] == q;
  }

  /** Paths and cells inside a directory that was moved are those after forgetting it. */
  lemma {:induction false} WalkInside(
    ds: seq<Dir>, rs: seq<Dir>, up: seq<set<nat>>, files: seq<File>, emptyDirs: bool,
    was: seq<Dir>, ms: seq<Dir>, d: nat, op: nat, oldName: string, np: nat, newName: string, q: seq<string>)
    requires HasRenamed(ds, rs, up, files, emptyDirs, was, ms, d, op, oldName, np, newName)
    requires |was| == |ds| && Walk(was, d, q).Some?
    ensures |rs| == |ds| && Walk(rs, d, q) == Walk(was, d, q) && Walk(was, d, q).value < |ds|
    ensures var e := Walk(was, d, q).value; rs[e].items == was[e].items && rs[e].virtual == was[e].virtual
  {
    ForgottenSound(ds, was, up, files, emptyDirs, ReachSet(ds, up, d));
    forall y | 0 <= y < |was| && d in up[y] ensures rs[y].items == was[y].items && rs[y].virtual == was[y].virtual {
      MovedInside(ds, rs, up, files, emptyDirs, was, ms, d, op, oldName, np, newName, y);
    }
    OwnChain(was, up);
    MovedWalk(was, rs, up, files, d, d, q);
    WalkReaches(was, up, files, d, d, q);
  }

  // --- Pending work elsewhere, by path ----------------------------------------------------

  /** The path does not go through the entries that the move is about. */
  predicate Avoids(
    ds: seq<Dir>, op: nat, oldName: string, np: nat, newName: string, s: nat, p: seq<string>)
    requires s < |ds|
    decreases |p|
  {
    p != [] ==>
      && !(s == op && p[0] == oldName) && !(s == np && p[0] == newName)
      && (p[0] in ds[s].items && ds[s].items[p[0]].DirNode? && ds[s].items[p[0]].dir < |ds| ==>
            Avoids(ds, op, oldName, np, newName, ds[s].items[p[0]].dir, p[1..]))
  }

  /** The path goes through entry `name` of `x`. */
  predicate Crosses(ds: seq<Dir>, x: nat, name: string, s: nat, p: seq<string>)
    requires s < |ds|
    decreases |p|
  {
    && p != []
    && ((s == x && p[0] == name)
        || (p[0] in ds[s].items && ds[s].items[p[0]].DirNode? && ds[s].items[p[0]].dir < |ds|
            && Crosses(ds, x, name, ds[s].items[p[0]].dir, p[1..])))
  }

  /** A path outside the moved tree that is not about the move leads where it led, unless it goes
      through what the new parent has under the old name. */
  lemma {:induction false} WalkRenamed(
    ds: seq<Dir>, rs: seq<Dir>, up: seq<set<nat>>, files: seq<File>,
    d: nat, op: nat, oldName: string, np: nat, newName: string, s: nat, p: seq<string>)
    requires Sound(ds, up, files) && OutsideAfter(ds, rs, up, d, op, oldName, np, newName)
    requires op < |ds| && oldName in ds[op].items && ds[op].items[oldName] == DirNode(d)
    requires s < |ds| && d !in up[s] && Walk(ds, s, p).Some? && Avoids(ds, op, oldName, np, newName, s, p)
    ensures Walk(ds, s, p).value < |ds| && d !in up[Walk(ds, s, p).value]
    ensures Walk(rs, s, p) == Walk(ds, s, p) <==> !Crosses(ds, np, oldName, s, p)
    decreases |p|
  {
    if p != [] {
      var leaf := p[0];
      CachedChild(ds, up, files, s, leaf);
      CachedChild(ds, up, files, op, oldName);
      var c := ds[s].items[leaf].dir;
      assert c != d by {
        assert (ds[s].path + [leaf])[|ds[s].path|] == leaf;
        assert (ds[op].path + [oldName])[|ds[op].path|] == oldName;
      }
      WalkRenamed(ds, rs, up, files, d, op, oldName, np, newName, c, p[1..]);
      StepKept(ds[s], rs[s], s == op, s == np, oldName, newName, d, leaf);
    }
  }

  lemma {:induction false} StepKept(
    a: Dir, b: Dir, atOld: bool, atNew: bool, oldName: string, newName: string, d: nat, n: string)
    requires CellAfter(a, b, atOld, atNew, oldName, newName, d)
    requires !(atOld && n == oldName) && !(atNew && n == newName) && n in a.items
    ensures n in b.items <==> !(atNew && n == oldName)
    ensures n in b.items ==> b.items[n] == a.items[n]
  {
  }

  /** What is pending as `n` at the end of path `p` from `s`, outside the moved tree, and is not what
      the move is about. */
  ghost predicate PendingAt(
    ds: seq<Dir>, up: seq<set<nat>>, files: seq<File>, emptyDirs: bool,
    d: nat, op: nat, oldName: string, np: nat, newName: string, s: nat, p: seq<string>, n: string)
    requires |up| == |ds|
  {
    && s < |ds| && d !in up[s] && Walk(ds, s, p).Some? && Walk(ds, s, p).value < |ds|
    && Avoids(ds, op, oldName, np, newName, s, p)
    && Elsewhere(up, d, op, oldName, np, newName, Walk(ds, s, p).value, n)
    && Pending(ds, files, emptyDirs, Walk(ds, s, p).value, n)
  }

  /** The entry of the new parent under the old name is pending, or something reached through it is. */
  ghost predicate PendingThrough(
    ds: seq<Dir>, up: seq<set<nat>>, files: seq<File>, emptyDirs: bool,
    d: nat, op: nat, oldName: string, np: nat, newName: string)
    requires np < |ds| == |up|
  {
    || Pending(ds, files, emptyDirs, np, oldName)
    || exists p, n :: ThroughAt(ds, up, files, emptyDirs, d, op, oldName, np, newName, p, n)
  }

  ghost predicate ThroughAt(
    ds: seq<Dir>, up: seq<set<nat>>, files: seq<File>, emptyDirs: bool,
    d: nat, op: nat, oldName: string, np: nat, newName: string, p: seq<string>, n: string)
    requires |up| == |ds|
  {
    p != [] && p[0] == oldName && PendingAt(ds, up, files, emptyDirs, d, op, oldName, np, newName, np, p, n)
  }

  /** The part of a path from where it goes through the clashing entry. */
  lemma {:induction false} CrossingPart(
    ds: seq<Dir>, up: seq<set<nat>>, files: seq<File>, emptyDirs: bool,
    d: nat, op: nat, oldName: string, np: nat, newName: string, s: nat, p: seq<string>, n: string)
    returns (q: seq<string>)
    requires Sound(ds, up, files) && op < |ds| && oldName in ds[op].items && ds[op].items[oldName] == DirNode(d)
    requires PendingAt(ds, up, files, emptyDirs, d, op, oldName, np, newName, s, p, n)
    requires Crosses(ds, np, oldName, s, p)
    ensures ThroughAt(ds, up, files, emptyDirs, d, op, oldName, np, newName, q, n)
    ensures op != np && oldName != newName && np < |ds| && oldName in ds[np].items
    decreases |p|
  {
    if s == np && p[0] == oldName {
      q := p;
    } else {
      var c := ds[s].items[p[0]].dir;
      CachedChild(ds, up, files, s, p[0]);
      CachedChild(ds, up, files, op, oldName);
      assert c != d by {
        assert (ds[s].path + [p[0]])[|ds[s].path|] == p[0];
        assert (ds[op].path + [oldName])[|ds[op].path|] == oldName;
      }
      q := CrossingPart(ds, up, files, emptyDirs, d, op, oldName, np, newName, c, p[1..], n);
    }
  }

  /** What is pending elsewhere is found where it was, unless the move takes it or the way to it. */
  lemma {:induction false} PendingFound(
    ds: seq<Dir>, rs: seq<Dir>, up: seq<set<nat>>, files: seq<File>, emptyDirs: bool,
    d: nat, op: nat, oldName: string, np: nat, newName: string, s: nat, p: seq<string>, n: string)
    requires Sound(ds, up, files) && OutsideAfter(ds, rs, up, d, op, oldName, np, newName)
    requires op < |ds| && oldName in ds[op].items && ds[op].items[oldName] == DirNode(d)
    requires PendingAt(ds, up, files, emptyDirs, d, op, oldName, np, newName, s, p, n)
    ensures FoundPending(ds, rs, s, p, n) <==>
      !Crosses(ds, np, oldName, s, p) && !(Walk(ds, s, p).value == np && n == oldName)
  {
    var e := Walk(ds, s, p).value;
    WalkRenamed(ds, rs, up, files, d, op, oldName, np, newName, s, p);
    RenameDrops(ds, rs, up, files, emptyDirs, d, op, oldName, np, newName, e, n);
    MarkKept(ds[e], rs[e], e == op, e == np, oldName, newName, d, n);
  }

  lemma {:induction false} MarkKept(
    a: Dir, b: Dir, atOld: bool, atNew: bool, oldName: string, newName: string, d: nat, n: string)
    requires CellAfter(a, b, atOld, atNew, oldName, newName, d)
    requires !(atOld && n == oldName) && !(atNew && n == newName) && n in a.virtual
    ensures n in b.virtual && b.virtual[n] == a.virtual[n]
  {
  }

  /** A move keeps all pending work elsewhere where it is found, exactly when the new parent has no entry
      of its own under the old name that is pending or leads to pending work. */
  lemma {:induction false} RenameKeepsPendingIff(
    ds: seq<Dir>, rs: seq<Dir>, up: seq<set<nat>>, files: seq<File>, emptyDirs: bool,
    was: seq<Dir>, ms: seq<Dir>, d: nat, op: nat, oldName: string, np: nat, newName: string)
    requires HasRenamed(ds, rs, up, files, emptyDirs, was, ms, d, op, oldName, np, newName)
    ensures |rs| == |ds|
    ensures
      (forall s, p, n :: PendingAt(ds, up, files, emptyDirs, d, op, oldName, np, newName, s, p, n) ==>
        FoundPending(ds, rs, s, p, n)) <==>
      !(Clashes(ds, op, oldName, np, newName) &&
        PendingThrough(ds, up, files, emptyDirs, d, op, oldName, np, newName))
  {
    AllOutside(ds, rs, up, files, emptyDirs, was, ms, d, op, oldName, np, newName);
    KeepsPendingIff(ds, rs, up, files, emptyDirs, d, op, oldName, np, newName);
  }

  lemma {:induction false} KeepsPendingIff(
    ds: seq<Dir>, rs: seq<Dir>, up: seq<set<nat>>, files: seq<File>, emptyDirs: bool,
    d: nat, op: nat, oldName: string, np: nat, newName: string)
    requires Sound(ds, up, files) && OutsideAfter(ds, rs, up, d, op, oldName, np, newName)
    requires op < |ds| && oldName in ds[op].items && ds[op].items[oldName] == DirNode(d)
    requires np < |ds| && d !in up[np]
    ensures
      (forall s, p, n :: PendingAt(ds, up, files, emptyDirs, d, op, oldName, np, newName, s, p, n) ==>
        FoundPending(ds, rs, s, p, n)) <==>
      !(Clashes(ds, op, oldName, np, newName) &&
        PendingThrough(ds, up, files, emptyDirs, d, op, oldName, np, newName))
  {
    if Clashes(ds, op, oldName, np, newName) && PendingThrough(ds, up, files, emptyDirs, d, op, oldName, np, newName) {
      var p, n := ClashLost(ds, rs, up, files, emptyDirs, d, op, oldName, np, newName);
    } else {
      forall s, p, n | PendingAt(ds, up, files, emptyDirs, d, op, oldName, np, newName, s, p, n)
        ensures FoundPending(ds, rs, s, p, n)
      {
        PendingFound(ds, rs, up, files, emptyDirs, d, op, oldName, np, newName, s, p, n);
        if Crosses(ds, np, oldName, s, p) {
          var q := CrossingPart(ds, up, files, emptyDirs, d, op, oldName, np, newName, s, p, n);
        }
      }
    }
  }

  lemma {:induction false} ClashLost(
    ds: seq<Dir>, rs: seq<Dir>, up: seq<set<nat>>, files: seq<File>, emptyDirs: bool,
    d: nat, op: nat, oldName: string, np: nat, newName: string) returns (p: seq<string>, n: string)
    requires Sound(ds, up, files) && OutsideAfter(ds, rs, up, d, op, oldName, np, newName)
    requires op < |ds| && oldName in ds[op].items && ds[op].items[oldName] == DirNode(d)
    requires np < |ds| && d !in up[np] && Clashes(ds, op, oldName, np, newName)
    requires PendingThrough(ds, up, files, emptyDirs, d, op, oldName, np, newName)
    ensures PendingAt(ds, up, files, emptyDirs, d, op, oldName, np, newName, np, p, n)
    ensures !FoundPending(ds, rs, np, p, n)
  {
    if Pending(ds, files, emptyDirs, np, oldName) {
      p, n := [], oldName;
    } else {
      p, n :| ThroughAt(ds, up, files, emptyDirs, d, op, oldName, np, newName, p, n);
    }
    PendingFound(ds, rs, up, files, emptyDirs, d, op, oldName, np, newName, np, p, n);
  }

  // --- Cases that show it -----------------------------------------------------------------

  /** A tree with directories `a`, `b` and `a/d`, and a file pending in `a/d`. */
  function PendingTree(): (ds: seq<Dir>)
  {
    [ Dir(None, [], map["a" := DirNode(1), "b" := DirNode(2)], map[], 1, true),
      Dir(Some(0), ["a"], map["d" := DirNode(3)], map[], 1, true),
      Dir(Some(0), ["b"], map[], map[], 0, true),
      Dir(Some(1), ["a", "d"], map["f" := FileNode(0)], map["f" := AddFile], 1, true)]
  }

  /** The file is being written. */
  function PendingFiles(): (files: seq<File>)
  {
    [File(3, "f", None, 1, false)]
  }

  function PendingChains(): (up: seq<set<nat>>)
  {
    [{0}, {0, 1}, {0, 2}, {0, 1, 3}]
  }

  lemma {:induction false} PendingTreeSound()
    ensures Sound(PendingTree(), PendingChains(), PendingFiles())
  {
    PendingTreeNamed();
    PendingTreeLinked();
    var ds, up := PendingTree(), PendingChains();
    forall a | 0 <= a < |ds| ensures ds[a].virtuals == Held(ds, up, a, |ds|) {
      PendingHeld(a);
    }
  }

  lemma {:induction false} PendingTreeLinked()
    ensures Linked(PendingTree(), PendingChains())
  {
    var ds, up := PendingTree(), PendingChains();
    assert ChainOf(ds, up, 0) && ChainOf(ds, up, 1) && ChainOf(ds, up, 2) && ChainOf(ds, up, 3);
  }

  lemma {:induction false} PendingTreeNamed()
    ensures Named(PendingTree(), PendingFiles())
  {
  }

  lemma {:induction false} PendingHeld(a: nat)
    ensures Held(PendingTree(), PendingChains(), a, 4) == if a in {0, 1, 3} then 1 else 0
  {
    var ds, up := PendingTree(), PendingChains();
    assert |map["f" := AddFile]| == 1;
    assert Held(ds, up, a, 1) == 0;
    assert Held(ds, up, a, 2) == 0;
    assert Held(ds, up, a, 3) == 0;
  }

  /** Nothing can be forgotten of `a/d`. */
  lemma {:induction false} PendingForgotten(emptyDirs: bool)
    ensures Forgotten(PendingTree(), PendingTree(), PendingChains(), PendingFiles(), emptyDirs, 3)
  {
    var ds, up, files := PendingTree(), PendingChains(), PendingFiles();
    PendingTreeSound();
    assert Kept(ds[3], files, emptyDirs) == ds[3].virtual;
    forall e | 0 <= e < |ds| && e in ReachSet(ds, up, 3) ensures Visited(ds[e], ds[e], files, emptyDirs) {
      ReachedIsBelow(ds, up, 3, e);
    }
  }

  /** A case in which moving a directory leaves the counters wrong: `a/d` moved to `b/d`. */
  lemma {:induction false} MoveLosesCounts(emptyDirs: bool)
    ensures var ds, up, p := PendingTree(), PendingChains(), ["b", "d"];
      var ms := Moved(ds, 3, 2, p);
      var vp := Rehung(up, 3, 1, 2);
      && Sound(ds, up, PendingFiles()) && Forgotten(ds, ds, up, PendingFiles(), emptyDirs, 3)
      && HasMoved(ds, ms, up, 3, 2, p) && !Counted(ms, vp)
      && !Counted(Shown(ms, vp, 3, 1, "d", 2, "d"), vp)
  {
    PendingTreeSound();
    PendingForgotten(emptyDirs);
    var ds, up, p := PendingTree(), PendingChains(), ["b", "d"];
    var ms := Moved(ds, 3, 2, p);
    assert p == ds[2].path + [Name(p)];
    assert HasMoved(ds, ms, up, 3, 2, p);
    MovedCounts(ds, ms, up, 3, 2, p);
    RehungLinked(ds, up, 3, 2, ms);
    ShownBalance(ms, Rehung(up, 3, 1, 2), 3, 1, "d", 2, "d");
  }

  /** A tree with directories `a`, `b` and `a/x`, and a file pending in `b` that is called `x` too. */
  function ClashTree(): (ds: seq<Dir>)
  {
    [ Dir(None, [], map["a" := DirNode(1), "b" := DirNode(2)], map[], 1, true),
      Dir(Some(0), ["a"], map["x" := DirNode(3)], map[], 0, true),
      Dir(Some(0), ["b"], map["x" := FileNode(0)], map["x" := AddFile], 1, true),
      Dir(Some(1), ["a", "x"], map[], map[], 0, false)]
  }

  function ClashFiles(): (files: seq<File>)
  {
    [File(2, "x", None, 1, false)]
  }

  lemma {:induction false} ClashHeld(a: nat)
    ensures Held(ClashTree(), PendingChains(), a, 4) == if a in {0, 2} then 1 else 0
  {
    var ds, up := ClashTree(), PendingChains();
    assert |map["x" := AddFile]| == 1;
    assert Held(ds, up, a, 1) == 0;
    assert Held(ds, up, a, 2) == 0;
    assert Held(ds, up, a, 3) == if a in {0, 2} then 1 else 0;
  }

  lemma {:induction false} ClashLinked()
    ensures Linked(ClashTree(), PendingChains())
  {
    var ds, up := ClashTree(), PendingChains();
    assert ChainOf(ds, up, 0) && ChainOf(ds, up, 1) && ChainOf(ds, up, 2) && ChainOf(ds, up, 3);
  }

  lemma {:induction false} ClashNamed()
    ensures Named(ClashTree(), ClashFiles())
  {
  }

  lemma {:induction false} ClashSound()
    ensures Sound(ClashTree(), PendingChains(), ClashFiles())
  {
    ClashNamed();
    ClashLinked();
    var ds, up := ClashTree(), PendingChains();
    forall a | 0 <= a < |ds| ensures ds[a].virtuals == Held(ds, up, a, |ds|) {
      ClashHeld(a);
    }
  }

  lemma {:induction false} ClashForgotten(emptyDirs: bool)
    ensures Forgotten(ClashTree(), ClashTree(), PendingChains(), ClashFiles(), emptyDirs, 3)
  {
    var ds, up, files := ClashTree(), PendingChains(), ClashFiles();
    ClashSound();
    assert Kept(ds[3], files, emptyDirs) == map[];
    forall e | 0 <= e < |ds| && e in ReachSet(ds, up, 3) ensures Visited(ds[e], ds[e], files, emptyDirs) {
      ReachedIsBelow(ds, up, 3, e);
    }
  }

  ghost function ClashMoved(): (ms: seq<Dir>)
  {
    Moved(ClashTree(), 3, 2, ["b", "y"])
  }

  ghost function ClashShown(): (rs: seq<Dir>)
  {
    Shown(ClashMoved(), Rehung(PendingChains(), 3, 1, 2), 3, 1, "x", 2, "y")
  }

  lemma {:induction false} ClashRenamed(emptyDirs: bool)
    ensures HasRenamed(ClashTree(), ClashShown(), PendingChains(), ClashFiles(), emptyDirs,
      ClashTree(), ClashMoved(), 3, 1, "x", 2, "y")
  {
    var ds, up, p := ClashTree(), PendingChains(), ["b", "y"];
    ClashSound();
    ClashForgotten(emptyDirs);
    assert p == ds[2].path + ["y"] && Name(p) == "y";
    assert HasMoved(ds, ClashMoved(), up, 3, 2, p);
  }

  /** A case in which moving a directory loses pending work elsewhere: `a/x` moved to `b/y` takes the
      file `x` of `b` out of the cache, so that its mark is dropped at the next purge. */
  lemma {:induction false} MoveLosesPending(emptyDirs: bool)
    ensures HasRenamed(ClashTree(), ClashShown(), PendingChains(), ClashFiles(), emptyDirs,
      ClashTree(), ClashMoved(), 3, 1, "x", 2, "y")
    ensures "x" in Kept(ClashTree()[2], ClashFiles(), emptyDirs)
    ensures var rs := ClashShown();
      && |rs| == 4 && "x" !in rs[2].items && "x" in rs[2].virtual
      && "x" !in Kept(rs[2], ClashFiles(), emptyDirs)
  {
    ClashRenamed(emptyDirs);
    RenamedOutside(ClashTree(), ClashShown(), PendingChains(), ClashFiles(), emptyDirs,
      ClashTree(), ClashMoved(), 3, 1, "x", 2, "y", 2);
    assert "x" in ClashTree()[2].virtual;
  }

  /** A tree with directories `a`, `b`, `a/x` and `b/x`, and a file pending in `b/x`. */
  function DeepClashTree(): (ds: seq<Dir>)
  {
    [ Dir(None, [], map["a" := DirNode(1), "b" := DirNode(2)], map[], 1, true),
      Dir(Some(0), ["a"], map["x" := DirNode(3)], map[], 0, true),
      Dir(Some(0), ["b"], map["x" := DirNode(4)], map[], 1, true),
      Dir(Some(1), ["a", "x"], map[], map[], 0, false),
      Dir(Some(2), ["b", "x"], map["f" := FileNode(0)], map["f" := AddFile], 1, true)]
  }

  function DeepClashChains(): (up: seq<set<nat>>)
  {
    [{0}, {0, 1}, {0, 2}, {0, 1, 3}, {0, 2, 4}]
  }

  function DeepClashFiles(): (files: seq<File>)
  {
    [File(4, "f", None, 1, false)]
  }

  lemma {:induction false} DeepClashHeld(a: nat)
    ensures Held(DeepClashTree(), DeepClashChains(), a, 5) == if a in {0, 2, 4} then 1 else 0
  {
    var ds, up := DeepClashTree(), DeepClashChains();
    assert |map["f" := AddFile]| == 1;
    assert Held(ds, up, a, 1) == 0;
    assert Held(ds, up, a, 2) == 0;
    assert Held(ds, up, a, 3) == 0;
    assert Held(ds, up, a, 4) == 0;
  }

  lemma {:induction false} DeepClashLinked()
    ensures Linked(DeepClashTree(), DeepClashChains())
  {
    var ds, up := DeepClashTree(), DeepClashChains();
    assert ChainOf(ds, up, 0) && ChainOf(ds, up, 1) && ChainOf(ds, up, 2) && ChainOf(ds, up, 3) && ChainOf(ds, up, 4);
  }

  lemma {:induction false} DeepClashNamed()
    ensures Named(DeepClashTree(), DeepClashFiles())
  {
  }

  lemma {:induction false} DeepClashSound()
    ensures Sound(DeepClashTree(), DeepClashChains(), DeepClashFiles())
  {
    DeepClashNamed();
    DeepClashLinked();
    var ds, up := DeepClashTree(), DeepClashChains();
    forall a | 0 <= a < |ds| ensures ds[a].virtuals == Held(ds, up, a, |ds|) {
      DeepClashHeld(a);
    }
  }

  lemma {:induction false} DeepClashForgotten(emptyDirs: bool)
    ensures Forgotten(DeepClashTree(), DeepClashTree(), DeepClashChains(), DeepClashFiles(), emptyDirs, 3)
  {
    var ds, up, files := DeepClashTree(), DeepClashChains(), DeepClashFiles();
    DeepClashSound();
    assert Kept(ds[3], files, emptyDirs) == map[];
    forall e | 0 <= e < |ds| && e in ReachSet(ds, up, 3) ensures Visited(ds[e], ds[e], files, emptyDirs) {
      ReachedIsBelow(ds, up, 3, e);
    }
  }

  ghost function DeepClashMoved(): (ms: seq<Dir>)
  {
    Moved(DeepClashTree(), 3, 2, ["b", "y"])
  }

  ghost function DeepClashShown(): (rs: seq<Dir>)
  {
    Shown(DeepClashMoved(), Rehung(DeepClashChains(), 3, 1, 2), 3, 1, "x", 2, "y")
  }

  lemma {:induction false} DeepClashRenamed(emptyDirs: bool)
    ensures HasRenamed(DeepClashTree(), DeepClashShown(), DeepClashChains(), DeepClashFiles(), emptyDirs,
      DeepClashTree(), DeepClashMoved(), 3, 1, "x", 2, "y")
  {
    var ds, up, p := DeepClashTree(), DeepClashChains(), ["b", "y"];
    DeepClashSound();
    DeepClashForgotten(emptyDirs);
    assert p == ds[2].path + ["y"] && Name(p) == "y";
    assert HasMoved(ds, DeepClashMoved(), up, 3, 2, p);
  }

  /** A case in which moving a directory loses the way to pending work elsewhere: `a/x` moved to `b/y`
      takes the directory `b/x` out of the cache, with the file in it. */
  lemma {:induction false} MoveLosesBelow(emptyDirs: bool)
    ensures HasRenamed(DeepClashTree(), DeepClashShown(), DeepClashChains(), DeepClashFiles(), emptyDirs,
      DeepClashTree(), DeepClashMoved(), 3, 1, "x", 2, "y")
    ensures Walk(DeepClashTree(), 2, ["x"]) == Some(4) && Pending(DeepClashTree(), DeepClashFiles(), emptyDirs, 4, "f")
    ensures |DeepClashShown()| == 5 && Walk(DeepClashShown(), 2, ["x"]) == None
  {
    DeepClashRenamed(emptyDirs);
    RenamedOutside(DeepClashTree(), DeepClashShown(), DeepClashChains(), DeepClashFiles(), emptyDirs,
      DeepClashTree(), DeepClashMoved(), 3, 1, "x", 2, "y", 2);
    assert ["x"][1..] == [] && Walk(DeepClashTree(), 4, []) == Some(4);
    assert "f" in DeepClashTree()[4].virtual;
  }
}

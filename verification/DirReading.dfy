/** How a listing is read, one entry after the other (vfs/dir.go). */
module DirReading {
  import opened Wrappers
  import opened DirModel
  import opened DirListing

  // --- What a read spares -----------------------------------------------------------------

  /** A read of `d` may come to `x`, at or below it, with a listing that contains `n`. */
  ghost predicate ReadAt(ds: seq<Dir>, up: seq<set<nat>>, d: nat, t: Tree, x: nat, n: string)
    requires d < |ds| == |up| && x < |ds|
  {
    d in up[x] && ds[d].path <= ds[x].path && n in Listed(TreeAt(t, ds[x].path[|ds[d].path|..]).entries)
  }

  /** If the mark of `n` in `x` outlives a purge, it is still there, and so is its entry. */
  ghost predicate Lasts(ds: seq<Dir>, files: seq<File>, emptyDirs: bool, rs: seq<Dir>, x: nat, n: string)
    requires x < |ds| && n in ds[x].virtual
  {
    Survives(ds[x], files, emptyDirs, n) ==>
      x < |rs| && n in rs[x].virtual && (n in ds[x].items ==> n in rs[x].items)
  }

  /** A read of `d` drops no mark that outlives a purge, unless it is listed where it is. */
  ghost predicate Spared(
    ds: seq<Dir>, up: seq<set<nat>>, files: seq<File>, emptyDirs: bool, rs: seq<Dir>, d: nat, t: Tree)
    requires d < |ds| == |up|
  {
    forall x, n :: 0 <= x < |ds| && n in ds[x].virtual && !ReadAt(ds, up, d, t, x, n) ==>
      Lasts(ds, files, emptyDirs, rs, x, n)
  }

  lemma {:induction false} LastsTrans(
    ds: seq<Dir>, files: seq<File>, emptyDirs: bool, rs: seq<Dir>, more: seq<File>, ts: seq<Dir>, x: nat, n: string)
    requires Fewer(ds, files, rs, more) && x < |ds| && n in ds[x].virtual
    requires Lasts(ds, files, emptyDirs, rs, x, n)
    requires x < |rs| && n in rs[x].virtual ==> Lasts(rs, more, emptyDirs, ts, x, n)
    ensures Lasts(ds, files, emptyDirs, ts, x, n)
  {
    if Survives(ds[x], files, emptyDirs, n) {
      assert StillPending(ds, files, rs, more, x, n);
    }
  }

  lemma {:induction false} SparedTrans(
    ds: seq<Dir>, up: seq<set<nat>>, files: seq<File>, emptyDirs: bool, rs: seq<Dir>, vp: seq<set<nat>>,
    more: seq<File>,
    ts: seq<Dir>, d: nat, t: Tree)
    requires d < |ds| && Grown(ds, rs, up, vp, d) && Fewer(ds, files, rs, more)
    requires Spared(ds, up, files, emptyDirs, rs, d, t) && Spared(rs, vp, more, emptyDirs, ts, d, t)
    ensures Spared(ds, up, files, emptyDirs, ts, d, t)
  {
    forall x, n | 0 <= x < |ds| && n in ds[x].virtual && !ReadAt(ds, up, d, t, x, n)
      ensures Lasts(ds, files, emptyDirs, ts, x, n)
    {
      assert !ReadAt(rs, vp, d, t, x, n);
      LastsTrans(ds, files, emptyDirs, rs, more, ts, x, n);
    }
  }

  /** Nothing happened to the marks and the marked entries of what was there before. */
  lemma {:induction false} SparedSame(
    ds: seq<Dir>, up: seq<set<nat>>, files: seq<File>, emptyDirs: bool, rs: seq<Dir>, d: nat, t: Tree)
    requires d < |ds| == |up| && |ds| <= |rs|
    requires forall x :: 0 <= x < |ds| ==> rs[x].virtual == ds[x].virtual && rs[x].items == ds[x].items
    ensures Spared(ds, up, files, emptyDirs, rs, d, t)
  {
    forall x, n | 0 <= x < |ds| && n in ds[x].virtual ensures Lasts(ds, files, emptyDirs, rs, x, n) {
    }
  }

  /** Marks of `d` were dropped, each of which is listed or does not outlive a purge. */
  lemma {:induction false} SparedMarks(
    ds: seq<Dir>, up: seq<set<nat>>, files: seq<File>, emptyDirs: bool, d: nat, t: Tree, v: map<string, VState>)
    requires Linked(ds, up) && d < |ds|
    requires forall n :: n in ds[d].virtual && n !in v ==>
      !Survives(ds[d], files, emptyDirs, n) || n in Listed(t.entries)
    ensures Spared(ds, up, files, emptyDirs, WithMarks(ds, up, d, v), d, t)
  {
    OwnChain(ds, up);
    WithMarksAt(ds, up, d, v);
    assert ds[d].path[|ds[d].path|..] == [];
    forall x, n | 0 <= x < |ds| && n in ds[x].virtual && !ReadAt(ds, up, d, t, x, n)
      ensures Lasts(ds, files, emptyDirs, WithMarks(ds, up, d, v), x, n)
    {
    }
  }

  /** Entries of `d` changed, but none that is marked was dropped. */
  lemma {:induction false} SparedItems(
    ds: seq<Dir>, up: seq<set<nat>>, files: seq<File>, emptyDirs: bool, rs: seq<Dir>, d: nat, t: Tree,
    c: nat, items: map<string, Node>)
    requires d < |ds| == |up| && Spared(ds, up, files, emptyDirs, rs, d, t) && c < |rs|
    requires forall n :: n in rs[c].virtual && n in rs[c].items ==> n in items
    ensures Spared(ds, up, files, emptyDirs, rs[c := rs[c].(items := items)], d, t)
  {
    var ts := rs[c := rs[c].(items := items)];
    forall x, n | 0 <= x < |ds| && n in ds[x].virtual && !ReadAt(ds, up, d, t, x, n)
      ensures Lasts(ds, files, emptyDirs, ts, x, n)
    {
      assert Lasts(ds, files, emptyDirs, rs, x, n);
    }
  }

  lemma {:induction false} SparedFlag(
    ds: seq<Dir>, up: seq<set<nat>>, files: seq<File>, emptyDirs: bool, rs: seq<Dir>, d: nat, t: Tree, c: nat,
    read: bool)
    requires d < |ds| == |up| && Spared(ds, up, files, emptyDirs, rs, d, t) && c < |rs|
    ensures Spared(ds, up, files, emptyDirs, rs[c := rs[c].(read := read)], d, t)
  {
    var ts := rs[c := rs[c].(read := read)];
    forall x, n | 0 <= x < |ds| && n in ds[x].virtual && !ReadAt(ds, up, d, t, x, n)
      ensures Lasts(ds, files, emptyDirs, ts, x, n)
    {
      assert Lasts(ds, files, emptyDirs, rs, x, n);
    }
  }

  /** What a read of a sub-directory comes to, a read of its parent comes to with the same listing. */
  lemma {:induction false} ReadAtBelow(
    ds: seq<Dir>, up: seq<set<nat>>, d: nat, t: Tree, leaf: string, c: nat, x: nat, n: string)
    requires Linked(ds, up) && d < |ds| && c < |ds| && x < |ds|
    requires ds[c].parent == Some(d) && ds[c].path == ds[d].path + [leaf]
    requires ReadAt(ds, up, c, Below(t, leaf), x, n)
    ensures ReadAt(ds, up, d, t, x, n)
  {
    assert ChainOf(ds, up, c);
    OwnChain(ds, up);
    ChainIn(ds, up, x, c);
    var k := |ds[d].path|;
    var p := ds[x].path[k..];
    assert ds[c].path[k] == leaf == ds[x].path[k];
    assert p[0] == leaf && p[1..] == ds[x].path[k + 1..];
  }

  lemma {:induction false} SparedBelow(
    ds: seq<Dir>, up: seq<set<nat>>, files: seq<File>, emptyDirs: bool, rs: seq<Dir>, d: nat, t: Tree,
    leaf: string, c: nat)
    requires Linked(ds, up) && d < |ds| && c < |ds|
    requires ds[c].parent == Some(d) && ds[c].path == ds[d].path + [leaf]
    requires Spared(ds, up, files, emptyDirs, rs, c, Below(t, leaf))
    ensures Spared(ds, up, files, emptyDirs, rs, d, t)
  {
    forall x, n | 0 <= x < |ds| && n in ds[x].virtual && !ReadAt(ds, up, d, t, x, n)
      ensures Lasts(ds, files, emptyDirs, rs, x, n)
    {
      if ReadAt(ds, up, c, Below(t, leaf), x, n) {
        ReadAtBelow(ds, up, d, t, leaf, c, x, n);
      }
    }
  }

  // --- Reading a listing ------------------------------------------------------------------

  /** From `ds` to `rs` directories were only added, links and paths stayed, and entries and marks
      changed at or below `d` only. */
  ghost predicate Grown(ds: seq<Dir>, rs: seq<Dir>, up: seq<set<nat>>, vp: seq<set<nat>>, d: nat)
  {
    && |up| == |ds| <= |rs| == |vp|
    && (forall x :: 0 <= x < |ds| ==> vp[x] == up[x])
    && (forall x :: 0 <= x < |ds| ==> rs[x].parent == ds[x].parent && rs[x].path == ds[x].path)
    && (forall x :: 0 <= x < |ds| && d !in up[x] ==>
          rs[x].items == ds[x].items && rs[x].virtual == ds[x].virtual && rs[x].read == ds[x].read)
  }

  lemma {:induction false} GrownTrans(
    ds: seq<Dir>, rs: seq<Dir>, ts: seq<Dir>, up: seq<set<nat>>, vp: seq<set<nat>>, wp: seq<set<nat>>, d: nat)
    requires Grown(ds, rs, up, vp, d) && Grown(rs, ts, vp, wp, d)
    ensures Grown(ds, ts, up, wp, d)
  {
  }

  lemma {:induction false} GrownAt(
    ds: seq<Dir>, rs: seq<Dir>, up: seq<set<nat>>, vp: seq<set<nat>>, d: nat, items: map<string, Node>)
    requires Grown(ds, rs, up, vp, d) && d < |ds| && d in up[d]
    ensures Grown(ds, rs[d := rs[d].(items := items)], up, vp, d)
  {
  }

  /** What happens below a sub-directory happens below its parent. */
  lemma {:induction false} GrownBelow(ds: seq<Dir>, rs: seq<Dir>, up: seq<set<nat>>, vp: seq<set<nat>>, d: nat, c: nat)
    requires Linked(ds, up) && d < |ds| && c < |ds| && ds[c].parent == Some(d) && Grown(ds, rs, up, vp, c)
    ensures Grown(ds, rs, up, vp, d)
    ensures rs[d].items == ds[d].items && rs[d].virtual == ds[d].virtual && rs[d].read == ds[d].read
  {
    assert ChainOf(ds, up, c);
    OwnChain(ds, up);
    forall x | 0 <= x < |ds| && c in up[x] ensures d in up[x] {
      ChainIn(ds, up, x, c);
    }
  }

  /** A new directory under `p` holds nothing, so counters and names stay right. */
  lemma {:induction false} AppendSound(
    ds: seq<Dir>, up: seq<set<nat>>, files: seq<File>, parent: Option<nat>, path: seq<string>)
    requires Sound(ds, up, files) && (parent.Some? ==> parent.value < |ds|)
    ensures Sound(
      ds + [Dir(parent, path, map[], map[], 0, false)],
      up + [(if parent.Some? then up[parent.value] else {}) + {|ds|}], files)
  {
    var made, chain := Dir(parent, path, map[], map[], 0, false),
      (if parent.Some? then up[parent.value] else {}) + {|ds|};
    NotPassed(ds, up);
    AppendLinked(ds, up, made, chain);
    AppendCounted(ds, up, made, chain);
    AppendNamed(ds, files, made);
  }

  lemma {:induction false} AppendLinked(ds: seq<Dir>, up: seq<set<nat>>, made: Dir, chain: set<nat>)
    requires Linked(ds, up) && (made.parent.Some? ==> made.parent.value < |ds|)
    requires chain == (if made.parent.Some? then up[made.parent.value] else {}) + {|ds|}
    requires forall x :: 0 <= x < |ds| ==> |ds| !in up[x]
    ensures Linked(ds + [made], up + [chain])
  {
    var rs, vp := ds + [made], up + [chain];
    forall x | 0 <= x < |rs| ensures ChainOf(rs, vp, x) {
      assert x < |ds| ==> ChainOf(ds, up, x);
    }
  }

  lemma {:induction false} AppendNamed(ds: seq<Dir>, files: seq<File>, made: Dir)
    requires Named(ds, files) && made.items == map[]
    ensures Named(ds + [made], files)
  {
    var rs := ds + [made];
    forall x, leaf | 0 <= x < |rs| && leaf in rs[x].items ensures NamedItem(rs, files, x, leaf) {
      assert NamedItem(ds, files, x, leaf);
    }
  }

  lemma {:induction false} NotPassed(ds: seq<Dir>, up: seq<set<nat>>)
    requires Linked(ds, up)
    ensures forall x :: 0 <= x < |ds| ==> |ds| !in up[x]
  {
    forall x | 0 <= x < |ds| ensures |ds| !in up[x] {
      if |ds| in up[x] {
        ChainIn(ds, up, x, |ds|);
      }
    }
  }

  lemma {:induction false} AppendCounted(ds: seq<Dir>, up: seq<set<nat>>, made: Dir, chain: set<nat>)
    requires |up| == |ds| && Counted(ds, up) && made.virtual == map[] && made.virtuals == 0
    requires forall x :: 0 <= x < |ds| ==> |ds| !in up[x]
    ensures Counted(ds + [made], up + [chain])
  {
    var rs, vp := ds + [made], up + [chain];
    forall a | 0 <= a < |rs| ensures rs[a].virtuals == Held(rs, vp, a, |rs|) {
      HeldPrefix(ds, rs, up, vp, a, |ds|);
      if a == |ds| {
        HeldNone(ds, up, a, |ds|);
      }
    }
  }

  lemma {:induction false} HeldPrefix(
    ds: seq<Dir>, rs: seq<Dir>, up: seq<set<nat>>, vp: seq<set<nat>>, a: nat, n: nat)
    requires n <= |ds| == |up| <= |rs| == |vp|
    requires forall x :: 0 <= x < |ds| ==> rs[x] == ds[x] && vp[x] == up[x]
    ensures Held(rs, vp, a, n) == Held(ds, up, a, n)
  {
    if n > 0 {
      HeldPrefix(ds, rs, up, vp, a, n - 1);
    }
  }

  lemma {:induction false} MoreFiles(ds: seq<Dir>, files: seq<File>, more: seq<File>)
    requires Named(ds, files) && |files| <= |more|
    requires forall f :: 0 <= f < |files| ==> more[f].dir == files[f].dir && more[f].leaf == files[f].leaf
    ensures Named(ds, more)
  {
    forall d, leaf | 0 <= d < |ds| && leaf in ds[d].items ensures NamedItem(ds, more, d, leaf) {
      assert NamedItem(ds, files, d, leaf);
    }
  }

  lemma {:induction false} LastBefore(entries: seq<Entry>, e: Entry, i: nat)
    requires i < |entries| && IsLast(entries + [e], i)
    ensures IsLast(entries, i) && entries[i].leaf != e.leaf && (entries + [e])[i] == entries[i]
  {
    var es := entries + [e];
    assert es[|entries|].leaf != es[i].leaf;
    forall j | i < j < |entries| ensures entries[j].leaf != entries[i].leaf {
      assert es[j].leaf != es[i].leaf;
    }
  }

  lemma {:induction false} OthersQuiet(
    ds: seq<Dir>, rs: seq<Dir>, up: seq<set<nat>>, files: seq<File>, d: nat, leaf: string, name: string, node: Node)
    requires Sound(ds, up, files) && d < |ds| <= |rs| && leaf != name
    requires leaf in ds[d].items && ds[d].items[leaf].DirNode?
    requires node.DirNode? && node.dir < |ds| ==>
      ds[node.dir].parent == Some(d) && name in ds[d].items && ds[d].items[name] == node
    requires forall x :: 0 <= x < |ds| && x != d && !(node.DirNode? && node.dir in up[x]) ==>
      rs[x].items == ds[x].items && rs[x].virtual == ds[x].virtual
    ensures Quiet(ds, rs, up, ds[d].items[leaf].dir)
  {
    assert NamedItem(ds, files, d, leaf);
    var c := ds[d].items[leaf].dir;
    assert ChainOf(ds, up, c);
    SubdirsMore(ds, files, d, leaf, {name});
    forall x | 0 <= x < |ds| && c in up[x] ensures x != d && !(node.DirNode? && node.dir in up[x]) {
      OwnChain(ds, up);
      if node.DirNode? && node.dir in up[x] {
        ChainIn(ds, up, x, node.dir);
        SiblingsApart(ds, up, x, c, node.dir);
      }
    }
  }

  /** The entries of `d` that are listed or pending. */
  function Current(d: Dir, listed: set<string>): (items: map<string, Node>)
  {
    map n | n in d.items && (n in listed || (n in d.virtual && d.virtual[n] != Del)) :: d.items[n]
  }

  function Unconfirmed(virtual: map<string, VState>, listed: set<string>): (v: map<string, VState>)
  {
    map n | n in virtual && (n in listed || virtual[n] != Del) :: virtual[n]
  }

  /** Entries and marks changed at `d` only. */
  ghost predicate OnlyAt(ds: seq<Dir>, rs: seq<Dir>, d: nat)
  {
    && |ds| <= |rs|
    && forall x :: 0 <= x < |ds| && x != d ==> rs[x].items == ds[x].items && rs[x].virtual == ds[x].virtual
  }

  /** Entries and marks changed at `d` only and, in a recursive read, below `node`. */
  ghost predicate ChangesAt(ds: seq<Dir>, rs: seq<Dir>, up: seq<set<nat>>, d: nat, node: Node, deep: bool)
  {
    && |up| == |ds| <= |rs|
    && forall x :: 0 <= x < |ds| && x != d && !(deep && node.DirNode? && node.dir in up[x]) ==>
      rs[x].items == ds[x].items && rs[x].virtual == ds[x].virtual
  }

  lemma {:induction false} MarksGrown(ds: seq<Dir>, up: seq<set<nat>>, d: nat, v: map<string, VState>)
    requires Linked(ds, up) && d < |ds|
    ensures var rs := WithMarks(ds, up, d, v);
      Grown(ds, rs, up, up, d) && OnlyAt(ds, rs, d) && rs[d].items == ds[d].items && rs[d].virtual == v
  {
    OwnChain(ds, up);
    WithMarksAt(ds, up, d, v);
  }

  lemma {:induction false} ChangesAfterMarks(
    ds: seq<Dir>, ss: seq<Dir>, rs: seq<Dir>, up: seq<set<nat>>, d: nat, node: Node, deep: bool)
    requires |ss| == |ds| && OnlyAt(ds, ss, d) && ChangesAt(ss, rs, up, d, node, deep)
    ensures ChangesAt(ds, rs, up, d, node, deep)
  {
  }

  /** Entry `e` is cached as `node`, reused when the kind is unchanged. */
  ghost predicate ReadAs(was: map<string, Node>, items: map<string, Node>, e: Entry, node: Node, dirs: nat, files: nat)
  {
    items == was[e.leaf := node] && Chosen(was, e, node, dirs, files)
  }

  /** `node` is what entry `e` is to be cached as. */
  ghost predicate Chosen(was: map<string, Node>, e: Entry, node: Node, dirs: nat, files: nat)
  {
    && SameKind(e, node)
    && if e.leaf in was && SameKind(e, was[e.leaf]) then node == was[e.leaf] else IsNew(node, dirs, files)
  }

  lemma {:induction false} OldNodes(ds: seq<Dir>, files: seq<File>, d: nat)
    requires Named(ds, files) && d < |ds|
    ensures forall n :: n in ds[d].items ==> !IsNew(ds[d].items[n], |ds|, |files|)
  {
    forall n | n in ds[d].items ensures !IsNew(ds[d].items[n], |ds|, |files|) {
      assert NamedItem(ds, files, d, n);
    }
  }

  lemma {:induction false} KeptNotDel(d: Dir, files: seq<File>, emptyDirs: bool, name: string)
    ensures name in Kept(d, files, emptyDirs) ==> Kept(d, files, emptyDirs)[name] != Del
  {
  }

  /** The sub-directories cached in `d` whose names were not among the first `n` entries are as they were. */
  ghost predicate Unread(ds: seq<Dir>, up: seq<set<nat>>, rs: seq<Dir>, d: nat, entries: seq<Entry>)
    requires d < |ds| == |up|
  {
    forall leaf :: leaf in ds[d].items && leaf !in Listed(entries) && ds[d].items[leaf].DirNode? ==>
      Quiet(ds, rs, up, ds[d].items[leaf].dir)
  }

  /** `rs` is `ds` when directory `d` was purged and the first `n` entries of its listing were read. */
  ghost predicate Reading(
    ds: seq<Dir>, up: seq<set<nat>>, files: seq<File>, emptyDirs: bool,
    rs: seq<Dir>, vp: seq<set<nat>>, more: seq<File>, d: nat, t: Tree, n: nat, deep: bool)
  {
    && d < |ds| && n <= |t.entries| && Grown(ds, rs, up, vp, d)
    && rs[d].virtual == Kept(ds[d], files, emptyDirs) - Listed(t.entries[..n])
    && Merged(ds[d].items, rs[d].items, t.entries[..n], |ds|, |files|)
    && ShowsAll(ds, up, files, emptyDirs, rs, more, rs[d].items, t, n, deep)
    && Fewer(ds, files, rs, more) && Unread(ds, up, rs, d, t.entries[..n])
    && (!deep ==> OnlyAt(ds, rs, d))
  }

  lemma {:induction false} Prefixes(t: Tree, n: nat)
    ensures n < |t.entries| ==> t.entries[..n + 1] == t.entries[..n] + [t.entries[n]]
    ensures t.entries[..0] == [] && t.entries[..|t.entries|] == t.entries
  {
  }

  lemma {:induction false} MarksFewer(ds: seq<Dir>, up: seq<set<nat>>, files: seq<File>, d: nat, v: map<string, VState>)
    requires d < |ds| && Sound(ds, up, files)
    requires forall n :: n in v ==> n in ds[d].virtual && v[n] == ds[d].virtual[n]
    ensures Fewer(ds, files, WithMarks(ds, up, d, v), files)
  {
    var rs := WithMarks(ds, up, d, v);
    WithMarksAt(ds, up, d, v);
    forall x, n | 0 <= x < |rs| && n in rs[x].virtual ensures StillPending(ds, files, rs, files, x, n) {
      assert n in rs[x].items ==> NamedItem(ds, files, x, n);
    }
  }

  lemma {:induction false} AppendFewer(ds: seq<Dir>, up: seq<set<nat>>, files: seq<File>, d: Dir)
    requires Sound(ds, up, files) && d.virtual == map[]
    ensures Fewer(ds, files, ds + [d], files)
  {
    var rs := ds + [d];
    forall x, n | 0 <= x < |rs| && n in rs[x].virtual ensures StillPending(ds, files, rs, files, x, n) {
      assert n in rs[x].items ==> NamedItem(ds, files, x, n);
    }
  }

  /** The file cached in `d` as `leaf`, which is not pending, may change. */
  lemma {:induction false} FilesFewer(
    ds: seq<Dir>, up: seq<set<nat>>, files: seq<File>, more: seq<File>, d: nat, leaf: string)
    requires Sound(ds, up, files) && d < |ds| && leaf !in ds[d].virtual && |files| <= |more|
    requires forall f :: 0 <= f < |files| ==> more[f] == files[f] || (files[f].dir == d && files[f].leaf == leaf)
    ensures Fewer(ds, files, ds, more)
  {
    forall x, n | 0 <= x < |ds| && n in ds[x].virtual ensures StillPending(ds, files, ds, more, x, n) {
      assert n in ds[x].items ==> NamedItem(ds, files, x, n);
    }
  }

  lemma {:induction false} PlaceFewer(
    ds: seq<Dir>, files: seq<File>, rs: seq<Dir>, more: seq<File>, d: nat, leaf: string, node: Node)
    requires Fewer(ds, files, rs, more) && d < |rs| && leaf !in rs[d].virtual
    ensures Fewer(ds, files, rs[d := rs[d].(items := rs[d].items[leaf := node])], more)
  {
    var ts := rs[d := rs[d].(items := rs[d].items[leaf := node])];
    forall x, n | 0 <= x < |ts| && n in ts[x].virtual ensures StillPending(ds, files, ts, more, x, n) {
      assert StillPending(ds, files, rs, more, x, n);
    }
  }

  lemma {:induction false} ReadingStart(
    ds: seq<Dir>, up: seq<set<nat>>, files: seq<File>, emptyDirs: bool, d: nat, t: Tree, deep: bool)
    requires d < |ds| && Sound(ds, up, files)
    ensures Reading(
      ds, up, files, emptyDirs, WithMarks(ds, up, d, Kept(ds[d], files, emptyDirs)), up, files, d, t, 0, deep)
  {
    var v := Kept(ds[d], files, emptyDirs);
    var rs := WithMarks(ds, up, d, v);
    MarksGrown(ds, up, d, v);
    MarksFewer(ds, up, files, d, v);
    var none := t.entries[..0];
    assert rs[d].virtual == v - Listed(none) && Merged(ds[d].items, rs[d].items, none, |ds|, |files|) by {
      NothingListed(ds[d].items, v, |ds|, |files|);
      assert none == [];
    }
    assert Unread(ds, up, rs, d, none) by {
      UnreadStart(ds, up, files, d, v);
      assert none == [];
    }
  }

  lemma {:induction false} NothingListed(items: map<string, Node>, v: map<string, VState>, dirs: nat, files: nat)
    ensures v - Listed([]) == v && Merged(items, items, [], dirs, files)
  {
  }

  lemma {:induction false} UnreadStart(
    ds: seq<Dir>, up: seq<set<nat>>, files: seq<File>, d: nat, v: map<string, VState>)
    requires d < |ds| && Sound(ds, up, files)
    ensures Unread(ds, up, WithMarks(ds, up, d, v), d, [])
  {
    MarksGrown(ds, up, d, v);
    forall leaf | leaf in ds[d].items && ds[d].items[leaf].DirNode?
      ensures Quiet(ds, WithMarks(ds, up, d, v), up, ds[d].items[leaf].dir)
    {
      assert NamedItem(ds, files, d, leaf);
      NotAbove(ds, up, d, ds[d].items[leaf].dir);
    }
  }

  /** A directory is not below its own sub-directory. */
  lemma {:induction false} NotAbove(ds: seq<Dir>, up: seq<set<nat>>, d: nat, c: nat)
    requires Linked(ds, up) && d < |ds| && c < |ds| && ds[c].parent == Some(d)
    ensures c !in up[d]
  {
    assert ChainOf(ds, up, c);
  }

  /** One more entry was read: measured against `rs`, it is shown; so it is when measured against `ds`. */
  lemma {:induction false} ShowsNext(
    ds: seq<Dir>, up: seq<set<nat>>, files: seq<File>, emptyDirs: bool,
    rs: seq<Dir>, vp: seq<set<nat>>, more: seq<File>, ts: seq<Dir>, most: seq<File>,
    d: nat, t: Tree, n: nat, node: Node, deep: bool)
    requires Sound(ds, up, files) && Sound(rs, vp, more)
    requires Reading(ds, up, files, emptyDirs, rs, vp, more, d, t, n, deep)
    requires n < |t.entries| && !Skipped(t.entries[n].leaf)
    requires Chosen(rs[d].items, t.entries[n], node, |rs|, |more|)
    requires Shows(rs, vp, more, emptyDirs, ts, most, node, t, n, deep)
    ensures Shows(ds, up, files, emptyDirs, ts, most, node, t, n, deep)
  {
    var leaf := t.entries[n].leaf;
    if t.entries[n].DirEntry? && deep {
      var g := node.dir;
      if leaf !in rs[d].items || rs[d].items[leaf] != node {
        RereadNew(ds, up, files, rs, vp, more, emptyDirs, ts, most, g, Below(t, leaf), deep);
      } else if leaf in Listed(t.entries[..n]) {
        var j := LastFor(t.entries[..n], leaf);
        assert Shows(ds, up, files, emptyDirs, rs, more, rs[d].items[leaf], t, j, deep);
        ShowsKind(ds, up, files, emptyDirs, rs, more, rs[d].items[leaf], t, j, deep);
        RereadTwice(ds, up, files, rs, vp, more, emptyDirs, ts, most, g, Below(t, leaf), deep);
      } else {
        assert ds[d].items[leaf] == node;
        assert NamedItem(ds, files, d, leaf);
        RereadBase(ds, up, files, rs, vp, more, emptyDirs, ts, most, g, Below(t, leaf), deep);
      }
    }
  }

  /** Reading entry `leaf` leaves the files of the other entries alone. */
  lemma {:induction false} OtherFiles(
    rs: seq<Dir>, vp: seq<set<nat>>, more: seq<File>, most: seq<File>, d: nat, leaf: string, node: Node, deep: bool,
    other: string)
    requires Sound(rs, vp, more) && d < |rs| && FilesAt(more, most, vp, d, leaf, node, deep)
    requires node.DirNode? && node.dir < |rs| ==>
      rs[node.dir].parent == Some(d) && leaf in rs[d].items && rs[d].items[leaf] == node
    requires other in rs[d].items && other != leaf
    ensures rs[d].items[other].FileNode? ==> most[rs[d].items[other].file].obj == more[rs[d].items[other].file].obj
    ensures rs[d].items[other].DirNode? ==> QuietFiles(more, most, vp, rs[d].items[other].dir)
  {
    assert NamedItem(rs, more, d, other);
    NotBelowNode(rs, vp, d, node);
    if rs[d].items[other].DirNode? {
      var c := rs[d].items[other].dir;
      CachedChild(rs, vp, more, d, other);
      forall f | 0 <= f < |more| && more[f].dir < |vp| && c in vp[more[f].dir] ensures most[f].obj == more[f].obj {
        NotBoth(rs, vp, more, d, leaf, node, other, more[f].dir);
      }
    }
  }

  lemma {:induction false} NotBelowNode(rs: seq<Dir>, vp: seq<set<nat>>, d: nat, node: Node)
    requires Linked(rs, vp) && d < |rs|
    requires node.DirNode? && node.dir < |rs| ==> rs[node.dir].parent == Some(d)
    ensures node.DirNode? ==> node.dir !in vp[d]
  {
    if node.DirNode? && node.dir in vp[d] {
      ChainIn(rs, vp, d, node.dir);
      NotAbove(rs, vp, d, node.dir);
    }
  }

  /** Nothing is below two different entries of one directory. */
  lemma {:induction false} NotBoth(
    rs: seq<Dir>, vp: seq<set<nat>>, more: seq<File>, d: nat, leaf: string, node: Node, other: string, x: nat)
    requires Sound(rs, vp, more) && d < |rs| && x < |rs|
    requires node.DirNode? && node.dir < |rs| ==>
      rs[node.dir].parent == Some(d) && leaf in rs[d].items && rs[d].items[leaf] == node
    requires other in rs[d].items && other != leaf && rs[d].items[other].DirNode? && rs[d].items[other].dir in vp[x]
    ensures x != d && !(node.DirNode? && node.dir in vp[x])
  {
    var c := rs[d].items[other].dir;
    CachedChild(rs, vp, more, d, other);
    if node.DirNode? && node.dir in vp[x] {
      ChainIn(rs, vp, x, node.dir);
      SubdirsMore(rs, more, d, other, {leaf});
      SiblingsApart(rs, vp, x, c, node.dir);
    }
  }

  /** Reading one more entry of `d` disturbs none of what is shown so far. */
  lemma {:induction false} ShowsMore(
    ds: seq<Dir>, up: seq<set<nat>>, files: seq<File>, emptyDirs: bool, rs: seq<Dir>, vp: seq<set<nat>>,
    more: seq<File>, ts: seq<Dir>, most: seq<File>, d: nat, t: Tree, n: nat, node: Node, deep: bool)
    requires |up| == |ds| && Extends(up, vp) && Sound(rs, vp, more) && d < |rs| <= |ts| && n < |t.entries|
    requires ShowsAll(ds, up, files, emptyDirs, rs, more, rs[d].items, t, n, deep)
    requires Shows(ds, up, files, emptyDirs, ts, most, node, t, n, deep)
    requires node.DirNode? && node.dir < |rs| ==>
      rs[node.dir].parent == Some(d) && t.entries[n].leaf in rs[d].items && rs[d].items[t.entries[n].leaf] == node
    requires ChangesAt(rs, ts, vp, d, node, deep) && FilesAt(more, most, vp, d, t.entries[n].leaf, node, deep)
    ensures ShowsAll(ds, up, files, emptyDirs, ts, most, rs[d].items[t.entries[n].leaf := node], t, n + 1, deep)
  {
    Prefixes(t, n);
    var e, es := t.entries[n], t.entries[..n + 1];
    forall i | 0 <= i < n + 1 && IsLast(es, i) && !Skipped(t.entries[i].leaf)
      ensures t.entries[i].leaf in rs[d].items[e.leaf := node]
      ensures Shows(ds, up, files, emptyDirs, ts, most, rs[d].items[e.leaf := node][t.entries[i].leaf], t, i, deep)
    {
      if i < n {
        LastBefore(t.entries[..n], e, i);
        ShownStays(ds, up, files, emptyDirs, rs, vp, more, ts, most, d, t, n, node, i, deep);
      }
    }
  }

  /** What is shown of entry `i` of `d` stays so when entry `n`, of another name, is read. */
  lemma {:induction false} ShownStays(
    ds: seq<Dir>, up: seq<set<nat>>, files: seq<File>, emptyDirs: bool, rs: seq<Dir>, vp: seq<set<nat>>,
    more: seq<File>, ts: seq<Dir>, most: seq<File>, d: nat, t: Tree, n: nat, node: Node, i: nat, deep: bool)
    requires |up| == |ds| && Extends(up, vp) && Sound(rs, vp, more) && d < |rs| <= |ts| && i < n < |t.entries|
    requires t.entries[i].leaf in rs[d].items && t.entries[i].leaf != t.entries[n].leaf
    requires Shows(ds, up, files, emptyDirs, rs, more, rs[d].items[t.entries[i].leaf], t, i, deep)
    requires node.DirNode? && node.dir < |rs| ==>
      rs[node.dir].parent == Some(d) && t.entries[n].leaf in rs[d].items && rs[d].items[t.entries[n].leaf] == node
    requires ChangesAt(rs, ts, vp, d, node, deep) && FilesAt(more, most, vp, d, t.entries[n].leaf, node, deep)
    ensures Shows(ds, up, files, emptyDirs, ts, most, rs[d].items[t.entries[i].leaf], t, i, deep)
  {
    var leaf := t.entries[i].leaf;
    assert NamedItem(rs, more, d, leaf);
    OtherFiles(rs, vp, more, most, d, t.entries[n].leaf, node, deep, leaf);
    if t.entries[i].DirEntry? && deep {
      OthersQuiet(rs, ts, vp, more, d, leaf, t.entries[n].leaf, node);
      RereadFrame(ds, up, files, emptyDirs, rs, vp, more, ts, most, rs[d].items[leaf].dir, Below(t, leaf), deep);
    }
  }

  lemma {:induction false} UnreadMore(
    ds: seq<Dir>, up: seq<set<nat>>, files: seq<File>, rs: seq<Dir>, vp: seq<set<nat>>, more: seq<File>, ts: seq<Dir>,
    d: nat, entries: seq<Entry>, e: Entry, node: Node, deep: bool)
    requires Sound(ds, up, files) && Sound(rs, vp, more) && d < |ds| && Grown(ds, rs, up, vp, d)
    requires Unread(ds, up, rs, d, entries) && Merged(ds[d].items, rs[d].items, entries, |ds|, |files|)
    requires !Skipped(e.leaf) && ChangesAt(rs, ts, vp, d, node, deep)
    requires node.DirNode? && node.dir < |rs| ==>
      rs[node.dir].parent == Some(d) && e.leaf in rs[d].items && rs[d].items[e.leaf] == node
    ensures Unread(ds, up, ts, d, entries + [e])
  {
    ListedMore(entries, e);
    forall leaf | leaf in ds[d].items && leaf !in Listed(entries + [e]) && ds[d].items[leaf].DirNode?
      ensures Quiet(ds, ts, up, ds[d].items[leaf].dir)
    {
      assert rs[d].items[leaf] == ds[d].items[leaf];
      OthersQuiet(rs, ts, vp, more, d, leaf, e.leaf, node);
      QuietTrans(ds, rs, ts, up, vp, ds[d].items[leaf].dir);
    }
  }

  lemma {:induction false} ReadingMore(
    ds: seq<Dir>, up: seq<set<nat>>, files: seq<File>, emptyDirs: bool,
    rs: seq<Dir>, vp: seq<set<nat>>, more: seq<File>, ts: seq<Dir>, wp: seq<set<nat>>, most: seq<File>,
    d: nat, t: Tree, n: nat, node: Node, deep: bool)
    requires Sound(ds, up, files) && Sound(rs, vp, more)
    requires Reading(ds, up, files, emptyDirs, rs, vp, more, d, t, n, deep)
    requires n < |t.entries| && !Skipped(t.entries[n].leaf) && Grown(rs, ts, vp, wp, d)
    requires ts[d].virtual == rs[d].virtual - {t.entries[n].leaf}
    requires ReadAs(rs[d].items, ts[d].items, t.entries[n], node, |rs|, |more|)
    requires Shows(rs, vp, more, emptyDirs, ts, most, node, t, n, deep)
    requires ChangesAt(rs, ts, vp, d, node, deep) && Fewer(rs, more, ts, most)
    requires FilesAt(more, most, vp, d, t.entries[n].leaf, node, deep)
    ensures Reading(ds, up, files, emptyDirs, ts, wp, most, d, t, n + 1, deep)
  {
    var e, read := t.entries[n], t.entries[..n];
    Prefixes(t, n);
    GrownTrans(ds, rs, ts, up, vp, wp, d);
    FewerTrans(ds, files, rs, more, ts, most);
    ListedMore(read, e);
    OldNodes(ds, files, d);
    MergedMore(ds[d].items, rs[d].items, read, e, node, |ds|, |files|);
    if e.leaf in rs[d].items {
      assert NamedItem(rs, more, d, e.leaf);
    }
    ShowsNext(ds, up, files, emptyDirs, rs, vp, more, ts, most, d, t, n, node, deep);
    ShowsMore(ds, up, files, emptyDirs, rs, vp, more, ts, most, d, t, n, node, deep);
    UnreadMore(ds, up, files, rs, vp, more, ts, d, read, e, node, deep);
  }

  lemma {:induction false} ShowsSkip(
    ds: seq<Dir>, up: seq<set<nat>>, files: seq<File>, emptyDirs: bool, rs: seq<Dir>, more: seq<File>,
    items: map<string, Node>, t: Tree, n: nat, deep: bool)
    requires |up| == |ds| && n < |t.entries| && Skipped(t.entries[n].leaf)
    requires ShowsAll(ds, up, files, emptyDirs, rs, more, items, t, n, deep)
    ensures ShowsAll(ds, up, files, emptyDirs, rs, more, items, t, n + 1, deep)
  {
    var es := t.entries[..n + 1];
    Prefixes(t, n);
    forall i | 0 <= i < n + 1 && IsLast(es, i) && !Skipped(t.entries[i].leaf)
      ensures t.entries[i].leaf in items
      ensures Shows(ds, up, files, emptyDirs, rs, more, items[t.entries[i].leaf], t, i, deep)
    {
      LastBefore(t.entries[..n], t.entries[n], i);
    }
  }

  /** What is shown after one mark of `d` was dropped is shown all the same. */
  lemma {:induction false} ShowsAfterMarks(
    rs: seq<Dir>, vp: seq<set<nat>>, more: seq<File>, ss: seq<Dir>, emptyDirs: bool, ts: seq<Dir>, most: seq<File>,
    d: nat, t: Tree, i: nat, node: Node, deep: bool)
    requires Sound(rs, vp, more) && d < |rs| == |ss| && OnlyAt(rs, ss, d) && ss[d].items == rs[d].items
    requires Fewer(rs, more, ss, more) && i < |t.entries|
    requires node.DirNode? && node.dir < |rs| ==>
      t.entries[i].leaf in rs[d].items && rs[d].items[t.entries[i].leaf] == node
    requires Shows(ss, vp, more, emptyDirs, ts, most, node, t, i, deep)
    ensures Shows(rs, vp, more, emptyDirs, ts, most, node, t, i, deep)
  {
    if t.entries[i].DirEntry? && deep {
      var leaf := t.entries[i].leaf;
      if node.dir < |rs| {
        assert NamedItem(rs, more, d, leaf);
        NotAbove(rs, vp, d, node.dir);
      }
      RereadBase(rs, vp, more, ss, vp, more, emptyDirs, ts, most, node.dir, Below(t, leaf), deep);
    }
  }

  /** One mark of `d` was dropped, and then an entry read: what this comes to, all together. */
  lemma {:induction false} AfterMarks(
    rs: seq<Dir>, vp: seq<set<nat>>, more: seq<File>, ss: seq<Dir>, emptyDirs: bool,
    ts: seq<Dir>, wp: seq<set<nat>>, most: seq<File>, d: nat, t: Tree, v: map<string, VState>, node: Node, deep: bool)
    requires Sound(rs, vp, more) && d < |rs| && ss == WithMarks(rs, vp, d, v)
    requires forall n :: n in v ==> n in rs[d].virtual && v[n] == rs[d].virtual[n]
    requires forall n :: n in rs[d].virtual && n !in v ==> n in Listed(t.entries)
    requires Grown(ss, ts, vp, wp, d) && Fewer(ss, more, ts, most) && ChangesAt(ss, ts, vp, d, node, deep)
    requires Spared(ss, vp, more, emptyDirs, ts, d, t)
    ensures Grown(rs, ts, vp, wp, d) && Fewer(rs, more, ts, most) && ChangesAt(rs, ts, vp, d, node, deep)
    ensures Spared(rs, vp, more, emptyDirs, ts, d, t)
  {
    MarksGrown(rs, vp, d, v);
    MarksFewer(rs, vp, more, d, v);
    SparedMarks(rs, vp, more, emptyDirs, d, t, v);
    ChangesAfterMarks(rs, ss, ts, vp, d, node, deep);
    GrownTrans(rs, ss, ts, vp, vp, wp, d);
    FewerTrans(rs, more, ss, more, ts, most);
    SparedTrans(rs, vp, more, emptyDirs, ss, vp, more, ts, d, t);
  }

  /** The same, and what is shown of the entry. */
  lemma {:induction false} ListedDone(
    rs: seq<Dir>, vp: seq<set<nat>>, more: seq<File>, ss: seq<Dir>, emptyDirs: bool,
    ts: seq<Dir>, wp: seq<set<nat>>, most: seq<File>, d: nat, t: Tree, i: nat, node: Node, deep: bool, ok: bool)
    requires Sound(rs, vp, more) && d < |rs| && i < |t.entries| && !Skipped(t.entries[i].leaf)
    requires ss == WithMarks(rs, vp, d, rs[d].virtual - {t.entries[i].leaf})
    requires Grown(ss, ts, vp, wp, d) && Fewer(ss, more, ts, most) && ChangesAt(ss, ts, vp, d, node, deep)
    requires Spared(ss, vp, more, emptyDirs, ts, d, t)
    requires ok ==> Chosen(ss[d].items, t.entries[i], node, |ss|, |more|)
    requires ok ==> Shows(ss, vp, more, emptyDirs, ts, most, node, t, i, deep)
    ensures Grown(rs, ts, vp, wp, d) && Fewer(rs, more, ts, most) && ChangesAt(rs, ts, vp, d, node, deep)
    ensures Spared(rs, vp, more, emptyDirs, ts, d, t)
    ensures ok ==> Shows(rs, vp, more, emptyDirs, ts, most, node, t, i, deep)
  {
    var v := rs[d].virtual - {t.entries[i].leaf};
    assert t.entries[i] in t.entries;
    AfterMarks(rs, vp, more, ss, emptyDirs, ts, wp, most, d, t, v, node, deep);
    MarksGrown(rs, vp, d, v);
    MarksFewer(rs, vp, more, d, v);
    if ok {
      ShowsAfterMarks(rs, vp, more, ss, emptyDirs, ts, most, d, t, i, node, deep);
    }
  }

  /** A sub-directory `c` of `d` was found or made, and then read: what is left alone, all together. */
  lemma {:induction false} SubdirFrames(
    ds: seq<Dir>, up: seq<set<nat>>, files: seq<File>, emptyDirs: bool, rs: seq<Dir>, vp: seq<set<nat>>,
    ts: seq<Dir>, wp: seq<set<nat>>, most: seq<File>, d: nat, t: Tree, leaf: string, c: nat)
    requires Sound(rs, vp, files) && d < |ds| && Grown(ds, rs, up, vp, d) && Fewer(ds, files, rs, files)
    requires forall x :: 0 <= x < |ds| ==> rs[x] == ds[x]
    requires c < |rs| && rs[c].parent == Some(d) && rs[c].path == rs[d].path + [leaf]
    requires Grown(rs, ts, vp, wp, d) && Fewer(rs, files, ts, most) && FilesBelow(files, most, vp, c)
    requires Spared(rs, vp, files, emptyDirs, ts, c, Below(t, leaf))
    ensures Grown(ds, ts, up, wp, d) && Fewer(ds, files, ts, most) && FilesBelow(files, most, up, c)
    ensures Spared(ds, up, files, emptyDirs, ts, d, t)
  {
    GrownTrans(ds, rs, ts, up, vp, wp, d);
    FewerTrans(ds, files, rs, files, ts, most);
    SparedSame(ds, up, files, emptyDirs, rs, d, t);
    SparedBelow(rs, vp, files, emptyDirs, ts, d, t, leaf, c);
    SparedTrans(ds, up, files, emptyDirs, rs, vp, files, ts, d, t);
  }

  /** One more entry was read, well or not: what is left alone, all together. */
  lemma {:induction false} NextFrames(
    ds: seq<Dir>, up: seq<set<nat>>, files: seq<File>, emptyDirs: bool, rs: seq<Dir>, vp: seq<set<nat>>,
    more: seq<File>, ts: seq<Dir>, wp: seq<set<nat>>, most: seq<File>, d: nat, t: Tree, node: Node, deep: bool)
    requires d < |ds| && Grown(ds, rs, up, vp, d) && Grown(rs, ts, vp, wp, d)
    requires Fewer(ds, files, rs, more) && Fewer(rs, more, ts, most)
    requires Spared(ds, up, files, emptyDirs, rs, d, t) && Spared(rs, vp, more, emptyDirs, ts, d, t)
    requires FilesBelow(files, more, up, d) && FilesBelow(more, most, vp, d)
    requires (!deep ==> OnlyAt(ds, rs, d)) && ChangesAt(rs, ts, vp, d, node, deep)
    ensures Grown(ds, ts, up, wp, d) && Fewer(ds, files, ts, most) && Spared(ds, up, files, emptyDirs, ts, d, t)
    ensures FilesBelow(files, most, up, d) && (!deep ==> OnlyAt(ds, ts, d))
  {
    GrownTrans(ds, rs, ts, up, vp, wp, d);
    FewerTrans(ds, files, rs, more, ts, most);
    SparedTrans(ds, up, files, emptyDirs, rs, vp, more, ts, d, t);
    FilesBelowTrans(files, more, most, up, vp, d);
  }

  /** A note that a directory was read changes nothing that is pending. */
  lemma {:induction false} ReadFlag(
    ds: seq<Dir>, files: seq<File>, rs: seq<Dir>, more: seq<File>, c: nat, read: bool)
    requires Fewer(ds, files, rs, more) && c < |rs|
    ensures Fewer(ds, files, rs[c := rs[c].(read := read)], more)
  {
    var ts := rs[c := rs[c].(read := read)];
    forall x, n | 0 <= x < |ts| && n in ts[x].virtual ensures StillPending(ds, files, ts, more, x, n) {
      assert StillPending(ds, files, rs, more, x, n);
    }
  }

  lemma {:induction false} NothingFewer(ds: seq<Dir>, up: seq<set<nat>>, files: seq<File>)
    requires Sound(ds, up, files)
    ensures Fewer(ds, files, ds, files)
  {
    forall x, n | 0 <= x < |ds| && n in ds[x].virtual ensures StillPending(ds, files, ds, files, x, n) {
      assert n in ds[x].items ==> NamedItem(ds, files, x, n);
    }
  }

  lemma {:induction false} ReadingSkip(
    ds: seq<Dir>, up: seq<set<nat>>, files: seq<File>, emptyDirs: bool,
    rs: seq<Dir>, vp: seq<set<nat>>, more: seq<File>, d: nat, t: Tree, n: nat, deep: bool)
    requires Reading(ds, up, files, emptyDirs, rs, vp, more, d, t, n, deep)
    requires n < |t.entries| && Skipped(t.entries[n].leaf)
    ensures Reading(ds, up, files, emptyDirs, rs, vp, more, d, t, n + 1, deep)
  {
    var es := t.entries[..n + 1];
    assert Listed(es) == Listed(t.entries[..n]) && Merged(ds[d].items, rs[d].items, es, |ds|, |files|) by {
      Prefixes(t, n);
      ListedMore(t.entries[..n], t.entries[n]);
      MergedSkip(ds[d].items, rs[d].items, t.entries[..n], t.entries[n], |ds|, |files|);
    }
    assert ShowsAll(ds, up, files, emptyDirs, rs, more, rs[d].items, t, n + 1, deep) by {
      ShowsSkip(ds, up, files, emptyDirs, rs, more, rs[d].items, t, n, deep);
    }
  }

  /** No deletion is pending after a purge, so there is none to confirm. */
  lemma {:induction false} ReadingMarks(
    ds: seq<Dir>, up: seq<set<nat>>, files: seq<File>, emptyDirs: bool,
    rs: seq<Dir>, vp: seq<set<nat>>, more: seq<File>, d: nat, t: Tree, deep: bool)
    requires Reading(ds, up, files, emptyDirs, rs, vp, more, d, t, |t.entries|, deep)
    ensures var es := rs[d := rs[d].(items := Current(rs[d], Listed(t.entries)))];
      WithMarks(es, vp, d, Unconfirmed(es[d].virtual, Listed(t.entries))) == es
  {
    var es := rs[d := rs[d].(items := Current(rs[d], Listed(t.entries)))];
    assert Unconfirmed(rs[d].virtual, Listed(t.entries)) == rs[d].virtual;
    WithMarksSame(es, vp, d);
  }

  /** What the clean-up makes of a listing that was read completely. */
  lemma {:induction false} ReadingEnd(
    ds: seq<Dir>, up: seq<set<nat>>, files: seq<File>, emptyDirs: bool,
    rs: seq<Dir>, vp: seq<set<nat>>, more: seq<File>, ts: seq<Dir>, d: nat, t: Tree, deep: bool)
    requires Sound(ds, up, files) && Sound(rs, vp, more)
    requires Reading(ds, up, files, emptyDirs, rs, vp, more, d, t, |t.entries|, deep)
    requires ts == rs[d := rs[d].(items := Current(rs[d], Listed(t.entries)))]
    ensures Grown(ds, ts, up, vp, d) && (!deep ==> OnlyAt(ds, ts, d))
    ensures Reread(ds, up, files, emptyDirs, ts, more, d, t, deep) && Fewer(ds, files, ts, more)
  {
    Prefixes(t, 0);
    OwnChain(ds, up);
    CurrentKeys(ds[d], rs[d], files, emptyDirs, t.entries, |ds|);
    ReadingEndFewer(ds, files, rs, more, ts, d, Current(rs[d], Listed(t.entries)));
    AsideEnd(ds, up, files, emptyDirs, rs, ts, d, t.entries, Current(rs[d], Listed(t.entries)));
    var all := t.entries[..|t.entries|];
    forall i | 0 <= i < |t.entries| && IsLast(all, i) && !Skipped(t.entries[i].leaf)
      ensures t.entries[i].leaf in ts[d].items
      ensures Shows(ds, up, files, emptyDirs, ts, more, ts[d].items[t.entries[i].leaf], t, i, deep)
    {
      ShowsKept(ds, up, files, emptyDirs, rs, vp, more, ts, d, t, i, deep);
    }
  }

  lemma {:induction false} AsideEnd(
    ds: seq<Dir>, up: seq<set<nat>>, files: seq<File>, emptyDirs: bool, rs: seq<Dir>, ts: seq<Dir>, d: nat,
    entries: seq<Entry>, items: map<string, Node>)
    requires Sound(ds, up, files) && d < |ds| <= |rs| && Unread(ds, up, rs, d, entries)
    requires ts == rs[d := rs[d].(items := items)]
    ensures Aside(ds, up, files, emptyDirs, ts, d, entries)
  {
    forall leaf | leaf in ds[d].items && ds[d].items[leaf].DirNode?
      ensures AsideAt(ds, up, files, emptyDirs, ts, d, entries, leaf)
    {
      CachedChild(ds, up, files, d, leaf);
    }
  }

  lemma {:induction false} ReadingEndFewer(
    ds: seq<Dir>, files: seq<File>, rs: seq<Dir>, more: seq<File>, ts: seq<Dir>, d: nat, items: map<string, Node>)
    requires Fewer(ds, files, rs, more) && d < |rs| && ts == rs[d := rs[d].(items := items)]
    requires forall n :: n in items ==> n in rs[d].items && items[n] == rs[d].items[n]
    ensures Fewer(ds, files, ts, more)
  {
    forall x, n | 0 <= x < |ts| && n in ts[x].virtual ensures StillPending(ds, files, ts, more, x, n) {
      assert StillPending(ds, files, rs, more, x, n);
    }
  }

  lemma {:induction false} CurrentKeys(
    d: Dir, r: Dir, files: seq<File>, emptyDirs: bool, entries: seq<Entry>, dirs: nat)
    requires r.virtual == Kept(d, files, emptyDirs) - Listed(entries)
    requires Merged(d.items, r.items, entries, dirs, |files|)
    ensures Current(r, Listed(entries)).Keys == Listed(entries) + d.items.Keys * Kept(d, files, emptyDirs).Keys
  {
  }

  lemma {:induction false} ShowsKept(
    ds: seq<Dir>, up: seq<set<nat>>, files: seq<File>, emptyDirs: bool, rs: seq<Dir>, vp: seq<set<nat>>,
    more: seq<File>, ts: seq<Dir>, d: nat, t: Tree, i: nat, deep: bool)
    requires |up| == |ds| && Extends(up, vp) && Sound(rs, vp, more) && d < |rs|
    requires ShowsAll(ds, up, files, emptyDirs, rs, more, rs[d].items, t, |t.entries|, deep)
    requires i < |t.entries| && IsLast(t.entries[..|t.entries|], i) && !Skipped(t.entries[i].leaf)
    requires ts == rs[d := rs[d].(items := Current(rs[d], Listed(t.entries)))]
    ensures t.entries[i].leaf in ts[d].items
    ensures Shows(ds, up, files, emptyDirs, ts, more, ts[d].items[t.entries[i].leaf], t, i, deep)
  {
    var leaf := t.entries[i].leaf;
    assert leaf in Listed(t.entries) by {
      assert t.entries[i] in t.entries;
    }
    assert Shows(ds, up, files, emptyDirs, rs, more, rs[d].items[leaf], t, i, deep);
    if t.entries[i].DirEntry? && deep {
      assert NamedItem(rs, more, d, leaf);
      var c := rs[d].items[leaf].dir;
      NotAbove(rs, vp, d, c);
      RereadFrame(ds, up, files, emptyDirs, rs, vp, more, ts, more, c, Below(t, leaf), deep);
    }
  }

  /** `items` is what is left of the entries of `d` when all but `todo` have been judged. */
  ghost predicate Trimming(d: Dir, items: map<string, Node>, todo: set<string>, listed: set<string>)
  {
    && todo <= items.Keys
    && (forall n :: n in items ==> n in d.items && items[n] == d.items[n])
    && (forall n :: n in d.items && n !in todo ==> (n in items <==> n in Current(d, listed)))
  }

  lemma {:induction false} TrimmingMore(
    d: Dir, items: map<string, Node>, todo: set<string>, listed: set<string>, name: string)
    requires Trimming(d, items, todo, listed) && name in todo
    ensures var drop := name !in listed && (name !in d.virtual || d.virtual[name].Del?);
      Trimming(d, if drop then items - {name} else items, todo - {name}, listed)
  {
  }

  lemma {:induction false} TrimmingDone(d: Dir, items: map<string, Node>, listed: set<string>)
    requires Trimming(d, items, {}, listed)
    ensures items == Current(d, listed)
  {
  }

  lemma {:induction false} AppendGrown(
    ds: seq<Dir>, up: seq<set<nat>>, d: nat, parent: nat, path: seq<string>, chain: set<nat>)
    requires |up| == |ds|
    ensures Grown(ds, ds + [Dir(Some(parent), path, map[], map[], 0, false)], up, up + [chain], d)
  {
  }
}

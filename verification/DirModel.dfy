/** The state of the VFS directory cache (vfs/dir.go), and what its operations mean.

    A directory is a cell of a store, and a `*Dir` is the index of its cell.  Parent links,
    cached entries and overlay marks may disagree with each other: a directory that was
    dropped from a listing keeps its parent link and its marks.
 */
module DirModel {

  import opened Wrappers

  /** An overlay mark: a change the remote has not confirmed yet. */
  datatype VState = AddFile | AddDir | Del

  datatype Node = DirNode(dir: nat) | FileNode(file: nat)

  /** A file knows its directory and its name there.  It is busy while it has no object yet, has
      writers, or is in use by the cache. */
  datatype File = File(dir: nat, leaf: string, obj: Option<nat>, writers: nat, inUse: bool) {
    predicate Busy() {
      obj.None? || writers != 0 || inUse
    }
  }

  datatype Dir = Dir(
    parent: Option<nat>,
    path: seq<string>,
    items: map<string, Node>,
    virtual: map<string, VState>,
    virtuals: int,
    read: bool)

  // --- Marks that outlive a purge ---------------------------------------------------------

  predicate Survives(d: Dir, files: seq<File>, emptyDirs: bool, name: string)
    requires name in d.virtual
  {
    match d.virtual[name]
    case AddDir => !emptyDirs
    case AddFile =>
      && name in d.items && d.items[name].FileNode?
      && d.items[name].file < |files| && files[d.items[name].file].Busy()
    case Del => false
  }

  function Kept(d: Dir, files: seq<File>, emptyDirs: bool): (v: map<string, VState>)
  {
    map name | name in d.virtual && Survives(d, files, emptyDirs, name) :: d.virtual[name]
  }

  /** `v` is what is left of the marks of `d` when all but `todo` have been judged. */
  ghost predicate Purging(d: Dir, v: map<string, VState>, todo: set<string>, files: seq<File>, emptyDirs: bool)
  {
    && todo <= v.Keys
    && (forall name :: name in v ==> name in d.virtual && v[name] == d.virtual[name])
    && (forall name :: name in d.virtual && name !in todo ==>
          (name in v <==> Survives(d, files, emptyDirs, name)))
  }

  lemma {:induction false} PurgingMore(
    d: Dir, v: map<string, VState>, todo: set<string>, files: seq<File>, emptyDirs: bool, name: string)
    requires Purging(d, v, todo, files, emptyDirs) && name in todo
    ensures name in d.virtual
    ensures Survives(d.(virtual := v), files, emptyDirs, name) == Survives(d, files, emptyDirs, name)
    ensures Purging(d, if Survives(d, files, emptyDirs, name) then v else v - {name}, todo - {name}, files, emptyDirs)
  {
  }

  lemma {:induction false} PurgingDone(d: Dir, v: map<string, VState>, files: seq<File>, emptyDirs: bool)
    requires Purging(d, v, {}, files, emptyDirs)
    ensures v == Kept(d, files, emptyDirs)
  {
  }

  // --- Parent links -----------------------------------------------------------------------

  /** `up[d]` is the set of directories on the parent chain of `d`, which starts at `d` itself
      and never comes back to a directory it has passed. */
  ghost predicate Linked(ds: seq<Dir>, up: seq<set<nat>>)
  {
    && |up| == |ds|
    && (forall d :: 0 <= d < |ds| && ds[d].parent.Some? ==> ds[d].parent.value < |ds|)
    && (forall d :: 0 <= d < |ds| ==> ChainOf(ds, up, d))
  }

  ghost predicate ChainOf(ds: seq<Dir>, up: seq<set<nat>>, d: nat)
    requires d < |ds| == |up|
    requires ds[d].parent.Some? ==> ds[d].parent.value < |ds|
  {
    match ds[d].parent
    case None => up[d] == {d}
    case Some(p) => up[d] == up[p] + {d} && d !in up[p]
  }

  lemma {:induction false} ChainIn(ds: seq<Dir>, up: seq<set<nat>>, d: nat, a: nat)
    requires Linked(ds, up) && d < |ds| && a in up[d]
    ensures a < |ds| && up[a] <= up[d]
    decreases |up[d]|
  {
    assert ChainOf(ds, up, d);
    if a != d {
      ChainIn(ds, up, ds[d].parent.value, a);
    }
  }

  /** Two directories on one chain are one above the other. */
  lemma {:induction false} ChainLinear(ds: seq<Dir>, up: seq<set<nat>>, d: nat, a: nat, b: nat)
    requires Linked(ds, up) && d < |ds| && a in up[d] && b in up[d]
    ensures a < |ds| && b < |ds|
    ensures a in up[b] || b in up[a]
    decreases |up[d]|
  {
    assert ChainOf(ds, up, d);
    ChainIn(ds, up, d, a);
    ChainIn(ds, up, d, b);
    if a != d && b != d {
      ChainLinear(ds, up, ds[d].parent.value, a, b);
    }
  }

  /** Directories under different children of one parent do not share a chain. */
  lemma {:induction false} SiblingsApart(ds: seq<Dir>, up: seq<set<nat>>, d: nat, a: nat, b: nat)
    requires Linked(ds, up) && d < |ds| && a < |ds| && b < |ds|
    requires a in up[d] && b in up[d] && ds[a].parent == ds[b].parent
    ensures a == b
  {
    ChainLinear(ds, up, d, a, b);
    assert ChainOf(ds, up, a) && ChainOf(ds, up, b);
  }

  // --- Counters ---------------------------------------------------------------------------

  /** The marks of those of the first `n` directories whose parent chain passes through `a`. */
  ghost function Held(ds: seq<Dir>, up: seq<set<nat>>, a: nat, n: nat): (h: nat)
    requires n <= |ds| == |up|
  {
    if n == 0 then 0
    else Held(ds, up, a, n - 1) + if a in up[n - 1] then |ds[n - 1].virtual| else 0
  }

  ghost predicate Counted(ds: seq<Dir>, up: seq<set<nat>>)
    requires |up| == |ds|
  {
    forall a :: 0 <= a < |ds| ==> ds[a].virtuals == Held(ds, up, a, |ds|)
  }

  function Bump(ds: seq<Dir>, s: set<nat>, n: int): (r: seq<Dir>)
    ensures |r| == |ds|
  {
    seq(|ds|, i requires 0 <= i < |ds| =>
      if i in s then ds[i].(virtuals := ds[i].virtuals + n) else ds[i])
  }

  /** Give directory `d` the marks `v`, keeping the counters of its chain in step. */
  ghost function WithMarks(ds: seq<Dir>, up: seq<set<nat>>, d: nat, v: map<string, VState>): (r: seq<Dir>)
    requires d < |ds| == |up|
    ensures |r| == |ds|
  {
    var b := Bump(ds, up[d], |v| - |ds[d].virtual|);
    b[d := b[d].(virtual := v)]
  }

  lemma {:induction false} WithMarksSame(ds: seq<Dir>, up: seq<set<nat>>, d: nat)
    requires d < |ds| == |up|
    ensures WithMarks(ds, up, d, ds[d].virtual) == ds
  {
  }

  lemma {:induction false} WithMarksAt(ds: seq<Dir>, up: seq<set<nat>>, d: nat, v: map<string, VState>)
    requires d < |ds| == |up|
    ensures forall i :: 0 <= i < |ds| ==>
      WithMarks(ds, up, d, v)[i] == ds[i].(
        virtuals := ds[i].virtuals + if i in up[d] then |v| - |ds[d].virtual| else 0,
        virtual := if i == d then v else ds[i].virtual)
  {
  }

  lemma {:induction false} BumpMore(ds: seq<Dir>, s: set<nat>, c: nat, n: int)
    requires c < |ds| && c !in s
    ensures Bump(ds, s + {c}, n) == Bump(ds, s, n)[c := ds[c].(virtuals := ds[c].virtuals + n)]
  {
  }

  /** One step up the chain of `d`: the directories passed and those still ahead make up the chain. */
  lemma {:induction false} ChainStep(ds: seq<Dir>, up: seq<set<nat>>, d: nat, done: set<nat>, cur: nat)
    requires Linked(ds, up) && d < |ds| && cur < |ds| && done !! up[cur] && up[d] == done + up[cur]
    ensures cur !in done
    ensures var p := ds[cur].parent;
      && (p.Some? ==> p.value < |ds| && |up[p.value]| < |up[cur]|)
      && var rest := if p.Some? then up[p.value] else {};
      done + {cur} !! rest && up[d] == done + {cur} + rest
  {
    assert ChainOf(ds, up, cur);
  }

  /** Changing the marks and then walking the chain is changing both at once. */
  lemma {:induction false} WithMarksSteps(ds: seq<Dir>, up: seq<set<nat>>, d: nat, v: map<string, VState>)
    requires d < |ds| == |up|
    ensures Bump(ds[d := ds[d].(virtual := v)], up[d], |v| - |ds[d].virtual|) == WithMarks(ds, up, d, v)
    ensures Bump(ds, up[d], 0) == ds
  {
  }

  lemma {:induction false} HeldWithMarks(
    ds: seq<Dir>, up: seq<set<nat>>, d: nat, v: map<string, VState>, a: nat, n: nat)
    requires d < |ds| == |up| && n <= |ds|
    ensures Held(WithMarks(ds, up, d, v), up, a, n) ==
      Held(ds, up, a, n) + if d < n && a in up[d] then |v| - |ds[d].virtual| else 0
  {
    if n > 0 {
      HeldWithMarks(ds, up, d, v, a, n - 1);
    }
  }

  lemma {:induction false} WithMarksCounted(ds: seq<Dir>, up: seq<set<nat>>, d: nat, v: map<string, VState>)
    requires d < |ds| && Linked(ds, up) && Counted(ds, up)
    ensures Linked(WithMarks(ds, up, d, v), up) && Counted(WithMarks(ds, up, d, v), up)
  {
    var r := WithMarks(ds, up, d, v);
    assert forall i :: 0 <= i < |ds| ==> r[i].parent == ds[i].parent && ChainOf(ds, up, i);
    assert forall i :: 0 <= i < |ds| ==> ChainOf(r, up, i);
    forall a | 0 <= a < |r| ensures r[a].virtuals == Held(r, up, a, |r|) {
      HeldWithMarks(ds, up, d, v, a, |ds|);
    }
  }

  lemma {:induction false} WithMarksTwice(
    ds: seq<Dir>, up: seq<set<nat>>, d: nat, v: map<string, VState>, w: map<string, VState>)
    requires d < |ds| == |up|
    ensures WithMarks(WithMarks(ds, up, d, v), up, d, w) == WithMarks(ds, up, d, w)
  {
  }

  /** Entry and mark changes keep cached sub-directories linked back. */
  lemma {:induction false} WithMarksNamed(
    ds: seq<Dir>, up: seq<set<nat>>, d: nat, v: map<string, VState>, files: seq<File>)
    requires d < |ds| == |up| && Named(ds, files)
    ensures Named(WithMarks(ds, up, d, v), files)
  {
    var r := WithMarks(ds, up, d, v);
    forall e, leaf | 0 <= e < |r| && leaf in r[e].items ensures NamedItem(r, files, e, leaf) {
      assert NamedItem(ds, files, e, leaf);
    }
  }

  lemma {:induction false} WithMarksSound(
    ds: seq<Dir>, up: seq<set<nat>>, d: nat, v: map<string, VState>, files: seq<File>)
    requires d < |ds| && Sound(ds, up, files)
    ensures Sound(WithMarks(ds, up, d, v), up, files)
  {
    WithMarksCounted(ds, up, d, v);
    WithMarksNamed(ds, up, d, v, files);
  }

  lemma {:induction false} HeldAtLeast(ds: seq<Dir>, up: seq<set<nat>>, a: nat, e: nat, n: nat)
    requires e < n <= |ds| == |up| && a in up[e]
    ensures Held(ds, up, a, n) >= |ds[e].virtual|
  {
    if e < n - 1 {
      HeldAtLeast(ds, up, a, e, n - 1);
    }
  }

  lemma {:induction false} HeldNone(ds: seq<Dir>, up: seq<set<nat>>, a: nat, n: nat)
    requires n <= |ds| == |up|
    requires forall e :: 0 <= e < n && a in up[e] ==> ds[e].virtual == map[]
    ensures Held(ds, up, a, n) == 0
  {
    if n > 0 {
      HeldNone(ds, up, a, n - 1);
    }
  }

  /** A counter is zero exactly when no directory below, by parent links, holds a mark. */
  lemma {:induction false} ZeroMeansNone(ds: seq<Dir>, up: seq<set<nat>>, a: nat)
    requires a < |ds| && Linked(ds, up) && Counted(ds, up)
    ensures ds[a].virtuals == 0 <==> forall e :: 0 <= e < |ds| && a in up[e] ==> ds[e].virtual == map[]
  {
    if forall e :: 0 <= e < |ds| && a in up[e] ==> ds[e].virtual == map[] {
      HeldNone(ds, up, a, |ds|);
    } else {
      var e :| 0 <= e < |ds| && a in up[e] && ds[e].virtual != map[];
      HeldAtLeast(ds, up, a, e, |ds|);
    }
  }

  // --- Cached entries ---------------------------------------------------------------------

  /** A cached sub-directory links back to the directory it is cached in, under its own name; so does
      a cached file, which for that reason is cached in one place only. */
  ghost predicate Named(ds: seq<Dir>, files: seq<File>)
  {
    forall d, leaf :: 0 <= d < |ds| && leaf in ds[d].items ==> NamedItem(ds, files, d, leaf)
  }

  predicate NamedItem(ds: seq<Dir>, files: seq<File>, d: nat, leaf: string)
    requires d < |ds| && leaf in ds[d].items
  {
    Names(ds, files, d, leaf, ds[d].items[leaf])
  }

  /** `node` may be cached in `d` as `leaf`. */
  predicate Names(ds: seq<Dir>, files: seq<File>, d: nat, leaf: string, node: Node)
    requires d < |ds|
  {
    match node
    case DirNode(c) => c < |ds| && ds[c].parent == Some(d) && ds[c].path == ds[d].path + [leaf]
    case FileNode(f) => f < |files| && files[f].dir == d && files[f].leaf == leaf
  }

  /** What every operation keeps. */
  ghost predicate Sound(ds: seq<Dir>, up: seq<set<nat>>, files: seq<File>)
  {
    Linked(ds, up) && Named(ds, files) && Counted(ds, up)
  }

  /** The directory found by following cached entries from `d` along `p`. */
  function Walk(ds: seq<Dir>, d: nat, p: seq<string>): (r: Option<nat>)
    requires d < |ds|
    decreases |p|
  {
    if p == [] then Some(d)
    else if p[0] in ds[d].items && ds[d].items[p[0]].DirNode? && ds[d].items[p[0]].dir < |ds| then
      Walk(ds, ds[d].items[p[0]].dir, p[1..])
    else None
  }

  /** `e` is cached in its parent. */
  predicate Cached(ds: seq<Dir>, e: nat)
    requires e < |ds|
  {
    && ds[e].parent.Some? && ds[e].parent.value < |ds| && ds[e].path != []
    && var leaf := ds[e].path[|ds[e].path| - 1];
    && leaf in ds[ds[e].parent.value].items
    && ds[ds[e].parent.value].items[leaf] == DirNode(e)
  }

  /** `e` can be reached from `d` through cached entries. */
  ghost predicate Reached(ds: seq<Dir>, up: seq<set<nat>>, d: nat, e: nat)
    requires Linked(ds, up) && e < |ds|
    decreases |up[e]|
  {
    assert ChainOf(ds, up, e);
    e == d || (Cached(ds, e) && Reached(ds, up, d, ds[e].parent.value))
  }

  lemma {:induction false} ReachedIsBelow(ds: seq<Dir>, up: seq<set<nat>>, d: nat, e: nat)
    requires Linked(ds, up) && e < |ds| && Reached(ds, up, d, e)
    ensures d in up[e]
    decreases |up[e]|
  {
    assert ChainOf(ds, up, e);
    if e != d {
      ReachedIsBelow(ds, up, d, ds[e].parent.value);
    }
  }

  /** Reachability from `d` depends on the entries of `d` and of the directories below it only. */
  lemma {:induction false} ReachedFrame(ds: seq<Dir>, rs: seq<Dir>, up: seq<set<nat>>, d: nat, e: nat)
    requires Linked(ds, up) && Linked(rs, up) && e < |ds| == |rs|
    requires forall x :: 0 <= x < |ds| ==> rs[x].parent == ds[x].parent && rs[x].path == ds[x].path
    requires forall x :: 0 <= x < |ds| && d in up[x] ==> rs[x].items == ds[x].items
    ensures Reached(ds, up, d, e) == Reached(rs, up, d, e)
    decreases |up[e]|
  {
    assert ChainOf(ds, up, e);
    if e != d && ds[e].parent.Some? {
      var p := ds[e].parent.value;
      ReachedFrame(ds, rs, up, d, p);
      if Reached(ds, up, d, p) {
        ReachedIsBelow(ds, up, d, p);
      }
    }
  }

  /** Whatever lies strictly below `d` is reached through one of the sub-directories cached in `d`. */
  lemma {:induction false} ReachedThroughChild(ds: seq<Dir>, up: seq<set<nat>>, d: nat, e: nat) returns (c: nat)
    requires Linked(ds, up) && e < |ds| && e != d && Reached(ds, up, d, e)
    ensures c < |ds| && ds[c].parent == Some(d) && Cached(ds, c) && Reached(ds, up, c, e)
    decreases |up[e]|
  {
    assert ChainOf(ds, up, e);
    var p := ds[e].parent.value;
    if p == d {
      c := e;
    } else {
      c := ReachedThroughChild(ds, up, d, p);
    }
  }

  lemma {:induction false} ReachedByChild(ds: seq<Dir>, up: seq<set<nat>>, d: nat, c: nat, e: nat)
    requires Linked(ds, up) && e < |ds| && c < |ds|
    requires Cached(ds, c) && ds[c].parent == Some(d) && Reached(ds, up, c, e)
    ensures Reached(ds, up, d, e)
    decreases |up[e]|
  {
    assert ChainOf(ds, up, e);
    if e != c {
      ReachedByChild(ds, up, d, c, ds[e].parent.value);
    }
  }

  // --- Forgetting -------------------------------------------------------------------------

  ghost predicate SameShape(ds: seq<Dir>, rs: seq<Dir>)
  {
    && |rs| == |ds|
    && forall e :: 0 <= e < |ds| ==> rs[e].parent == ds[e].parent && rs[e].path == ds[e].path
  }

  lemma {:induction false} SameShapeLinked(ds: seq<Dir>, rs: seq<Dir>, up: seq<set<nat>>)
    requires SameShape(ds, rs) && Linked(ds, up)
    ensures Linked(rs, up)
  {
    forall d | 0 <= d < |rs| ensures ChainOf(rs, up, d) {
      assert ChainOf(ds, up, d);
    }
  }

  lemma {:induction false} SameShapeOfParents(ds: seq<Dir>, rs: seq<Dir>, up: seq<set<nat>>)
    requires |rs| == |ds| && Linked(ds, up)
    requires forall e :: 0 <= e < |ds| ==> rs[e].parent == ds[e].parent
    ensures Linked(rs, up)
  {
    forall d | 0 <= d < |rs| ensures ChainOf(rs, up, d) {
      assert ChainOf(ds, up, d);
    }
  }

  /** `r` is what becomes of directory `d` when it is visited: purged, and emptied when nothing
      below it is pending any more. */
  ghost predicate Visited(d: Dir, r: Dir, files: seq<File>, emptyDirs: bool)
  {
    && r.virtual == Kept(d, files, emptyDirs)
    && if r.virtuals == 0 then r.items == map[] && !r.read else r.items == d.items && r.read == d.read
  }

  /** `rs` is `ds` after exactly the directories of `s` were visited. */
  ghost predicate ForgottenIn(
    ds: seq<Dir>, rs: seq<Dir>, up: seq<set<nat>>, files: seq<File>, emptyDirs: bool, s: set<nat>)
  {
    && SameShape(ds, rs)
    && |up| == |rs| && Counted(rs, up)
    && forall e :: 0 <= e < |ds| ==>
      if e in s then Visited(ds[e], rs[e], files, emptyDirs)
      else rs[e].virtual == ds[e].virtual && rs[e].items == ds[e].items && rs[e].read == ds[e].read
  }

  ghost function ReachSet(ds: seq<Dir>, up: seq<set<nat>>, d: nat): (s: set<nat>)
    requires Linked(ds, up)
  {
    set e: nat | e < |ds| && Reached(ds, up, d, e)
  }

  /** `rs` is `ds` after forgetting `d`. */
  ghost predicate Forgotten(
    ds: seq<Dir>, rs: seq<Dir>, up: seq<set<nat>>, files: seq<File>, emptyDirs: bool, d: nat)
  {
    Linked(ds, up) && ForgottenIn(ds, rs, up, files, emptyDirs, ReachSet(ds, up, d))
  }

  lemma {:induction false} HeldFrame(ds: seq<Dir>, rs: seq<Dir>, up: seq<set<nat>>, a: nat, n: nat)
    requires n <= |ds| == |rs| == |up|
    requires forall e :: 0 <= e < n && a in up[e] ==> rs[e].virtual == ds[e].virtual
    ensures Held(rs, up, a, n) == Held(ds, up, a, n)
  {
    if n > 0 {
      HeldFrame(ds, rs, up, a, n - 1);
    }
  }

  /** Forgetting a further sub-directory `c`, no visited directory being above or below it. */
  lemma {:induction false} ForgetMore(
    ds: seq<Dir>, rs: seq<Dir>, ts: seq<Dir>, up: seq<set<nat>>, files: seq<File>, emptyDirs: bool,
    s: set<nat>, c: nat)
    requires Linked(ds, up) && c < |ds|
    requires ForgottenIn(ds, rs, up, files, emptyDirs, s)
    requires Forgotten(rs, ts, up, files, emptyDirs, c)
    requires forall x, e :: 0 <= x < |ds| && c in up[x] && e in s ==> e !in up[x]
    ensures ForgottenIn(ds, ts, up, files, emptyDirs, s + ReachSet(ds, up, c))
  {
    var t := ReachSet(ds, up, c);
    OwnChain(ds, up);
    forall e: nat | e < |ds| ensures Reached(rs, up, c, e) == Reached(ds, up, c, e) {
      ReachedFrame(ds, rs, up, c, e);
    }
    assert ReachSet(rs, up, c) == t;
    forall e | e in t ensures c in up[e] && e !in s {
      ReachedIsBelow(ds, up, c, e);
    }
    forall e | 0 <= e < |ds| && e in s ensures ts[e].virtuals == rs[e].virtuals {
      HeldFrame(rs, ts, up, e, |ds|);
    }
    forall e | 0 <= e < |ds| && e in t
      ensures Visited(ds[e], ts[e], files, emptyDirs)
    {
      assert Visited(rs[e], ts[e], files, emptyDirs);
      assert Kept(rs[e], files, emptyDirs) == Kept(ds[e], files, emptyDirs);
    }
    forall e | 0 <= e < |ds| && e in s && e !in t
      ensures Visited(ds[e], ts[e], files, emptyDirs)
    {
      assert Visited(ds[e], rs[e], files, emptyDirs);
    }
  }

  /** Purging `d` after everything below it was visited, and emptying it when nothing is left,
      visits `d` too. */
  lemma {:induction false} ForgetSelf(
    ds: seq<Dir>, rs: seq<Dir>, up: seq<set<nat>>, files: seq<File>, emptyDirs: bool,
    s: set<nat>, d: nat)
    requires Linked(ds, up) && Linked(rs, up) && d < |ds| && d !in s
    requires ForgottenIn(ds, rs, up, files, emptyDirs, s)
    requires forall e :: e in s ==> e !in up[d]
    ensures ForgottenIn(
      ds, Emptied(WithMarks(rs, up, d, Kept(rs[d], files, emptyDirs)), d), up, files, emptyDirs, s + {d})
  {
    var v := Kept(rs[d], files, emptyDirs);
    var us := Emptied(WithMarks(rs, up, d, v), d);
    assert Counted(us, up) by {
      WithMarksCounted(rs, up, d, v);
      EmptiedCounted(WithMarks(rs, up, d, v), up, d);
    }
    EmptiedAt(rs, up, d, v);
    KeptOf(rs[d], ds[d], files, emptyDirs);
    forall e | 0 <= e < |ds| && e in s ensures Visited(ds[e], us[e], files, emptyDirs) {
      assert Visited(ds[e], rs[e], files, emptyDirs) && us[e] == rs[e];
    }
  }

  /** What survives depends on marks and entries only. */
  lemma {:induction false} KeptOf(a: Dir, b: Dir, files: seq<File>, emptyDirs: bool)
    requires a.virtual == b.virtual && a.items == b.items
    ensures Kept(a, files, emptyDirs) == Kept(b, files, emptyDirs)
  {
  }

  lemma {:induction false} EmptiedAt(rs: seq<Dir>, up: seq<set<nat>>, d: nat, v: map<string, VState>)
    requires d < |rs| == |up|
    ensures var us := Emptied(WithMarks(rs, up, d, v), d);
      && |us| == |rs| && us[d].virtual == v && us[d].parent == rs[d].parent && us[d].path == rs[d].path
      && (if us[d].virtuals == 0 then us[d].items == map[] && !us[d].read
          else us[d].items == rs[d].items && us[d].read == rs[d].read)
      && (forall e :: 0 <= e < |rs| && e !in up[d] && e != d ==> us[e] == rs[e])
      && (forall e :: 0 <= e < |rs| && e != d ==> us[e] == rs[e].(virtuals := us[e].virtuals))
  {
    WithMarksAt(rs, up, d, v);
  }

  lemma {:induction false} EmptiedCounted(ds: seq<Dir>, up: seq<set<nat>>, d: nat)
    requires d < |ds| == |up| && Counted(ds, up)
    ensures Counted(Emptied(ds, d), up)
  {
    forall a: nat | a < |ds| ensures Emptied(ds, d)[a].virtuals == Held(Emptied(ds, d), up, a, |ds|) {
      HeldFrame(ds, Emptied(ds, d), up, a, |ds|);
    }
  }

  /** Drop the cached entries of `d` unless something is pending in it or below it. */
  function Emptied(ds: seq<Dir>, d: nat): (r: seq<Dir>)
    requires d < |ds|
    ensures |r| == |ds|
  {
    if ds[d].virtuals == 0 then ds[d := ds[d].(items := map[], read := false)] else ds
  }

  /** Replacing the entries of one directory leaves links and counters alone. */
  lemma {:induction false} WithItemsSound(
    ds: seq<Dir>, up: seq<set<nat>>, d: nat, items: map<string, Node>, read: bool, files: seq<File>)
    requires d < |ds| && Sound(ds, up, files)
    requires forall leaf :: leaf in items ==> Names(ds, files, d, leaf, items[leaf])
    ensures Sound(ds[d := ds[d].(items := items, read := read)], up, files)
  {
    var r := ds[d := ds[d].(items := items, read := read)];
    SameShapeLinked(ds, r, up);
    forall a: nat | a < |r| ensures r[a].virtuals == Held(r, up, a, |r|) {
      HeldFrame(ds, r, up, a, |r|);
    }
    forall e, leaf | 0 <= e < |r| && leaf in r[e].items ensures NamedItem(r, files, e, leaf) {
      if e != d {
        assert NamedItem(ds, files, e, leaf);
      }
    }
  }

  /** `ds` with `node` cached in `d` and marked as added. */
  ghost function Added(ds: seq<Dir>, up: seq<set<nat>>, d: nat, leaf: string, node: Node): (rs: seq<Dir>)
    requires d < |ds| == |up|
  {
    var es := ds[d := ds[d].(items := ds[d].items[leaf := node])];
    WithMarks(es, up, d, ds[d].virtual[leaf := if node.DirNode? then AddDir else AddFile])
  }

  /** `ds` with `leaf` dropped from `d` and marked as deleted. */
  ghost function Deleted(ds: seq<Dir>, up: seq<set<nat>>, d: nat, leaf: string): (rs: seq<Dir>)
    requires d < |ds| == |up|
  {
    var es := ds[d := ds[d].(items := ds[d].items - {leaf})];
    WithMarks(es, up, d, ds[d].virtual[leaf := Del])
  }

  lemma {:induction false} AddedAt(ds: seq<Dir>, up: seq<set<nat>>, d: nat, leaf: string, node: Node)
    requires d < |ds| == |up|
    ensures var rs := Added(ds, up, d, leaf, node);
      && |rs| == |ds| && rs[d].items == ds[d].items[leaf := node]
      && rs[d].virtual == ds[d].virtual[leaf := if node.DirNode? then AddDir else AddFile]
      && (forall x :: 0 <= x < |ds| ==> rs[x].parent == ds[x].parent && rs[x].path == ds[x].path)
      && (forall x :: 0 <= x < |ds| && x != d ==> rs[x].items == ds[x].items && rs[x].virtual == ds[x].virtual)
  {
    var es := ds[d := ds[d].(items := ds[d].items[leaf := node])];
    WithMarksAt(es, up, d, ds[d].virtual[leaf := if node.DirNode? then AddDir else AddFile]);
  }

  lemma {:induction false} AddedSound(
    ds: seq<Dir>, up: seq<set<nat>>, files: seq<File>, d: nat, leaf: string, node: Node)
    requires d < |ds| == |up|
    ensures Sound(ds, up, files) && Names(ds, files, d, leaf, node) ==> Sound(Added(ds, up, d, leaf, node), up, files)
  {
    if Sound(ds, up, files) && Names(ds, files, d, leaf, node) {
      var items := ds[d].items[leaf := node];
      forall l | l in items ensures Names(ds, files, d, l, items[l]) {
        assert l in ds[d].items ==> NamedItem(ds, files, d, l);
      }
      WithItemsSound(ds, up, d, items, ds[d].read, files);
      WithMarksSound(ds[d := ds[d].(items := items)], up, d,
        ds[d].virtual[leaf := if node.DirNode? then AddDir else AddFile], files);
    }
  }

  lemma {:induction false} DeletedSound(ds: seq<Dir>, up: seq<set<nat>>, files: seq<File>, d: nat, leaf: string)
    requires d < |ds| == |up|
    ensures Sound(ds, up, files) ==> Sound(Deleted(ds, up, d, leaf), up, files)
  {
    if Sound(ds, up, files) {
      var items := ds[d].items - {leaf};
      forall l | l in items ensures Names(ds, files, d, l, items[l]) {
        assert NamedItem(ds, files, d, l);
      }
      WithItemsSound(ds, up, d, items, ds[d].read, files);
      WithMarksSound(ds[d := ds[d].(items := items)], up, d, ds[d].virtual[leaf := Del], files);
    }
  }

  lemma {:induction false} ForgottenNamed(
    ds: seq<Dir>, rs: seq<Dir>, up: seq<set<nat>>, files: seq<File>, emptyDirs: bool, s: set<nat>)
    requires Named(ds, files) && ForgottenIn(ds, rs, up, files, emptyDirs, s)
    ensures Named(rs, files)
  {
    forall d, leaf | 0 <= d < |rs| && leaf in rs[d].items ensures NamedItem(rs, files, d, leaf) {
      if d in s {
        assert Visited(ds[d], rs[d], files, emptyDirs);
      }
      assert NamedItem(ds, files, d, leaf);
    }
  }

  /** All directories; what is not above a directory bounds how deep one can go below it. */
  ghost function Ids(up: seq<set<nat>>): (s: set<nat>)
  {
    set i: nat | i < |up| && i in up[i]
  }

  lemma {:induction false} OwnChain(ds: seq<Dir>, up: seq<set<nat>>)
    requires Linked(ds, up)
    ensures forall x :: 0 <= x < |ds| ==> x in up[x]
  {
    forall x | 0 <= x < |ds| ensures x in up[x] {
      assert ChainOf(ds, up, x);
    }
  }

  lemma {:induction false} GoesDown(ds: seq<Dir>, up: seq<set<nat>>, d: nat, c: nat)
    requires Linked(ds, up) && d < |ds| && c < |ds| && ds[c].parent == Some(d)
    ensures Ids(up) - up[c] < Ids(up) - up[d]
  {
    assert ChainOf(ds, up, c);
    assert c in Ids(up) - up[d];
  }

  /** The sub-directories among the entries called `names`. */
  ghost function Subdirs(items: map<string, Node>, names: set<string>): (s: set<nat>)
  {
    set leaf | leaf in items && leaf in names && items[leaf].DirNode? :: items[leaf].dir
  }

  lemma {:induction false} SubdirsMore(ds: seq<Dir>, files: seq<File>, d: nat, leaf: string, names: set<string>)
    requires d < |ds| && Named(ds, files) && leaf in ds[d].items && leaf !in names
    ensures Subdirs(ds[d].items, names + {leaf}) ==
      Subdirs(ds[d].items, names) + if ds[d].items[leaf].DirNode? then {ds[d].items[leaf].dir} else {}
    ensures ds[d].items[leaf].DirNode? ==> ds[d].items[leaf].dir !in Subdirs(ds[d].items, names)
    ensures forall b :: b in Subdirs(ds[d].items, names) ==> b < |ds| && ds[b].parent == Some(d)
  {
    var items := ds[d].items;
    assert NamedItem(ds, files, d, leaf);
    if items[leaf].DirNode? {
      assert items[leaf].dir in Subdirs(items, names + {leaf});
    }
    forall l | l in items && l in names && items[l].DirNode?
      ensures items[l] != items[leaf] && items[l].dir < |ds| && ds[items[l].dir].parent == Some(d)
    {
      assert NamedItem(ds, files, d, l);
      assert (ds[d].path + [l])[|ds[d].path|] == l;
      assert (ds[d].path + [leaf])[|ds[d].path|] == leaf;
    }
  }

  /** The directories visited so far when the sub-directories `done` of `d` have been forgotten. */
  ghost function ReachOf(ds: seq<Dir>, up: seq<set<nat>>, done: set<nat>): (s: set<nat>)
    requires Linked(ds, up)
  {
    set e: nat, c: nat | e < |ds| && c in done && Reached(ds, up, c, e) :: e
  }

  lemma {:induction false} ReachOfMore(ds: seq<Dir>, up: seq<set<nat>>, done: set<nat>, c: nat)
    requires Linked(ds, up)
    ensures ReachOf(ds, up, done + {c}) == ReachOf(ds, up, done) + ReachSet(ds, up, c)
  {
    forall e: nat | e < |ds| && Reached(ds, up, c, e) ensures e in ReachOf(ds, up, done + {c}) {
      assert c in done + {c};
    }
  }

  /** What was visited under other sub-directories of `d` has no chain in common with `c` nor with `d`. */
  lemma {:induction false} ReachOfApart(ds: seq<Dir>, up: seq<set<nat>>, d: nat, done: set<nat>, c: nat)
    requires Linked(ds, up) && d < |ds| && c < |ds| && c !in done && ds[c].parent == Some(d)
    requires forall b :: b in done ==> b < |ds| && ds[b].parent == Some(d)
    ensures forall x, e :: 0 <= x < |ds| && c in up[x] && e in ReachOf(ds, up, done) ==> e !in up[x]
  {
    forall x, e | 0 <= x < |ds| && c in up[x] && e in ReachOf(ds, up, done) ensures e !in up[x] {
      if e in up[x] {
        var b: nat :| b in done && Reached(ds, up, b, e);
        ReachedIsBelow(ds, up, b, e);
        ChainIn(ds, up, x, e);
        SiblingsApart(ds, up, x, b, c);
      }
    }
  }

  lemma {:induction false} ReachOfBelow(ds: seq<Dir>, up: seq<set<nat>>, d: nat, done: set<nat>)
    requires Linked(ds, up) && d < |ds|
    requires forall b :: b in done ==> b < |ds| && ds[b].parent == Some(d)
    ensures forall e :: e in ReachOf(ds, up, done) ==> e !in up[d]
  {
    forall e | e in ReachOf(ds, up, done) ensures e !in up[d] {
      var b: nat :| b in done && Reached(ds, up, b, e);
      ReachedIsBelow(ds, up, b, e);
      assert ChainOf(ds, up, b);
      if e in up[d] {
        ChainIn(ds, up, d, e);
      }
    }
  }

  /** Forgetting all sub-directories cached in `d`, and then `d`, visits all that `d` reaches. */
  lemma {:induction false} ReachSetSplit(ds: seq<Dir>, up: seq<set<nat>>, files: seq<File>, d: nat)
    requires d < |ds| && Sound(ds, up, files)
    ensures ReachSet(ds, up, d) == ReachOf(ds, up, Subdirs(ds[d].items, ds[d].items.Keys)) + {d}
  {
    var done := Subdirs(ds[d].items, ds[d].items.Keys);
    forall e: nat | e < |ds| && e != d && Reached(ds, up, d, e) ensures e in ReachOf(ds, up, done) {
      var c := ReachedThroughChild(ds, up, d, e);
      assert ds[d].items[ds[c].path[|ds[c].path| - 1]] == DirNode(c);
    }
    forall e: nat, b: nat | e < |ds| && b in done && Reached(ds, up, b, e) ensures Reached(ds, up, d, e) {
      var leaf :| leaf in ds[d].items && ds[d].items[leaf] == DirNode(b);
      assert NamedItem(ds, files, d, leaf);
      ReachedByChild(ds, up, d, b, e);
    }
  }

  lemma {:induction false} ForgottenSound(
    ds: seq<Dir>, rs: seq<Dir>, up: seq<set<nat>>, files: seq<File>, emptyDirs: bool, s: set<nat>)
    requires Sound(ds, up, files) && ForgottenIn(ds, rs, up, files, emptyDirs, s)
    ensures Sound(rs, up, files)
  {
    SameShapeLinked(ds, rs, up);
    ForgottenNamed(ds, rs, up, files, emptyDirs, s);
  }

  lemma {:induction false} ForgetFinish(
    ds: seq<Dir>, rs: seq<Dir>, up: seq<set<nat>>, files: seq<File>, emptyDirs: bool, d: nat)
    requires d < |ds| && Sound(ds, up, files)
    requires ForgottenIn(ds, rs, up, files, emptyDirs, ReachOf(ds, up, Subdirs(ds[d].items, ds[d].items.Keys)))
    ensures var ts := Emptied(WithMarks(rs, up, d, Kept(rs[d], files, emptyDirs)), d);
      Forgotten(ds, ts, up, files, emptyDirs, d) && Sound(ts, up, files)
  {
    var names := ds[d].items.Keys;
    var done := Subdirs(ds[d].items, names);
    forall leaf | leaf in names && ds[d].items[leaf].DirNode?
      ensures ds[d].items[leaf].dir < |ds| && ds[ds[d].items[leaf].dir].parent == Some(d)
    {
      assert NamedItem(ds, files, d, leaf);
    }
    var s := ReachOf(ds, up, done);
    ReachOfBelow(ds, up, d, done);
    OwnChain(ds, up);
    SameShapeLinked(ds, rs, up);
    ForgetSelf(ds, rs, up, files, emptyDirs, s, d);
    ReachSetSplit(ds, up, files, d);
    ForgottenSound(ds, Emptied(WithMarks(rs, up, d, Kept(rs[d], files, emptyDirs)), d), up, files, emptyDirs, s + {d});
  }

  /** A cached sub-directory is below the directory it is cached in. */
  lemma {:induction false} CachedChild(ds: seq<Dir>, up: seq<set<nat>>, files: seq<File>, x: nat, leaf: string)
    requires Sound(ds, up, files) && x < |ds| && leaf in ds[x].items && ds[x].items[leaf].DirNode?
    ensures var c := ds[x].items[leaf].dir;
      && c < |ds| && ds[c].parent == Some(x) && ds[c].path == ds[x].path + [leaf] && Cached(ds, c)
      && up[c] == up[x] + {c} && c !in up[x]
  {
    assert NamedItem(ds, files, x, leaf);
    assert ChainOf(ds, up, ds[x].items[leaf].dir);
  }

  lemma {:induction false} JoinPath(a: seq<string>, p: seq<string>)
    requires p != []
    ensures a + [p[0]] + p[1..] == a + p
  {
  }

  /** The directory found by a path has that path. */
  lemma {:induction false} WalkPath(ds: seq<Dir>, up: seq<set<nat>>, files: seq<File>, x: nat, p: seq<string>)
    requires Sound(ds, up, files) && x < |ds| && Walk(ds, x, p).Some?
    ensures Walk(ds, x, p).value < |ds| && ds[Walk(ds, x, p).value].path == ds[x].path + p
    decreases |p|
  {
    if p != [] {
      CachedChild(ds, up, files, x, p[0]);
      WalkPath(ds, up, files, ds[x].items[p[0]].dir, p[1..]);
      JoinPath(ds[x].path, p);
    } else {
      assert ds[x].path + p == ds[x].path;
    }
  }

  /** Following cached entries leads to directories that are reached, and only downwards. */
  lemma {:induction false} WalkReaches(
    ds: seq<Dir>, up: seq<set<nat>>, files: seq<File>, d: nat, x: nat, p: seq<string>)
    requires Sound(ds, up, files) && d < |ds| && x < |ds| && Reached(ds, up, d, x)
    requires Walk(ds, x, p).Some?
    ensures var e := Walk(ds, x, p).value; e < |ds| && x in up[e] && Reached(ds, up, d, e)
    decreases |p|
  {
    OwnChain(ds, up);
    if p != [] {
      CachedChild(ds, up, files, x, p[0]);
      var c := ds[x].items[p[0]].dir;
      WalkReaches(ds, up, files, d, c, p[1..]);
      ChainIn(ds, up, Walk(ds, x, p).value, c);
    }
  }

  /** A path survives forgetting when its last directory still holds a mark. */
  lemma {:induction false} WalkKept(
    ds: seq<Dir>, rs: seq<Dir>, up: seq<set<nat>>, files: seq<File>, emptyDirs: bool, d: nat, x: nat, p: seq<string>)
    requires Sound(ds, up, files) && d < |ds| && Forgotten(ds, rs, up, files, emptyDirs, d)
    requires x < |ds| && Reached(ds, up, d, x)
    requires Walk(ds, x, p).Some? && Walk(ds, x, p).value < |rs| && rs[Walk(ds, x, p).value].virtual != map[]
    ensures Walk(rs, x, p) == Walk(ds, x, p)
    decreases |p|
  {
    if p != [] {
      var e := Walk(ds, x, p).value;
      WalkReaches(ds, up, files, d, x, p);
      HeldAtLeast(rs, up, x, e, |rs|);
      assert Visited(ds[x], rs[x], files, emptyDirs);
      CachedChild(ds, up, files, x, p[0]);
      var c := ds[x].items[p[0]].dir;
      WalkKept(ds, rs, up, files, emptyDirs, d, c, p[1..]);
    }
  }

  /** Forgetting never loses pending work: an entry whose mark outlives a purge is found under
      the same path afterwards, with the same mark and the same node. */
  lemma {:induction false} ForgetKeepsPending(
    ds: seq<Dir>, rs: seq<Dir>, up: seq<set<nat>>, files: seq<File>, emptyDirs: bool,
    d: nat, p: seq<string>, name: string)
    requires Sound(ds, up, files) && d < |ds| && Forgotten(ds, rs, up, files, emptyDirs, d)
    requires Walk(ds, d, p).Some? && Walk(ds, d, p).value < |ds|
    requires name in Kept(ds[Walk(ds, d, p).value], files, emptyDirs)
    ensures Walk(rs, d, p) == Walk(ds, d, p)
    ensures var e := Walk(ds, d, p).value;
      && name in rs[e].virtual && rs[e].virtual[name] == ds[e].virtual[name] != Del
      && (name in ds[e].items ==> name in rs[e].items && rs[e].items[name] == ds[e].items[name])
  {
    var e := Walk(ds, d, p).value;
    WalkReaches(ds, up, files, d, d, p);
    assert Visited(ds[e], rs[e], files, emptyDirs);
    WalkKept(ds, rs, up, files, emptyDirs, d, d, p);
    OwnChain(ds, up);
    HeldAtLeast(rs, up, e, e, |rs|);
  }

  /** What is not pending is gone: a reached directory keeps no other mark, and keeps its entries
      only while something is pending below it. */
  lemma {:induction false} ForgetDropsRest(
    ds: seq<Dir>, rs: seq<Dir>, up: seq<set<nat>>, files: seq<File>, emptyDirs: bool, d: nat, p: seq<string>)
    requires Sound(ds, up, files) && d < |ds| && Forgotten(ds, rs, up, files, emptyDirs, d)
    requires Walk(ds, d, p).Some? && Walk(ds, d, p).value < |ds|
    ensures var e := Walk(ds, d, p).value;
      && rs[e].virtual == Kept(ds[e], files, emptyDirs)
      && (rs[e].items == map[] <==>
          ds[e].items == map[] || forall x :: 0 <= x < |rs| && e in up[x] ==> rs[x].virtual == map[])
  {
    var e := Walk(ds, d, p).value;
    WalkReaches(ds, up, files, d, d, p);
    assert Visited(ds[e], rs[e], files, emptyDirs);
    SameShapeLinked(ds, rs, up);
    ZeroMeansNone(rs, up, e);
  }

  /** Nothing that forgetting `d` could not drop is marked in `d` or below it. */
  ghost predicate NothingPending(ds: seq<Dir>, up: seq<set<nat>>, files: seq<File>, emptyDirs: bool, d: nat)
    requires Linked(ds, up)
  {
    forall x :: 0 <= x < |ds| && d in up[x] ==>
      if Reached(ds, up, d, x) then Kept(ds[x], files, emptyDirs) == map[] else ds[x].virtual == map[]
  }

  /** What is left after forgetting can be told beforehand. */
  lemma {:induction false} NothingLeftIff(
    ds: seq<Dir>, rs: seq<Dir>, up: seq<set<nat>>, files: seq<File>, emptyDirs: bool, d: nat)
    requires d < |ds| && Forgotten(ds, rs, up, files, emptyDirs, d)
    ensures rs[d].virtuals == 0 <==> NothingPending(ds, up, files, emptyDirs, d)
  {
    SameShapeLinked(ds, rs, up);
    ZeroMeansNone(rs, up, d);
    forall x | 0 <= x < |ds| && d in up[x]
      ensures rs[x].virtual == if Reached(ds, up, d, x) then Kept(ds[x], files, emptyDirs) else ds[x].virtual
    {
      assert x in ReachSet(ds, up, d) ==> Visited(ds[x], rs[x], files, emptyDirs);
    }
  }

  /** Forgetting has one result, in whatever order maps yield their entries. */
  lemma {:induction false} ForgetDeterministic(
    ds: seq<Dir>, rs: seq<Dir>, ts: seq<Dir>, up: seq<set<nat>>, files: seq<File>, emptyDirs: bool, d: nat)
    requires Forgotten(ds, rs, up, files, emptyDirs, d) && Forgotten(ds, ts, up, files, emptyDirs, d)
    ensures rs == ts
  {
    var s := ReachSet(ds, up, d);
    forall e | 0 <= e < |ds| ensures rs[e].virtual == ts[e].virtual {
      assert e in s ==> Visited(ds[e], rs[e], files, emptyDirs) && Visited(ds[e], ts[e], files, emptyDirs);
    }
    forall e | 0 <= e < |ds| ensures rs[e] == ts[e] {
      HeldFrame(rs, ts, up, e, |ds|);
      assert e in s ==> Visited(ds[e], rs[e], files, emptyDirs) && Visited(ds[e], ts[e], files, emptyDirs);
    }
  }

  /** What is marked as `name` at the end of path `p` from `c` is found there, marked and with its node. */
  ghost predicate FoundPending(ds: seq<Dir>, rs: seq<Dir>, c: nat, p: seq<string>, name: string)
    requires c < |ds| && c < |rs| && Walk(ds, c, p).Some? && Walk(ds, c, p).value < |ds|
    requires name in ds[Walk(ds, c, p).value].virtual
  {
    var e := Walk(ds, c, p).value;
    && Walk(rs, c, p) == Walk(ds, c, p) && e < |rs|
    && name in rs[e].virtual && rs[e].virtual[name] == ds[e].virtual[name]
    && (name in ds[e].items ==> name in rs[e].items && rs[e].items[name] == ds[e].items[name])
  }
}

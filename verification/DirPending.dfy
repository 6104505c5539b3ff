/** Operations on the directory cache (vfs/dir.go), and what they leave of pending work. */
module DirPending {
  import opened Wrappers
  import opened DirModel
  import opened DirListing
  import opened DirReading
  import opened DirRename

  datatype Op =
    | Add(d: nat, leaf: string, isDir: bool)
    | AddNode(d: nat, leaf: string, node: Node)
    | Delete(d: nat, leaf: string)
    | Purge(d: nat)
    | Read(d: nat, t: Tree, deep: bool)
    | Forget(d: nat)
    | Touch(file: nat, obj: Option<nat>, writers: nat, inUse: bool)
    | Move(d: nat, leaf: string, to: nat, name: string)

  /** The state of the cache. */
  datatype Snap = Snap(dirs: seq<Dir>, up: seq<set<nat>>, files: seq<File>)

  predicate MarkedAs(ds: seq<Dir>, x: nat, n: string, node: Node, mark: VState)
    requires x < |ds|
  {
    n in ds[x].items && ds[x].items[n] == node && n in ds[x].virtual && ds[x].virtual[n] == mark
  }

  /** The operation can end what is pending as `n` in `x`: it is deleted, or a read comes to `x` with a
      listing that has it, or its own file is no longer busy, or another node is put in its place, or a
      directory is moved away from there, over it, or to `x` from a place where it had this name. */
  ghost predicate Ends(op: Op, ds: seq<Dir>, up: seq<set<nat>>, x: nat, n: string)
    requires x < |ds| == |up|
  {
    match op
    case Delete(d, leaf) => d == x && leaf == n
    case Read(d, t, deep) =>
      d < |ds| && if deep then ReadAt(ds, up, d, t, x, n) else d == x && n in Listed(t.entries)
    case Touch(f, obj, writers, inUse) =>
      !File(0, "", obj, writers, inUse).Busy() && MarkedAs(ds, x, n, FileNode(f), AddFile)
    case Move(o, oldName, to, newName) => (x == o && n == oldName) || (x == to && (n == oldName || n == newName))
    case AddNode(d, leaf, node) =>
      d == x && leaf == n && !MarkedAs(ds, x, n, node, if node.DirNode? then AddDir else AddFile)
    case Add(_, _, _) => false
    case Purge(_) => false
    case Forget(_) => false
  }

  /** What is pending as `n` in `x` stays so, with the same node. */
  ghost predicate Stays(
    ds: seq<Dir>, files: seq<File>, rs: seq<Dir>, more: seq<File>, emptyDirs: bool, x: nat, n: string)
    requires x < |ds|
  {
    Pending(ds, files, emptyDirs, x, n) ==>
      x < |rs| && Pending(rs, more, emptyDirs, x, n) && rs[x].items[n] == ds[x].items[n]
  }

  /** Whatever is pending stays so, unless the operation can end it. */
  ghost predicate AllStay(
    ds: seq<Dir>, up: seq<set<nat>>, files: seq<File>, rs: seq<Dir>, more: seq<File>, emptyDirs: bool, op: Op)
    requires |up| == |ds|
  {
    forall x, n :: 0 <= x < |ds| && !Ends(op, ds, up, x, n) ==> Stays(ds, files, rs, more, emptyDirs, x, n)
  }

  predicate BusyAt(files: seq<File>, node: Node)
  {
    node.FileNode? && node.file < |files| && files[node.file].Busy()
  }

  /** Nothing that concerns the entry has changed. */
  lemma {:induction false} SameStays(
    ds: seq<Dir>, files: seq<File>, rs: seq<Dir>, more: seq<File>, emptyDirs: bool, x: nat, n: string)
    requires x < |ds| && x < |rs| && |files| <= |more|
    requires Pending(ds, files, emptyDirs, x, n) ==>
      && n in rs[x].items && rs[x].items[n] == ds[x].items[n]
      && n in rs[x].virtual && rs[x].virtual[n] == ds[x].virtual[n]
      && (rs[x].virtual[n] == AddFile && BusyAt(files, rs[x].items[n]) ==> BusyAt(more, rs[x].items[n]))
    ensures Stays(ds, files, rs, more, emptyDirs, x, n)
  {
  }

  lemma {:induction false} AddStays(
    ds: seq<Dir>, up: seq<set<nat>>, files: seq<File>, rs: seq<Dir>, more: seq<File>, emptyDirs: bool,
    d: nat, leaf: string, node: Node, isDir: bool)
    requires d < |ds| == |up| && leaf !in ds[d].items && files <= more && rs == Added(ds, up, d, leaf, node)
    ensures AllStay(ds, up, files, rs, more, emptyDirs, Add(d, leaf, isDir))
  {
    AddedAt(ds, up, d, leaf, node);
    forall x, n | 0 <= x < |ds| ensures Stays(ds, files, rs, more, emptyDirs, x, n) {
      SameStays(ds, files, rs, more, emptyDirs, x, n);
    }
  }

  lemma {:induction false} AddNodeStays(
    ds: seq<Dir>, up: seq<set<nat>>, files: seq<File>, rs: seq<Dir>, emptyDirs: bool, d: nat, leaf: string, node: Node)
    requires d < |ds| == |up| && rs == Added(ds, up, d, leaf, node)
    ensures AllStay(ds, up, files, rs, files, emptyDirs, AddNode(d, leaf, node))
  {
    AddedAt(ds, up, d, leaf, node);
    forall x, n | 0 <= x < |ds| && !Ends(AddNode(d, leaf, node), ds, up, x, n)
      ensures Stays(ds, files, rs, files, emptyDirs, x, n)
    {
      SameStays(ds, files, rs, files, emptyDirs, x, n);
    }
  }

  lemma {:induction false} NothingStays(ds: seq<Dir>, up: seq<set<nat>>, files: seq<File>, emptyDirs: bool, op: Op)
    requires |up| == |ds|
    ensures AllStay(ds, up, files, ds, files, emptyDirs, op)
  {
  }

  /** A directory more, and then an addition. */
  lemma {:induction false} AddDirStays(
    ds: seq<Dir>, up: seq<set<nat>>, vp: seq<set<nat>>, files: seq<File>, rs: seq<Dir>, emptyDirs: bool,
    made: Dir, d: nat, leaf: string, node: Node)
    requires d < |ds| == |up| && |vp| == |ds| + 1 && leaf !in ds[d].items && rs == Added(ds + [made], vp, d, leaf, node)
    ensures AllStay(ds, up, files, rs, files, emptyDirs, Add(d, leaf, true))
  {
    AddedAt(ds + [made], vp, d, leaf, node);
    forall x, n | 0 <= x < |ds| ensures Stays(ds, files, rs, files, emptyDirs, x, n) {
      SameStays(ds, files, rs, files, emptyDirs, x, n);
    }
  }

  lemma {:induction false} DeleteStays(
    ds: seq<Dir>, up: seq<set<nat>>, files: seq<File>, rs: seq<Dir>, emptyDirs: bool, d: nat, leaf: string)
    requires d < |ds| == |up| && rs == Deleted(ds, up, d, leaf)
    ensures AllStay(ds, up, files, rs, files, emptyDirs, Delete(d, leaf))
  {
    var es := ds[d := ds[d].(items := ds[d].items - {leaf})];
    WithMarksAt(es, up, d, ds[d].virtual[leaf := Del]);
    forall x, n | 0 <= x < |ds| && !Ends(Delete(d, leaf), ds, up, x, n)
      ensures Stays(ds, files, rs, files, emptyDirs, x, n)
    {
      SameStays(ds, files, rs, files, emptyDirs, x, n);
    }
  }

  lemma {:induction false} PurgeStays(
    ds: seq<Dir>, up: seq<set<nat>>, files: seq<File>, rs: seq<Dir>, emptyDirs: bool, d: nat)
    requires d < |ds| == |up| && rs == WithMarks(ds, up, d, Kept(ds[d], files, emptyDirs))
    ensures AllStay(ds, up, files, rs, files, emptyDirs, Purge(d))
  {
    WithMarksAt(ds, up, d, Kept(ds[d], files, emptyDirs));
    forall x, n | 0 <= x < |ds| ensures Stays(ds, files, rs, files, emptyDirs, x, n) {
      SameStays(ds, files, rs, files, emptyDirs, x, n);
    }
  }

  lemma {:induction false} ReadStays(
    ds: seq<Dir>, up: seq<set<nat>>, files: seq<File>, rs: seq<Dir>, more: seq<File>, emptyDirs: bool,
    d: nat, t: Tree, deep: bool)
    requires d < |ds| == |up| && Fewer(ds, files, rs, more) && Spared(ds, up, files, emptyDirs, rs, d, t)
    requires !deep ==> OnlyAt(ds, rs, d)
    ensures AllStay(ds, up, files, rs, more, emptyDirs, Read(d, t, deep))
  {
    forall x, n | 0 <= x < |ds| && !Ends(Read(d, t, deep), ds, up, x, n)
      ensures Stays(ds, files, rs, more, emptyDirs, x, n)
    {
      if Pending(ds, files, emptyDirs, x, n) {
        assert x != d && !deep ==> rs[x].items == ds[x].items && rs[x].virtual == ds[x].virtual;
        assert x == d ==> ds[x].path[|ds[d].path|..] == [];
        assert ReadAt(ds, up, d, t, x, n) || Lasts(ds, files, emptyDirs, rs, x, n);
        assert StillPending(ds, files, rs, more, x, n);
        SameStays(ds, files, rs, more, emptyDirs, x, n);
      }
    }
  }

  lemma {:induction false} ForgetStays(
    ds: seq<Dir>, up: seq<set<nat>>, files: seq<File>, rs: seq<Dir>, emptyDirs: bool, d: nat)
    requires d < |ds| && Forgotten(ds, rs, up, files, emptyDirs, d)
    ensures AllStay(ds, up, files, rs, files, emptyDirs, Forget(d))
  {
    OwnChain(ds, up);
    forall x, n | 0 <= x < |ds| ensures Stays(ds, files, rs, files, emptyDirs, x, n) {
      ForgetStaysAt(ds, up, files, rs, emptyDirs, d, x, n);
    }
  }

  lemma {:induction false} ForgetStaysAt(
    ds: seq<Dir>, up: seq<set<nat>>, files: seq<File>, rs: seq<Dir>, emptyDirs: bool, d: nat, x: nat, n: string)
    requires d < |ds| && Forgotten(ds, rs, up, files, emptyDirs, d) && x < |ds| && x in up[x]
    ensures Stays(ds, files, rs, files, emptyDirs, x, n)
  {
    if Pending(ds, files, emptyDirs, x, n) {
      if x in ReachSet(ds, up, d) {
        assert Visited(ds[x], rs[x], files, emptyDirs);
        HeldAtLeast(rs, up, x, x, |rs|);
      }
      SameStays(ds, files, rs, files, emptyDirs, x, n);
    }
  }

  lemma {:induction false} TouchStays(
    ds: seq<Dir>, up: seq<set<nat>>, files: seq<File>, more: seq<File>, emptyDirs: bool, f: nat, obj: Option<nat>,
    writers: nat, inUse: bool)
    requires |up| == |ds| && f < |files|
      && more == files[f := files[f].(obj := obj, writers := writers, inUse := inUse)]
    ensures AllStay(ds, up, files, ds, more, emptyDirs, Touch(f, obj, writers, inUse))
  {
    forall x, n | 0 <= x < |ds| && !Ends(Touch(f, obj, writers, inUse), ds, up, x, n)
      ensures Stays(ds, files, ds, more, emptyDirs, x, n)
    {
      SameStays(ds, files, ds, more, emptyDirs, x, n);
    }
  }

  lemma {:induction false} InsideStays(
    ds: seq<Dir>, rs: seq<Dir>, up: seq<set<nat>>, files: seq<File>, emptyDirs: bool,
    was: seq<Dir>, ms: seq<Dir>, d: nat, op: nat, oldName: string, np: nat, newName: string, x: nat, n: string)
    requires HasRenamed(ds, rs, up, files, emptyDirs, was, ms, d, op, oldName, np, newName)
    requires x < |ds| && d in up[x]
    ensures Stays(ds, files, rs, files, emptyDirs, x, n)
  {
    OwnChain(ds, up);
    ForgetStaysAt(ds, up, files, was, emptyDirs, d, x, n);
    MovedInside(ds, rs, up, files, emptyDirs, was, ms, d, op, oldName, np, newName, x);
    KeptOf(rs[x], was[x], files, emptyDirs);
  }

  lemma {:induction false} OutsideStays(
    ds: seq<Dir>, rs: seq<Dir>, up: seq<set<nat>>, files: seq<File>, emptyDirs: bool,
    d: nat, op: nat, oldName: string, np: nat, newName: string, x: nat, n: string)
    requires OutsideAfter(ds, rs, up, d, op, oldName, np, newName)
    requires x < |ds| && d !in up[x] && !Ends(Move(op, oldName, np, newName), ds, up, x, n)
    ensures Stays(ds, files, rs, files, emptyDirs, x, n)
  {
    if Pending(ds, files, emptyDirs, x, n) {
      CellKeeps(ds[x], rs[x], files, emptyDirs, x == op, x == np, oldName, newName, d, n);
    }
  }

  lemma {:induction false} MoveStays(
    ds: seq<Dir>, rs: seq<Dir>, up: seq<set<nat>>, files: seq<File>, emptyDirs: bool,
    was: seq<Dir>, ms: seq<Dir>, d: nat, op: nat, oldName: string, np: nat, newName: string)
    requires HasRenamed(ds, rs, up, files, emptyDirs, was, ms, d, op, oldName, np, newName)
    ensures AllStay(ds, up, files, rs, files, emptyDirs, Move(op, oldName, np, newName))
  {
    AllOutside(ds, rs, up, files, emptyDirs, was, ms, d, op, oldName, np, newName);
    forall x, n | 0 <= x < |ds| && !Ends(Move(op, oldName, np, newName), ds, up, x, n)
      ensures Stays(ds, files, rs, files, emptyDirs, x, n)
    {
      if d in up[x] {
        InsideStays(ds, rs, up, files, emptyDirs, was, ms, d, op, oldName, np, newName, x, n);
      } else {
        OutsideStays(ds, rs, up, files, emptyDirs, d, op, oldName, np, newName, x, n);
      }
    }
  }

  // --- What an operation does -------------------------------------------------------------

  /** What each operation makes of the state `a`. */
  ghost predicate Does(op: Op, a: Snap, b: Snap, emptyDirs: bool)
  {
    && |a.up| == |a.dirs|
    && match op
       case Add(d, leaf, isDir) => d < |a.dirs| && DoesAdd(a, b, d, leaf, isDir)
       case AddNode(d, leaf, node) =>
         d < |a.dirs| && b == a.(dirs := Added(a.dirs, a.up, d, leaf, node))
       case Delete(d, leaf) => d < |a.dirs| && b == a.(dirs := Deleted(a.dirs, a.up, d, leaf))
       case Purge(d) =>
         d < |a.dirs| && b == a.(dirs := WithMarks(a.dirs, a.up, d, Kept(a.dirs[d], a.files, emptyDirs)))
       case Read(d, t, deep) => d < |a.dirs| && DoesRead(a, b, emptyDirs, d, t, deep)
       case Forget(d) =>
         d < |a.dirs| && b == a.(dirs := b.dirs) && Forgotten(a.dirs, b.dirs, a.up, a.files, emptyDirs, d)
       case Touch(f, obj, writers, inUse) =>
         f < |a.files| && b == a.(files := a.files[f := a.files[f].(obj := obj, writers := writers, inUse := inUse)])
       case Move(o, oldName, to, newName) => DoesMove(a, b, emptyDirs, o, oldName, to, newName)
  }

  ghost predicate DoesAdd(a: Snap, b: Snap, d: nat, leaf: string, isDir: bool)
    requires d < |a.dirs| == |a.up|
  {
    if leaf in a.dirs[d].items then b == a
    else if isDir then
      var made := Dir(Some(d), a.dirs[d].path + [leaf], map[], map[], 0, false);
      && b.files == a.files && b.up == a.up + [a.up[d] + {|a.dirs|}]
      && b.dirs == Added(a.dirs + [made], b.up, d, leaf, DirNode(|a.dirs|))
    else
      && b.up == a.up && b.files == a.files + [File(d, leaf, None, 0, false)]
      && b.dirs == Added(a.dirs, a.up, d, leaf, FileNode(|a.files|))
  }

  ghost predicate DoesRead(a: Snap, b: Snap, emptyDirs: bool, d: nat, t: Tree, deep: bool)
    requires d < |a.dirs| == |a.up|
  {
    && Grown(a.dirs, b.dirs, a.up, b.up, d) && FilesBelow(a.files, b.files, a.up, d)
    && Fewer(a.dirs, a.files, b.dirs, b.files) && Spared(a.dirs, a.up, a.files, emptyDirs, b.dirs, d, t)
    && (!deep ==> OnlyAt(a.dirs, b.dirs, d))
    && (Readable(t, deep) ==> Reread(a.dirs, a.up, a.files, emptyDirs, b.dirs, b.files, d, t, deep))
  }

  ghost predicate DoesMove(a: Snap, b: Snap, emptyDirs: bool, o: nat, oldName: string, to: nat, newName: string)
  {
    && b.files == a.files
    && exists was, moved, d ::
      && HasRenamed(a.dirs, b.dirs, a.up, a.files, emptyDirs, was, moved, d, o, oldName, to, newName)
      && b.up == Rehung(a.up, d, o, to)
  }

  /** Whatever is pending stays so in every operation that cannot end it. */
  lemma {:induction false} DoesStay(op: Op, a: Snap, b: Snap, emptyDirs: bool)
    requires Does(op, a, b, emptyDirs)
    ensures AllStay(a.dirs, a.up, a.files, b.dirs, b.files, emptyDirs, op)
  {
    match op {
      case Add(d, leaf, isDir) => DoesAddStay(a, b, emptyDirs, d, leaf, isDir);
      case AddNode(d, leaf, node) => AddNodeStays(a.dirs, a.up, a.files, b.dirs, emptyDirs, d, leaf, node);
      case Delete(d, leaf) => DeleteStays(a.dirs, a.up, a.files, b.dirs, emptyDirs, d, leaf);
      case Purge(d) => PurgeStays(a.dirs, a.up, a.files, b.dirs, emptyDirs, d);
      case Read(d, t, deep) => ReadStays(a.dirs, a.up, a.files, b.dirs, b.files, emptyDirs, d, t, deep);
      case Forget(d) => ForgetStays(a.dirs, a.up, a.files, b.dirs, emptyDirs, d);
      case Touch(f, obj, writers, inUse) =>
        TouchStays(a.dirs, a.up, a.files, b.files, emptyDirs, f, obj, writers, inUse);
      case Move(o, oldName, to, newName) =>
        var was, moved, d :|
          && HasRenamed(a.dirs, b.dirs, a.up, a.files, emptyDirs, was, moved, d, o, oldName, to, newName)
          && b.up == Rehung(a.up, d, o, to);
        MoveStays(a.dirs, b.dirs, a.up, a.files, emptyDirs, was, moved, d, o, oldName, to, newName);
    }
  }

  lemma {:induction false} DoesAddStay(a: Snap, b: Snap, emptyDirs: bool, d: nat, leaf: string, isDir: bool)
    requires d < |a.dirs| == |a.up| && DoesAdd(a, b, d, leaf, isDir)
    ensures AllStay(a.dirs, a.up, a.files, b.dirs, b.files, emptyDirs, Add(d, leaf, isDir))
  {
    if leaf in a.dirs[d].items {
      NothingStays(a.dirs, a.up, a.files, emptyDirs, Add(d, leaf, isDir));
    } else if isDir {
      var made := Dir(Some(d), a.dirs[d].path + [leaf], map[], map[], 0, false);
      AddDirStays(a.dirs, a.up, b.up, a.files, b.dirs, emptyDirs, made, d, leaf, DirNode(|a.dirs|));
    } else {
      AddStays(a.dirs, a.up, a.files, b.dirs, b.files, emptyDirs, d, leaf, FileNode(|a.files|), false);
    }
  }

  // --- Runs -------------------------------------------------------------------------------

  /** An operation does what it does, or is refused. */
  ghost predicate Link(op: Op, a: Snap, b: Snap, emptyDirs: bool)
  {
    Does(op, a, b, emptyDirs) || (|a.up| == |a.dirs| && b == a)
  }

  datatype Change = Change(op: Op, a: Snap, b: Snap)

  ghost predicate AllLinks(cs: set<Change>, emptyDirs: bool)
  {
    forall c :: c in cs ==> Link(c.op, c.a, c.b, emptyDirs)
  }

  lemma {:induction false} OneLink(c: Change, emptyDirs: bool)
    requires Link(c.op, c.a, c.b, emptyDirs)
    ensures AllLinks({c}, emptyDirs)
  {
  }

  lemma {:induction false} LinksMore(cs: set<Change>, ds: set<Change>, emptyDirs: bool)
    requires AllLinks(cs, emptyDirs) && AllLinks(ds, emptyDirs)
    ensures AllLinks(cs + ds, emptyDirs)
  {
  }

  /** A run: the state it begins with, and the operations with the state after each. */
  datatype Trace = Start(first: Snap) | Then(before: Trace, op: Op, after: Snap) {
    function First(): (a: Snap)
    {
      match this
      case Start(a) => a
      case Then(before, _, _) => before.First()
    }

    function Last(): (a: Snap)
    {
      match this
      case Start(a) => a
      case Then(_, _, after) => after
    }

    function Ops(): (ops: seq<Op>)
    {
      match this
      case Start(_) => []
      case Then(before, op, _) => before.Ops() + [op]
    }

    function Changes(): (cs: set<Change>)
    {
      match this
      case Start(_) => {}
      case Then(before, op, after) => before.Changes() + {Change(op, before.Last(), after)}
    }

    /** Every operation does what it does, or is refused. */
    ghost predicate Valid(emptyDirs: bool)
    {
      AllLinks(Changes(), emptyDirs)
    }

    /** Some operation can end what is pending as `n` in `x`, in the state it meets. */
    ghost predicate Ended(x: nat, n: string)
    {
      match this
      case Start(_) => false
      case Then(before, op, _) => before.Ended(x, n) || EndedAt(op, before.Last(), x, n)
    }
  }

  ghost predicate EndedAt(op: Op, a: Snap, x: nat, n: string)
  {
    x < |a.dirs| == |a.up| && Ends(op, a.dirs, a.up, x, n)
  }

  ghost predicate SnapStays(a: Snap, b: Snap, emptyDirs: bool, x: nat, n: string)
  {
    x < |a.dirs| ==> Stays(a.dirs, a.files, b.dirs, b.files, emptyDirs, x, n)
  }

  lemma {:induction false} LinkStays(op: Op, a: Snap, b: Snap, emptyDirs: bool, x: nat, n: string)
    requires Link(op, a, b, emptyDirs) && !EndedAt(op, a, x, n)
    ensures SnapStays(a, b, emptyDirs, x, n)
  {
    if Does(op, a, b, emptyDirs) {
      DoesStay(op, a, b, emptyDirs);
    }
  }

  lemma {:induction false} StaysTrans(a: Snap, b: Snap, c: Snap, emptyDirs: bool, x: nat, n: string)
    requires SnapStays(a, b, emptyDirs, x, n) && SnapStays(b, c, emptyDirs, x, n)
    ensures SnapStays(a, c, emptyDirs, x, n)
  {
  }

  /** Over every run, what is pending stays cached and marked in its directory, with its node, until an
      operation that can end it in the state it meets. */
  lemma {:induction false} TraceStays(r: Trace, emptyDirs: bool, x: nat, n: string)
    requires r.Valid(emptyDirs) && !r.Ended(x, n)
    ensures SnapStays(r.First(), r.Last(), emptyDirs, x, n)
  {
    match r {
      case Start(a) =>
      case Then(before, op, after) =>
        assert Change(op, before.Last(), after) in r.Changes();
        TraceStays(before, emptyDirs, x, n);
        LinkStays(op, before.Last(), after, emptyDirs, x, n);
        StaysTrans(r.First(), before.Last(), after, emptyDirs, x, n);
    }
  }

  /** So it is with everything that is pending when the run begins. */
  ghost predicate Keeps(r: Trace, emptyDirs: bool)
  {
    forall x, n :: !r.Ended(x, n) ==> SnapStays(r.First(), r.Last(), emptyDirs, x, n)
  }

  lemma {:induction false} TraceKeeps(r: Trace, emptyDirs: bool)
    requires r.Valid(emptyDirs)
    ensures Keeps(r, emptyDirs)
  {
    forall x, n | !r.Ended(x, n) ensures SnapStays(r.First(), r.Last(), emptyDirs, x, n) {
      TraceStays(r, emptyDirs, x, n);
    }
  }

  /** One operation more. */
  lemma {:induction false} TraceMore(r: Trace, ops: seq<Op>, done: nat, b: Snap, emptyDirs: bool)
    requires r.Valid(emptyDirs) && done < |ops| && r.Ops() == ops[..done]
    requires AllLinks({Change(ops[done], r.Last(), b)}, emptyDirs)
    ensures Then(r, ops[done], b).Valid(emptyDirs) && Then(r, ops[done], b).Ops() == ops[..done + 1]
  {
    assert Then(r, ops[done], b).Ops() == ops[..done + 1] by {
      MoreOps(r, ops, done, b);
    }
    assert Then(r, ops[done], b).Valid(emptyDirs) by {
      LinksMore(r.Changes(), {Change(ops[done], r.Last(), b)}, emptyDirs);
    }
  }

  lemma {:induction false} MoreOps(r: Trace, ops: seq<Op>, done: nat, b: Snap)
    requires done < |ops| && r.Ops() == ops[..done]
    ensures Then(r, ops[done], b).Ops() == ops[..done + 1]
  {
    assert ops[..done + 1] == ops[..done] + [ops[done]];
  }
}

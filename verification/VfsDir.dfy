/** The directory cache of vfs/dir.go as an object: one store of directories, changed in place. */
module VfsDir {
  import opened Wrappers
  import opened DirModel
  import opened DirListing
  import opened DirReading
  import opened DirRename
  import opened DirPending

  class Vfs {
    const emptyDirs: bool  // the remote can have empty directories
    var dirs: seq<Dir>
    var files: seq<File>
    ghost var up: seq<set<nat>>

    ghost predicate Valid()
      reads this
    {
      Sound(dirs, up, files)
    }

    /** A file system with nothing but an unread root. */
    constructor (emptyDirs: bool)
      ensures Valid() && files == [] && this.emptyDirs == emptyDirs
      ensures dirs == [Dir(None, [], map[], map[], 0, false)]
    {
      this.emptyDirs := emptyDirs;
      dirs, files, up := [Dir(None, [], map[], map[], 0, false)], [], [{0}];
      new;
      assert ChainOf(dirs, up, 0) && Held(dirs, up, 0, 0) == 0;
    }

    /** Add `n` to the counter of `d` and of every directory above it. */
    method AddVirtual(d: nat, n: int)
      requires d < |dirs| && Linked(dirs, up)
      modifies this`dirs
      ensures dirs == Bump(old(dirs), up[d], n)
    {
      var cur: Option<nat> := Some(d);
      ghost var done: set<nat> := {};
      while cur.Some?
        invariant |dirs| == |old(dirs)| && (cur.Some? ==> cur.value < |dirs|)
        invariant done !! (if cur.Some? then up[cur.value] else {})
        invariant up[d] == done + if cur.Some? then up[cur.value] else {}
        invariant dirs == Bump(old(dirs), done, n)
        decreases if cur.Some? then |up[cur.value]| + 1 else 0
      {
        ChainStep(old(dirs), up, d, done, cur.value);
        BumpMore(old(dirs), done, cur.value, n);
        dirs := dirs[cur.value := dirs[cur.value].(virtuals := dirs[cur.value].virtuals + n)];
        done := done + {cur.value};
        cur := dirs[cur.value].parent;
      }
    }

    method DeleteVirtual(d: nat, name: string)
      requires d < |dirs| && Valid()
      modifies this`dirs
      ensures Valid()
      ensures dirs == WithMarks(old(dirs), up, d, old(dirs[d].virtual) - {name})
    {
      ghost var v := dirs[d].virtual - {name};
      WithMarksSound(dirs, up, d, v, files);
      WithMarksSteps(dirs, up, d, v);
      if name in dirs[d].virtual {
        assert |v| == |dirs[d].virtual| - 1;
        dirs := dirs[d := dirs[d].(virtual := dirs[d].virtual - {name})];
        SameShapeLinked(old(dirs), dirs, up);
        AddVirtual(d, -1);
      } else {
        assert v == dirs[d].virtual;
        assert dirs[d := dirs[d].(virtual := v)] == dirs;
      }
    }

    /** Mark `leaf` in `d`, counting it only when it had no mark yet. */
    method Mark(d: nat, leaf: string, state: VState)
      requires d < |dirs| && Linked(dirs, up)
      modifies this`dirs
      ensures dirs == WithMarks(old(dirs), up, d, old(dirs[d].virtual)[leaf := state])
    {
      ghost var v := dirs[d].virtual[leaf := state];
      WithMarksSteps(dirs, up, d, v);
      if leaf !in dirs[d].virtual {
        AddVirtual(d, 1);
      } else {
        assert v.Keys == dirs[d].virtual.Keys;
      }
      dirs := dirs[d := dirs[d].(virtual := dirs[d].virtual[leaf := state])];
    }

    /** Cache `node` in `d` as an addition the remote has not listed yet. */
    method AddObject(d: nat, leaf: string, node: Node)
      requires d < |dirs| && Linked(dirs, up)
      modifies this`dirs
      ensures dirs == Added(old(dirs), up, d, leaf, node)
      ensures old(Valid()) && Names(old(dirs), files, d, leaf, node) ==> Valid()
    {
      AddedSound(dirs, up, files, d, leaf, node);
      dirs := dirs[d := dirs[d].(items := dirs[d].items[leaf := node])];
      SameShapeLinked(old(dirs), dirs, up);
      Mark(d, leaf, if node.DirNode? then AddDir else AddFile);
    }

    /** Drop `leaf` from `d` as a deletion the remote has not confirmed yet. */
    method DelObject(d: nat, leaf: string)
      requires d < |dirs| && Linked(dirs, up)
      modifies this`dirs
      ensures dirs == Deleted(old(dirs), up, d, leaf)
      ensures old(Valid()) ==> Valid()
    {
      DeletedSound(dirs, up, files, d, leaf);
      dirs := dirs[d := dirs[d].(items := dirs[d].items - {leaf})];
      SameShapeLinked(old(dirs), dirs, up);
      Mark(d, leaf, Del);
    }

    /** Judge one mark of `d`. */
    method PurgeOne(d: nat, name: string)
      requires d < |dirs| && name in dirs[d].virtual && Valid()
      modifies this`dirs
      ensures Valid()
      ensures dirs == WithMarks(old(dirs), up, d,
        if Survives(old(dirs)[d], files, emptyDirs, name) then old(dirs)[d].virtual
        else old(dirs)[d].virtual - {name})
    {
      var drop := true;
      match dirs[d].virtual[name] {
        case AddDir =>
          drop := emptyDirs;
        case AddFile =>
          if name in dirs[d].items && dirs[d].items[name].FileNode? {
            assert NamedItem(dirs, files, d, name);
            drop := !files[dirs[d].items[name].file].Busy();
          }
        case Del =>
      }
      if drop {
        DeleteVirtual(d, name);
      } else {
        WithMarksSame(dirs, up, d);
      }
    }

    /** Drop every mark of `d` that need not be kept, in whatever order the map yields them. */
    method PurgeVirtual(d: nat)
      requires d < |dirs| && Valid()
      modifies this`dirs
      ensures Valid()
      ensures dirs == WithMarks(old(dirs), up, d, Kept(old(dirs)[d], files, emptyDirs))
    {
      ghost var was := dirs[d];
      var todo := dirs[d].virtual.Keys;
      ghost var v := dirs[d].virtual;
      WithMarksSame(dirs, up, d);
      while todo != {}
        invariant |dirs| == |old(dirs)| && Valid()
        invariant dirs == WithMarks(old(dirs), up, d, v)
        invariant Purging(was, v, todo, files, emptyDirs)
      {
        var name :| name in todo;
        PurgingMore(was, v, todo, files, emptyDirs, name);
        todo := todo - {name};
        WithMarksAt(old(dirs), up, d, v);
        ghost var w := if Survives(was, files, emptyDirs, name) then v else v - {name};
        PurgeOne(d, name);
        WithMarksTwice(old(dirs), up, d, v, w);
        v := w;
      }
      PurgingDone(was, v, files, emptyDirs);
    }

    /** Forget the sub-directories cached in `d`, in whatever order the map yields them. */
    method ForgetBelow(d: nat)
      requires d < |dirs| && Valid()
      modifies this`dirs
      ensures |dirs| == |old(dirs)| && Valid()
      ensures ForgottenIn(old(dirs), dirs, up, files, emptyDirs,
        ReachOf(old(dirs), up, Subdirs(old(dirs)[d].items, old(dirs)[d].items.Keys)))
      decreases Ids(up) - up[d], 0
    {
      ghost var ds := dirs;
      var items := dirs[d].items;
      var todo := items.Keys;
      assert items.Keys - todo == {};
      while todo != {}
        invariant todo <= items.Keys
        invariant |dirs| == |ds| && Valid()
        invariant ForgottenIn(ds, dirs, up, files, emptyDirs, ReachOf(ds, up, Subdirs(items, items.Keys - todo)))
      {
        var leaf :| leaf in todo;
        ghost var names := items.Keys - todo;
        SubdirsMore(ds, files, d, leaf, names);
        todo := todo - {leaf};
        assert items.Keys - todo == names + {leaf};
        if items[leaf].DirNode? {
          var c := items[leaf].dir;
          GoesDown(ds, up, d, c);
          ForgetOne(ds, d, names, c);
        }
      }
      assert items.Keys - todo == items.Keys;
    }

    /** Forget sub-directory `c` of `d` when the sub-directories called `names` are forgotten already. */
    method ForgetOne(ghost ds: seq<Dir>, ghost d: nat, ghost names: set<string>, c: nat)
      requires d < |ds| == |dirs| && Valid() && Sound(ds, up, files)
      requires c < |ds| && ds[c].parent == Some(d) && c !in Subdirs(ds[d].items, names)
      requires forall b :: b in Subdirs(ds[d].items, names) ==> b < |ds| && ds[b].parent == Some(d)
      requires ForgottenIn(ds, dirs, up, files, emptyDirs, ReachOf(ds, up, Subdirs(ds[d].items, names)))
      modifies this`dirs
      ensures |dirs| == |ds| && Valid()
      ensures ForgottenIn(ds, dirs, up, files, emptyDirs, ReachOf(ds, up, Subdirs(ds[d].items, names) + {c}))
      decreases Ids(up) - up[c], 2
    {
      ghost var done := Subdirs(ds[d].items, names);
      ghost var rs := dirs;
      var _ := ForgetAll(c);
      ReachOfApart(ds, up, d, done, c);
      ForgetMore(ds, rs, dirs, up, files, emptyDirs, ReachOf(ds, up, done), c);
      ReachOfMore(ds, up, done, c);
    }

    method ForgetAll(d: nat) returns (hasVirtual: bool)
      requires d < |dirs| && Valid()
      modifies this`dirs
      ensures |dirs| == |old(dirs)| && Valid()
      ensures Forgotten(old(dirs), dirs, up, files, emptyDirs, d)
      ensures hasVirtual <==> exists e :: 0 <= e < |dirs| && d in up[e] && dirs[e].virtual != map[]
      decreases Ids(up) - up[d], 1
    {
      ghost var ds := dirs;
      ForgetBelow(d);
      ghost var rs := dirs;
      PurgeVirtual(d);
      hasVirtual := dirs[d].virtuals != 0;
      if !hasVirtual {
        dirs := dirs[d := dirs[d].(items := map[], read := false)];
      }
      ForgetFinish(ds, rs, up, files, emptyDirs, d);
      ZeroMeansNone(dirs, up, d);
    }

    /** A new directory, with no entries and no marks; it is not cached in its parent yet. */
    method NewDir(parent: Option<nat>, path: seq<string>) returns (c: nat)
      requires Valid() && (parent.Some? ==> parent.value < |dirs|)
      modifies this`dirs, this`up
      ensures Valid() && c == |old(dirs)|
      ensures dirs == old(dirs) + [Dir(parent, path, map[], map[], 0, false)]
      ensures up == old(up) + [(if parent.Some? then old(up)[parent.value] else {}) + {c}]
    {
      AppendSound(dirs, up, files, parent, path);
      c := |dirs|;
      dirs := dirs + [Dir(parent, path, map[], map[], 0, false)];
      up := up + [(if parent.Some? then up[parent.value] else {}) + {c}];
    }

    /** Bring a listed object into the cache as `leaf` of `d`, reusing the file there is. */
    method ReadObject(d: nat, leaf: string, node: Option<Node>, obj: nat) returns (r: Node)
      requires Valid() && d < |dirs| && leaf !in dirs[d].virtual
      requires node.Some? ==> Names(dirs, files, d, leaf, node.value)
      modifies this`files
      ensures Valid() && |files| >= |old(files)| && Fewer(dirs, old(files), dirs, files)
      ensures r.FileNode? && Names(dirs, files, d, leaf, r) && files[r.file].obj == Some(obj)
      ensures if node.Some? && node.value.FileNode? then r == node.value else r.file == |old(files)|
      ensures FilesAt(old(files), files, up, d, leaf, r, false)
      ensures forall f :: 0 <= f < |old(files)| ==>
        files[f] == if r.file == f then old(files)[f].(obj := Some(obj)) else old(files)[f]
    {
      if node.Some? && node.value.FileNode? {
        var f := node.value.file;
        files := files[f := files[f].(obj := Some(obj))];
        r := node.value;
      } else {
        r := FileNode(|files|);
        files := files + [File(d, leaf, Some(obj), 0, false)];
      }
      MoreFiles(dirs, old(files), files);
      FilesFewer(dirs, up, old(files), files, d, leaf);
    }

    /** Note that `name` is listed, and so no longer pending; true when it is to be skipped. */
    method ManageAdd(d: nat, name: string) returns (skip: bool)
      requires d < |dirs| && Valid()
      modifies this`dirs
      ensures Valid()
      ensures skip <==> name in old(dirs)[d].virtual && old(dirs)[d].virtual[name] == Del
      ensures dirs == WithMarks(old(dirs), up, d,
        if skip then old(dirs)[d].virtual else old(dirs)[d].virtual - {name})
    {
      skip := false;
      WithMarksSame(dirs, up, d);
      assert name !in dirs[d].virtual ==> dirs[d].virtual - {name} == dirs[d].virtual;
      if name in dirs[d].virtual {
        match dirs[d].virtual[name] {
          case AddFile => DeleteVirtual(d, name);
          case AddDir => DeleteVirtual(d, name);
          case Del => skip := true;
        }
      }
    }

    /** Bring a listed sub-directory into the cache, reusing the directory there is, and go on
        into it when the read is recursive. */
    method ReadSubdir(d: nat, node: Option<Node>, t: Tree, i: nat, deep: bool) returns (ok: bool, c: nat)
      requires d < |dirs| && Valid() && i < |t.entries| && t.entries[i].DirEntry?
      requires var leaf := t.entries[i].leaf;
        node == if leaf in dirs[d].items then Some(dirs[d].items[leaf]) else None
      modifies this`dirs, this`up, this`files
      ensures Valid() && |dirs| >= |old(dirs)| && Fewer(old(dirs), old(files), dirs, files)
      ensures Grown(old(dirs), dirs, old(up), up, d)
      ensures dirs[d].items == old(dirs)[d].items && dirs[d].virtual == old(dirs)[d].virtual
      ensures Names(dirs, files, d, t.entries[i].leaf, DirNode(c))
      ensures if node.Some? && node.value.DirNode? then DirNode(c) == node.value else c >= |old(dirs)|
      ensures ok ==> Shows(old(dirs), old(up), old(files), emptyDirs, dirs, files, DirNode(c), t, i, deep)
      ensures (ok <==> Known(t, i, deep)) && (deep ==> dirs[c].read == ok)
      ensures FilesBelow(old(files), files, old(up), c) && (!deep ==> files == old(files))
      ensures Spared(old(dirs), old(up), old(files), emptyDirs, dirs, d, t)
      ensures forall x :: 0 <= x < |old(dirs)| && !(deep && c in old(up)[x]) ==>
        dirs[x].items == old(dirs)[x].items && dirs[x].virtual == old(dirs)[x].virtual
      decreases Rank(t), t, 1
    {
      ghost var ds, ups, fs := dirs, up, files;
      var leaf := t.entries[i].leaf;
      c := GetSubdir(d, node, leaf);
      ghost var rs, vp := dirs, up;
      SparedSame(ds, ups, fs, emptyDirs, rs, d, t);
      ok := true;
      if deep {
        ok := ReadInto(d, c, Below(t, leaf));
        SubdirFrames(ds, ups, fs, emptyDirs, rs, vp, dirs, up, files, d, t, leaf, c);
        if ok {
          RereadBase(ds, ups, fs, rs, vp, fs, emptyDirs, dirs, files, c, Below(t, leaf), true);
        }
      }
    }

    /** The sub-directory that is cached, or a new one. */
    method GetSubdir(d: nat, node: Option<Node>, leaf: string) returns (c: nat)
      requires d < |dirs| && Valid()
      requires node == if leaf in dirs[d].items then Some(dirs[d].items[leaf]) else None
      modifies this`dirs, this`up
      ensures Valid() && |dirs| >= |old(dirs)| && forall x :: 0 <= x < |old(dirs)| ==> dirs[x] == old(dirs)[x]
      ensures Fewer(old(dirs), files, dirs, files) && Grown(old(dirs), dirs, old(up), up, d)
      ensures Names(dirs, files, d, leaf, DirNode(c)) && SameBase(old(dirs), dirs, old(up), c)
      ensures if node.Some? && node.value.DirNode? then DirNode(c) == node.value else c >= |old(dirs)|
    {
      if node.Some? && node.value.DirNode? {
        assert NamedItem(dirs, files, d, leaf);
        c := node.value.dir;
        NothingFewer(dirs, up, files);
      } else {
        AppendFewer(dirs, up, files, Dir(Some(d), dirs[d].path + [leaf], map[], map[], 0, false));
        AppendGrown(dirs, up, d, d, dirs[d].path + [leaf], up[d] + {|dirs|});
        c := NewDir(Some(d), dirs[d].path + [leaf]);
      }
    }

    /** The recursive step into sub-directory `c` of `d`. */
    method ReadInto(ghost d: nat, c: nat, u: Tree) returns (ok: bool)
      requires d < |dirs| && c < |dirs| && Valid() && dirs[c].parent == Some(d)
      modifies this`dirs, this`up, this`files
      ensures Valid() && Fewer(old(dirs), old(files), dirs, files)
      ensures Grown(old(dirs), dirs, old(up), up, d)
      ensures dirs[d].items == old(dirs)[d].items && dirs[d].virtual == old(dirs)[d].virtual
      ensures forall x :: 0 <= x < |old(dirs)| && c !in old(up)[x] ==>
        dirs[x].items == old(dirs)[x].items && dirs[x].virtual == old(dirs)[x].virtual
      ensures ok ==> Reread(old(dirs), old(up), old(files), emptyDirs, dirs, files, c, u, true)
      ensures (ok <==> Readable(u, true)) && dirs[c].read == ok
      ensures FilesBelow(old(files), files, old(up), c)
      ensures Spared(old(dirs), old(up), old(files), emptyDirs, dirs, c, u)
      decreases Rank(u), u, 8
    {
      OwnChain(dirs, up);
      ok := ReadFromEntries(c, u, true);
      ghost var rs := dirs;
      ReadFlag(old(dirs), old(files), dirs, files, c, ok);
      SparedFlag(old(dirs), old(up), old(files), emptyDirs, dirs, c, u, c, ok);
      SetRead(c, ok);
      GrownBelow(old(dirs), dirs, old(up), up, d, c);
      if ok {
        RereadFrame(old(dirs), old(up), old(files), emptyDirs, rs, up, files, dirs, files, c, u, true);
      }
    }

    method SetRead(c: nat, read: bool)
      requires c < |dirs| && Valid()
      modifies this`dirs
      ensures Valid() && dirs == old(dirs)[c := old(dirs)[c].(read := read)]
    {
      forall leaf | leaf in dirs[c].items ensures Names(dirs, files, c, leaf, dirs[c].items[leaf]) {
        assert NamedItem(dirs, files, c, leaf);
      }
      WithItemsSound(dirs, up, c, dirs[c].items, read, files);
      dirs := dirs[c := dirs[c].(read := read)];
    }

    /** The node for entry `i` of the listing of `d`, which is not cached there yet. */
    method ReadNode(d: nat, t: Tree, i: nat, deep: bool) returns (ok: bool, node: Node)
      requires d < |dirs| && Valid() && i < |t.entries| && t.entries[i].leaf !in dirs[d].virtual
      modifies this`dirs, this`up, this`files
      ensures Valid() && Fewer(old(dirs), old(files), dirs, files)
      ensures Grown(old(dirs), dirs, old(up), up, d)
      ensures dirs[d].items == old(dirs)[d].items && dirs[d].virtual == old(dirs)[d].virtual
      ensures ok ==> Names(dirs, files, d, t.entries[i].leaf, node)
      ensures ok ==> Chosen(old(dirs)[d].items, t.entries[i], node, |old(dirs)|, |old(files)|)
      ensures ok ==> Shows(old(dirs), old(up), old(files), emptyDirs, dirs, files, node, t, i, deep)
      ensures ChangesAt(old(dirs), dirs, old(up), d, node, deep)
      ensures ok <==> Known(t, i, deep)
      ensures FilesAt(old(files), files, old(up), d, t.entries[i].leaf, node, deep)
      ensures FilesBelow(old(files), files, old(up), d)
      ensures Spared(old(dirs), old(up), old(files), emptyDirs, dirs, d, t)
      decreases Rank(t), t, 2
    {
      var leaf := t.entries[i].leaf;
      var found := if leaf in dirs[d].items then Some(dirs[d].items[leaf]) else None;
      assert leaf in dirs[d].items ==> NamedItem(dirs, files, d, leaf);
      match t.entries[i] {
        case ObjectEntry(_, obj) =>
          ok := true;
          node := ReadObject(d, leaf, found, obj);
          SparedSame(dirs, up, old(files), emptyDirs, dirs, d, t);
        case DirEntry(_) =>
          var c;
          ok, c := ReadSubdir(d, found, t, i, deep);
          node := DirNode(c);
        case UnknownEntry(_) =>
          NothingFewer(dirs, up, files);
          SparedSame(dirs, up, files, emptyDirs, dirs, d, t);
          ok := false;
          node := FileNode(|files|);
      }
      FilesAtBelow(old(dirs), old(up), old(files), files, d, leaf, node, deep);
    }

    /** Bring entry `i` of the listing of `d` into the cache. */
    method ReadEntry(d: nat, t: Tree, i: nat, deep: bool) returns (ok: bool, node: Node)
      requires d < |dirs| && Valid() && i < |t.entries| && t.entries[i].leaf !in dirs[d].virtual
      modifies this`dirs, this`up, this`files
      ensures Valid() && Fewer(old(dirs), old(files), dirs, files)
      ensures Grown(old(dirs), dirs, old(up), up, d)
      ensures dirs[d].virtual == old(dirs)[d].virtual
      ensures ok ==> ReadAs(old(dirs)[d].items, dirs[d].items, t.entries[i], node, |old(dirs)|, |old(files)|)
      ensures ok ==> Shows(old(dirs), old(up), old(files), emptyDirs, dirs, files, node, t, i, deep)
      ensures ChangesAt(old(dirs), dirs, old(up), d, node, deep)
      ensures ok <==> Known(t, i, deep)
      ensures FilesAt(old(files), files, old(up), d, t.entries[i].leaf, node, deep)
      ensures FilesBelow(old(files), files, old(up), d)
      ensures Spared(old(dirs), old(up), old(files), emptyDirs, dirs, d, t)
      decreases Rank(t), t, 3
    {
      OwnChain(dirs, up);
      ok, node := ReadNode(d, t, i, deep);
      if ok {
        var leaf := t.entries[i].leaf;
        GrownAt(old(dirs), dirs, old(up), up, d, dirs[d].items[leaf := node]);
        PlaceFewer(old(dirs), old(files), dirs, files, d, leaf, node);
        SparedItems(old(dirs), old(up), old(files), emptyDirs, dirs, d, t, d, dirs[d].items[leaf := node]);
        Place(old(dirs), old(up), old(files), d, t, i, node, deep);
      }
    }

    /** Cache what was read for entry `i`. */
    method Place(
      ghost ds: seq<Dir>, ghost ups: seq<set<nat>>, ghost fs: seq<File>, d: nat, t: Tree, i: nat, node: Node,
      ghost deep: bool)
      requires |ups| == |ds| && Extends(ups, up)
      requires d < |dirs| && Valid() && i < |t.entries| && Names(dirs, files, d, t.entries[i].leaf, node)
      requires Shows(ds, ups, fs, emptyDirs, dirs, files, node, t, i, deep)
      modifies this`dirs
      ensures Valid()
      ensures dirs == old(dirs)[d := old(dirs)[d].(items := old(dirs)[d].items[t.entries[i].leaf := node])]
      ensures Shows(ds, ups, fs, emptyDirs, dirs, files, node, t, i, deep)
    {
      var leaf := t.entries[i].leaf;
      var items := dirs[d].items[leaf := node];
      forall l | l in items ensures Names(dirs, files, d, l, items[l]) {
        assert l in dirs[d].items ==> NamedItem(dirs, files, d, l);
      }
      WithItemsSound(dirs, up, d, items, dirs[d].read, files);
      dirs := dirs[d := dirs[d].(items := items)];
      if t.entries[i].DirEntry? && deep {
        NotAbove(old(dirs), up, d, node.dir);
        RereadFrame(ds, ups, fs, emptyDirs, old(dirs), up, files, dirs, files, node.dir, Below(t, leaf), deep);
      }
    }

    /** After the listing: drop the entries it does not contain, unless they are pending. */
    method EndItems(d: nat, listed: set<string>)
      requires d < |dirs| && Valid()
      modifies this`dirs
      ensures Valid()
      ensures dirs == old(dirs)[d := old(dirs)[d].(items := Current(old(dirs)[d], listed))]
    {
      var todo := dirs[d].items.Keys;
      ghost var was := dirs[d];
      while todo != {}
        invariant Valid() && |dirs| == |old(dirs)|
        invariant dirs == old(dirs)[d := was.(items := dirs[d].items)]
        invariant Trimming(was, dirs[d].items, todo, listed)
      {
        var name :| name in todo;
        TrimmingMore(was, dirs[d].items, todo, listed, name);
        todo := todo - {name};
        if name !in listed && (name !in dirs[d].virtual || dirs[d].virtual[name].Del?) {
          Uncache(d, name);
        }
      }
      TrimmingDone(was, dirs[d].items, listed);
    }

    method Uncache(d: nat, name: string)
      requires d < |dirs| && Valid()
      modifies this`dirs
      ensures Valid()
      ensures dirs == old(dirs)[d := old(dirs)[d].(items := old(dirs)[d].items - {name})]
    {
      var items := dirs[d].items - {name};
      forall l | l in items ensures Names(dirs, files, d, l, items[l]) {
        assert NamedItem(dirs, files, d, l);
      }
      WithItemsSound(dirs, up, d, items, dirs[d].read, files);
      dirs := dirs[d := dirs[d].(items := items)];
    }

    /** After the listing: a deletion of something it does not contain is confirmed. */
    method EndMarks(d: nat, listed: set<string>)
      requires d < |dirs| && Valid()
      modifies this`dirs
      ensures Valid()
      ensures dirs == WithMarks(old(dirs), up, d, Unconfirmed(old(dirs)[d].virtual, listed))
    {
      var todo := dirs[d].virtual.Keys;
      ghost var was := dirs[d].virtual;
      ghost var v := was;
      WithMarksSame(dirs, up, d);
      while todo != {}
        invariant Valid() && |dirs| == |old(dirs)|
        invariant dirs == WithMarks(old(dirs), up, d, v)
        invariant todo <= v.Keys
        invariant forall n :: n in v ==> n in was && v[n] == was[n]
        invariant forall n :: n in was && n !in todo ==> (n in v <==> n in Unconfirmed(was, listed))
      {
        var name :| name in todo;
        todo := todo - {name};
        WithMarksAt(old(dirs), up, d, v);
        if name !in listed && dirs[d].virtual[name].Del? {
          DeleteVirtual(d, name);
          WithMarksTwice(old(dirs), up, d, v, v - {name});
          v := v - {name};
        }
      }
      assert v == Unconfirmed(was, listed);
    }

    /** Read a listed entry of `d` that is not pending as deleted. */
    method ReadListed(d: nat, t: Tree, i: nat, deep: bool) returns (ok: bool, node: Node)
      requires d < |dirs| && Valid() && i < |t.entries| && !Skipped(t.entries[i].leaf)
      requires t.entries[i].leaf in dirs[d].virtual ==> dirs[d].virtual[t.entries[i].leaf] != Del
      modifies this`dirs, this`up, this`files
      ensures Valid() && Fewer(old(dirs), old(files), dirs, files)
      ensures Grown(old(dirs), dirs, old(up), up, d)
      ensures dirs[d].virtual == old(dirs)[d].virtual - {t.entries[i].leaf}
      ensures ok ==> ReadAs(old(dirs)[d].items, dirs[d].items, t.entries[i], node, |old(dirs)|, |old(files)|)
      ensures ok ==> Shows(old(dirs), old(up), old(files), emptyDirs, dirs, files, node, t, i, deep)
      ensures ChangesAt(old(dirs), dirs, old(up), d, node, deep)
      ensures ok <==> Known(t, i, deep)
      ensures FilesAt(old(files), files, old(up), d, t.entries[i].leaf, node, deep)
      ensures FilesBelow(old(files), files, old(up), d)
      ensures Spared(old(dirs), old(up), old(files), emptyDirs, dirs, d, t)
      decreases Rank(t), t, 4
    {
      ghost var rs, vp, more := dirs, up, files;
      var leaf := t.entries[i].leaf;
      MarksGrown(dirs, up, d, dirs[d].virtual - {leaf});
      var skip := ManageAdd(d, leaf);
      ghost var ss := dirs;
      if skip {
        assert false;
      }
      ok, node := ReadEntry(d, t, i, deep);
      ListedDone(rs, vp, more, ss, emptyDirs, dirs, up, files, d, t, i, node, deep, ok);
    }

    /** Read the next entry of the listing of `d`. */
    method ReadNext(
      d: nat, t: Tree, n: nat, deep: bool, listed: set<string>,
      ghost ds: seq<Dir>, ghost ups: seq<set<nat>>, ghost fs: seq<File>)
      returns (ok: bool, names: set<string>)
      requires d < |dirs| && Valid() && n < |t.entries| && Sound(ds, ups, fs)
      requires Reading(ds, ups, fs, emptyDirs, dirs, up, files, d, t, n, deep) && listed == Listed(t.entries[..n])
      requires Spared(ds, ups, fs, emptyDirs, dirs, d, t)
      requires FilesBelow(fs, files, ups, d)
      modifies this`dirs, this`up, this`files
      ensures FilesBelow(fs, files, ups, d) && (!deep ==> OnlyAt(ds, dirs, d))
      ensures Spared(ds, ups, fs, emptyDirs, dirs, d, t)
      ensures Valid() && Fewer(ds, fs, dirs, files) && Grown(ds, dirs, ups, up, d)
      ensures ok ==> Reading(ds, ups, fs, emptyDirs, dirs, up, files, d, t, n + 1, deep)
      ensures ok ==> names == Listed(t.entries[..n + 1])
      ensures ok <==> Skipped(t.entries[n].leaf) || Known(t, n, deep)
      decreases Rank(t), t, 5
    {
      ok, names := true, listed;
      var leaf := t.entries[n].leaf;
      Prefixes(t, n);
      ListedMore(t.entries[..n], t.entries[n]);
      if Skipped(leaf) {
        ReadingSkip(ds, ups, fs, emptyDirs, dirs, up, files, d, t, n, deep);
      } else {
        names := names + {leaf};
        KeptNotDel(ds[d], fs, emptyDirs, leaf);
        ghost var rs, vp, more := dirs, up, files;
        var node;
        ok, node := ReadListed(d, t, n, deep);
        NextFrames(ds, ups, fs, emptyDirs, rs, vp, more, dirs, up, files, d, t, node, deep);
        if ok {
          ReadingMore(ds, ups, fs, emptyDirs, rs, vp, more, dirs, up, files, d, t, n, node, deep);
        }
      }
    }

    /** After the listing was read: drop what it shows to be gone. */
    method ManageEnd(
      d: nat, listed: set<string>, ghost ds: seq<Dir>, ghost ups: seq<set<nat>>, ghost fs: seq<File>,
      ghost t: Tree, ghost deep: bool)
      requires d < |dirs| && Valid() && Sound(ds, ups, fs) && listed == Listed(t.entries)
      requires Reading(ds, ups, fs, emptyDirs, dirs, up, files, d, t, |t.entries|, deep)
      requires Spared(ds, ups, fs, emptyDirs, dirs, d, t)
      modifies this`dirs
      ensures Spared(ds, ups, fs, emptyDirs, dirs, d, t)
      ensures Valid() && Fewer(ds, fs, dirs, files)
      ensures Grown(ds, dirs, ups, up, d) && (!deep ==> OnlyAt(ds, dirs, d))
      ensures Reread(ds, ups, fs, emptyDirs, dirs, files, d, t, deep)
    {
      ghost var rs := dirs;
      SparedItems(ds, ups, fs, emptyDirs, rs, d, t, d, Current(rs[d], listed));
      EndItems(d, listed);
      EndMarks(d, listed);
      ReadingMarks(ds, ups, fs, emptyDirs, rs, up, files, d, t, deep);
      ReadingEnd(ds, ups, fs, emptyDirs, rs, up, files, dirs, d, t, deep);
    }

    /** Read the entries of the listing of `d`, one after the other. */
    method ReadAll(
      d: nat, t: Tree, deep: bool, ghost ds: seq<Dir>, ghost ups: seq<set<nat>>, ghost fs: seq<File>)
      returns (ok: bool, listed: set<string>)
      requires d < |dirs| && Valid() && Sound(ds, ups, fs)
      requires Reading(ds, ups, fs, emptyDirs, dirs, up, files, d, t, 0, deep)
      requires Spared(ds, ups, fs, emptyDirs, dirs, d, t)
      requires FilesBelow(fs, files, ups, d)
      modifies this`dirs, this`up, this`files
      ensures FilesBelow(fs, files, ups, d) && (!deep ==> OnlyAt(ds, dirs, d))
      ensures Spared(ds, ups, fs, emptyDirs, dirs, d, t)
      ensures Valid() && Fewer(ds, fs, dirs, files) && Grown(ds, dirs, ups, up, d)
      ensures ok ==> Reading(ds, ups, fs, emptyDirs, dirs, up, files, d, t, |t.entries|, deep)
      ensures ok ==> listed == Listed(t.entries)
      ensures ok <==> Readable(t, deep)
      decreases Rank(t), t, 6
    {
      Prefixes(t, 0);
      ok, listed := true, {};
      for n := 0 to |t.entries|
        invariant Valid() && Reading(ds, ups, fs, emptyDirs, dirs, up, files, d, t, n, deep)
        invariant Spared(ds, ups, fs, emptyDirs, dirs, d, t) && FilesBelow(fs, files, ups, d)
        invariant ok && listed == Listed(t.entries[..n]) && ReadableTo(t, n, deep)
      {
        ok, listed := ReadNext(d, t, n, deep, listed, ds, ups, fs);
        if !ok {
          return;
        }
      }
    }

    /** Update the entries of `d` from a listing, and those below it too when the read is recursive. */
    method ReadFromEntries(d: nat, t: Tree, deep: bool) returns (ok: bool)
      requires d < |dirs| && Valid()
      modifies this`dirs, this`up, this`files
      ensures Valid() && Fewer(old(dirs), old(files), dirs, files)
      ensures Grown(old(dirs), dirs, old(up), up, d)
      ensures ok ==> Reread(old(dirs), old(up), old(files), emptyDirs, dirs, files, d, t, deep)
      ensures FilesBelow(old(files), files, old(up), d) && (!deep ==> OnlyAt(old(dirs), dirs, d))
      ensures ok <==> Readable(t, deep)
      ensures Spared(old(dirs), old(up), old(files), emptyDirs, dirs, d, t)
      decreases Rank(t), t, 7
    {
      ghost var ds, ups, fs := dirs, up, files;
      ReadingStart(ds, ups, fs, emptyDirs, d, t, deep);
      SparedMarks(ds, ups, fs, emptyDirs, d, t, Kept(ds[d], fs, emptyDirs));
      PurgeVirtual(d);
      var listed;
      ok, listed := ReadAll(d, t, deep, ds, ups, fs);
      if ok {
        ManageEnd(d, listed, ds, ups, fs, t, deep);
      }
    }

    /** Give `d` the path `p`, and everything cached below it the path that follows from it. */
    method RenameTree(d: nat, p: seq<string>)
      requires d < |dirs| && Linked(dirs, up) && NamedBelow(dirs, up, files, d)
      requires dirs[d].path != p ==>
        Cached(dirs, d) && p != [] && p[|p| - 1] == dirs[d].path[|dirs[d].path| - 1]
      modifies this`dirs
      ensures Repathed(old(dirs), dirs, up, d, p)
      ensures forall x, leaf :: 0 <= x < |dirs| && d in up[x] && leaf in dirs[x].items ==>
        NamedItem(dirs, files, x, leaf)
      decreases Ids(up) - up[d], 1
    {
      ghost var ds := dirs;
      RenamingStart(ds, up, files, d, p);
      if dirs[d].path != p {
        SetPath(d, p);
      }
      assert dirs == ds[d := ds[d].(path := p)];
      var items := dirs[d].items;
      var todo := items.Keys;
      while todo != {}
        invariant todo <= items.Keys && |dirs| == |ds| && dirs[d].items == items
        invariant Renaming(ds, dirs, up, files, d, p, items.Keys - todo)
      {
        var leaf :| leaf in todo;
        ghost var names := items.Keys - todo;
        todo := todo - {leaf};
        assert items.Keys - todo == names + {leaf};
        if items[leaf].DirNode? {
          RenameChild(ds, d, p, names, leaf, items[leaf].dir);
        } else {
          assert Tagged(dirs, files, d, leaf, items[leaf]);
        }
      }
    }

    /** Rename sub-directory `c` of `d`, cached as `leaf`, when those called `names` are renamed already. */
    method RenameChild(ghost ds: seq<Dir>, ghost d: nat, p: seq<string>, ghost names: set<string>, leaf: string, c: nat)
      requires Linked(ds, up) && d < |ds| == |dirs| && Renaming(ds, dirs, up, files, d, p, names)
      requires leaf in dirs[d].items && dirs[d].items[leaf] == DirNode(c)
      modifies this`dirs
      ensures |dirs| == |ds| && dirs[d].items == old(dirs)[d].items
      ensures Renaming(ds, dirs, up, files, d, p, names + {leaf})
      decreases Ids(up) - up[d], 0
    {
      ghost var rs := dirs;
      ReadyToRename(ds, rs, up, files, d, p, names, leaf);
      SameShapeOfParents(ds, rs, up);
      NotAbove(rs, up, d, c);
      RenameTree(c, p + [leaf]);
      RenamedChild(ds, rs, dirs, up, files, d, p, names, leaf, c);
    }

    /** Move the entry of `d` in its parent to the name its new path `p` ends in. */
    method SetPath(d: nat, p: seq<string>)
      requires d < |dirs| && Linked(dirs, up) && Cached(dirs, d) && p != []
      requires p[|p| - 1] == dirs[d].path[|dirs[d].path| - 1]
      modifies this`dirs
      ensures dirs == old(dirs)[d := old(dirs)[d].(path := p)]
    {
      OwnChain(dirs, up);
      assert ChainOf(dirs, up, d);
      var parent := dirs[d].parent.value;
      var was, leaf := dirs[d].path[|dirs[d].path| - 1], p[|p| - 1];
      dirs := dirs[parent := dirs[parent].(items := dirs[parent].items - {was})];
      dirs := dirs[d := dirs[d].(path := p)];
      dirs := dirs[parent := dirs[parent].(items := dirs[parent].items[leaf := DirNode(d)])];
      assert dirs[parent].items == old(dirs)[parent].items;
    }

    /** Give `d` the parent `np` and the path `p`. */
    method Relocate(d: nat, np: nat, p: seq<string>)
      requires Valid() && Movable(dirs, up, d, np, p) && d != np
      modifies this`dirs, this`up
      ensures dirs == Moved(old(dirs), d, np, p) && up == Rehung(old(up), d, old(dirs)[d].parent.value, np)
      ensures Linked(dirs, up) && NamedBelow(dirs, up, files, d)
    {
      MovedBelow(dirs, up, files, d, np, p);
      var oldName := dirs[d].path[|dirs[d].path| - 1];
      up := Rehung(up, d, dirs[d].parent.value, np);
      dirs := dirs[d := dirs[d].(parent := Some(np), path := p, read := false)];
      dirs := dirs[np := dirs[np].(items := (dirs[np].items - {oldName})[p[|p| - 1] := DirNode(d)])];
    }

    /** Move `d` under `np` to the path `p`, forgetting what can be forgotten of it first.  `was`
        is the store after forgetting. */
    method Rename(d: nat, np: nat, p: seq<string>) returns (ghost was: seq<Dir>)
      requires Valid() && Movable(dirs, up, d, np, p)
      modifies this`dirs, this`up
      ensures Forgotten(old(dirs), was, old(up), files, emptyDirs, d) && Sound(was, old(up), files)
      ensures HasMoved(was, dirs, old(up), d, np, p) && up == Rehung(old(up), d, old(dirs)[d].parent.value, np)
      ensures Linked(dirs, up) && NamedBut(dirs, files, old(dirs)[d].parent.value, np, Name(old(dirs)[d].path))
      ensures Counted(dirs, up) <==>
        NothingPending(old(dirs), old(up), files, emptyDirs, d) || old(dirs)[d].parent.value == np
    {
      assert d != np by {
        OwnChain(dirs, up);
      }
      ghost var ups := up;
      var _ := ForgetAll(d);
      was := dirs;
      NothingLeftIff(old(dirs), was, ups, files, emptyDirs, d);
      Relocate(d, np, p);
      RenameTree(d, p);
      MovedCounts(was, dirs, ups, d, np, p);
      MovedVirtuals(was, dirs, ups, d, np, p);
      MovedAllNamed(was, ups, files, d, np, p, dirs);
    }

    /** Show a move in both parents. */
    method ShowMove(op: nat, oldName: string, np: nat, newName: string, d: nat)
      requires Linked(dirs, up) && op < |dirs| && np < |dirs|
      modifies this`dirs
      ensures dirs == Shown(old(dirs), up, d, op, oldName, np, newName)
      ensures Linked(dirs, up) && (Counted(dirs, up) <==> Counted(old(dirs), up))
    {
      ShownBalance(dirs, up, d, op, oldName, np, newName);
      AddedKeepsBalance(dirs, up, op, dirs[op].items - {oldName}, dirs[op].virtual[oldName := Del]);
      DelObject(op, oldName);
      AddObject(np, newName, DirNode(d));
    }

    /** Dir.Rename for a directory: move it, and show the move in both parents.  The counters stay
        right exactly when nothing in the tree is pending that forgetting it could not drop, or the
        parent stays the same. */
    method RenameDir(op: nat, oldName: string, np: nat, newName: string)
      returns (d: nat, ghost was: seq<Dir>, ghost moved: seq<Dir>)
      requires Valid() && op < |dirs| && np < |dirs|
      requires oldName in dirs[op].items && dirs[op].items[oldName].DirNode?
      requires dirs[op].items[oldName].dir !in up[np]
      modifies this`dirs, this`up
      ensures HasRenamed(old(dirs), dirs, old(up), files, emptyDirs, was, moved, d, op, oldName, np, newName)
      ensures up == Rehung(old(up), d, op, np)
      ensures Linked(dirs, up) && Named(dirs, files)
      ensures Valid() <==> op == np || NothingPending(old(dirs), old(up), files, emptyDirs, d)
    {
      d := dirs[op].items[oldName].dir;
      CachedChild(dirs, up, files, op, oldName);
      var p := dirs[np].path + [newName];
      assert dirs[d].path[|dirs[d].path| - 1] == oldName && Name(p) == newName;
      was := Rename(d, np, p);
      moved := dirs;
      MovedVirtuals(was, moved, old(up), d, np, p);
      ShownNamed(moved, up, files, d, op, oldName, np, newName);
      ShowMove(op, oldName, np, newName, d);
    }

    /** AddVirtual in the source: cache a new node under `leaf` unless something is cached there. */
    method AddVirtualNode(d: nat, leaf: string, isDir: bool)
      requires Valid() && d < |dirs|
      modifies this`dirs, this`up, this`files
      ensures Valid()
      ensures leaf in old(dirs)[d].items ==> dirs == old(dirs) && up == old(up) && files == old(files)
      ensures leaf !in old(dirs)[d].items && !isDir ==>
        && up == old(up) && dirs == Added(old(dirs), up, d, leaf, FileNode(|old(files)|))
        && files == old(files) + [File(d, leaf, None, 0, false)]
      ensures leaf !in old(dirs)[d].items && isDir ==>
        && files == old(files) && up == old(up) + [old(up)[d] + {|old(dirs)|}]
        && var made := Dir(Some(d), old(dirs)[d].path + [leaf], map[], map[], 0, false);
        dirs == Added(old(dirs) + [made], up, d, leaf, DirNode(|old(dirs)|))
    {
      if leaf !in dirs[d].items {
        var node;
        if isDir {
          var c := NewDir(Some(d), dirs[d].path + [leaf]);
          node := DirNode(c);
        } else {
          node := FileNode(|files|);
          MoreFiles(dirs, files, files + [File(d, leaf, None, 0, false)]);
          files := files + [File(d, leaf, None, 0, false)];
        }
        AddObject(d, leaf, node);
      }
    }

    /** A file is opened, written, uploaded or closed. */
    method Touch(f: nat, obj: Option<nat>, writers: nat, inUse: bool)
      requires Valid() && f < |files|
      modifies this`files
      ensures Valid() && files == old(files)[f := old(files)[f].(obj := obj, writers := writers, inUse := inUse)]
    {
      files := files[f := files[f].(obj := obj, writers := writers, inUse := inUse)];
      MoreFiles(dirs, old(files), files);
    }

    predicate Makes(op: Op)
      reads this
    {
      match op
      case Add(d, _, _) => d < |dirs|
      case AddNode(d, leaf, node) => d < |dirs| && Names(dirs, files, d, leaf, node)
      case Delete(d, _) => d < |dirs|
      case Purge(d) => d < |dirs|
      case Read(d, _, _) => d < |dirs|
      case Forget(d) => d < |dirs|
      case Touch(f, _, _, _) => f < |files|
      case Move(o, oldName, n, _) =>
        && o < |dirs| && n < |dirs|
        && oldName in dirs[o].items && dirs[o].items[oldName].DirNode?
    }

    /** `op` is a move to another parent of a tree in which something would stay pending. */
    ghost predicate IsUpsetting(op: Op)
      requires Valid() && Makes(op)
      reads this
    {
      op.Move? && op.d != op.to && !NothingPending(dirs, up, files, emptyDirs, dirs[op.d].items[op.leaf].dir)
    }

    /** One operation.  It keeps the invariant unless it is a move that is known to upset the counters. */
    method Step(op: Op) returns (upset: bool)
      requires Valid() && Makes(op)
      requires op.Move? ==> dirs[op.d].items[op.leaf].dir !in up[op.to]
      modifies this`dirs, this`up, this`files
      ensures Linked(dirs, up) && Named(dirs, files)
      ensures upset <==> !Valid()
      ensures upset <==> old(IsUpsetting(op))
      ensures Does(op, Snap(old(dirs), old(up), old(files)), Snap(dirs, up, files), emptyDirs)
    {
      upset := false;
      match op {
        case Add(d, leaf, isDir) => AddVirtualNode(d, leaf, isDir);
        case AddNode(d, leaf, node) => AddObject(d, leaf, node);
        case Delete(d, leaf) => DelObject(d, leaf);
        case Purge(d) => PurgeVirtual(d);
        case Read(d, t, deep) => var _ := ReadFromEntries(d, t, deep);
        case Forget(d) => var _ := ForgetAll(d);
        case Touch(f, obj, writers, inUse) => Touch(f, obj, writers, inUse);
        case Move(o, oldName, n, newName) => upset := Upsets(o, oldName, n, newName);
      }
    }

    /** Move a directory, and tell whether that left the counters wrong. */
    method Upsets(op: nat, oldName: string, np: nat, newName: string) returns (upset: bool)
      requires Valid() && op < |dirs| && np < |dirs|
      requires oldName in dirs[op].items && dirs[op].items[oldName].DirNode?
      requires dirs[op].items[oldName].dir !in up[np]
      modifies this`dirs, this`up
      ensures Linked(dirs, up) && Named(dirs, files)
      ensures upset <==> !Valid()
      ensures upset <==>
        op != np && !NothingPending(old(dirs), old(up), files, emptyDirs, old(dirs)[op].items[oldName].dir)
      ensures DoesMove(Snap(old(dirs), old(up), files), Snap(dirs, up, files), emptyDirs, op, oldName, np, newName)
    {
      ghost var before := up;
      var d, was, moved := RenameDir(op, oldName, np, newName);
      NothingLeftIff(old(dirs), was, before, files, emptyDirs, d);
      MovedVirtuals(was, moved, before, d, np, was[np].path + [newName]);
      CounterKept(moved, up, was, before, d, op, oldName, np, newName);
      upset := op != np && dirs[d].virtuals != 0;
    }

    /** Any run of operations, up to the first move that leaves the counters wrong.  Throughout, what
        is pending stays cached and marked in its directory, until an operation that can end it. */
    method Run(ops: seq<Op>) returns (done: nat, ghost trace: Trace)
      requires Valid()
      modifies this`dirs, this`up, this`files
      ensures Linked(dirs, up) && Named(dirs, files) && done <= |ops|
      ensures Valid() ==> done == |ops|
      ensures !Valid() ==> done > 0 && ops[done - 1].Move? && ops[done - 1].d != ops[done - 1].to
      ensures trace.Valid(emptyDirs) && trace.Ops() == ops[..done]
      ensures trace.First() == Snap(old(dirs), old(up), old(files)) && trace.Last() == Snap(dirs, up, files)
      ensures Keeps(trace, emptyDirs)
    {
      done, trace := 0, Start(Snap(dirs, up, files));
      var upset := false;
      while done < |ops| && !upset
        invariant done <= |ops| && (upset <==> !Valid()) && Linked(dirs, up) && Named(dirs, files)
        invariant upset ==> done > 0 && ops[done - 1].Move? && ops[done - 1].d != ops[done - 1].to
        invariant trace.Valid(emptyDirs) && trace.Ops() == ops[..done]
        invariant trace.First() == Snap(old(dirs), old(up), old(files)) && trace.Last() == Snap(dirs, up, files)
        decreases |ops| - done, !upset
      {
        upset, trace := RunOne(ops, done, trace);
        done := done + 1;
      }
      TraceKeeps(trace, emptyDirs);
    }

    /** One operation more. */
    method RunOne(ops: seq<Op>, done: nat, ghost trace: Trace) returns (upset: bool, ghost next: Trace)
      requires Valid() && done < |ops|
      requires trace.Valid(emptyDirs) && trace.Ops() == ops[..done] && trace.Last() == Snap(dirs, up, files)
      modifies this`dirs, this`up, this`files
      ensures Linked(dirs, up) && Named(dirs, files)
      ensures upset <==> !Valid()
      ensures upset ==> ops[done].Move? && ops[done].d != ops[done].to
      ensures next.Valid(emptyDirs) && next.Ops() == ops[..done + 1]
      ensures next.First() == trace.First() && next.Last() == Snap(dirs, up, files)
    {
      upset := TryStep(ops[done]);
      TraceMore(trace, ops, done, Snap(dirs, up, files), emptyDirs);
      next := Then(trace, ops[done], Snap(dirs, up, files));
    }

    /** One operation of a run, if it can be made; a directory is not moved into itself. */
    method TryStep(op: Op) returns (upset: bool)
      requires Valid()
      modifies this`dirs, this`up, this`files
      ensures Linked(dirs, up) && Named(dirs, files)
      ensures upset <==> !Valid()
      ensures upset ==> op.Move? && op.d != op.to
      ensures AllLinks({Change(op, Snap(old(dirs), old(up), old(files)), Snap(dirs, up, files))}, emptyDirs)
    {
      upset := false;
      var refused := !Makes(op);
      if !refused && op.Move? {
        refused := IsAbove(dirs[op.d].items[op.leaf].dir, op.to);
      }
      if !refused {
        upset := Step(op);
      }
      OneLink(Change(op, Snap(old(dirs), old(up), old(files)), Snap(dirs, up, files)), emptyDirs);
    }

    /** Whether the walk up from `e` meets `a`; the remote refuses to move a directory into itself. */
    method IsAbove(a: nat, e: nat) returns (above: bool)
      requires e < |dirs| && Linked(dirs, up)
      ensures above <==> a in up[e]
    {
      var cur: Option<nat> := Some(e);
      while cur.Some? && cur.value != a
        invariant cur.Some? ==> cur.value < |dirs|
        invariant a in up[e] <==> cur.Some? && a in up[cur.value]
        decreases if cur.Some? then |up[cur.value]| + 1 else 0
      {
        assert ChainOf(dirs, up, cur.value);
        cur := dirs[cur.value].parent;
      }
      OwnChain(dirs, up);
      above := cur.Some?;
    }
  }
}

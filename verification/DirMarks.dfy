/** Which overlay marks outlive a purge, a re-read and a forgetting (vfs/dir.go), told from the
    operations that set them. */
module DirMarks {
  import opened Wrappers
  import opened DirModel
  import opened DirListing
  import opened DirRename
  import opened VfsDir

  /** There is nothing called `leaf` in directory `d` of the cache, and no mark for it. */
  ghost predicate Fresh(v: Vfs, d: nat, leaf: string)
    reads v
  {
    v.Valid() && d < |v.dirs| && leaf !in v.dirs[d].items && leaf !in v.dirs[d].virtual
  }

  predicate Marked(v: Vfs, d: nat, leaf: string)
    reads v
  {
    d < |v.dirs| && leaf in v.dirs[d].virtual
  }

  predicate Has(v: Vfs, d: nat, leaf: string)
    reads v
  {
    d < |v.dirs| && leaf in v.dirs[d].items
  }

  /** A directory is made. */
  method MakeDir(v: Vfs, d: nat, leaf: string)
    requires Fresh(v, d, leaf)
    modifies v`dirs, v`up, v`files
    ensures v.Valid() && Has(v, d, leaf) && v.dirs[d].items[leaf].DirNode?
    ensures Marked(v, d, leaf) && v.dirs[d].virtual[leaf] == AddDir
  {
    v.AddVirtualNode(d, leaf, true);
  }

  /** A file is made, and then opened, written, uploaded or closed. */
  method MakeFile(v: Vfs, d: nat, leaf: string, obj: Option<nat>, writers: nat, inUse: bool)
    requires Fresh(v, d, leaf)
    modifies v`dirs, v`up, v`files
    ensures v.Valid() && Has(v, d, leaf) && v.dirs[d].items[leaf].FileNode?
    ensures Marked(v, d, leaf) && v.dirs[d].virtual[leaf] == AddFile
    ensures var f := v.dirs[d].items[leaf].file; f < |v.files| && v.files[f] == File(d, leaf, obj, writers, inUse)
  {
    v.AddVirtualNode(d, leaf, false);
    v.Touch(v.dirs[d].items[leaf].file, obj, writers, inUse);
  }

  /** Directory `d` is forgotten, in which `leaf` is marked. */
  method ForgetMade(v: Vfs, d: nat, leaf: string) returns (hasVirtual: bool)
    requires v.Valid() && Has(v, d, leaf) && Marked(v, d, leaf)
    modifies v`dirs
    ensures Marked(v, d, leaf) <==> leaf in Kept(old(v.dirs)[d], v.files, v.emptyDirs)
    ensures Marked(v, d, leaf) ==> hasVirtual && Has(v, d, leaf)
  {
    ghost var was := v.dirs;
    hasVirtual := v.ForgetAll(d);
    ForgetDropsRest(was, v.dirs, v.up, v.files, v.emptyDirs, d, []);
    if leaf in v.dirs[d].virtual {
      ForgetKeepsPending(was, v.dirs, v.up, v.files, v.emptyDirs, d, [], leaf);
      OwnChain(v.dirs, v.up);
      assert d in v.up[d] && v.dirs[d].virtual != map[];
    }
  }

  /** A directory that holds nothing pending is emptied by forgetting it, and has to be read again;
      any other keeps what is cached. */
  method ForgetAny(v: Vfs, d: nat) returns (hasVirtual: bool)
    requires v.Valid() && d < |v.dirs|
    modifies v`dirs
    ensures |v.dirs| == |old(v.dirs)|
    ensures if hasVirtual then v.dirs[d].items == old(v.dirs)[d].items && v.dirs[d].read == old(v.dirs)[d].read
      else v.dirs[d].items == map[] && !v.dirs[d].read
  {
    ghost var was := v.dirs;
    hasVirtual := v.ForgetAll(d);
    ZeroMeansNone(v.dirs, v.up, d);
    OwnChain(was, v.up);
    assert Visited(was[d], v.dirs[d], v.files, v.emptyDirs);
  }

  // --- New directories --------------------------------------------------------------------

  /** The mark of a new directory stays exactly on a remote that has no empty directories. */
  method PurgeNewDir(v: Vfs, d: nat, leaf: string)
    requires Fresh(v, d, leaf)
    modifies v`dirs, v`up, v`files
    ensures Marked(v, d, leaf) <==> !v.emptyDirs
    ensures Has(v, d, leaf)
  {
    MakeDir(v, d, leaf);
    v.PurgeVirtual(d);
  }

  /** A new directory is still there after a re-read exactly if it is listed or the remote has no
      empty directories, and only a listed one is no longer marked there. */
  method RereadNewDir(v: Vfs, d: nat, leaf: string, t: Tree, deep: bool) returns (ok: bool)
    requires Fresh(v, d, leaf)
    modifies v`dirs, v`up, v`files
    ensures ok <==> Readable(t, deep)
    ensures ok ==> (Has(v, d, leaf) <==> leaf in Listed(t.entries) || !v.emptyDirs)
    ensures ok ==> (Marked(v, d, leaf) <==> leaf !in Listed(t.entries) && !v.emptyDirs)
  {
    MakeDir(v, d, leaf);
    ok := v.ReadFromEntries(d, t, deep);
  }

  /** With nothing listed. */
  method RereadNewDirAlone(v: Vfs, d: nat, leaf: string, deep: bool)
    requires Fresh(v, d, leaf)
    modifies v`dirs, v`up, v`files
    ensures Has(v, d, leaf) <==> !v.emptyDirs
    ensures Marked(v, d, leaf) <==> !v.emptyDirs
  {
    var ok := RereadNewDir(v, d, leaf, Tree([], map[]), deep);
  }

  /** Forgetting reports a new directory as pending, and keeps it, on a remote without empty ones. */
  method ForgetNewDir(v: Vfs, d: nat, leaf: string) returns (hasVirtual: bool)
    requires Fresh(v, d, leaf)
    modifies v`dirs, v`up, v`files
    ensures Marked(v, d, leaf) <==> !v.emptyDirs
    ensures !v.emptyDirs ==> hasVirtual && Has(v, d, leaf)
  {
    MakeDir(v, d, leaf);
    hasVirtual := ForgetMade(v, d, leaf);
  }

  // --- New files --------------------------------------------------------------------------

  /** The mark of a new file stays exactly while it has no object, is being written, or is in use. */
  method PurgeNewFile(v: Vfs, d: nat, leaf: string, obj: Option<nat>, writers: nat, inUse: bool)
    requires Fresh(v, d, leaf)
    modifies v`dirs, v`up, v`files
    ensures Marked(v, d, leaf) <==> obj.None? || writers != 0 || inUse
    ensures Has(v, d, leaf)
  {
    MakeFile(v, d, leaf, obj, writers, inUse);
    v.PurgeVirtual(d);
  }

  /** A new file is still there after a re-read exactly if it is listed or not done with. */
  method RereadNewFile(
    v: Vfs, d: nat, leaf: string, obj: Option<nat>, writers: nat, inUse: bool, t: Tree, deep: bool) returns (ok: bool)
    requires Fresh(v, d, leaf)
    modifies v`dirs, v`up, v`files
    ensures ok ==> (Has(v, d, leaf) <==> leaf in Listed(t.entries) || obj.None? || writers != 0 || inUse)
    ensures ok ==>
      (Marked(v, d, leaf) <==> leaf !in Listed(t.entries) && (obj.None? || writers != 0 || inUse))
  {
    MakeFile(v, d, leaf, obj, writers, inUse);
    ok := v.ReadFromEntries(d, t, deep);
  }

  /** Forgetting reports a file as pending, and keeps it, while it is not done with. */
  method ForgetNewFile(v: Vfs, d: nat, leaf: string, obj: Option<nat>, writers: nat, inUse: bool)
    returns (hasVirtual: bool)
    requires Fresh(v, d, leaf)
    modifies v`dirs, v`up, v`files
    ensures Marked(v, d, leaf) <==> obj.None? || writers != 0 || inUse
    ensures obj.None? || writers != 0 || inUse ==> hasVirtual && Has(v, d, leaf)
  {
    MakeFile(v, d, leaf, obj, writers, inUse);
    hasVirtual := ForgetMade(v, d, leaf);
  }

  /** The mark of a file that is not there, or is a directory, never stays. */
  method PurgeLost(v: Vfs, d: nat, leaf: string)
    requires v.Valid() && Marked(v, d, leaf) && v.dirs[d].virtual[leaf] == AddFile
    requires Has(v, d, leaf) ==> v.dirs[d].items[leaf].DirNode?
    modifies v`dirs
    ensures !Marked(v, d, leaf)
  {
    v.PurgeVirtual(d);
  }

  // --- Moves ------------------------------------------------------------------------------

  /** A moved directory is found in its new parent, under its new name and path, to be read again; it is
      marked as added there, and as deleted where it was. */
  method MoveDir(v: Vfs, op: nat, oldName: string, np: nat, newName: string) returns (d: nat)
    requires v.Valid() && op < |v.dirs| && np < |v.dirs|
    requires oldName in v.dirs[op].items && v.dirs[op].items[oldName].DirNode?
    requires v.dirs[op].items[oldName].dir !in v.up[np]
    modifies v`dirs, v`up
    ensures |v.dirs| == |old(v.dirs)| && DirNode(d) == old(v.dirs)[op].items[oldName] && d < |v.dirs|
    ensures Has(v, np, newName) && v.dirs[np].items[newName] == DirNode(d)
    ensures Marked(v, np, newName) && v.dirs[np].virtual[newName] == AddDir
    ensures v.dirs[d].parent == Some(np) && v.dirs[d].path == old(v.dirs)[np].path + [newName] && !v.dirs[d].read
    ensures op != np || oldName != newName ==>
      !Has(v, op, oldName) && Marked(v, op, oldName) && v.dirs[op].virtual[oldName] == Del
  {
    ghost var ds, ups, was, moved := v.dirs, v.up, [], [];
    d, was, moved := v.RenameDir(op, oldName, np, newName);
    MovedPlace(ds, v.dirs, ups, v.files, v.emptyDirs, was, moved, d, op, oldName, np, newName);
  }

  // --- Deletions --------------------------------------------------------------------------

  /** The mark of a deletion never stays. */
  method PurgeDeleted(v: Vfs, d: nat, leaf: string)
    requires v.Valid() && d < |v.dirs|
    modifies v`dirs
    ensures !Marked(v, d, leaf) && !Has(v, d, leaf)
  {
    v.DelObject(d, leaf);
    v.PurgeVirtual(d);
  }

  /** As a re-read begins with a purge, what was deleted comes back whenever it is still listed. */
  method RereadDeleted(v: Vfs, d: nat, leaf: string, t: Tree, deep: bool) returns (ok: bool)
    requires v.Valid() && d < |v.dirs|
    modifies v`dirs, v`up, v`files
    ensures ok ==> !Marked(v, d, leaf) && (Has(v, d, leaf) <==> leaf in Listed(t.entries))
  {
    v.DelObject(d, leaf);
    ok := v.ReadFromEntries(d, t, deep);
  }
}

/** A file of the VFS with its open writers and its queued renames (vfs/file.go), caching off. */
module VfsFile {
  import opened Wrappers

  /** An open write handle, and the remote name it uploads to. */
  datatype Writer = Writer(id: nat, remote: string)

  /** A queued rename: a call that first runs the call queued before it. */
  datatype Queue = Empty | Rename(before: Queue, to: string)

  /** A move of the remote object, with the number of writers open when it was made. */
  datatype Move = Move(source: string, to: string, writers: nat)

  /** The moves a rename call makes when all of them succeed. */
  function MovesOf(at: string, call: Queue): (moves: seq<Move>)
  {
    match call
    case Empty => []
    case Rename(before, to) =>
      var first := MovesOf(at, before);
      var mid := EndOf(at, before);
      if mid == to then first else first + [Move(mid, to, 0)]
  }

  function EndOf(at: string, call: Queue): (end: string)
  {
    if call.Empty? then at else call.to
  }

  /** The moves lead from where the object is to where it was last asked to be, without a gap. */
  lemma {:induction false} MovesLead(at: string, call: Queue)
    ensures var moves := MovesOf(at, call);
      && (moves == [] ==> EndOf(at, call) == at)
      && (moves != [] ==> moves[0].source == at && moves[|moves| - 1].to == EndOf(at, call))
      && (forall i :: 0 < i < |moves| ==> moves[i].source == moves[i - 1].to)
      && (forall i :: 0 <= i < |moves| ==> moves[i].source != moves[i].to)
  {
    if call.Rename? {
      MovesLead(at, call.before);
    }
  }

  predicate DistinctIds(writers: seq<Writer>)
  {
    forall i, j :: 0 <= i < j < |writers| ==> writers[i].id != writers[j].id
  }

  function Ids(writers: seq<Writer>): (s: set<nat>)
  {
    set w | w in writers :: w.id
  }

  class File {
    const canMove: bool   // the remote has a server-side move or copy
    const reliable: bool  // its moves do not fail
    var o: Option<string>
    var path: string
    var writers: seq<Writer>
    var nwriters: int
    var queue: Queue
    var size: nat
    ghost var moves: seq<Move>
    ghost var lost: bool  // a move failed, and nothing has been asked for since

    predicate Writing()
      reads this
    {
      o.None? || |writers| != 0
    }

    /** The queued call, if there is one, leads to the most recent name; if there is none, the
        object and all uploads are at that name already.  At rest the object is there. */
    ghost predicate Valid()
      reads this
    {
      && nwriters == |writers| && DistinctIds(writers)
      && (forall m :: m in moves ==> m.writers == 0)
      && (reliable ==> !lost)
      && (!lost ==>
            && (queue.Rename? ==> queue.to == path)
            && (queue.Empty? ==> (o.Some? ==> o.value == path) && forall w :: w in writers ==> w.remote == path)
            && (!Writing() ==> o == Some(path)))
    }

    constructor (canMove: bool, reliable: bool, path: string, present: bool)
      ensures Valid() && this.path == path && writers == [] && queue == Empty && !lost && moves == []
      ensures this.canMove == canMove && this.reliable == reliable
      ensures o == if present then Some(path) else None
    {
      this.canMove, this.reliable, this.path := canMove, reliable, path;
      o := if present then Some(path) else None;
      writers, nwriters, queue, size, moves, lost := [], 0, Empty, 0, [], false;
    }

    /** Run a rename call, and before it the calls queued before it. */
    method RunRename(call: Queue) returns (failed: bool)
      requires call.Rename? && !Writing()
      modifies this`o, this`queue, this`moves
      ensures !Writing()
      ensures reliable ==> !failed
      ensures !failed ==> o == Some(call.to) && moves == old(moves) + MovesOf(old(o).value, call)
      ensures !failed ==> queue == if MovesOf(old(o).value, call) == [] then old(queue) else Empty
      ensures old(moves) <= moves && forall m :: m in moves[|old(moves)|..] ==> m.writers == 0
      decreases call
    {
      failed := false;
      if call.before.Rename? {
        failed := RunRename(call.before);
        if failed {
          return;
        }
      }
      if o.value == call.to {
        return;
      }
      failed := *;
      if failed && !reliable {
        return;
      }
      failed := false;
      moves := moves + [Move(o.value, call.to, |writers|)];
      o := Some(call.to);
      queue := Empty;
    }

    /** Run the queued call if there are no more writers. */
    method ApplyPendingRename()
      requires Shape()
      modifies this`o, this`queue, this`moves, this`lost
      ensures Valid()
      ensures lost == old(lost) || (lost && !reliable)
      ensures !Writing() && !lost ==> o == Some(path)
      ensures Writing() ==> o == old(o) && queue == old(queue) && moves == old(moves)
      ensures Writing() == old(Writing()) && old(moves) <= moves
      ensures reliable && !Writing() ==> moves == old(moves) + MovesOf(old(o).value, old(queue))
    {
      if queue.Empty? || Writing() {
        return;
      }
      MovesLead(o.value, queue);
      var failed := RunRename(queue);
      if failed {
        lost := true;
      }
    }

    /** Valid, but a queued call may be due. */
    ghost predicate Shape()
      reads this
    {
      && nwriters == |writers| && DistinctIds(writers)
      && (forall m :: m in moves ==> m.writers == 0)
      && (reliable ==> !lost)
      && (!lost ==>
            && (queue.Rename? ==> queue.to == path)
            && (queue.Empty? ==> (o.Some? ==> o.value == path) && forall w :: w in writers ==> w.remote == path))
    }

    /** Rename to `to`, at once or when the last writer leaves. */
    method DoRename(to: string) returns (failed: bool)
      requires Valid()
      modifies this`o, this`path, this`queue, this`moves, this`lost
      ensures Valid()
      ensures canMove ==> path == to
      ensures !canMove ==> failed && path == old(path) && o == old(o) && queue == old(queue)
      ensures canMove && old(Writing()) ==>
        !failed && !lost && queue == Rename(old(queue), to) && o == old(o) && moves == old(moves)
      ensures canMove && !old(Writing()) && !failed ==> !lost && o == Some(to)
      ensures canMove && !old(Writing()) && !failed ==>
        moves == old(moves) + MovesOf(old(o).value, Rename(old(queue), to))
      ensures canMove && reliable ==> !failed
      ensures old(moves) <= moves
    {
      failed := false;
      if !canMove {
        return true;
      }
      var call := Rename(queue, to);
      path := to;
      if Writing() {
        queue := call;
        lost := false;
        return;
      }
      MovesLead(o.value, call.before);
      MovesLead(o.value, call);
      failed := RunRename(call);
      lost := failed;
    }

    /** Register a handle that will upload to the present name. */
    method AddWriter(id: nat)
      requires Valid() && id !in Ids(writers)
      modifies this`writers, this`nwriters
      ensures Valid() && writers == old(writers) + [Writer(id, path)]
    {
      forall i | 0 <= i < |writers| ensures writers[i].id != id {
        assert writers[i] in writers;
      }
      writers := writers + [Writer(id, path)];
      nwriters := nwriters + 1;
    }

    /** Remove a handle, and run what was waiting for the last one to leave. */
    method DelWriter(id: nat)
      requires Valid()
      modifies this`writers, this`nwriters, this`o, this`queue, this`moves, this`lost
      ensures Valid()
      ensures Ids(writers) == Ids(old(writers)) - {id} && forall w :: w in writers <==> w in old(writers) && w.id != id
      ensures !Writing() && !lost ==> o == Some(path)
      ensures lost ==> old(lost) || !reliable
      ensures Writing() ==> o == old(o) && moves == old(moves)
      ensures o.None? <==> old(o).None?
      ensures reliable && !Writing() ==> moves == old(moves) + MovesOf(old(o).value, old(queue))
    {
      var found := -1;
      for i := 0 to |writers|
        invariant found == -1 && forall j :: 0 <= j < i ==> writers[j].id != id
      {
        if writers[i].id == id {
          found := i;
          break;
        }
      }
      if found >= 0 {
        writers := writers[..found] + writers[found + 1..];
        nwriters := nwriters - 1;
      }
      ApplyPendingRename();
    }

    /** An upload to `remote` has finished: the file has an object now. */
    method SetObject(remote: string)
      requires Valid() && exists w :: w in writers && w.remote == remote
      modifies this`o
      ensures Valid() && o == Some(remote)
    {
      o := Some(remote);
    }
  }

  datatype FileOp =
    | Open(id: nat)
    | Finish(id: nat, uploaded: bool)  // a handle closes, its upload having succeeded or not
    | Ask(to: string)                  // a rename

  /** The name last asked for. */
  function Newest(path: string, ops: seq<FileOp>): (p: string)
  {
    if ops == [] then path
    else
      var last := ops[|ops| - 1];
      if last.Ask? then last.to else Newest(path, ops[..|ops| - 1])
  }

  /** Any run of renames, openings and closings.  No object is moved while a writer is open, and
      whenever nothing is being written the object has the newest name. */
  method RunFile(f: File, ops: seq<FileOp>)
    requires f.Valid() && f.canMove
    modifies f
    ensures f.Valid() && f.path == Newest(old(f.path), ops)
    ensures forall m :: m in f.moves ==> m.writers == 0
    ensures f.reliable && !f.Writing() ==> f.o == Some(Newest(old(f.path), ops))
  {
    for i := 0 to |ops|
      invariant f.Valid() && f.path == Newest(old(f.path), ops[..i])
    {
      assert ops[..i + 1][..i] == ops[..i];
      match ops[i] {
        case Open(id) =>
          var free := true;
          for j := 0 to |f.writers|
            invariant free <==> forall k :: 0 <= k < j ==> f.writers[k].id != id
          {
            free := free && f.writers[j].id != id;
          }
          if free {
            f.AddWriter(id);
          }
        case Finish(id, uploaded) =>
          var j := 0;
          while j < |f.writers| && f.writers[j].id != id
            invariant 0 <= j <= |f.writers|
          {
            j := j + 1;
          }
          if j < |f.writers| {
            if uploaded {
              f.SetObject(f.writers[j].remote);
            }
            f.DelWriter(id);
          }
        case Ask(to) =>
          var _ := f.DoRename(to);
      }
    }
    assert ops[..|ops|] == ops;
  }
}

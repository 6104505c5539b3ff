/** A write handle that streams to the remote (vfs/write.go), used by any number of threads. */
module WriteHandle {
  import opened Wrappers
  import opened Text
  import opened VfsFile

  datatype Error = Closed | CannotSeek | NotPermitted | PipeFailed | UploadFailed | Abandoned

  datatype Reply = Wrote(n: nat) | Failed(error: Error) | Waits

  /** A write that waits for the stream to reach its offset, or that was made. */
  datatype Pending = Pending(off: int, data: seq<byte>)

  /** The bytes of `w` are in the stream, at its offset. */
  predicate Placed(stream: seq<byte>, w: Pending)
  {
    0 <= w.off && w.off + |w.data| <= |stream| && stream[w.off..w.off + |w.data|] == w.data
  }

  lemma {:induction false} PlacedGrows(stream: seq<byte>, more: seq<byte>, w: Pending)
    requires Placed(stream, w)
    ensures Placed(stream + more, w)
  {
    assert (stream + more)[w.off..w.off + |w.data|] == stream[w.off..w.off + |w.data|];
  }

  class WriteFileHandle {
    const id: nat
    const file: File
    const remote: string
    const truncFlag: bool  // opened with O_TRUNC
    const faultless: bool  // the upload takes all it is given, and fails only if its stream is failed
    var offset: int
    var closed: bool
    var writeCalled: bool
    var isOpen: bool
    var truncated: bool
    var waiting: map<nat, Pending>
    var stream: seq<byte>       // what the upload has been given
    var pipeClosed: bool
    ghost var uploads: nat      // uploads started
    ghost var results: nat      // upload results taken
    ghost var made: seq<Pending>
    ghost var over: bool        // there was an object when the upload was started
    ghost var asked: bool       // truncation was asked for

    /** What holds whenever no thread is inside the handle. */
    ghost predicate Valid()
      reads this, file
    {
      && file.Valid() && Inside()
      && (closed ==> id !in Ids(file.writers))
      && (!closed ==> Writer(id, remote) in file.writers)
      && (!closed ==> results == 0 && !pipeClosed)
      && (closed && isOpen ==> results == 1 && pipeClosed)
    }

    ghost predicate Inside()
      reads this
    {
      && offset == |stream|
      && (!isOpen ==> stream == [] && uploads == 0 && results == 0 && !writeCalled && !pipeClosed)
      && (!isOpen ==> forall t :: t in waiting ==> waiting[t].off != 0)
      && (isOpen ==> uploads == 1 && truncated)
      && (if isOpen then truncFlag ==> asked else asked <==> truncFlag || truncated)
      && (isOpen && over ==> asked)
      && (forall w :: w in made ==> Placed(stream, w))
    }

    constructor (id: nat, file: File, truncFlag: bool, faultless: bool)
      requires file.Valid() && id !in Ids(file.writers)
      modifies file
      ensures Valid() && this.id == id && this.file == file && this.truncFlag == truncFlag
      ensures this.faultless == faultless && !writeCalled && !truncated
      ensures !closed && !isOpen && stream == [] && made == [] && waiting == map[] && asked == truncFlag
      ensures file.writers == old(file.writers) + [Writer(id, remote)] && remote == file.path
    {
      this.id, this.file, this.truncFlag, remote := id, file, truncFlag, file.path;
      this.faultless := faultless;
      offset, closed, writeCalled, isOpen, truncated := 0, false, false, false, false;
      waiting, stream, pipeClosed := map[], [], false;
      uploads, results, made, over, asked := 0, 0, [], false, truncFlag;
      new;
      file.AddWriter(id);
    }

    predicate SafeToTruncate()
      reads this, file
    {
      truncated || truncFlag || file.o.None?
    }

    /** An upload would replace no object, or was asked to. */
    ghost predicate MayStart()
      reads this, file
    {
      file.o.None? || asked
    }

    /** Start the upload, unless that would overwrite an object nobody asked to truncate. */
    method OpenPending() returns (refused: bool)
      requires Inside()
      modifies this`isOpen, this`truncated, this`uploads, this`over, file`size
      ensures Inside()
      ensures old(isOpen) ==> !refused && over == old(over) && uploads == old(uploads)
      ensures refused <==> !old(isOpen) && !old(MayStart())
      ensures !refused ==> isOpen && uploads == 1
      ensures refused ==> !isOpen && truncated == old(truncated)
      ensures file.size == if !refused && !old(isOpen) then 0 else old(file.size)
      ensures !old(isOpen) && !refused ==> over == old(file.o).Some?
    {
      if isOpen {
        return false;
      }
      if !SafeToTruncate() {
        return true;
      }
      uploads := uploads + 1;
      over := file.o.Some?;
      file.size := 0;
      truncated := true;
      isOpen := true;
      refused := false;
    }

    /** The reply to a write by a handle that stood at `at`: only the end of the stream can be written
        to, and only on an upload that is started or may be.  Nothing else stops a write but the pipe. */
    ghost predicate Replied(r: Reply, w: Pending, at: int, wasOpen: bool, safe: bool)
      reads this
    {
      if at != w.off then r == Failed(CannotSeek)
      else if !wasOpen && !safe then r == Failed(NotPermitted) && !isOpen
      else
        && isOpen && writeCalled && (r == Wrote(|w.data|) || r == Failed(PipeFailed))
        && (closed ==> r == Failed(PipeFailed)) && (faultless && !closed ==> r == Wrote(|w.data|))
    }

    /** The part of a write that runs once the waiting is over. */
    method FinishWrite(w: Pending) returns (r: Reply)
      requires Valid() && (closed && !isOpen ==> w.off != 0)
      modifies this`isOpen, this`truncated, this`uploads, this`over, this`writeCalled
      modifies this`stream, this`offset, this`made, file`size
      ensures Valid() && !r.Waits?
      ensures Replied(r, w, old(offset), old(isOpen), old(MayStart()))
      ensures r.Wrote? ==> made == old(made) + [w] && stream == old(stream) + w.data && file.size == offset
      ensures !r.Wrote? ==> made == old(made)
      ensures r.Failed? && r.error != PipeFailed ==>
        stream == old(stream) && isOpen == old(isOpen) && writeCalled == old(writeCalled) && file.size == old(file.size)
      ensures Extends(old(stream), stream) && stream[|old(stream)|..] <= w.data
      ensures closed ==> stream == old(stream) && uploads == old(uploads)
    {
      if offset != w.off {
        return Failed(CannotSeek);
      }
      var refused := OpenPending();
      if refused {
        return Failed(NotPermitted);
      }
      r := Append(w);
    }

    /** Add the bytes of a write to the stream, whose end they belong at. */
    method Append(w: Pending) returns (r: Reply)
      requires Inside() && isOpen && offset == w.off
      modifies this`writeCalled, this`stream, this`offset, this`made, file`size
      ensures Inside() && writeCalled && file.size == offset
      ensures r == Wrote(|w.data|) || r == Failed(PipeFailed)
      ensures r.Wrote? ==> made == old(made) + [w] && stream == old(stream) + w.data && !pipeClosed
      ensures !r.Wrote? ==> made == old(made)
      ensures faultless && !pipeClosed ==> r.Wrote?
      ensures pipeClosed ==> stream == old(stream)
      ensures Extends(old(stream), stream)
      ensures stream[|old(stream)|..] <= w.data
    {
      writeCalled := true;
      ghost var was := stream;
      var n, ok := PipeWrite(w.data);
      offset := offset + n;
      file.size := offset;
      forall m | m in made ensures Placed(stream, m) {
        PlacedGrows(was, w.data[..n], m);
      }
      if ok {
        assert stream[w.off..w.off + |w.data|] == w.data;
        made := made + [w];
        r := Wrote(n);
      } else {
        r := Failed(PipeFailed);
      }
    }

    /** Give the upload some of `p`: all of it, or the part it took before it failed. */
    method PipeWrite(p: seq<byte>) returns (n: nat, ok: bool)
      requires isOpen
      modifies this`stream
      ensures n <= |p| && stream == old(stream) + p[..n]
      ensures ok ==> n == |p| && !pipeClosed
      ensures pipeClosed ==> n == 0
      ensures faultless && !pipeClosed ==> ok
    {
      if pipeClosed {
        return 0, false;
      }
      n :| 0 <= n <= |p| && (faultless ==> n == |p|);
      ok := *;
      ok := faultless || (ok && n == |p|);
      stream := stream + p[..n];
    }

    /** A thread takes the lock to write `p` at `off`; it finishes, fails, or waits. */
    method WriteAt(t: nat, off: int, p: seq<byte>) returns (r: Reply)
      requires Valid() && t !in waiting
      modifies this`isOpen, this`truncated, this`uploads, this`over, this`writeCalled, this`waiting
      modifies this`stream, this`offset, this`made, file`size
      ensures Valid()
      ensures closed ==> r == Failed(Closed) && waiting == old(waiting)
      ensures r.Waits? <==> !closed && old(offset) != off
      ensures waiting == if r.Waits? then old(waiting)[t := Pending(off, p)] else old(waiting)
      ensures !closed && !r.Waits? ==>
        Replied(r, Pending(off, p), old(offset), old(isOpen), old(MayStart()))
      ensures r.Wrote? ==>
        made == old(made) + [Pending(off, p)] && stream == old(stream) + p && file.size == offset
      ensures !r.Wrote? ==> made == old(made)
      ensures !r.Wrote? && r != Failed(PipeFailed) ==> stream == old(stream) && isOpen == old(isOpen)
      ensures Extends(old(stream), stream) && stream[|old(stream)|..] <= p
      ensures closed ==> stream == old(stream) && uploads == old(uploads)
    {
      if closed {
        return Failed(Closed);
      }
      if offset != off {
        waiting := waiting[t := Pending(off, p)];
        return Waits;
      }
      r := FinishWrite(Pending(off, p));
    }

    /** A waiting thread gets the lock back, its turn having come or its time being up. */
    method Wake(t: nat) returns (r: Reply)
      requires Valid() && t in waiting
      modifies this`isOpen, this`truncated, this`uploads, this`over, this`writeCalled, this`waiting
      modifies this`stream, this`offset, this`made, file`size
      ensures Valid() && !r.Waits? && waiting == old(waiting) - {t}
      ensures Replied(r, old(waiting)[t], old(offset), old(isOpen), old(MayStart()))
      ensures r.Wrote? ==>
        && made == old(made) + [old(waiting)[t]] && stream == old(stream) + old(waiting)[t].data
        && file.size == offset
      ensures !r.Wrote? ==> made == old(made)
      ensures !r.Wrote? && r != Failed(PipeFailed) ==> stream == old(stream) && isOpen == old(isOpen)
      ensures Extends(old(stream), stream) && stream[|old(stream)|..] <= old(waiting)[t].data
      ensures closed ==> stream == old(stream) && uploads == old(uploads)
    {
      var w := waiting[t];
      waiting := waiting - {t};
      r := FinishWrite(w);
    }

    /** What closing a handle comes to: nothing if no upload was or may be started, and otherwise its
        one result, which is a failure if it was abandoned and nothing kept it from noticing. */
    ghost predicate Ended(err: Option<Error>, abandon: bool, starts: bool, had: bool)
      reads this, file
    {
      if !starts then err.None? && uploads == 0 && results == 0 && file.o.Some? == had
      else
        && uploads == 1 && results == 1
        && (err.None? ==> file.o.Some? && (file.Writing() ==> file.o == Some(remote)))
        && (err.Some? ==> err == Some(if abandon then Abandoned else UploadFailed) && file.o.Some? == had)
        && (faultless ==> (err.Some? <==> abandon))
    }

    /** Close the handle, failing the upload when it is abandoned. */
    method CloseWithError(abandon: bool) returns (err: Option<Error>)
      requires Valid()
      modifies this`closed, this`isOpen, this`truncated, this`uploads, this`over, this`pipeClosed, this`results, file
      ensures Valid() && closed
      ensures old(closed) ==> err == Some(Closed) && unchanged(this) && unchanged(file)
      ensures !old(closed) ==> Ids(file.writers) == Ids(old(file.writers)) - {id}
      ensures !old(closed) ==>
        Ended(err, abandon, old(isOpen) || old(MayStart()), old(file.o).Some?)
    {
      if closed {
        return Some(Closed);
      }
      closed := true;
      if !isOpen && !SafeToTruncate() {
        file.DelWriter(id);
        return None;
      }
      var _ := OpenPending();
      err := TakeResult(abandon);
      file.DelWriter(id);
    }

    /** End the stream and wait for the outcome of the upload. */
    method TakeResult(abandon: bool) returns (err: Option<Error>)
      requires Inside() && file.Valid() && isOpen && results == 0 && Writer(id, remote) in file.writers
      modifies this`pipeClosed, this`results, file`o
      ensures Inside() && file.Valid() && results == 1 && pipeClosed
      ensures err.None? ==> file.o == Some(remote)
      ensures err.Some? ==> file.o == old(file.o) && err == Some(if abandon then Abandoned else UploadFailed)
      ensures faultless ==> (err.Some? <==> abandon)
    {
      pipeClosed := true;
      var ok: bool := *;
      ok := if faultless then !abandon else ok;
      results := results + 1;
      if ok {
        file.SetObject(remote);
        return None;
      }
      return Some(if abandon then Abandoned else UploadFailed);
    }

    method Write(p: seq<byte>) returns (r: Reply)
      requires Valid()
      modifies this`isOpen, this`truncated, this`uploads, this`over, this`writeCalled
      modifies this`stream, this`offset, this`made, file`size
      ensures Valid() && !r.Waits?
      ensures closed ==> r == Failed(Closed)
      ensures !closed ==>
        Replied(r, Pending(old(offset), p), old(offset), old(isOpen), old(MayStart()))
      ensures r.Wrote? ==>
        made == old(made) + [Pending(old(offset), p)] && stream == old(stream) + p && file.size == offset
      ensures !r.Wrote? ==> made == old(made)
      ensures !r.Wrote? && r != Failed(PipeFailed) ==> stream == old(stream) && isOpen == old(isOpen)
      ensures Extends(old(stream), stream) && stream[|old(stream)|..] <= p
      ensures closed ==> stream == old(stream) && uploads == old(uploads)
    {
      if closed {
        return Failed(Closed);
      }
      r := FinishWrite(Pending(offset, p));
    }

    /** An unwritten handle is opened by writing nothing; a written one is closed. */
    method Flush() returns (err: Option<Error>)
      requires Valid()
      modifies this, file
      ensures Valid()
      ensures old(closed) ==> err.None? && unchanged(this) && unchanged(file)
      ensures closed <==> old(closed) || old(writeCalled)
      ensures !old(closed) && old(writeCalled) ==>
        id !in Ids(file.writers) && Ended(err, false, true, old(file.o).Some?)
      ensures !old(closed) && !old(writeCalled) ==>
        && stream == old(stream)
        && Replied(
          if err.None? then Wrote(0) else Failed(err.value), Pending(old(offset), []),
          old(offset), old(isOpen), old(MayStart()))
      ensures waiting == old(waiting) && old(made) <= made && Extends(old(stream), stream) && asked == old(asked)
    {
      if closed {
        return None;
      }
      if !writeCalled {
        var r := Write([]);
        return if r.Failed? then Some(r.error) else None;
      }
      err := CloseWithError(false);
    }

    method Release() returns (err: Option<Error>)
      requires Valid()
      modifies this, file
      ensures Valid() && closed && id !in Ids(file.writers)
      ensures old(closed) ==> err.None? && unchanged(this) && unchanged(file)
      ensures !old(closed) ==> Ended(err, false, old(isOpen) || old(MayStart()), old(file.o).Some?)
      ensures waiting == old(waiting) && stream == old(stream) && made == old(made) && asked == old(asked)
    {
      if closed {
        return None;
      }
      err := CloseWithError(false);
    }

    /** The size cannot be changed, but asking for an empty file allows an object to be replaced. */
    method Truncate(size: int) returns (err: Option<Error>)
      requires Valid()
      modifies this`truncated, this`asked
      ensures Valid()
      ensures err == if size == offset then None else Some(NotPermitted)
      ensures truncated == (old(truncated) || (err.None? && size == 0))
      ensures asked == (old(asked) || (err.None? && size == 0))
    {
      if size != offset {
        return Some(NotPermitted);
      }
      if size == 0 {
        truncated, asked := true, true;
      }
      return None;
    }
  }

  /** The pieces one after the other. */
  function Concat(ps: seq<seq<byte>>): (all: seq<byte>)
  {
    if ps == [] then [] else Concat(ps[..|ps| - 1]) + ps[|ps| - 1]
  }

  /** Pieces written in order on a pipe that does not fail leave exactly their concatenation. */
  method WriteAll(fh: WriteFileHandle, ps: seq<seq<byte>>)
    requires fh.Valid() && fh.faultless && !fh.closed && (fh.isOpen || fh.MayStart())
    modifies fh, fh.file`size
    ensures fh.Valid() && !fh.closed && (fh.isOpen || fh.MayStart())
    ensures fh.stream == old(fh.stream) + Concat(ps) && |fh.made| == |old(fh.made)| + |ps|
    ensures ps != [] ==> fh.isOpen && fh.file.size == |fh.stream|
  {
    for i := 0 to |ps|
      invariant fh.Valid() && !fh.closed && (fh.isOpen || fh.MayStart())
      invariant fh.stream == old(fh.stream) + Concat(ps[..i]) && |fh.made| == |old(fh.made)| + i
      invariant i > 0 ==> fh.isOpen && fh.file.size == |fh.stream|
    {
      var r := fh.Write(ps[i]);
      assert ps[..i + 1][..i] == ps[..i];
    }
    assert ps[..|ps|] == ps;
  }

  predicate Extends(was: seq<byte>, now: seq<byte>)
  {
    |was| <= |now| && was == now[..|was|]
  }

  datatype Op =
    | StartWriteAt(t: nat, off: int, p: seq<byte>)
    | WakeUp(t: nat)
    | WriteNext(p: seq<byte>)
    | CloseIt(abandon: bool)
    | FlushIt
    | ReleaseIt
    | TruncateTo(size: int)
    | OtherHandle(op: FileOp)  // another handle on the file opens or finishes, or the file is renamed

  /** Another handle's step on the file. */
  method OtherStep(fh: WriteFileHandle, op: FileOp)
    requires fh.Valid()
    modifies fh.file
    ensures fh.Valid()
  {
    match op {
      case Open(id) =>
        var taken := id == fh.id;
        for j := 0 to |fh.file.writers|
          invariant !taken ==> id != fh.id && forall k :: 0 <= k < j ==> fh.file.writers[k].id != id
        {
          taken := taken || fh.file.writers[j].id == id;
        }
        if !taken {
          fh.file.AddWriter(id);
        }
      case Finish(id, uploaded) =>
        if id != fh.id {
          var j := 0;
          while j < |fh.file.writers| && fh.file.writers[j].id != id
            invariant 0 <= j <= |fh.file.writers|
          {
            j := j + 1;
          }
          if j < |fh.file.writers| {
            if uploaded {
              fh.file.SetObject(fh.file.writers[j].remote);
            }
            fh.file.DelWriter(id);
          }
        }
      case Ask(to) =>
        var _ := fh.file.DoRename(to);
    }
  }

  /** One step of some thread on the handle, or of another handle on the file. */
  method Step(fh: WriteFileHandle, op: Op)
    requires fh.Valid()
    modifies fh, fh.file
    ensures fh.Valid() && Extends(old(fh.stream), fh.stream) && old(fh.made) <= fh.made
    ensures old(fh.closed) ==> fh.closed && fh.stream == old(fh.stream) && fh.uploads == old(fh.uploads)
  {
    match op {
      case StartWriteAt(t, off, p) =>
        if t !in fh.waiting {
          var _ := fh.WriteAt(t, off, p);
        }
      case WakeUp(t) =>
        if t in fh.waiting {
          var _ := fh.Wake(t);
        }
      case WriteNext(p) => var _ := fh.Write(p);
      case CloseIt(abandon) => var _ := fh.CloseWithError(abandon);
      case FlushIt => var _ := fh.Flush();
      case ReleaseIt => var _ := fh.Release();
      case TruncateTo(size) => var _ := fh.Truncate(size);
      case OtherHandle(op) => OtherStep(fh, op);
    }
  }

  /** Any interleaving of the threads of a handle.  Whatever was written is where it was meant to
      be, the handle is registered once until it closes and never after, at most one upload is
      started and its result taken at most once, and an existing object is replaced only on request. */
  method RunHandle(fh: WriteFileHandle, ops: seq<Op>)
    requires fh.Valid()
    modifies fh, fh.file
    ensures fh.offset == |fh.stream| && old(fh.made) <= fh.made
    ensures forall w :: w in fh.made ==> Placed(fh.stream, w)
    ensures fh.file.nwriters == |fh.file.writers|
    ensures fh.id in Ids(fh.file.writers) <==> !fh.closed
    ensures forall i, j :: 0 <= i < j < |fh.file.writers| ==> fh.file.writers[i].id != fh.file.writers[j].id
    ensures fh.results <= fh.uploads <= 1 && (fh.closed ==> fh.results == fh.uploads)
    ensures fh.uploads == 1 && fh.over ==> fh.asked
    ensures old(fh.closed) ==> fh.stream == old(fh.stream) && fh.uploads == old(fh.uploads)
  {
    for i := 0 to |ops|
      invariant fh.Valid() && old(fh.made) <= fh.made
      invariant old(fh.closed) ==> fh.closed && fh.stream == old(fh.stream) && fh.uploads == old(fh.uploads)
    {
      Step(fh, ops[i]);
    }
  }
}

/** A read handle with retries, seeks and a running hash (vfs/read.go), used by any number of threads. */
module ReadHandle {
  import opened Wrappers
  import opened Text

  datatype Status = Fine | AtEnd | Error

  datatype Whence = FromStart | FromCurrent | FromEnd

  /** The bytes of `content` from `off`, `n` of them. */
  predicate Holds(content: seq<byte>, off: int, data: seq<byte>)
  {
    data == [] || (0 <= off && off + |data| <= |content| && data == content[off..off + |data|])
  }

  /** A read that waits for the handle to come to its offset; `own` if it is at the handle's own position. */
  datatype Pending = Pending(n: nat, off: int, own: bool)

  class ReadFileHandle {
    const content: seq<byte>         // what the remote object holds
    const sum: seq<byte> -> nat      // the hash in use
    const noSeek: bool
    const lowLevelRetries: nat
    const faultless: bool            // opening, seeking, reading and closing do not fail
    var rpos: int                    // where the reader underneath stands
    var readerOk: bool               // whether there is a usable reader
    var size: int                    // 0 while unknown
    var sizeUnknown: bool
    var offset: int
    var roffset: int
    var hashed: Option<seq<byte>>    // what was hashed, if a hash is still kept
    var readCalled: bool
    var isOpen: bool
    var closed: bool
    var waiting: map<nat, Pending>   // the threads that wait

    /** Nothing but ends of file was reported so far: the reader stands where the handle believes,
        and the hash covers exactly what lies before that. */
    ghost predicate Valid()
      reads this
    {
      && 0 <= offset <= |content|
      && (if sizeUnknown then size == 0 else size == |content|)
      && (!isOpen ==> offset == 0 && waiting == map[])
      && (readerOk ==> 0 <= rpos <= |content|)
      && (isOpen && !closed ==> readerOk) && (isOpen && readerOk ==> rpos == offset)
      && (hashed.Some? ==> hashed.value == content[..offset])
    }

    constructor (
      content: seq<byte>, sum: seq<byte> -> nat, noSeek: bool, lowLevelRetries: nat, faultless: bool,
      sized: bool, checksum: bool)
      ensures Valid() && this.content == content && this.sum == sum && this.faultless == faultless
      ensures !closed && !isOpen && !readCalled && offset == 0 && roffset == 0 && waiting == map[]
      ensures sizeUnknown == !sized && this.noSeek == noSeek && (hashed.Some? <==> checksum)
    {
      this.content, this.sum, this.noSeek := content, sum, noSeek;
      this.lowLevelRetries, this.faultless := lowLevelRetries, faultless;
      rpos, readerOk, offset, roffset, readCalled, isOpen, closed := 0, false, 0, 0, false, false, false;
      size := if sized then |content| else 0;
      sizeUnknown := !sized;
      hashed := if checksum then Some([]) else None;
      waiting := map[];
    }

    method OpenPending() returns (failed: bool)
      requires Valid()
      modifies this`isOpen, this`rpos, this`readerOk
      ensures Valid() && (failed <==> !isOpen) && (faultless ==> !failed)
      ensures old(isOpen) ==> !failed && rpos == old(rpos) && readerOk == old(readerOk)
    {
      if isOpen {
        return false;
      }
      failed := *;
      failed := failed && !faultless;
      if !failed {
        isOpen, readerOk, rpos := true, true, 0;
      }
    }

    /** Read up to `n` bytes from the reader: all, or fewer with an end of file or an error.  An
        end of file may be reported early, except when it alone tells the size. */
    method ReadFull(n: nat) returns (data: seq<byte>, status: Status)
      requires 0 <= rpos <= |content|
      modifies this`rpos
      ensures |data| <= n && rpos == old(rpos) + |data| <= |content|
      ensures data == content[old(rpos)..rpos]
      ensures status.Fine? <==> |data| == n
      ensures status.AtEnd? && sizeUnknown ==> rpos == |content|
      ensures !readerOk && n > 0 ==> status.Error? && data == []
      ensures faultless && readerOk ==>
        !status.Error? && |data| == (if n <= |content| - old(rpos) then n else |content| - old(rpos))
    {
      if n == 0 {
        return [], Fine;
      }
      if !readerOk {
        return [], Error;
      }
      var left := |content| - rpos;
      var k: nat :| k <= n && k <= left && (faultless ==> k == if n <= left then n else left);
      data := content[rpos..rpos + k];
      rpos := rpos + k;
      var ended: bool := *;
      ended := ended || faultless;
      status := if k == n then Fine else if ended && (!sizeUnknown || rpos == |content|) then AtEnd else Error;
    }

    /** Move to `off`: by discarding buffered bytes, by a range seek, or by opening anew. */
    method SeekTo(off: int, reopen: bool) returns (failed: bool)
      requires 0 <= offset <= |content|
      modifies this`rpos, this`readerOk, this`offset, this`hashed
      ensures !failed ==> !noSeek && offset == off && hashed.None? && 0 <= off <= |content|
      ensures !failed && reopen ==> readerOk && rpos == off
      ensures !failed && old(readerOk) && old(rpos) == old(offset) ==> readerOk && rpos == off
      ensures failed ==> offset == old(offset) && (noSeek ==> hashed == old(hashed) && rpos == old(rpos))
      ensures failed && !noSeek ==> hashed.None?
      ensures failed ==> rpos == old(rpos) && (readerOk ==> old(readerOk))
      ensures readerOk && !old(readerOk) ==> rpos == off
      ensures 0 <= old(rpos) <= |content| ==> 0 <= rpos <= |content|
      ensures faultless && !noSeek && 0 <= off <= |content| ==> !failed
    {
      if noSeek {
        return true;
      }
      hashed := None;
      if !reopen && readerOk {
        var skip: bool := *;
        if skip && 0 <= rpos + off - offset <= |content| && 0 <= off <= |content| {
          rpos := rpos + off - offset;
          offset := off;
          return false;
        }
      }
      failed := *;
      failed := failed && !faultless;
      if failed || off < 0 || off > |content| {
        var lostReader: bool := *;
        readerOk := readerOk && !lostReader;
        return true;
      }
      readerOk, rpos, offset := true, off, off;
      failed := false;
    }

    /** What the retry loop keeps. */
    ghost predicate Trying(off: int, n: nat, data: seq<byte>, retries: nat, doSeek: bool, doReopen: bool)
      reads this
    {
      && 0 <= offset <= |content| && (readerOk ==> 0 <= rpos <= |content|) && isOpen
      && (if sizeUnknown then size == 0 else size == |content|)
      && (hashed.Some? ==> hashed.value == content[..offset])
      && Holds(content, off, data) && |data| <= n
      && (doSeek ==> doReopen || data == []) && (!doSeek ==> off == offset && data == [])
      && (doReopen <==> retries > 0) && (doReopen ==> doSeek)
      && (!doReopen || off >= |content| ==> (!closed ==> readerOk) && (readerOk ==> rpos == offset))
    }

    /** How many of `n` bytes there are from `off`. */
    function Left(n: nat, off: int): (k: nat)
      reads this
    {
      if off >= |content| then 0 else if n <= |content| - off then n else |content| - off
    }

    /** A read at `off` by a handle that stands at `at` can be served. */
    predicate Reachable(unknown: bool, at: int, off: int)
      reads this
    {
      off == at || (!noSeek && !unknown && off >= 0)
    }

    /** One attempt: seek if need be, and read. */
    method Attempt(off: int, n: nat, was: seq<byte>, ghost retries: nat, doSeek: bool, doReopen: bool)
      returns (data: seq<byte>, done: bool)
      requires Trying(off, n, was, retries, doSeek, doReopen) && (doSeek ==> off < size)
      modifies this`rpos, this`readerOk, this`offset, this`hashed, this`readCalled, this`size, this`sizeUnknown
      ensures !done ==> Trying(off, n, data, retries + 1, true, true)
      ensures done ==>
        && 0 <= offset == off && off + |data| <= |content| && data == content[off..off + |data|] && |data| <= n
        && (!closed ==> readerOk) && (readerOk ==> rpos == off + |data|)
        && (|data| < n ==> off + |data| == |content| && !sizeUnknown)
      ensures done ==>
        && (if sizeUnknown then size == 0 else size == |content|)
        && (hashed.Some? ==> hashed.value == content[..offset])
        && (readerOk ==> 0 <= rpos <= |content|)
      ensures !done ==> sizeUnknown == old(sizeUnknown)
      ensures !old(sizeUnknown) ==> !sizeUnknown
      ensures n > 0 && (done || !doSeek) ==> readCalled
      ensures !doSeek ==> hashed == old(hashed)
      ensures faultless && !closed && !doReopen && (doSeek ==> !noSeek && off >= 0) ==> done && |data| == Left(n, off)
      ensures done && doSeek ==> hashed.None?
      ensures done && |data| == n ==> sizeUnknown == old(sizeUnknown)
    {
      data, done := was, false;
      if doSeek {
        var failed := SeekTo(off, doReopen);
        if failed {
          return;
        }
      }
      if n > 0 {
        readCalled := true;
      }
      if !readerOk {
        data := [];
        done := n == 0;
        return;
      }
      var status;
      data, status := ReadFull(n);
      var newOffset := offset + |data|;
      if status.Fine? {
        done := true;
      } else if status.AtEnd? && (newOffset == size || sizeUnknown) {
        if sizeUnknown {
          sizeUnknown := false;
          size := newOffset;
        }
        done := true;
      }
    }

    /** The retry loop, up to a successful attempt; `failures` is how many failed.  `blind` tells that
        the end of file was reported without looking: exactly when the size is unknown and a seek to
        a possible offset is called for, because the handle stands elsewhere or to try again. */
    method Attempts(n: nat, off: int)
      returns (data: seq<byte>, status: Status, ghost blind: bool, ghost failures: nat)
      requires Valid() && isOpen && (off == offset || !noSeek)
      modifies this`rpos, this`readerOk, this`offset, this`hashed, this`readCalled, this`size, this`sizeUnknown
      ensures Holds(content, off, data) && |data| <= n
      ensures status.Fine? ==>
        && 0 <= offset == off && off + |data| <= |content|
        && (|data| < n ==> off + |data| == |content|)
      ensures status.Fine? ==>
        && (if sizeUnknown then size == 0 else size == |content|)
        && (hashed.Some? ==> hashed.value == content[..offset])
        && (readerOk ==> rpos == off + |data|) && (!closed ==> readerOk)
      ensures status.AtEnd? ==> data == [] && (blind || (Valid() && off >= |content|))
      ensures blind ==> status.AtEnd?
      ensures blind <==>
        old(sizeUnknown) && off >= 0 && (off != old(offset) || (failures > 0 && lowLevelRetries > 0))
      ensures !old(sizeUnknown) ==> !sizeUnknown
      ensures off == old(offset) && failures == 0 ==> hashed == old(hashed) && (n > 0 ==> readCalled)
      ensures faultless && !closed && Reachable(old(sizeUnknown), old(offset), off) ==>
        && failures == 0 && |data| == Left(n, off)
        && status == (if off >= |content| && off != old(offset) then AtEnd else Fine)
      ensures failures == 0 && !status.Fine? ==> offset == old(offset)
      ensures failures <= lowLevelRetries + 1 && (status.Error? <==> failures == lowLevelRetries + 1)
      ensures status.Fine? && off != old(offset) ==> hashed.None?
      ensures status.Fine? && |data| == n ==> sizeUnknown == old(sizeUnknown)
    {
      data, status, blind, failures := [], Error, false, 0;
      var doSeek, doReopen := off != offset, false;
      var retries := 0;
      while true
        invariant Trying(off, n, data, retries, doSeek, doReopen)
        invariant sizeUnknown == old(sizeUnknown) && failures == retries <= lowLevelRetries
        invariant doSeek <==> off != old(offset) || failures > 0
        invariant failures == 0 ==> hashed == old(hashed)
        invariant faultless && !closed && Reachable(old(sizeUnknown), old(offset), off) ==> failures == 0
        invariant failures == 0 ==> offset == old(offset)
        decreases lowLevelRetries - retries
      {
        if doSeek && off >= size {
          blind := sizeUnknown;
          data, status := [], AtEnd;
          return;
        }
        var done;
        data, done := Attempt(off, n, data, retries, doSeek, doReopen);
        if done {
          status := Fine;
          return;
        }
        failures := failures + 1;
        if retries >= lowLevelRetries {
          return;
        }
        retries := retries + 1;
        doSeek, doReopen := true, true;
      }
    }

    /** The reply to a read of `n` bytes at `off`: all of them, or what there is up to the end.  If
        it was no error the handle is as it should be, unless the end was reported `blind`. */
    ghost predicate Answers(n: nat, off: int, data: seq<byte>, status: Status, blind: bool)
      reads this
    {
      && Right(content, Got(n, off, data, if blind then Error else status))
      && (blind ==> status.AtEnd? && data == [])
      && (!status.Error? && !blind ==> Valid())
    }

    /** The end of file is reported without looking. */
    ghost predicate IsBlind(unknown: bool, at: int, off: int, failures: nat)
    {
      unknown && off >= 0 && if off != at then !noSeek else failures > 0 && lowLevelRetries > 0
    }

    /** Nothing failing, a read at `off` by a handle that stood at `at` gets all there is, and leaves
        the handle after it; the end of file is told, and to look past it moves nothing. */
    ghost predicate Served(
      unknown: bool, at: int, n: nat, off: int, data: seq<byte>, status: Status, failures: nat)
      reads this
    {
      faultless && !closed && Reachable(unknown, at, off) ==>
        var past := off >= |content| && off != at;
        && failures == 0 && |data| == Left(n, off) && status == (if past || |data| < n then AtEnd else Fine)
        && offset == (if past then at else off + |data|)
    }

    /** Move past the bytes read, and hash them if a hash is kept. */
    method Advance(data: seq<byte>)
      requires isOpen && 0 <= offset && offset + |data| <= |content| && data == content[offset..offset + |data|]
      requires if sizeUnknown then size == 0 else size == |content|
      requires hashed.Some? ==> hashed.value == content[..offset]
      requires (readerOk ==> rpos == offset + |data|) && (!closed ==> readerOk)
      modifies this`offset, this`hashed
      ensures Valid() && offset == old(offset) + |data| && (hashed.Some? <==> old(hashed).Some?)
    {
      if hashed.Some? {
        assert content[..offset] + data == content[..offset + |data|];
        hashed := Some(hashed.value + data);
      }
      offset := offset + |data|;
    }

    /** The part of a read that runs once the waiting is over. */
    method FinishRead(n: nat, off: int)
      returns (data: seq<byte>, status: Status, ghost blind: bool, ghost failures: nat)
      requires Valid() && isOpen
      modifies this`rpos, this`readerOk, this`offset, this`hashed, this`readCalled, this`size, this`sizeUnknown
      ensures Answers(n, off, data, status, blind)
      ensures blind <==> IsBlind(old(sizeUnknown), old(offset), off, failures)
      ensures !old(sizeUnknown) ==> !sizeUnknown
      ensures off != old(offset) && noSeek ==> status.Error? && data == [] && Valid()
      ensures off == old(offset) || !noSeek ==> (status.Error? <==> failures == lowLevelRetries + 1)
      ensures Served(old(sizeUnknown), old(offset), n, off, data, status, failures)
      ensures faultless && off == old(offset) && !closed ==>
        && !blind && (n > 0 ==> readCalled) && (hashed.Some? <==> old(hashed).Some?)
        && (|data| == n ==> sizeUnknown == old(sizeUnknown))
    {
      data, status, blind, failures := [], Error, false, 0;
      if off != offset && noSeek {
        return;
      }
      data, status, blind, failures := Attempts(n, off);
      if status.Fine? {
        Advance(data);
        status := if |data| != n then AtEnd else Fine;
      }
    }

    /** A thread takes the lock to read `n` bytes at `off`.  Not far ahead of the handle it waits for
        its turn, and other threads go on. */
    method StartRead(t: nat, n: nat, off: int, own: bool)
      returns (waits: bool, data: seq<byte>, status: Status, ghost blind: bool, ghost failures: nat)
      requires Valid() && t !in waiting
      modifies this
      ensures Answers(n, off, data, status, blind)
      ensures blind ==> IsBlind(old(sizeUnknown), old(offset), off, failures)
      ensures !waits && isOpen && !closed ==> (blind <==> IsBlind(old(sizeUnknown), old(offset), off, failures))
      ensures !old(sizeUnknown) ==> !sizeUnknown
      ensures roffset == old(roffset) && closed == old(closed)
      ensures waiting == if waits then old(waiting)[t := Pending(n, off, own)] else old(waiting)
      ensures waits ==> Valid() && status.Error? && data == [] && offset == old(offset)
      ensures waits ==> !closed && 0 < off - offset < 8 * (if n < 0x10_0000 then n else 0x10_0000)
      ensures old(closed) ==> status.Error? && data == []
      ensures faultless && !closed && 0 < off - old(offset) < 8 * (if n < 0x10_0000 then n else 0x10_0000) ==> waits
      ensures waits ==> sizeUnknown == old(sizeUnknown)
      ensures !waits ==> Served(old(sizeUnknown), old(offset), n, off, data, status, failures)
      ensures !waits && !closed && isOpen && (off == old(offset) || !noSeek) ==>
        (status.Error? <==> failures == lowLevelRetries + 1)
      ensures faultless && !closed && off == old(offset) ==>
        && isOpen && !waits && !blind && (n > 0 ==> readCalled) && (hashed.Some? <==> old(hashed).Some?)
        && (|data| == n ==> sizeUnknown == old(sizeUnknown))
    {
      waits, data, status, blind, failures := false, [], Error, false, 0;
      var failed := OpenPending();
      if failed || closed {
        return;
      }
      var maxBuf := if n < 0x10_0000 then n else 0x10_0000;
      if 0 < off - offset < 8 * maxBuf {
        waiting := waiting[t := Pending(n, off, own)];
        waits := true;
        return;
      }
      data, status, blind, failures := FinishRead(n, off);
    }

    /** Read at the handle's own position, which moves on by what was read. */
    method Read(t: nat, n: nat)
      returns (waits: bool, data: seq<byte>, status: Status, ghost blind: bool, ghost failures: nat)
      requires Valid() && t !in waiting
      modifies this
      ensures Answers(n, old(roffset), data, status, blind)
      ensures blind ==> IsBlind(old(sizeUnknown), old(offset), old(roffset), failures)
      ensures !old(sizeUnknown) ==> !sizeUnknown
      ensures roffset == old(roffset) + |data| && closed == old(closed)
      ensures waiting == if waits then old(waiting)[t := Pending(n, old(roffset), true)] else old(waiting)
      ensures waits ==> Valid() && status.Error? && data == []
      ensures !old(sizeUnknown) && old(roffset) >= |content| ==>
        !waits && data == [] && status.AtEnd? && offset == old(offset)
      ensures !waits && (old(sizeUnknown) || old(roffset) < |content|) ==>
        Served(old(sizeUnknown), old(offset), n, old(roffset), data, status, failures)
      ensures waits ==> !closed && 0 < old(roffset) - old(offset) < 8 * (if n < 0x10_0000 then n else 0x10_0000)
    {
      if roffset >= size && !sizeUnknown {
        return false, [], AtEnd, false, 0;
      }
      waits, data, status, blind, failures := StartRead(t, n, roffset, true);
      roffset := roffset + |data|;
    }

    /** A waiting thread gets the lock back, its turn having come or its time being up. */
    method Wake(t: nat) returns (data: seq<byte>, status: Status, ghost blind: bool, ghost failures: nat)
      requires Valid() && t in waiting
      modifies this
      ensures var w := old(waiting)[t];
        && Answers(w.n, w.off, data, status, blind)
        && (blind <==> IsBlind(old(sizeUnknown), old(offset), w.off, failures))
        && roffset == old(roffset) + (if w.own then |data| else 0)
        && Served(old(sizeUnknown), old(offset), w.n, w.off, data, status, failures)
        && (w.off == old(offset) || !noSeek ==> (status.Error? <==> failures == lowLevelRetries + 1))
      ensures !old(sizeUnknown) ==> !sizeUnknown
      ensures waiting == old(waiting) - {t} && closed == old(closed)
    {
      var w := waiting[t];
      waiting := waiting - {t};
      data, status, blind, failures := FinishRead(w.n, w.off);
      if w.own {
        roffset := roffset + |data|;
      }
    }

    method Seek(off: int, whence: Whence) returns (r: Result<int, ()>)
      requires Valid()
      modifies this`roffset
      ensures Valid() && (r.Err? <==> noSeek) && (r.Err? ==> roffset == old(roffset))
      ensures r.Ok? ==> r.value == roffset
      ensures r.Ok? ==>
        roffset == off + (match whence case FromStart => 0 case FromCurrent => old(roffset) case FromEnd => size)
    {
      if noSeek {
        return Err(());
      }
      match whence {
        case FromStart => roffset := 0;
        case FromEnd => roffset := size;
        case FromCurrent =>
      }
      roffset := roffset + off;
      return Ok(roffset);
    }

    /** The size never became known, and what was hashed is not the whole. */
    ghost predicate Misjudged()
      reads this
      requires 0 <= offset <= |content|
    {
      sizeUnknown && hashed.Some? && readCalled && sum(content[..offset]) != sum(content)
    }

    /** Whether the bytes hashed differ from those of the object.  The bytes being the object's own,
        this is reported only when the size never became known, and then wrongly. */
    method CheckHash() returns (corrupted: bool)
      requires Valid()
      ensures corrupted <==> Misjudged()
    {
      if hashed.None? || !readCalled || offset < size {
        return false;
      }
      assert !sizeUnknown ==> content[..offset] == content;
      corrupted := sum(hashed.value) != sum(content);
    }

    /** Close the handle; `refused` when it is closed already. */
    method Close() returns (refused: bool, failed: bool, corrupted: bool)
      requires Valid()
      modifies this`closed, this`readerOk
      ensures Valid() && closed && refused == old(closed)
      ensures refused || !isOpen ==> !failed
      ensures faultless ==> !failed
      ensures corrupted <==> !refused && isOpen && !failed && Misjudged()
    {
      refused, failed, corrupted := closed, false, false;
      if closed {
        return;
      }
      closed := true;
      if isOpen {
        readerOk := false;
        failed := *;
        failed := failed && !faultless;
        if !failed {
          corrupted := CheckHash();
        }
      }
    }

    method Flush() returns (corrupted: bool)
      requires Valid()
      ensures corrupted <==> isOpen && Misjudged()
    {
      corrupted := false;
      if isOpen {
        corrupted := CheckHash();
      }
    }

    method Release() returns (failed: bool, corrupted: bool)
      requires Valid()
      modifies this`closed, this`readerOk
      ensures Valid() && closed == (old(closed) || isOpen)
      ensures old(closed) || !isOpen || faultless ==> !failed
      ensures corrupted <==> isOpen && !old(closed) && !failed && Misjudged()
    {
      failed, corrupted := false, false;
      if isOpen && !closed {
        var refused;
        refused, failed, corrupted := Close();
      }
    }
  }

  datatype Op =
    | StartReadAt(t: nat, n: nat, off: int)
    | StartReadNext(t: nat, n: nat)
    | WakeUp(t: nat)
    | SeekOp(off: int, whence: Whence)
    | CloseOp
    | FlushOp
    | ReleaseOp

  /** What one read returned. */
  datatype Got = Got(n: nat, off: int, data: seq<byte>, status: Status)

  /** The bytes are those asked for, and are fewer only at the end of the content. */
  predicate Right(content: seq<byte>, g: Got)
  {
    && Holds(content, g.off, g.data) && |g.data| <= g.n
    && (g.status.Fine? ==> |g.data| == g.n)
    && (g.status.AtEnd? ==> g.off + |g.data| >= |content|)
  }

  /** One step of some thread; `got` is what a read returned, if one was finished. */
  method Step(fh: ReadFileHandle, op: Op) returns (got: Option<Got>, corrupted: bool)
    requires fh.Valid() && !fh.sizeUnknown
    modifies fh
    ensures got.Some? ==> Right(fh.content, got.value)
    ensures !corrupted && !fh.sizeUnknown
    ensures fh.Valid() || (got.Some? && got.value.status.Error?)
  {
    got, corrupted := None, false;
    match op {
      case StartReadAt(t, n, off) =>
        if t !in fh.waiting {
          var waits, data, status, blind, failures := fh.StartRead(t, n, off, false);
          got := if waits then None else Some(Got(n, off, data, status));
        }
      case StartReadNext(t, n) =>
        if t !in fh.waiting {
          var off := fh.roffset;
          var waits, data, status, blind, failures := fh.Read(t, n);
          got := if waits then None else Some(Got(n, off, data, status));
        }
      case WakeUp(t) =>
        if t in fh.waiting {
          var w := fh.waiting[t];
          var data, status, blind, failures := fh.Wake(t);
          got := Some(Got(w.n, w.off, data, status));
        }
      case SeekOp(off, whence) => var _ := fh.Seek(off, whence);
      case CloseOp => var _, _, bad := fh.Close(); corrupted := bad;
      case FlushOp => corrupted := fh.Flush();
      case ReleaseOp => var _, bad := fh.Release(); corrupted := bad;
    }
  }

  /** Any interleaving of threads on a handle of known size, up to the first error.  All that was
      read is right, and faithful bytes are never reported as corrupted. */
  method RunHandle(fh: ReadFileHandle, ops: seq<Op>) returns (gots: seq<Got>, corrupted: bool)
    requires fh.Valid() && !fh.sizeUnknown
    modifies fh
    ensures forall g :: g in gots ==> Right(fh.content, g)
    ensures !corrupted
    ensures fh.Valid() || (gots != [] && gots[|gots| - 1].status.Error?)
  {
    gots, corrupted := [], false;
    for i := 0 to |ops|
      invariant fh.Valid() && !fh.sizeUnknown && !corrupted
      invariant forall g :: g in gots ==> Right(fh.content, g)
    {
      var got, bad := Step(fh, ops[i]);
      corrupted := corrupted || bad;
      if got.Some? {
        gots := gots + [got.value];
        if got.value.status.Error? {
          return;
        }
      }
    }
  }

  /** Read to the end of file, `n` bytes at a time. */
  method ReadAll(fh: ReadFileHandle, t: nat, n: nat) returns (data: seq<byte>)
    requires fh.Valid() && fh.faultless && !fh.closed && fh.roffset == fh.offset && t !in fh.waiting && n > 0
    modifies fh
    ensures data == fh.content[old(fh.offset)..] && fh.Valid() && fh.roffset == fh.offset == |fh.content|
  {
    data := [];
    var ended := false;
    while !ended
      invariant fh.Valid() && !fh.closed && fh.roffset == fh.offset && t !in fh.waiting
      invariant old(fh.offset) <= fh.offset && data == fh.content[old(fh.offset)..fh.offset]
      invariant ended ==> fh.offset == |fh.content|
      decreases !ended, |fh.content| - fh.offset
    {
      ghost var blind, failures;
      var waits, more, status;
      waits, more, status, blind, failures := fh.Read(t, n);
      data := data + more;
      ended := status.AtEnd?;
    }
  }

  /** A case in which the end of file is reported although there is a byte to read. */
  method BlindEnd(sum: seq<byte> -> nat) returns (fh: ReadFileHandle, data: seq<byte>, status: Status)
    ensures fh.content == [1, 2] && data == [] && status.AtEnd?
  {
    fh := new ReadFileHandle([1, 2], sum, false, 3, true, false, true);
    var waits, _, _, _, _ := fh.StartRead(0, 1, 1, false);
    ghost var blind, failures;
    data, status, blind, failures := fh.Wake(0);
  }

  /** A case in which faithful bytes are reported as corrupted. */
  method FalseAlarm() returns (fh: ReadFileHandle, data: seq<byte>, corrupted: bool)
    ensures fh.content == [1, 2] && data == [1] && corrupted
  {
    fh := new ReadFileHandle([1, 2], bs => |bs|, false, 3, true, false, true);
    ghost var blind, failures;
    var waits, status, refused, failed;
    waits, data, status, blind, failures := fh.StartRead(0, 1, 0, false);
    refused, failed, corrupted := fh.Close();
  }
}

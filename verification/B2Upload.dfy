/** The parts of a large upload (backend/b2/upload.go). */
module B2Upload {
  import opened Wrappers
  import opened Text

  // --- A reader that appends a hash -------------------------------------------------------

  function HexDigit(n: nat): (b: byte)
    requires n < 16
  {
    if n < 10 then 48 + n else 87 + n
  }

  /** Lower-case hexadecimal, as bytes. */
  function Hex(bs: seq<byte>): (h: seq<byte>)
    ensures |h| == 2 * |bs|
  {
    if bs == [] then [] else [HexDigit(bs[0] / 16), HexDigit(bs[0] % 16)] + Hex(bs[1..])
  }

  const HEX := "0123456789abcdef"

  /** Each byte is two digits, the high one first. */
  lemma {:induction false} HexAt(bs: seq<byte>, i: nat)
    requires i < |bs|
    ensures |HEX| == 16
    ensures Hex(bs)[2 * i] == HEX[bs[i] / 16] as int && Hex(bs)[2 * i + 1] == HEX[bs[i] % 16] as int
  {
    if i == 0 {
      assert forall n :: 0 <= n < 16 ==> HEX[n] as int == HexDigit(n);
    } else {
      HexAt(bs[1..], i - 1);
      assert Hex(bs)[2 * i] == Hex(bs[1..])[2 * (i - 1)];
    }
  }

  lemma {:induction false} HexInjective(a: seq<byte>, b: seq<byte>)
    requires Hex(a) == Hex(b)
    ensures a == b
  {
    assert 2 * |a| == 2 * |b|;
    if a != [] {
      var h := Hex(a);
      assert h[0] == HexDigit(a[0] / 16) == HexDigit(b[0] / 16);
      assert h[1] == HexDigit(a[0] % 16) == HexDigit(b[0] % 16);
      assert a[0] == b[0];
      assert h[2..] == Hex(a[1..]) == Hex(b[1..]);
      HexInjective(a[1..], b[1..]);
      assert a == [a[0]] + a[1..] && b == [b[0]] + b[1..];
    }
  }

  datatype Status = Fine | AtEnd | Failed

  /** Going on in the first of two parts that follow each other, and in the second. */
  lemma {:induction false} InData(a: seq<byte>, b: seq<byte>, i: nat, j: nat)
    requires i <= j <= |a|
    ensures (a + b)[..j] == (a + b)[..i] + a[i..j]
  {
  }

  lemma {:induction false} InHash(a: seq<byte>, b: seq<byte>, i: nat, j: nat)
    requires i <= j <= |b|
    ensures (a + b)[..|a| + j] == (a + b)[..|a| + i] + b[i..j]
  {
  }

  class HashAppendingReader {
    const data: seq<byte>               // what the reader underneath holds
    const sum: seq<byte> -> seq<byte>   // the hash
    const sumSize: nat
    const faultless: bool               // the reader underneath does not fail, and gives something every time
    var pos: nat                        // how much of it was read
    var hashed: seq<byte>               // what the hash was given
    var hexSum: Option<seq<byte>>       // set when the data has ended
    var hexPos: nat
    ghost var emitted: seq<byte>

    /** Everything that is to be emitted. */
    ghost function Whole(): (s: seq<byte>)
      reads this
    {
      data + Hex(sum(data))
    }

    ghost predicate Valid()
      reads this
    {
      && pos <= |data| && hashed == data[..pos] && |sum(data)| == sumSize
      && (hexSum.None? ==> hexPos == 0)
      && (hexSum.Some? ==> pos == |data| && hexSum.value == Hex(sum(data)) && hexPos <= |hexSum.value|)
      && emitted == Whole()[..pos + hexPos]
    }

    constructor (data: seq<byte>, sum: seq<byte> -> seq<byte>, sumSize: nat, faultless: bool)
      requires forall bs :: |sum(bs)| == sumSize
      ensures Valid() && this.data == data && this.sum == sum && this.sumSize == sumSize && emitted == []
      ensures this.faultless == faultless && pos == 0 && hexSum.None?
    {
      this.data, this.sum, this.sumSize, this.faultless := data, sum, sumSize, faultless;
      pos, hashed, hexSum, hexPos, emitted := 0, [], None, 0, [];
    }

    /** The reader underneath: some of what is left, perhaps with the end of it or an error. */
    method ReadData(n: nat) returns (b: seq<byte>, status: Status)
      requires Valid() && hexSum.None?
      modifies this`pos, this`hashed
      ensures |b| <= n && pos == old(pos) + |b| <= |data| && b == data[old(pos)..pos] && hashed == data[..pos]
      ensures status.AtEnd? ==> pos == |data|
      ensures faultless && n > 0 ==> !status.Failed? && (b != [] || status.AtEnd?)
    {
      var left := |data| - pos;
      var k: nat :| k <= n && k <= left && (faultless && n > 0 && left > 0 ==> k > 0);
      b := data[pos..pos + k];
      hashed := hashed + b;
      pos := pos + k;
      var ended, failed: bool := *, *;
      ended := pos == |data| && (ended || (faultless && k == 0));
      status := if ended then AtEnd else if failed && !faultless then Failed else Fine;
    }

    /** Some of what is left of the hash, or its end. */
    method ReadHash(n: nat) returns (b: seq<byte>, status: Status)
      requires hexSum.Some? && hexPos <= |hexSum.value|
      modifies this`hexPos
      ensures old(hexPos) <= hexPos <= |hexSum.value| && b == hexSum.value[old(hexPos)..hexPos] && |b| <= n
      ensures |b| == n || hexPos == |hexSum.value|
      ensures status == if old(hexPos) == |hexSum.value| then AtEnd else Fine
    {
      var h := hexSum.value;
      if hexPos >= |h| {
        return [], AtEnd;
      }
      var k := if n < |h| - hexPos then n else |h| - hexPos;
      b, status := h[hexPos..hexPos + k], Fine;
      hexPos := hexPos + k;
    }

    /** Read up to `n` bytes: of the data, and after it of its hash. */
    method Read(n: nat) returns (b: seq<byte>, status: Status)
      requires Valid()
      modifies this`pos, this`hashed, this`hexSum, this`hexPos, this`emitted
      ensures Valid() && |b| <= n && emitted == old(emitted) + b
      ensures status.AtEnd? ==> emitted == Whole() && b == []
      ensures old(hexSum).None? ==> !status.AtEnd? && hexPos == old(hexPos) && pos == old(pos) + |b|
      ensures old(hexSum).None? && faultless && n > 0 ==> !status.Failed? && (b != [] || hexSum.Some?)
      ensures old(hexSum).Some? ==>
        && hexSum == old(hexSum) && pos == old(pos) && hexPos == old(hexPos) + |b|
        && (|b| == n || hexPos == |hexSum.value|)
        && status == if old(hexPos) == |hexSum.value| then AtEnd else Fine
    {
      if hexSum.None? {
        b, status := ReadData(n);
        InData(data, Hex(sum(data)), old(pos), pos);
        assert emitted + b == Whole()[..pos + hexPos];
        if status.AtEnd? {
          status := Fine;
          assert data[..pos] == data;
          hexSum := Some(Hex(sum(hashed)));
        }
      } else {
        b, status := ReadHash(n);
        InHash(data, hexSum.value, old(hexPos), hexPos);
        assert emitted + b == Whole()[..pos + hexPos];
      }
      emitted := emitted + b;
    }

    function AdditionalLength(): (n: nat)
    {
      2 * sumSize
    }

    /** Any reads, with buffers of any sizes: they emit the data and then its hash in hex, in all the
        announced number of bytes. */
    method ReadMany(sizes: seq<nat>) returns (all: seq<byte>, ended: bool)
      requires Valid() && emitted == []
      modifies this
      ensures Valid() && all == emitted == Whole()[..|all|]
      ensures ended ==> all == data + Hex(sum(data)) && |all| == |data| + AdditionalLength()
      ensures hexSum.Some? ==> hexSum.value == Hex(sum(data))
    {
      all, ended := [], false;
      for i := 0 to |sizes|
        invariant Valid() && all == emitted && (ended ==> emitted == Whole())
      {
        var b, status := Read(sizes[i]);
        all := all + b;
        ended := status.AtEnd?;
        if ended {
          return;
        }
      }
    }
  }

  /** Reading to the end, `n` bytes at a time. */
  method ReadAll(r: HashAppendingReader, n: nat) returns (all: seq<byte>)
    requires r.Valid() && r.faultless && r.emitted == [] && n > 0
    modifies r
    ensures r.Valid() && all == r.data + Hex(r.sum(r.data))
  {
    all := [];
    var ended := false;
    while !ended
      invariant r.Valid() && all == r.emitted && (ended ==> r.emitted == r.Whole())
      decreases !ended, r.hexSum.None?, |r.data| - r.pos, if r.hexSum.Some? then |r.hexSum.value| - r.hexPos else 0
    {
      var b, status := r.Read(n);
      all := all + b;
      ended := status.AtEnd?;
    }
  }

  // --- The hashes of the parts ------------------------------------------------------------

  datatype Record = Record(part: nat, sha1: string)

  /** The last value recorded for a part. */
  function LastFor(log: seq<Record>, part: nat): (sha1: string)
  {
    if log == [] then ""
    else if log[|log| - 1].part == part then log[|log| - 1].sha1
    else LastFor(log[..|log| - 1], part)
  }

  function Parts(log: seq<Record>): (n: nat)
    ensures (forall r :: r in log ==> r.part < n) && (n > 0 ==> exists r :: r in log && r.part == n - 1)
  {
    if log == [] then 0
    else
      var n, p := Parts(log[..|log| - 1]), log[|log| - 1].part;
      if n < p + 1 then p + 1 else n
  }

  lemma {:induction false} LastForBeyond(log: seq<Record>, part: nat)
    requires part >= Parts(log)
    ensures LastFor(log, part) == ""
  {
    if log != [] {
      LastForBeyond(log[..|log| - 1], part);
    }
  }

  /** What it means: the value of the last record for the part, or nothing. */
  lemma {:induction false} LastForIff(log: seq<Record>, part: nat, sha1: string)
    ensures LastFor(log, part) == sha1 <==>
      if exists i :: 0 <= i < |log| && log[i].part == part then
        exists i :: 0 <= i < |log| && log[i] == Record(part, sha1) && forall j :: i < j < |log| ==> log[j].part != part
      else sha1 == ""
  {
    if log != [] {
      var n := |log| - 1;
      if log[n].part != part {
        LastForIff(log[..n], part, sha1);
        assert forall i :: 0 <= i < n ==> log[..n][i] == log[i];
      } else {
        assert log[n] == Record(part, log[n].sha1);
      }
    }
  }

  class Sha1s {
    var sha1s: seq<string>
    ghost var log: seq<Record>

    /** There is a place for every part up to the highest recorded, holding its last value. */
    ghost predicate Valid()
      reads this
    {
      |sha1s| == Parts(log) && forall i :: 0 <= i < |sha1s| ==> sha1s[i] == LastFor(log, i)
    }

    constructor ()
      ensures Valid() && sha1s == [] && log == []
    {
      sha1s, log := [], [];
    }

    method Add(part: nat, sha1: string)
      requires Valid()
      modifies this
      ensures Valid() && log == old(log) + [Record(part, sha1)]
    {
      ghost var was := log;
      if |sha1s| < part + 1 {
        sha1s := sha1s + seq(part + 1 - |sha1s|, i => "");
      }
      sha1s := sha1s[part := sha1];
      log := log + [Record(part, sha1)];
      assert log[..|was|] == was;
      forall i | 0 <= i < |sha1s| ensures sha1s[i] == LastFor(log, i) {
        if i != part && i >= Parts(was) {
          LastForBeyond(was, i);
        }
      }
    }
  }

  /** Parts recorded in any order, some more than once: each ends up with its last value. */
  method AddAll(s: Sha1s, records: seq<Record>)
    requires s.Valid() && s.log == []
    modifies s
    ensures |s.sha1s| == Parts(records) && forall i :: 0 <= i < |s.sha1s| ==> s.sha1s[i] == LastFor(records, i)
  {
    for i := 0 to |records|
      invariant s.Valid() && s.log == records[..i]
    {
      s.Add(records[i].part, records[i].sha1);
      assert records[..i + 1] == records[..i] + [records[i]];
    }
    assert records[..|records|] == records;
  }

  // --- The ranges of a copy ---------------------------------------------------------------

  /** The bytes `first` to `last`, both included. */
  datatype Range = Range(first: int, last: int)

  /** The ranges follow each other without gap or overlap, and end before `size`. */
  predicate Tiles(ranges: seq<Range>, size: int)
  {
    && (forall i :: 0 <= i < |ranges| ==> 0 <= ranges[i].first <= ranges[i].last < size)
    && (forall i :: 0 < i < |ranges| ==> ranges[i].first == ranges[i - 1].last + 1)
    && (ranges != [] ==> ranges[0].first == 0)
  }

  function TotalParts(size: nat, chunk: nat): (n: nat)
    requires chunk > 0
    ensures (n - 1) * chunk < size <= n * chunk || (n == 0 && size == 0)
  {
    if size % chunk == 0 then size / chunk else size / chunk + 1
  }

  /** The byte after the last range. */
  function End(ranges: seq<Range>): (e: int)
  {
    if ranges == [] then 0 else ranges[|ranges| - 1].last + 1
  }

  /** The ranges that are copied: whole chunks, and what is left for the last one.  If the caller
      cancels after `started` parts the rest is left out, and nothing else tells. */
  method CopyRanges(size: nat, chunk: nat, started: nat) returns (ranges: seq<Range>)
    requires chunk > 0 && started <= TotalParts(size, chunk)
    ensures |ranges| == started && Tiles(ranges, size) && End(ranges) == Covered(size, chunk, started)
    ensures End(ranges) == size <==> started == TotalParts(size, chunk)
    ensures forall i :: 0 <= i < |ranges| ==> ranges[i].last - ranges[i].first < chunk
  {
    ranges := [];
    var remaining := size;
    PartsBound(size, chunk, 0);
    for part := 0 to started
      invariant Copied(ranges, size, chunk, part) && remaining == size - End(ranges)
    {
      ranges, remaining := CopyOne(size, chunk, part, ranges, remaining);
    }
    PartsBound(size, chunk, started);
  }

  /** The range of one more part. */
  method CopyOne(size: nat, chunk: nat, part: nat, ranges: seq<Range>, remaining: nat)
    returns (more: seq<Range>, left: nat)
    requires chunk > 0 && part < TotalParts(size, chunk)
    requires Copied(ranges, size, chunk, part) && remaining == size - End(ranges)
    ensures Copied(more, size, chunk, part + 1) && left == size - End(more)
  {
    var reqSize := if remaining < chunk then remaining else chunk;
    var offset := part * chunk;
    CopiedMore(ranges, size, chunk, part, reqSize);
    more := ranges + [Range(offset, offset + reqSize - 1)];
    left := remaining - reqSize;
  }

  /** The ranges of the first `n` parts. */
  ghost predicate Copied(ranges: seq<Range>, size: nat, chunk: nat, n: nat)
  {
    && |ranges| == n && Tiles(ranges, size) && End(ranges) == Covered(size, chunk, n)
    && forall i :: 0 <= i < |ranges| ==> ranges[i].last - ranges[i].first < chunk
  }

  lemma {:induction false} CopiedMore(ranges: seq<Range>, size: nat, chunk: nat, part: nat, reqSize: nat)
    requires chunk > 0 && part < TotalParts(size, chunk) && Copied(ranges, size, chunk, part)
    requires reqSize == if size - End(ranges) < chunk then size - End(ranges) else chunk
    ensures var more := ranges + [Range(part * chunk, part * chunk + reqSize - 1)];
      Copied(more, size, chunk, part + 1) && End(more) == End(ranges) + reqSize <= size
  {
    PartsBound(size, chunk, part);
    PartsBound(size, chunk, part + 1);
    TilesMore(ranges, size, part * chunk, part * chunk + reqSize - 1);
  }

  ghost function Covered(size: nat, chunk: nat, part: nat): (n: nat)
  {
    if part * chunk <= size then part * chunk else size
  }

  /** Each part but the last is whole, and the last one reaches the end. */
  lemma {:induction false} PartsBound(size: nat, chunk: nat, part: nat)
    requires chunk > 0 && part <= TotalParts(size, chunk)
    ensures part == 0 ==> Covered(size, chunk, part) == 0
    ensures part == TotalParts(size, chunk) ==> Covered(size, chunk, part) == size
    ensures part < TotalParts(size, chunk) ==> Covered(size, chunk, part) == part * chunk < size
    ensures (part + 1) * chunk == part * chunk + chunk
  {
    var parts := TotalParts(size, chunk);
    if part < parts {
      assert part * chunk <= (parts - 1) * chunk;
    }
  }

  lemma {:induction false} TilesMore(ranges: seq<Range>, size: int, first: int, last: int)
    requires Tiles(ranges, size) && first == End(ranges) && 0 <= first <= last < size
    ensures Tiles(ranges + [Range(first, last)], size)
  {
  }

  /** Every byte is in exactly one of the ranges. */
  lemma {:induction false} TilesCover(ranges: seq<Range>, size: int, b: int)
    requires Tiles(ranges, size) && ranges != [] && 0 <= b <= ranges[|ranges| - 1].last
    ensures exists i :: 0 <= i < |ranges| && ranges[i].first <= b <= ranges[i].last
    ensures forall i, j ::
      (0 <= i < j < |ranges| && ranges[i].first <= b <= ranges[i].last) ==> !(ranges[j].first <= b <= ranges[j].last)
  {
    var n := |ranges| - 1;
    if b < ranges[n].first {
      TilesCover(ranges[..n], size, b);
      var i :| 0 <= i < n && ranges[..n][i].first <= b <= ranges[..n][i].last;
      assert ranges[i].first <= b <= ranges[i].last;
    } else {
      assert ranges[n].first <= b <= ranges[n].last;
    }
    forall i, j | 0 <= i < j < |ranges| ensures ranges[i].last < ranges[j].first {
      TilesAscend(ranges, size, i, j);
    }
  }

  lemma {:induction false} TilesAscend(ranges: seq<Range>, size: int, i: nat, j: nat)
    requires Tiles(ranges, size) && i < j < |ranges|
    ensures ranges[i].last < ranges[j].first
    decreases j
  {
    if i < j - 1 {
      TilesAscend(ranges, size, i, j - 1);
    }
  }
}

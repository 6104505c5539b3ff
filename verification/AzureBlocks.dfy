/** Committing the chunks of an upload in order (backend/azureblob/azureblob.go). */
module AzureBlocks {
  import opened Wrappers
  import opened Text

  // --- Base64, with padding ---------------------------------------------------------------

  type sextet = x: int | 0 <= x < 64

  function Letter(x: sextet): (c: char)
    ensures SextetOf(c) == Some(x)
  {
    if x < 26 then 'A' + x as char
    else if x < 52 then 'a' + (x - 26) as char
    else if x < 62 then '0' + (x - 52) as char
    else if x == 62 then '+' else '/'
  }

  function SextetOf(c: char): (x: Option<sextet>)
  {
    if 'A' <= c <= 'Z' then Some((c - 'A') as int)
    else if 'a' <= c <= 'z' then Some((c - 'a') as int + 26)
    else if '0' <= c <= '9' then Some((c - '0') as int + 52)
    else if c == '+' then Some(62)
    else if c == '/' then Some(63)
    else None
  }

  const ALPHABET := UPPER + LOWER + DIGITS + "+/"

  /** The letters are those of the standard alphabet (section 4 of RFC 4648), in its order. */
  lemma {:induction false} LetterInAlphabet(x: sextet)
    ensures |ALPHABET| == 64 && Letter(x) == ALPHABET[x]
  {
    CharsInOrder();
  }

  function Quad(a: byte, b: byte, c: byte): (s: string)
    ensures |s| == 4
  {
    [Letter(a / 4), Letter(a % 4 * 16 + b / 16), Letter(b % 16 * 4 + c / 64), Letter(c % 64)]
  }

  /** Standard base64. */
  function Encode(bs: seq<byte>): (s: string)
  {
    if |bs| == 0 then []
    else if |bs| == 1 then Quad(bs[0], 0, 0)[..2] + "=="
    else if |bs| == 2 then Quad(bs[0], bs[1], 0)[..3] + "="
    else Quad(bs[0], bs[1], bs[2]) + Encode(bs[3..])
  }

  function DecodeQuad(s: string): (r: Option<seq<byte>>)
    requires |s| == 4
  {
    var w, x, y, z := SextetOf(s[0]), SextetOf(s[1]), SextetOf(s[2]), SextetOf(s[3]);
    if w.None? || x.None? then None
    else
      var a: byte := w.value * 4 + x.value / 16;
      if s[2] == '=' && s[3] == '=' then Some([a])
      else if y.None? then None
      else
        var b: byte := x.value % 16 * 16 + y.value / 4;
        if s[3] == '=' then Some([a, b])
        else if z.None? then None
        else Some([a, b, y.value % 4 * 64 + z.value])
  }

  function Decode(s: string): (r: Option<seq<byte>>)
  {
    if s == [] then Some([])
    else if |s| < 4 then None
    else
      var first := DecodeQuad(s[..4]);
      if first.None? then None
      else if |s| == 4 then first
      else if |first.value| < 3 then None
      else
        var rest := Decode(s[4..]);
        if rest.None? then None else Some(first.value + rest.value)
  }

  lemma {:induction false} Packed(a: nat, b: nat)
    ensures b < 16 ==> (a * 16 + b) / 16 == a && (a * 16 + b) % 16 == b
    ensures b < 4 ==> (a * 4 + b) / 4 == a && (a * 4 + b) % 4 == b
  {
  }

  lemma {:induction false} DecodeLetters(w: sextet, x: sextet, y: sextet, z: sextet)
    ensures DecodeQuad([Letter(w), Letter(x), Letter(y), Letter(z)]) ==
      Some([w * 4 + x / 16, x % 16 * 16 + y / 4, y % 4 * 64 + z])
  {
    assert SextetOf(Letter(y)).Some? && SextetOf(Letter(z)).Some?;
  }

  lemma {:induction false} TripleInverse(a: byte, b: byte, c: byte)
    ensures DecodeQuad(Quad(a, b, c)) == Some([a, b, c])
  {
    Packed(a % 4, b / 16);
    Packed(b % 16, c / 64);
    DecodeLetters(a / 4, a % 4 * 16 + b / 16, b % 16 * 4 + c / 64, c % 64);
  }

  lemma {:induction false} DecodeThree(w: sextet, x: sextet, y: sextet)
    ensures DecodeQuad([Letter(w), Letter(x), Letter(y), '=']) == Some([w * 4 + x / 16, x % 16 * 16 + y / 4])
  {
    assert Letter(y) != '=' by {
      assert SextetOf(Letter(y)).Some?;
    }
  }

  lemma {:induction false} PairInverse(a: byte, b: byte)
    ensures DecodeQuad(Quad(a, b, 0)[..3] + "=") == Some([a, b])
  {
    Packed(a % 4, b / 16);
    Packed(b % 16, 0);
    DecodeThree(a / 4, a % 4 * 16 + b / 16, b % 16 * 4);
    assert Quad(a, b, 0)[..3] + "=" == [Letter(a / 4), Letter(a % 4 * 16 + b / 16), Letter(b % 16 * 4), '='];
  }

  lemma {:induction false} SingleInverse(a: byte)
    ensures DecodeQuad(Quad(a, 0, 0)[..2] + "==") == Some([a])
  {
    Packed(a % 4, 0);
    assert Quad(a, 0, 0)[..2] + "==" == [Letter(a / 4), Letter(a % 4 * 16), '=', '='];
  }

  lemma {:induction false} DecodeOne(s: string)
    requires |s| == 4
    ensures Decode(s) == DecodeQuad(s)
  {
    assert s[..4] == s;
  }

  lemma {:induction false} DecodeMore(q: string, bs: seq<byte>, rest: string)
    requires |q| == 4 && DecodeQuad(q) == Some(bs) && |bs| == 3 && Decode(rest).Some?
    ensures Decode(q + rest) == Some(bs + Decode(rest).value)
  {
    if rest == [] {
      assert q + rest == q;
      DecodeOne(q);
      assert bs + [] == bs;
    } else {
      assert (q + rest)[..4] == q && (q + rest)[4..] == rest;
    }
  }

  lemma {:induction false} DecodeEncodePair(a: byte, b: byte)
    ensures Decode(Encode([a, b])) == Some([a, b])
    ensures Decode(Encode([a])) == Some([a])
  {
    var s := Quad(a, b, 0)[..3] + "=";
    PairInverse(a, b);
    DecodeOne(s);
    assert Encode([a, b]) == s;
    SingleInverse(a);
    DecodeOne(Quad(a, 0, 0)[..2] + "==");
  }

  lemma {:induction false} DecodeEncode(bs: seq<byte>)
    ensures Decode(Encode(bs)) == Some(bs)
  {
    if |bs| == 1 {
      assert bs == [bs[0]];
      DecodeEncodePair(bs[0], 0);
    } else if |bs| == 2 {
      assert bs == [bs[0], bs[1]];
      DecodeEncodePair(bs[0], bs[1]);
    } else if |bs| >= 3 {
      DecodeEncode(bs[3..]);
      DecodeTriple(bs, Encode(bs[3..]));
    }
  }

  // --- Block IDs --------------------------------------------------------------------------

  type word = x: int | 0 <= x < 0x1_0000_0000_0000_0000

  /** The `n` low bytes of `x`, most significant first. */
  function BigEndian(x: nat, n: nat): (bs: seq<byte>)
    ensures |bs| == n
  {
    if n == 0 then [] else BigEndian(x / 256, n - 1) + [x % 256]
  }

  function FromBigEndian(bs: seq<byte>): (x: nat)
  {
    if bs == [] then 0 else FromBigEndian(bs[..|bs| - 1]) * 256 + bs[|bs| - 1]
  }

  function Pow256(n: nat): (p: nat)
    ensures p > 0
  {
    if n == 0 then 1 else 256 * Pow256(n - 1)
  }

  /** Byte `k` from the end is worth 256 to the power of `k`. */
  lemma {:induction false} BigEndianAt(x: nat, n: nat, k: nat)
    requires k < n
    ensures BigEndian(x, n)[n - 1 - k] == x / Pow256(k) % 256
    decreases n
  {
    if k > 0 {
      BigEndianAt(x / 256, n - 1, k - 1);
      DivDiv(x, Pow256(k - 1));
    }
  }

  lemma {:induction false} DivDiv(x: nat, p: nat)
    requires p > 0
    ensures x / 256 / p == x / (256 * p)
  {
    var y := x / 256;
    var q, r := y / p, y % p;
    assert y == q * p + r;
    assert x == 256 * y + x % 256 == q * (256 * p) + (256 * r + x % 256);
    DivAtLeast(x, 256 * p, q);
    assert (q + 1) * (256 * p) == q * (256 * p) + 256 * p;
    DivBelow(x, 256 * p, q + 1);
  }

  lemma {:induction false} BigEndianInverse(x: nat, n: nat)
    requires x < Pow256(n)
    ensures FromBigEndian(BigEndian(x, n)) == x
  {
    if n > 0 {
      BigEndianInverse(x / 256, n - 1);
      assert BigEndian(x, n)[..n - 1] == BigEndian(x / 256, n - 1);
    }
  }

  /** The ID of a chunk: its number and the upload's random bytes. */
  function NewBlockID(random: seq<byte>, chunk: word): (id: string)
    requires |random| == 8
  {
    Encode(BigEndian(chunk, 8) + random)
  }

  datatype IDError = BadID | BadLength | WrongChunk | WrongRandom

  /** What is wrong with `id` as the ID of `chunk`, if anything. */
  function CheckID(random: seq<byte>, chunk: word, id: string): (err: Option<IDError>)
    requires |random| == 8
  {
    var bs := Decode(id);
    if bs.None? then Some(BadID)
    else if |bs.value| != 16 then Some(BadLength)
    else if FromBigEndian(bs.value[..8]) != chunk then Some(WrongChunk)
    else if bs.value[8..] != random then Some(WrongRandom)
    else None
  }

  lemma {:induction false} FromBigEndianInverse(bs: seq<byte>)
    ensures FromBigEndian(bs) < Pow256(|bs|)
    ensures BigEndian(FromBigEndian(bs), |bs|) == bs
  {
    if bs != [] {
      var n := |bs| - 1;
      FromBigEndianInverse(bs[..n]);
      var high := FromBigEndian(bs[..n]);
      assert (high * 256 + bs[n]) / 256 == high && (high * 256 + bs[n]) % 256 == bs[n];
      assert bs == bs[..n] + [bs[n]];
    }
  }

  /** A string passes the check exactly when it decodes to the number and the random bytes. */
  lemma {:induction false} CheckIDMeans(random: seq<byte>, chunk: word, id: string)
    requires |random| == 8
    ensures CheckID(random, chunk, id).None? <==> Decode(id) == Some(BigEndian(chunk, 8) + random)
  {
    var bs := Decode(id);
    Pow8();
    BigEndianInverse(chunk, 8);
    if bs.Some? && |bs.value| == 16 {
      FromBigEndianInverse(bs.value[..8]);
      assert bs.value == bs.value[..8] + bs.value[8..];
    }
    var made := BigEndian(chunk, 8) + random;
    assert made[..8] == BigEndian(chunk, 8) && made[8..] == random;
  }

  /** An ID that was made passes the check for the chunk and upload it was made for, and for no other. */
  lemma {:induction false} CheckIDIff(random: seq<byte>, chunk: word, other: seq<byte>, made: word)
    requires |random| == 8 && |other| == 8
    ensures CheckID(random, chunk, NewBlockID(other, made)).None? <==> chunk == made && random == other
  {
    var bs := BigEndian(made, 8) + other;
    DecodeEncode(bs);
    assert bs[..8] == BigEndian(made, 8) && bs[8..] == other;
    Pow8();
    BigEndianInverse(made, 8);
  }

  /** The encoding of bytes whose last group is a single one, with `k` in the bits that are left over. */
  function EncodeStray(bs: seq<byte>, k: nat): (s: string)
    requires |bs| % 3 == 1 && k < 16
    decreases |bs|
  {
    if |bs| == 1 then [Letter(bs[0] / 4), Letter(bs[0] % 4 * 16 + k), '=', '=']
    else Quad(bs[0], bs[1], bs[2]) + EncodeStray(bs[3..], k)
  }

  lemma {:induction false} LastStray(a: byte, k: nat)
    requires k < 16
    ensures DecodeQuad([Letter(a / 4), Letter(a % 4 * 16 + k), '=', '=']) == Some([a])
  {
    Packed(a % 4, k);
  }

  /** Stray bits are ignored. */
  lemma {:induction false} DecodeStray(bs: seq<byte>, k: nat)
    requires |bs| % 3 == 1 && k < 16
    ensures Decode(EncodeStray(bs, k)) == Some(bs)
    decreases |bs|
  {
    if |bs| == 1 {
      LastStray(bs[0], k);
      DecodeOne([Letter(bs[0] / 4), Letter(bs[0] % 4 * 16 + k), '=', '=']);
      assert bs == [bs[0]];
    } else {
      DecodeStray(bs[3..], k);
      DecodeTriple(bs, EncodeStray(bs[3..], k));
    }
  }

  /** Three bytes in front of what is decoded already. */
  lemma {:induction false} DecodeTriple(bs: seq<byte>, rest: string)
    requires |bs| >= 3 && Decode(rest) == Some(bs[3..])
    ensures Decode(Quad(bs[0], bs[1], bs[2]) + rest) == Some(bs)
  {
    TripleInverse(bs[0], bs[1], bs[2]);
    DecodeMore(Quad(bs[0], bs[1], bs[2]), [bs[0], bs[1], bs[2]], rest);
    assert [bs[0], bs[1], bs[2]] + bs[3..] == bs;
  }

  lemma {:induction false} StrayDiffers(bs: seq<byte>, k: nat)
    requires |bs| % 3 == 1 && 0 < k < 16
    ensures EncodeStray(bs, k) != Encode(bs)
    decreases |bs|
  {
    if |bs| == 1 {
      var s := Encode(bs);
      assert s[1] == Letter(bs[0] % 4 * 16) && SextetOf(s[1]) == Some(bs[0] % 4 * 16);
      assert SextetOf(EncodeStray(bs, k)[1]) == Some(bs[0] % 4 * 16 + k);
    } else {
      StrayDiffers(bs[3..], k);
      var q := Quad(bs[0], bs[1], bs[2]);
      assert Encode(bs)[4..] == Encode(bs[3..]) && EncodeStray(bs, k)[4..] == EncodeStray(bs[3..], k);
    }
  }

  /** So for every chunk there are IDs that were not made and pass the check. */
  lemma {:induction false} StrayBits(random: seq<byte>, chunk: word, k: nat)
    requires |random| == 8 && 0 < k < 16
    ensures var id := EncodeStray(BigEndian(chunk, 8) + random, k);
      id != NewBlockID(random, chunk) && CheckID(random, chunk, id).None?
  {
    var bs := BigEndian(chunk, 8) + random;
    DecodeStray(bs, k);
    StrayDiffers(bs, k);
    CheckIDMeans(random, chunk, EncodeStray(bs, k));
  }

  lemma {:induction false} Pow8()
    ensures Pow256(8) == 0x1_0000_0000_0000_0000
  {
    assert Pow256(2) == 0x1_0000;
    assert Pow256(4) == 0x1_0000_0000;
    assert Pow256(6) == 0x1_0000_0000_0000;
  }

  lemma {:induction false} NewBlockIDInjective(random: seq<byte>, chunk: word, other: seq<byte>, made: word)
    requires |random| == 8 && |other| == 8 && NewBlockID(random, chunk) == NewBlockID(other, made)
    ensures chunk == made && random == other
  {
    CheckIDIff(random, chunk, random, chunk);
    CheckIDIff(random, chunk, other, made);
  }

  // --- Chunks -----------------------------------------------------------------------------

  datatype Block = Block(chunk: word, id: string)

  function Chunks(bs: seq<Block>): (s: seq<nat>)
    ensures |s| == |bs| && forall i :: 0 <= i < |bs| ==> s[i] == bs[i].chunk
  {
    if bs == [] then [] else Chunks(bs[..|bs| - 1]) + [bs[|bs| - 1].chunk]
  }

  predicate Sorted(s: seq<nat>)
  {
    forall i, j :: 0 <= i < j < |s| ==> s[i] <= s[j]
  }

  function Iota(n: nat): (s: seq<nat>)
    ensures |s| == n && forall i :: 0 <= i < n ==> s[i] == i
  {
    seq(n, i => i)
  }

  lemma {:induction false} SortedLast(s: seq<nat>, x: nat)
    requires Sorted(s) && x in s
    ensures x <= s[|s| - 1]
  {
  }

  lemma {:induction false} DropLast(s: seq<nat>)
    requires s != []
    ensures multiset(s[..|s| - 1]) == multiset(s) - multiset{s[|s| - 1]}
  {
    assert s == s[..|s| - 1] + [s[|s| - 1]];
  }

  /** There is only one way to sort. */
  lemma {:induction false} SortedUnique(s: seq<nat>, t: seq<nat>)
    requires Sorted(s) && Sorted(t) && multiset(s) == multiset(t)
    ensures s == t
  {
    assert |s| == |multiset(s)| == |multiset(t)| == |t|;
    if s != [] {
      SameLast(s, t);
      DropLast(s);
      DropLast(t);
      SortedInit(s);
      SortedInit(t);
      SortedUnique(s[..|s| - 1], t[..|t| - 1]);
      SameInit(s, t);
    }
  }

  lemma {:induction false} SameLast(s: seq<nat>, t: seq<nat>)
    requires Sorted(s) && Sorted(t) && multiset(s) == multiset(t) && s != [] && t != []
    ensures s[|s| - 1] == t[|t| - 1]
  {
    assert s[|s| - 1] in multiset(t) && t[|t| - 1] in multiset(s);
    SortedLast(t, s[|s| - 1]);
    SortedLast(s, t[|t| - 1]);
  }

  lemma {:induction false} SortedInit(s: seq<nat>)
    requires Sorted(s) && s != []
    ensures Sorted(s[..|s| - 1])
  {
  }

  lemma {:induction false} SameInit(s: seq<nat>, t: seq<nat>)
    requires s != [] && t != [] && s[..|s| - 1] == t[..|t| - 1] && s[|s| - 1] == t[|t| - 1]
    ensures s == t
  {
    assert s == s[..|s| - 1] + [s[|s| - 1]] && t == t[..|t| - 1] + [t[|t| - 1]];
  }

  lemma {:induction false} ChunksMore(bs: seq<Block>, b: Block)
    ensures Chunks(bs + [b]) == Chunks(bs) + [b.chunk]
  {
    assert (bs + [b])[..|bs|] == bs;
  }

  function Insert(b: Block, bs: seq<Block>): (r: seq<Block>)
    ensures multiset(r) == multiset(bs) + multiset{b}
    ensures multiset(Chunks(r)) == multiset(Chunks(bs)) + multiset{b.chunk as nat}
  {
    ChunksMore(bs, b);
    if bs == [] then [b]
    else if bs[|bs| - 1].chunk <= b.chunk then bs + [b]
    else
      var last := bs[|bs| - 1];
      assert bs == bs[..|bs| - 1] + [last];
      ChunksMore(Insert(b, bs[..|bs| - 1]), last);
      Insert(b, bs[..|bs| - 1]) + [last]
  }

  function SortBlocks(bs: seq<Block>): (r: seq<Block>)
    ensures multiset(r) == multiset(bs)
    ensures multiset(Chunks(r)) == multiset(Chunks(bs))
  {
    if bs == [] then []
    else
      assert bs == bs[..|bs| - 1] + [bs[|bs| - 1]];
      Insert(bs[|bs| - 1], SortBlocks(bs[..|bs| - 1]))
  }

  predicate InOrder(bs: seq<Block>)
  {
    forall i, j :: 0 <= i < j < |bs| ==> bs[i].chunk <= bs[j].chunk
  }

  lemma {:induction false} InsertInOrder(b: Block, bs: seq<Block>)
    requires InOrder(bs)
    ensures InOrder(Insert(b, bs))
  {
    if bs != [] && bs[|bs| - 1].chunk > b.chunk {
      var n := |bs| - 1;
      InsertInOrder(b, bs[..n]);
      InsertBelow(b, bs[..n], bs[n].chunk);
      LastInOrder(Insert(b, bs[..n]), bs[n]);
    } else {
      LastInOrder(bs, b);
    }
  }

  lemma {:induction false} LastInOrder(bs: seq<Block>, last: Block)
    requires InOrder(bs) && forall x :: x in bs ==> x.chunk <= last.chunk
    ensures InOrder(bs + [last])
  {
  }

  lemma {:induction false} InsertBelow(b: Block, bs: seq<Block>, m: nat)
    requires b.chunk <= m && forall x :: x in bs ==> x.chunk <= m
    ensures forall x :: x in Insert(b, bs) ==> x.chunk <= m
  {
    forall x | x in Insert(b, bs) ensures x.chunk <= m {
      assert x in multiset(Insert(b, bs));
    }
  }

  lemma {:induction false} SortBlocksInOrder(bs: seq<Block>)
    ensures InOrder(SortBlocks(bs))
  {
    if bs != [] {
      SortBlocksInOrder(bs[..|bs| - 1]);
      InsertInOrder(bs[|bs| - 1], SortBlocks(bs[..|bs| - 1]));
    }
  }

  /** The chunk numbers are each of 0..n once, in whatever order. */
  predicate Complete(bs: seq<Block>)
  {
    multiset(Chunks(bs)) == multiset(Iota(|bs|))
  }

  /** The chunk numbers are 0, 1, 2 and so on, in this order. */
  predicate Consecutive(bs: seq<Block>)
  {
    forall i :: 0 <= i < |bs| ==> bs[i].chunk == i
  }

  lemma {:induction false} ConsecutiveIsIota(bs: seq<Block>)
    ensures Consecutive(bs) <==> Chunks(bs) == Iota(|bs|)
  {
    if Chunks(bs) == Iota(|bs|) {
      forall i | 0 <= i < |bs| ensures bs[i].chunk == i {
        assert Chunks(bs)[i] == Iota(|bs|)[i];
      }
    }
  }

  /** Sorting puts each chunk at its number exactly when the numbers are complete. */
  lemma {:induction false} CompleteIff(bs: seq<Block>)
    ensures |SortBlocks(bs)| == |bs|
    ensures Complete(bs) <==> Consecutive(SortBlocks(bs))
  {
    var cs := SortBlocks(bs);
    assert |cs| == |multiset(cs)| == |multiset(bs)| == |bs|;
    ConsecutiveIsIota(cs);
    if Complete(bs) {
      SortBlocksInOrder(bs);
      SortedUnique(Chunks(cs), Iota(|bs|));
    }
  }

  // --- The chunk writer -------------------------------------------------------------------

  datatype CloseError = WrongNumber | CommitFailed

  /** Every block has the ID made for its number. */
  predicate Labelled(random: seq<byte>, bs: seq<Block>)
    requires |random| == 8
  {
    forall i :: 0 <= i < |bs| ==> bs[i].id == NewBlockID(random, bs[i].chunk)
  }

  lemma {:induction false} SortedLabelled(random: seq<byte>, bs: seq<Block>)
    requires |random| == 8 && Labelled(random, bs)
    ensures Labelled(random, SortBlocks(bs))
  {
    var cs := SortBlocks(bs);
    forall i | 0 <= i < |cs| ensures cs[i].id == NewBlockID(random, cs[i].chunk) {
      assert cs[i] in multiset(cs);
      assert cs[i] in bs;
    }
  }

  class ChunkWriter {
    const random: seq<byte>
    const faultless: bool  // the service does what it is asked
    var blocks: seq<Block>

    /** Every recorded block has the ID made for its number. */
    predicate Valid()
      reads this
    {
      |random| == 8 && Labelled(random, blocks)
    }

    constructor (random: seq<byte>, faultless: bool)
      requires |random| == 8
      ensures Valid() && blocks == [] && this.random == random && this.faultless == faultless
    {
      this.random, this.faultless, blocks := random, faultless, [];
    }

    /** Record and upload a chunk, unless it is empty. */
    method WriteChunk(chunk: int, data: seq<byte>) returns (n: int)
      requires Valid() && chunk < 0x8000_0000_0000_0000
      modifies this`blocks
      ensures Valid()
      ensures blocks ==
        if chunk >= 0 && data != [] then old(blocks) + [Block(chunk, NewBlockID(random, chunk))] else old(blocks)
      ensures chunk < 0 ==> n == -1
      ensures chunk >= 0 ==> n == |data| || (n == -1 && data != [] && !faultless)
    {
      if chunk < 0 {
        return -1;
      }
      if |data| == 0 {
        return 0;
      }
      blocks := blocks + [Block(chunk, NewBlockID(random, chunk))];
      var failed: bool := *;
      n := if failed && !faultless then -1 else |data|;
    }

    /** What is wrong with the ID of block `i`: nothing, as it was made for it. */
    method CheckOwn(i: nat) returns (bad: Option<IDError>)
      requires Valid() && i < |blocks|
      ensures bad.None?
    {
      CheckIDIff(random, blocks[i].chunk, random, blocks[i].chunk);
      bad := CheckID(random, blocks[i].chunk, blocks[i].id);
    }

    /** The IDs to commit, if the sorted blocks are what they should be. */
    method CheckBlocks() returns (ids: seq<string>, err: Option<CloseError>)
      requires Valid()
      ensures err.None? <==> Consecutive(blocks)
      ensures err.None? ==> |ids| == |blocks| && forall i :: 0 <= i < |ids| ==> ids[i] == blocks[i].id
      ensures err.Some? ==> err.value.WrongNumber? && ids == []
    {
      ids, err := [], None;
      for i := 0 to |blocks|
        invariant |ids| == i && err.None?
        invariant forall j :: 0 <= j < i ==> blocks[j].chunk == j && ids[j] == blocks[j].id
      {
        if blocks[i].chunk != i {
          return [], Some(WrongNumber);
        }
        var bad := CheckOwn(i);
        if bad.Some? {
          assert false;
          return;
        }
        ids := ids + [blocks[i].id];
      }
    }

    /** Commit the recorded blocks: `ids` is what the service is asked to commit.  Whatever order
        the chunks were written in, they are committed in the order of their numbers, or not at all. */
    method Close() returns (ids: seq<string>, err: Option<CloseError>)
      requires Valid()
      modifies this`blocks
      ensures Valid() && multiset(blocks) == multiset(old(blocks))
      ensures err.None? || err == Some(CommitFailed) <==> Complete(old(blocks))
      ensures err == Some(CommitFailed) ==> !faultless
      ensures err.None? || err == Some(CommitFailed) ==>
        && |ids| == |blocks| == |old(blocks)|
        && forall i :: 0 <= i < |ids| ==> blocks[i].chunk == i && ids[i] == NewBlockID(random, blocks[i].chunk)
    {
      CompleteIff(blocks);
      SortedLabelled(random, blocks);
      blocks := SortBlocks(blocks);
      ids, err := CheckBlocks();
      if err.None? {
        var failed: bool := *;
        err := if failed && !faultless then Some(CommitFailed) else None;
      }
    }
  }

  /** The numbers of the chunks that are not empty, in the order in which they are written. */
  function Written(order: seq<nat>, data: seq<seq<byte>>): (ns: seq<nat>)
    requires |data| == |order|
  {
    if order == [] then []
    else
      var n := |order| - 1;
      Written(order[..n], data[..n]) + if data[n] != [] then [order[n]] else []
  }

  /** A whole upload: chunks written in any order are committed, in the order of their numbers,
      exactly when the numbers of those with data are all from 0 on, once each. */
  method Upload(random: seq<byte>, order: seq<nat>, data: seq<seq<byte>>)
    returns (ids: seq<string>, err: Option<CloseError>)
    requires |random| == 8 && |data| == |order| && forall i :: 0 <= i < |order| ==> order[i] < 0x8000_0000_0000_0000
    ensures var ns := Written(order, data);
      && (err.None? <==> multiset(ns) == multiset(Iota(|ns|)))
      && (err.None? ==> |ids| == |ns| && InNumberOrder(random, ids))
  {
    var w := new ChunkWriter(random, true);
    for i := 0 to |order|
      invariant w.Valid() && Chunks(w.blocks) == Written(order[..i], data[..i])
    {
      WrittenMore(order, data, i);
      ChunksMore(w.blocks, Block(order[i], NewBlockID(random, order[i])));
      var n := w.WriteChunk(order[i], data[i]);
    }
    assert order[..|order|] == order && data[..|data|] == data;
    ids, err := w.Close();
    assert err.None? ==> InNumberOrder(random, ids) by {
      if err.None? {
        forall i | 0 <= i < |ids| ensures IsID(random, ids, i) {
          assert w.blocks[i].chunk == i;
        }
      }
    }
  }

  /** The IDs are those of the chunks 0, 1, 2 and so on. */
  predicate InNumberOrder(random: seq<byte>, ids: seq<string>)
    requires |random| == 8
  {
    forall i :: 0 <= i < |ids| ==> IsID(random, ids, i)
  }

  predicate IsID(random: seq<byte>, ids: seq<string>, i: nat)
    requires |random| == 8 && i < |ids|
  {
    i < 0x1_0000_0000_0000_0000 && ids[i] == NewBlockID(random, i)
  }

  lemma {:induction false} WrittenMore(order: seq<nat>, data: seq<seq<byte>>, i: nat)
    requires i < |order| == |data|
    ensures Written(order[..i + 1], data[..i + 1]) ==
      Written(order[..i], data[..i]) + if data[i] != [] then [order[i]] else []
  {
    assert order[..i + 1][..i] == order[..i] && data[..i + 1][..i] == data[..i];
  }
}

/** Parallel listing of blobs by name ranges (backend/azureblob/arrow.go). */
module ArrowListing {
  import opened Wrappers
  import opened Text

  // --- Byte order of names ----------------------------------------------------------------

  predicate Less(a: string, b: string)
  {
    if b == [] then false
    else if a == [] then true
    else a[0] < b[0] || (a[0] == b[0] && Less(a[1..], b[1..]))
  }

  lemma {:induction false} LessTrans(a: string, b: string, c: string)
    requires Less(a, b) && Less(b, c)
    ensures Less(a, c)
  {
    if a != [] && a[0] == b[0] == c[0] {
      LessTrans(a[1..], b[1..], c[1..]);
    }
  }

  /** A name in directory `dir` is below the boundary `dir` + `c` by its next character alone. */
  lemma {:induction false} LessBoundary(dir: string, x: string, c: char)
    requires dir <= x
    ensures Less(x, dir + [c]) <==> |x| == |dir| || x[|dir|] < c
  {
    if dir != [] {
      assert (dir + [c])[1..] == dir[1..] + [c];
      LessBoundary(dir[1..], x[1..], c);
    } else {
      assert dir + [c] == [c];
    }
  }

  lemma {:induction false} BoundariesLess(dir: string, c: char, e: char)
    requires c < e
    ensures Less(dir + [c], dir + [e])
  {
    LessBoundary(dir, dir + [c], e);
  }

  ghost predicate Ascending(names: seq<string>)
  {
    forall i, j :: 0 <= i < j < |names| ==> Less(names[i], names[j])
  }

  // --- A listing --------------------------------------------------------------------------

  /** A blob, or the sub-directory that stands for all blobs under it. */
  datatype Item = Blob(name: string) | Prefix(name: string)

  /** What the service lists blob `x` of directory `dir` as: folded on '/', unless flat. */
  function Fold(dir: string, flat: bool, x: string): (item: Item)
    requires dir <= x
  {
    var slash := IndexOf(x[|dir|..], '/');
    if flat || slash.None? then Blob(x) else Prefix(x[..|dir| + slash.value + 1])
  }

  /** `x` is in the half-open name range; an empty bound is no bound. */
  predicate InRange(x: string, from: string, to: string)
  {
    (from == "" || !Less(x, from)) && (to == "" || Less(x, to))
  }

  /** The listing of the blobs `names` of `dir` in a name range, each item once. */
  function Listing(names: seq<string>, dir: string, flat: bool, from: string, to: string): (items: seq<Item>)
  {
    if names == [] then []
    else
      var x := names[|names| - 1];
      var items := Listing(names[..|names| - 1], dir, flat, from, to);
      if dir <= x && InRange(x, from, to) && Fold(dir, flat, x) !in items
      then items + [Fold(dir, flat, x)] else items
  }

  lemma {:induction false} ListedFrom(names: seq<string>, dir: string, flat: bool, from: string, to: string, item: Item)
    requires item in Listing(names, dir, flat, from, to)
    ensures exists x :: x in names && dir <= x && InRange(x, from, to) && Fold(dir, flat, x) == item
  {
    var n := |names| - 1;
    var items := Listing(names[..n], dir, flat, from, to);
    if item in items {
      ListedFrom(names[..n], dir, flat, from, to, item);
    } else {
      assert names[n] in names;
    }
  }

  /** A listing contains what some blob in its range is listed as, and nothing else. */
  lemma {:induction false} ListedIff(names: seq<string>, dir: string, flat: bool, from: string, to: string, item: Item)
    ensures item in Listing(names, dir, flat, from, to) <==>
      exists x :: x in names && dir <= x && InRange(x, from, to) && Fold(dir, flat, x) == item
  {
    if item in Listing(names, dir, flat, from, to) {
      ListedFrom(names, dir, flat, from, to, item);
    }
    if exists x :: x in names && dir <= x && InRange(x, from, to) && Fold(dir, flat, x) == item {
      var x :| x in names && dir <= x && InRange(x, from, to) && Fold(dir, flat, x) == item;
      Lists(names, dir, flat, from, to, x);
    }
  }

  lemma {:induction false} Lists(names: seq<string>, dir: string, flat: bool, from: string, to: string, x: string)
    requires x in names && dir <= x && InRange(x, from, to)
    ensures Fold(dir, flat, x) in Listing(names, dir, flat, from, to)
  {
    var n := |names| - 1;
    if x != names[n] {
      assert x in names[..n];
      Lists(names[..n], dir, flat, from, to, x);
    }
  }

  lemma {:induction false} ListedOnce(names: seq<string>, dir: string, flat: bool, from: string, to: string)
    ensures forall i, j :: 0 <= i < j < |Listing(names, dir, flat, from, to)| ==>
      Listing(names, dir, flat, from, to)[i] != Listing(names, dir, flat, from, to)[j]
  {
    if names != [] {
      ListedOnce(names[..|names| - 1], dir, flat, from, to);
    }
  }

  /** Names that fold to one item are on one side of any boundary: no sub-directory is split. */
  lemma {:induction false} FoldedTogether(dir: string, flat: bool, x: string, y: string, c: char)
    requires dir <= x && dir <= y && Fold(dir, flat, x) == Fold(dir, flat, y)
    ensures Less(x, dir + [c]) <==> Less(y, dir + [c])
  {
    LessBoundary(dir, x, c);
    LessBoundary(dir, y, c);
    var f := Fold(dir, flat, x);
    if f.Prefix? {
      assert f.name == x[..|f.name|] && f.name == y[..|f.name|];
      assert x[|dir|] == f.name[|dir|] == y[|dir|];
    }
  }

  /** The listing of a range is that of its part below a boundary followed by the rest. */
  lemma {:induction false} ListingSplit(names: seq<string>, dir: string, flat: bool, from: string, c: char, to: string)
    requires Ascending(names)
    requires from == "" || Less(from, dir + [c])
    requires to == "" || Less(dir + [c], to)
    ensures Listing(names, dir, flat, from, to) ==
      Listing(names, dir, flat, from, dir + [c]) + Listing(names, dir, flat, dir + [c], to)
  {
    var p := dir + [c];
    if names != [] {
      var n := |names| - 1;
      var x := names[n];
      ListingSplit(names[..n], dir, flat, from, c, to);
      var low, high := Listing(names[..n], dir, flat, from, p), Listing(names[..n], dir, flat, p, to);
      if dir <= x {
        var item := Fold(dir, flat, x);
        if Less(x, p) {
          NothingAbove(names[..n], dir, flat, p, to, x);
          assert low + high == low;
          assert to == "" || Less(x, to) by {
            if to != "" { LessTrans(x, p, to); }
          }
        } else {
          assert from == "" || !Less(x, from) by {
            if from != "" && Less(x, from) { LessTrans(x, from, p); }
          }
          NotBelow(names[..n], dir, flat, from, c, x);
          assert low + (high + [item]) == low + high + [item];
        }
      }
    }
  }

  /** Nothing is listed at or above `p` while all names are below it. */
  lemma {:induction false} NothingAbove(names: seq<string>, dir: string, flat: bool, p: string, to: string, x: string)
    requires forall y :: y in names ==> Less(y, x)
    requires Less(x, p) && p != ""
    ensures Listing(names, dir, flat, p, to) == []
  {
    if names != [] {
      var n := |names| - 1;
      NothingAbove(names[..n], dir, flat, p, to, x);
      LessTrans(names[n], x, p);
    }
  }

  /** An item at or above a boundary was not listed below it. */
  lemma {:induction false} NotBelow(names: seq<string>, dir: string, flat: bool, from: string, c: char, x: string)
    requires dir <= x && !Less(x, dir + [c])
    ensures Fold(dir, flat, x) !in Listing(names, dir, flat, from, dir + [c])
  {
    var item := Fold(dir, flat, x);
    if item in Listing(names, dir, flat, from, dir + [c]) {
      ListedFrom(names, dir, flat, from, dir + [c], item);
      var y :| y in names && dir <= y && InRange(y, from, dir + [c]) && Fold(dir, flat, y) == item;
      FoldedTogether(dir, flat, x, y, c);
    }
  }

  // --- Boundaries and shards --------------------------------------------------------------

  const ALPHABET := "0123456789abcdefghijklmnopqrstuvwxyz"

  function Rung(i: nat): (c: char)
    requires i < 36
    ensures IsRung(c)
  {
    if i < 10 then '0' + i as char else 'a' + (i - 10) as char
  }

  predicate IsRung(c: char) {
    '0' <= c <= '9' || 'a' <= c <= 'z'
  }

  lemma {:induction false} RungsAreTheAlphabet()
    ensures |ALPHABET| == 36 && forall i :: 0 <= i < 36 ==> ALPHABET[i] == Rung(i)
  {
  }

  function Clipped(target: int): (n: nat)
  {
    if target < 1 then 0 else if target > 36 then 36 else target
  }

  /** The boundaries are `dir` followed by the ascending characters `cs`. */
  predicate Rungs(dir: string, points: seq<string>, cs: string)
  {
    && |points| == |cs|
    && (forall i :: 0 <= i < |cs| ==> points[i] == dir + [cs[i]] && IsRung(cs[i]))
    && (forall i, j :: 0 <= i < j < |cs| ==> cs[i] < cs[j])
  }

  /** Raising the dividend by at least the divisor raises the quotient. */
  lemma {:induction false} DivStep(a: nat, t: nat)
    requires 1 <= t <= 36
    ensures a / t < (a + 36) / t
  {
    var q, r := a / t, a % t;
    assert a + 36 == (q + 1) * t + (36 - t + r);
    DivAtLeast(a + 36, t, q + 1);
  }

  /** The position in the alphabet of boundary `i` of `t`. */
  function RungIndex(i: nat, t: nat): (idx: nat)
    requires i < t <= 36
    ensures idx < 36
  {
    DivBelow(i * 36, t, 36);
    i * 36 / t
  }

  lemma {:induction false} RungIndexAscends(i: nat, t: nat)
    requires i + 1 < t <= 36
    ensures RungIndex(i, t) < RungIndex(i + 1, t)
  {
    DivStep(i * 36, t);
  }

  /** The boundaries begin with the first rung, and are as far from each other, and the last from the
      end, as `t` equal parts of the alphabet are, or one more. */
  lemma {:induction false} SpreadEvenly(i: nat, t: nat)
    requires i < t <= 36
    ensures i == 0 ==> RungIndex(i, t) == 0
    ensures 36 / t <= (if i + 1 < t then RungIndex(i + 1, t) else 36) - RungIndex(i, t) <= 36 / t + 1
  {
    var a, k := i * 36, 36 / t;
    assert (i + 1) * 36 == a + 36;
    if i + 1 == t {
      DivAtLeast(a + 36, t, 36);
      DivBelow(a + 36, t, 37);
    }
    DivSum(a, 36, t);
  }

  lemma {:induction false} Distribute(a: nat, b: nat, t: nat)
    ensures (a + b) * t == a * t + b * t
  {
  }

  lemma {:induction false} DivSum(a: nat, b: nat, t: nat)
    requires 1 <= t
    ensures a / t + b / t <= (a + b) / t <= a / t + b / t + 1
  {
    var q, k := a / t, b / t;
    assert a == q * t + a % t && b == k * t + b % t;
    Distribute(q, k, t);
    Distribute(q + k, 2, t);
    DivAtLeast(a + b, t, q + k);
    DivBelow(a + b, t, q + k + 2);
  }

  /** Up to `target` ascending boundaries `dir` + c, spread evenly over the alphabet. */
  method LadderBoundaries(dir: string, target: int) returns (points: seq<string>, ghost cs: string)
    ensures Rungs(dir, points, cs) && |points| == Clipped(target) <= 36
    ensures if target <= 0 then points == [] else target <= 36 ==> |points| == target
    ensures forall i :: 0 <= i < |cs| ==> cs[i] == Rung(RungIndex(i, Clipped(target)))
  {
    points, cs := [], [];
    if target < 1 {
      return;
    }
    var t := target;
    if t > 36 {
      t := 36;
    }
    var last := -1;
    for i := 0 to t
      invariant |cs| == i && Rungs(dir, points, cs)
      invariant last == if i == 0 then -1 else RungIndex(i - 1, t)
      invariant forall j :: 0 <= j < i ==> cs[j] == Rung(RungIndex(j, t))
    {
      if i > 0 {
        RungIndexAscends(i - 1, t);
      }
      var idx := i * 36 / t;
      assert idx == RungIndex(i, t);
      if idx == last {
        continue;
      }
      last := idx;
      RungsMore(dir, points, cs, Rung(idx));
      points := points + [dir + [Rung(idx)]];
      cs := cs + [Rung(idx)];
    }
  }

  lemma {:induction false} RungsMore(dir: string, points: seq<string>, cs: string, c: char)
    requires Rungs(dir, points, cs) && IsRung(c) && (cs != [] ==> cs[|cs| - 1] < c)
    ensures Rungs(dir, points + [dir + [c]], cs + [c])
  {
  }

  datatype Shard = Shard(startFrom: string, endBefore: string)

  /** The half-open ranges between the boundaries, the outermost ones unbounded. */
  function ShardAt(points: seq<string>, i: nat): (s: Shard)
    requires i <= |points|
  {
    Shard(if i == 0 then "" else points[i - 1], if i == |points| then "" else points[i])
  }

  ghost predicate AreShards(points: seq<string>, shards: seq<Shard>)
  {
    |shards| == |points| + 1 && forall i :: 0 <= i < |shards| ==> shards[i] == ShardAt(points, i)
  }

  method BuildShards(points: seq<string>) returns (shards: seq<Shard>)
    ensures AreShards(points, shards)
  {
    shards := [];
    var prev := "";
    for i := 0 to |points|
      invariant |shards| == i
      invariant prev == if i == 0 then "" else points[i - 1]
      invariant forall j :: 0 <= j < i ==> shards[j] == ShardAt(points, j)
    {
      shards := shards + [Shard(prev, points[i])];
      prev := points[i];
    }
    shards := shards + [Shard(prev, "")];
  }

  /** The listings of the first `n` shards, one after the other. */
  function ShardListings(names: seq<string>, dir: string, flat: bool, points: seq<string>, n: nat): (items: seq<Item>)
    requires n <= |points| + 1
  {
    if n == 0 then []
    else
      var s := ShardAt(points, n - 1);
      ShardListings(names, dir, flat, points, n - 1) + Listing(names, dir, flat, s.startFrom, s.endBefore)
  }

  /** Where the listing up to boundary `n` ends, that of the next shard begins. */
  lemma {:induction false} NextShard(
    names: seq<string>, dir: string, flat: bool, points: seq<string>, cs: string, n: nat)
    requires Ascending(names) && Rungs(dir, points, cs) && n < |points|
    ensures var next := ShardAt(points, n + 1);
      Listing(names, dir, flat, "", next.endBefore) ==
      Listing(names, dir, flat, "", points[n]) + Listing(names, dir, flat, next.startFrom, next.endBefore)
  {
    if n + 1 < |points| {
      BoundariesLess(dir, cs[n], cs[n + 1]);
    }
    ListingSplit(names, dir, flat, "", cs[n], ShardAt(points, n + 1).endBefore);
  }

  lemma {:induction false} JoinNext(a: seq<Item>, b: seq<Item>, c: seq<Item>, d: seq<Item>, e: seq<Item>)
    requires a == b + c && b == d && e == d + c
    ensures a == e
  {
  }

  lemma {:induction false} OneMoreShard(names: seq<string>, dir: string, flat: bool, points: seq<string>, n: nat)
    requires n <= |points|
    ensures var s := ShardAt(points, n);
      ShardListings(names, dir, flat, points, n + 1) ==
      ShardListings(names, dir, flat, points, n) + Listing(names, dir, flat, s.startFrom, s.endBefore)
  {
  }

  lemma {:induction false} ShardsBelow(
    names: seq<string>, dir: string, flat: bool, points: seq<string>, cs: string, n: nat)
    requires Ascending(names) && Rungs(dir, points, cs) && n <= |points|
    ensures ShardListings(names, dir, flat, points, n + 1) ==
      Listing(names, dir, flat, "", ShardAt(points, n).endBefore)
  {
    OneMoreShard(names, dir, flat, points, n);
    if n > 0 {
      var s := ShardAt(points, n);
      ShardsBelow(names, dir, flat, points, cs, n - 1);
      NextShard(names, dir, flat, points, cs, n - 1);
      JoinNext(ShardListings(names, dir, flat, points, n + 1), ShardListings(names, dir, flat, points, n),
        Listing(names, dir, flat, s.startFrom, s.endBefore), Listing(names, dir, flat, "", points[n - 1]),
        Listing(names, dir, flat, "", s.endBefore));
    }
  }

  /** Listing by shards is the sequential listing: nothing is missed, repeated or reordered. */
  lemma {:induction false} ShardsEqualSequential(
    names: seq<string>, dir: string, flat: bool, points: seq<string>, cs: string)
    requires Ascending(names) && Rungs(dir, points, cs)
    ensures ShardListings(names, dir, flat, points, |points| + 1) == Listing(names, dir, flat, "", "")
  {
    ShardsBelow(names, dir, flat, points, cs, |points|);
  }

  // --- Case-insensitive validation by the service -----------------------------------------

  function Lower(s: string): (r: string)
    ensures |r| == |s|
  {
    if s == [] then [] else [if 'A' <= s[0] <= 'Z' then s[0] - 'A' + 'a' else s[0]] + Lower(s[1..])
  }

  lemma {:induction false} LowerAppend(s: string, c: char)
    requires IsRung(c)
    ensures Lower(s + [c]) == Lower(s) + [c]
  {
    if s != [] {
      assert (s + [c])[1..] == s[1..] + [c];
      LowerAppend(s[1..], c);
    } else {
      assert s + [c] == [c] && [c][1..] == [];
    }
  }

  /** The boundaries ascend for the service too, which compares them ignoring case. */
  lemma {:induction false} BoundariesAscendIgnoringCase(dir: string, points: seq<string>, cs: string, i: nat, j: nat)
    requires Rungs(dir, points, cs) && i < j < |points|
    ensures Less(points[i], points[j]) && Less(Lower(points[i]), Lower(points[j]))
  {
    LowerAppend(dir, cs[i]);
    LowerAppend(dir, cs[j]);
    BoundariesLess(dir, cs[i], cs[j]);
    BoundariesLess(Lower(dir), cs[i], cs[j]);
  }

  // --- A run ------------------------------------------------------------------------------

  datatype Failure = EndBeforeUnsupported | OtherFailure

  /** What one sequential pass did: the items it handed on, the raw items it saw, and its error. */
  datatype PagerRun = PagerRun(delivered: multiset<Item>, found: nat, err: Option<Failure>)

  /** The items that are handed on: those not skipped, such as the marker of `dir` itself. */
  function Delivered(items: seq<Item>, skips: set<Item>): (r: seq<Item>)
  {
    if items == [] then []
    else
      var last := items[|items| - 1];
      Delivered(items[..|items| - 1], skips) + (if last in skips then [] else [last])
  }

  lemma {:induction false} DeliveredAppend(a: seq<Item>, b: seq<Item>, skips: set<Item>)
    ensures Delivered(a + b, skips) == Delivered(a, skips) + Delivered(b, skips)
  {
    if b == [] {
      assert a + b == a;
    } else {
      var n := |b| - 1;
      assert (a + b)[..|a| + n] == a + b[..n];
      DeliveredAppend(a, b[..n], skips);
    }
  }

  function Handed(items: seq<Item>, skips: set<Item>): (m: multiset<Item>)
  {
    multiset(Delivered(items, skips))
  }

  /** A pass that has `share` to hand on hands on each item of it at most once, counts what it
      hands on, and hands on everything unless it fails. */
  predicate Legit(r: PagerRun, share: multiset<Item>)
  {
    r.delivered <= share && |r.delivered| <= r.found && (r.err.None? ==> r.delivered == share)
  }

  function Points(dir: string, target: int): (points: seq<string>)
    ensures |points| == Clipped(target)
  {
    var t := Clipped(target);
    seq(t, i requires 0 <= i < t => dir + [Rung(RungIndex(i, t))])
  }

  lemma {:induction false} PointsAreRungs(dir: string, target: int, points: seq<string>, cs: string)
    requires Rungs(dir, points, cs) && |points| == Clipped(target)
    requires forall i :: 0 <= i < |cs| ==> cs[i] == Rung(RungIndex(i, Clipped(target)))
    ensures points == Points(dir, target)
  {
  }

  function ShardListing(names: seq<string>, dir: string, flat: bool, points: seq<string>, i: nat): (items: seq<Item>)
    requires i <= |points|
  {
    Listing(names, dir, flat, ShardAt(points, i).startFrom, ShardAt(points, i).endBefore)
  }

  lemma {:induction false} MoreShards(
    names: seq<string>, dir: string, flat: bool, points: seq<string>, skips: set<Item>, k: nat)
    requires k <= |points|
    ensures Handed(ShardListings(names, dir, flat, points, k + 1), skips) ==
      Handed(ShardListings(names, dir, flat, points, k), skips)
      + Handed(ShardListing(names, dir, flat, points, k), skips)
  {
    DeliveredAppend(ShardListings(names, dir, flat, points, k), ShardListing(names, dir, flat, points, k), skips);
  }

  /** `hs` is what each of the first `k` shards at `points` has to hand on. */
  ghost predicate Shares(
    names: seq<string>, dir: string, flat: bool, skips: set<Item>, points: seq<string>, hs: seq<multiset<Item>>, k: nat)
    requires k <= |hs| == |points| + 1
    decreases k
  {
    k > 0 ==>
      && Shares(names, dir, flat, skips, points, hs, k - 1)
      && hs[k - 1] == Handed(ShardListing(names, dir, flat, points, k - 1), skips)
  }

  function Sum(hs: seq<multiset<Item>>): (m: multiset<Item>)
  {
    if hs == [] then multiset{} else Sum(hs[..|hs| - 1]) + hs[|hs| - 1]
  }

  lemma {:induction false} SumMore(hs: seq<multiset<Item>>, k: nat)
    requires k < |hs|
    ensures Sum(hs[..k + 1]) == Sum(hs[..k]) + hs[k]
  {
    assert hs[..k + 1][..k] == hs[..k];
  }

  lemma {:induction false} BothGrow(a: multiset<Item>, b: multiset<Item>, h: multiset<Item>, g: multiset<Item>)
    requires a == b && h == g
    ensures a + h == b + g
  {
  }

  lemma {:induction false} SharesSum(
    names: seq<string>, dir: string, flat: bool, skips: set<Item>, points: seq<string>, hs: seq<multiset<Item>>, k: nat)
    requires k <= |hs| == |points| + 1 && Shares(names, dir, flat, skips, points, hs, k)
    ensures Sum(hs[..k]) == Handed(ShardListings(names, dir, flat, points, k), skips)
    decreases k
  {
    if k == 0 {
      assert Delivered([], skips) == [];
    } else {
      SharesSum(names, dir, flat, skips, points, hs, k - 1);
      SumMore(hs, k - 1);
      MoreShards(names, dir, flat, points, skips, k - 1);
      BothGrow(Sum(hs[..k - 1]), Handed(ShardListings(names, dir, flat, points, k - 1), skips), hs[k - 1],
        Handed(ShardListing(names, dir, flat, points, k - 1), skips));
    }
  }

  /** The shares of the shards add up to what the sequential listing has to hand on. */
  lemma {:induction false} SharesEqualSequential(
    names: seq<string>, dir: string, flat: bool, skips: set<Item>, points: seq<string>, cs: string,
    hs: seq<multiset<Item>>)
    requires Ascending(names) && Rungs(dir, points, cs)
    requires |hs| == |points| + 1 && Shares(names, dir, flat, skips, points, hs, |hs|)
    ensures Sum(hs) == Handed(Listing(names, dir, flat, "", ""), skips)
  {
    assert hs[..|hs|] == hs;
    SharesSum(names, dir, flat, skips, points, hs, |hs|);
    ShardsEqualSequential(names, dir, flat, points, cs);
  }

  /** `runs` are the passes of the shards that were started, one after the other: all of them,
      unless one failed or the caller has cancelled; `first` is the failure that was seen first. */
  ghost predicate Started(hs: seq<multiset<Item>>, runs: seq<PagerRun>, first: Option<Failure>, cancelled: bool)
  {
    && |runs| <= |hs|
    && (forall i :: 0 <= i < |runs| ==> Legit(runs[i], hs[i]))
    && (first.None? <==> forall i :: 0 <= i < |runs| ==> runs[i].err.None?)
    && (first.None? && !cancelled ==> |runs| == |hs|)
  }

  /** The raw items that were seen in all. */
  function Total(runs: seq<PagerRun>): (n: nat)
  {
    if runs == [] then 0 else Total(runs[..|runs| - 1]) + runs[|runs| - 1].found
  }

  /** The items that were handed on in all. */
  function AllDelivered(runs: seq<PagerRun>): (m: multiset<Item>)
  {
    if runs == [] then multiset{} else AllDelivered(runs[..|runs| - 1]) + runs[|runs| - 1].delivered
  }

  /** The workers: each adds what it saw, and hands on what it got. */
  method RunShards(shards: seq<Shard>, runs: seq<PagerRun>) returns (total: nat, ghost delivered: multiset<Item>)
    requires |runs| <= |shards|
    ensures total == Total(runs) && delivered == AllDelivered(runs)
  {
    total, delivered := 0, multiset{};
    for k := 0 to |runs|
      invariant total == Total(runs[..k]) && delivered == AllDelivered(runs[..k])
    {
      assert runs[..k + 1][..k] == runs[..k];
      total := total + runs[k].found;
      delivered := delivered + runs[k].delivered;
    }
    assert runs[..|runs|] == runs;
  }

  lemma {:induction false} SumWithin(m: multiset<Item>, h: multiset<Item>, n: multiset<Item>, g: multiset<Item>)
    requires m <= h && n <= g
    ensures m + n <= h + g && |m + n| == |m| + |n|
    ensures m == h && n == g ==> m + n == h + g
  {
  }

  lemma {:induction false} DeliveredMore(runs: seq<PagerRun>, k: nat)
    requires k < |runs|
    ensures AllDelivered(runs[..k + 1]) == AllDelivered(runs[..k]) + runs[k].delivered
    ensures Total(runs[..k + 1]) == Total(runs[..k]) + runs[k].found
  {
    assert runs[..k + 1][..k] == runs[..k];
  }

  /** The started shards together hand on nothing beyond their shares, and all of them if none fails. */
  lemma {:induction false} DeliveredWithin(hs: seq<multiset<Item>>, runs: seq<PagerRun>, k: nat)
    requires k <= |runs| <= |hs| && forall i :: 0 <= i < |runs| ==> Legit(runs[i], hs[i])
    ensures AllDelivered(runs[..k]) <= Sum(hs[..k]) && |AllDelivered(runs[..k])| <= Total(runs[..k])
    ensures (forall i :: 0 <= i < k ==> runs[i].err.None?) ==> AllDelivered(runs[..k]) == Sum(hs[..k])
  {
    if k > 0 {
      DeliveredWithin(hs, runs, k - 1);
      SumMore(hs, k - 1);
      DeliveredMore(runs, k - 1);
      SumWithin(AllDelivered(runs[..k - 1]), Sum(hs[..k - 1]), runs[k - 1].delivered, hs[k - 1]);
    }
  }

  /** No shard from `n` on, up to `k`, has anything to hand on. */
  ghost predicate NothingFrom(hs: seq<multiset<Item>>, n: nat, k: nat)
    requires k <= |hs|
  {
    forall i :: n <= i < k ==> hs[i] == multiset{}
  }

  lemma {:induction false} NothingAdded(a: multiset<Item>, b: multiset<Item>, h: multiset<Item>)
    requires a <= b
    ensures a <= b + h
    ensures a == b + h <==> a == b && h == multiset{}
  {
    if a == b + h {
      forall x ensures h[x] == 0 && a[x] == b[x] {
        assert a[x] <= b[x] && (b + h)[x] == b[x] + h[x];
      }
      assert a == b && h == multiset{};
    }
  }

  /** The first `n` shards hand on all there is exactly when the others have nothing to hand on. */
  lemma {:induction false} NothingFromIff(hs: seq<multiset<Item>>, n: nat, k: nat)
    requires n <= k <= |hs|
    ensures Sum(hs[..n]) <= Sum(hs[..k])
    ensures NothingFrom(hs, n, k) <==> Sum(hs[..n]) == Sum(hs[..k])
    decreases k
  {
    if n < k {
      NothingFromIff(hs, n, k - 1);
      assert hs[..k][..k - 1] == hs[..k - 1];
      NothingAdded(Sum(hs[..n]), Sum(hs[..k - 1]), hs[k - 1]);
    }
  }

  /** What the started shards come to. */
  lemma {:induction false} ShardsOutcome(
    hs: seq<multiset<Item>>, runs: seq<PagerRun>, first: Option<Failure>, cancelled: bool)
    requires Started(hs, runs, first, cancelled)
    ensures AllDelivered(runs) <= Sum(hs) && |AllDelivered(runs)| <= Total(runs)
    ensures first.None? ==> (AllDelivered(runs) == Sum(hs) <==> NothingFrom(hs, |runs|, |hs|))
  {
    assert runs[..|runs|] == runs && hs[..|hs|] == hs;
    DeliveredWithin(hs, runs, |runs|);
    NothingFromIff(hs, |runs|, |hs|);
  }

  /** The shards at `points`, and the sequential pass `whole` to fall back on, which is made only
      when nothing was seen: what has been handed on is handed on. */
  method RunOrFallBack(points: seq<string>, runs: seq<PagerRun>, first: Option<Failure>, whole: PagerRun)
    returns (found: nat, err: Option<Failure>, disabled: bool, sequential: bool, ghost delivered: multiset<Item>)
    requires |runs| <= |points| + 1
    ensures disabled <==> first == Some(EndBeforeUnsupported)
    ensures sequential <==> disabled && Total(runs) == 0
    ensures found == (if sequential then whole.found else Total(runs)) && err == if sequential then whole.err else first
    ensures delivered == AllDelivered(runs) + if sequential then whole.delivered else multiset{}
  {
    var shards := BuildShards(points);
    found, delivered := RunShards(shards, runs);
    err, disabled, sequential := first, false, false;
    if err == Some(EndBeforeUnsupported) {
      disabled := true;
      if found == 0 {
        sequential := true;
        found, err, delivered := whole.found, whole.err, delivered + whole.delivered;
      }
    }
  }

  /** The parallel listing of a directory whose sequential listing has `all` to hand on, `whole`
      being what a sequential pass does.  Nothing is ever handed on twice.  Without an error
      everything is handed on exactly when the sequential pass was made, or the shards that were not
      started, the caller having cancelled, had nothing to hand on. */
  method ListArrowParallel(
    ghost names: seq<string>, dir: string, ghost flat: bool, ghost skips: set<Item>, client: bool, parallelism: int,
    runs: seq<PagerRun>, first: Option<Failure>, ghost cancelled: bool, whole: PagerRun,
    ghost all: multiset<Item>, ghost hs: seq<multiset<Item>>)
    returns (found: nat, err: Option<Failure>, disabled: bool, sequential: bool, ghost delivered: multiset<Item>)
    requires Ascending(names) && all == Handed(Listing(names, dir, flat, "", ""), skips) && Legit(whole, all)
    requires |hs| == Clipped(parallelism * 4) + 1
    requires Shares(names, dir, flat, skips, Points(dir, parallelism * 4), hs, |hs|)
    requires client && parallelism >= 1 ==> Started(hs, runs, first, cancelled)
    ensures delivered <= all && |delivered| <= found
    ensures err.None? ==> (delivered == all <==> sequential || NothingFrom(hs, |runs|, |hs|))
    ensures disabled <==> client && parallelism >= 1 && first == Some(EndBeforeUnsupported)
    ensures sequential <==> !client || parallelism < 1 || (disabled && Total(runs) == 0)
    ensures found == (if sequential then whole.found else Total(runs)) && err == if sequential then whole.err else first
    ensures delivered == if sequential then whole.delivered else AllDelivered(runs)
  {
    if !client {
      return whole.found, whole.err, false, true, whole.delivered;
    }
    var points, cs := LadderBoundaries(dir, parallelism * 4);
    PointsAreRungs(dir, parallelism * 4, points, cs);
    if |points| < 1 {
      return whole.found, whole.err, false, true, whole.delivered;
    }
    SharesEqualSequential(names, dir, flat, skips, points, cs, hs);
    ShardsOutcome(hs, runs, first, cancelled);
    found, err, disabled, sequential, delivered := RunOrFallBack(points, runs, first, whole);
    WithFallBack(AllDelivered(runs), Total(runs), whole.delivered);
  }

  lemma {:induction false} WithFallBack(delivered: multiset<Item>, total: nat, more: multiset<Item>)
    requires |delivered| <= total
    ensures total == 0 ==> delivered + more == more
    ensures delivered + multiset{} == delivered
  {
    if total == 0 {
      assert delivered == multiset{};
    }
  }

  /** A caller that has cancelled beforehand is told that all went well, and gets nothing. */
  method CancelledAtOnce(
    ghost names: seq<string>, dir: string, ghost flat: bool, ghost skips: set<Item>, parallelism: int,
    ghost all: multiset<Item>, ghost hs: seq<multiset<Item>>)
    returns (err: Option<Failure>, ghost delivered: multiset<Item>)
    requires Ascending(names) && all == Handed(Listing(names, dir, flat, "", ""), skips)
    requires |hs| == Clipped(parallelism * 4) + 1
    requires Shares(names, dir, flat, skips, Points(dir, parallelism * 4), hs, |hs|) && parallelism >= 1
    ensures err.None? && delivered == multiset{}
  {
    var whole := PagerRun(multiset{}, 0, Some(OtherFailure));
    var found, disabled, sequential;
    found, err, disabled, sequential, delivered :=
      ListArrowParallel(names, dir, flat, skips, true, parallelism, [], None, true, whole, all, hs);
  }

  /** Though there is a blob to hand on. */
  lemma {:induction false} CancelledMissesBlob(name: string)
    ensures Ascending([name]) && Handed(Listing([name], "", true, "", ""), {}) == multiset{Blob(name)}
  {
    assert Listing([], "", true, "", "") == [] && Delivered([], {}) == [];
    assert [name][..0] == [] && [Blob(name)][..0] == [];
    assert Listing([name], "", true, "", "") == [Blob(name)];
  }

  /** Of a list without repetitions, what is handed on is each item that is not skipped, once. */
  lemma {:induction false} DeliveredOnce(items: seq<Item>, skips: set<Item>, item: Item)
    requires forall i, j :: 0 <= i < j < |items| ==> items[i] != items[j]
    ensures Handed(items, skips)[item] == if item in items && item !in skips then 1 else 0
  {
    if items != [] {
      var n := |items| - 1;
      DeliveredOnce(items[..n], skips, item);
      assert items[n] !in items[..n];
      assert item in items[..n] ==> item in items;
    }
  }

  /** So in any run, whether it fails or not, no item is handed on more than once, and when all is
      handed on, each item listed and not skipped is. */
  lemma {:induction false} NeverTwice(
    names: seq<string>, dir: string, flat: bool, skips: set<Item>, delivered: multiset<Item>, item: Item)
    requires delivered <= Handed(Listing(names, dir, flat, "", ""), skips)
    ensures delivered[item] <= 1
    ensures delivered == Handed(Listing(names, dir, flat, "", ""), skips) ==>
      (item in delivered <==> item in Listing(names, dir, flat, "", "") && item !in skips)
  {
    ListedOnce(names, dir, flat, "", "");
    DeliveredOnce(Listing(names, dir, flat, "", ""), skips, item);
  }
}

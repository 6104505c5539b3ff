/** Names for remotes whose configuration is overridden (fs/newfs.go). */
module Overrides {
  import opened Wrappers
  import opened Text

  const HASH_LENGTH := 22  // 16 bytes in base64 without padding

  /** The name of a configuration by the first `k` characters of its hash. */
  function Suffix(hash: string, k: nat): (s: string)
    requires k <= |hash|
    ensures |s| == k + 2 && s[0] == '{' && s[|s| - 1] == '}'
  {
    "{" + hash[..k] + "}"
  }

  lemma {:induction false} SuffixSame(a: string, b: string, j: nat, k: nat)
    requires j <= |a| && k <= |b| && Suffix(a, j) == Suffix(b, k)
    ensures j == k && a[..j] == b[..k]
  {
    assert Suffix(a, j)[1..j + 1] == a[..j];
    assert Suffix(b, k)[1..k + 1] == b[..k];
  }

  lemma {:induction false} FullName(a: string, b: string, j: nat)
    requires |a| == |b| == HASH_LENGTH && j <= HASH_LENGTH && Suffix(a, HASH_LENGTH) == Suffix(b, j)
    ensures a == b
  {
    SuffixSame(a, b, HASH_LENGTH, j);
    assert a[..HASH_LENGTH] == a && b[..HASH_LENGTH] == b;
  }

  /** The shortest name from length `k` on that no other configuration has taken. */
  function Assigned(taken: map<string, string>, hash: string, config: string, k: nat): (s: Option<string>)
    requires |hash| == HASH_LENGTH && 5 <= k
    decreases HASH_LENGTH + 1 - k
  {
    if k > HASH_LENGTH then None
    else if Suffix(hash, k) !in taken || taken[Suffix(hash, k)] == config then Some(Suffix(hash, k))
    else Assigned(taken, hash, config, k + 1)
  }

  /** There is no name left exactly when other configurations have taken all of them. */
  lemma {:induction false} NoneLeftIff(taken: map<string, string>, hash: string, config: string, k: nat)
    requires |hash| == HASH_LENGTH && 5 <= k
    ensures Assigned(taken, hash, config, k).None? <==>
      forall j :: k <= j <= HASH_LENGTH ==> Suffix(hash, j) in taken && taken[Suffix(hash, j)] != config
    decreases HASH_LENGTH + 1 - k
  {
    if k <= HASH_LENGTH {
      NoneLeftIff(taken, hash, config, k + 1);
    }
  }

  /** A name that is assigned and taken stays assigned, whatever else is taken later. */
  lemma {:induction false} AssignedStays(
    taken: map<string, string>, later: map<string, string>, hash: string, config: string, k: nat)
    requires |hash| == HASH_LENGTH && 5 <= k && Assigned(taken, hash, config, k).Some?
    requires forall s :: s in taken ==> s in later && later[s] == taken[s]
    requires var s := Assigned(taken, hash, config, k).value; s in later && later[s] == config
    ensures Assigned(later, hash, config, k) == Assigned(taken, hash, config, k)
    decreases HASH_LENGTH + 1 - k
  {
    if Suffix(hash, k) in taken && taken[Suffix(hash, k)] != config {
      AssignedStays(taken, later, hash, config, k + 1);
    }
  }

  lemma {:induction false} AssignedIsName(
    taken: map<string, string>, hash: string, config: string, k: nat) returns (j: nat)
    requires |hash| == HASH_LENGTH && 5 <= k && Assigned(taken, hash, config, k).Some?
    ensures k <= j <= HASH_LENGTH && Assigned(taken, hash, config, k) == Some(Suffix(hash, j))
    ensures Suffix(hash, j) !in taken || taken[Suffix(hash, j)] == config
    decreases HASH_LENGTH + 1 - k
  {
    if Suffix(hash, k) !in taken || taken[Suffix(hash, k)] == config {
      j := k;
    } else {
      j := AssignedIsName(taken, hash, config, k + 1);
    }
  }

  class Registry {
    const hash: string -> string
    var overridden: map<string, string>

    /** Every taken name is made from the hash of the configuration that took it. */
    ghost predicate Valid()
      reads this
    {
      && (forall c :: |hash(c)| == HASH_LENGTH)
      && (forall s :: s in overridden ==> NameOf(s, hash(overridden[s])))
    }

    constructor (hash: string -> string)
      requires forall c :: |hash(c)| == HASH_LENGTH
      ensures Valid() && overridden == map[] && this.hash == hash
    {
      this.hash, overridden := hash, map[];
    }

    /** The suffix for an overridden configuration; None if the search runs past the hash. */
    method NewSuffix(config: string) returns (suffix: Option<string>)
      requires Valid()
      modifies this`overridden
      ensures Valid()
      ensures suffix == Assigned(old(overridden), hash(config), config, 5)
      ensures overridden == if suffix.Some? then old(overridden)[suffix.value := config] else old(overridden)
      ensures suffix.Some? ==> forall s :: s in old(overridden) ==>
        s in overridden && overridden[s] == old(overridden)[s]
    {
      var h := hash(config);
      var k := 5;
      while k <= HASH_LENGTH
        invariant 5 <= k <= HASH_LENGTH + 1
        invariant Assigned(overridden, h, config, 5) == Assigned(overridden, h, config, k)
      {
        var s := Suffix(h, k);
        if s !in overridden || overridden[s] == config {
          overridden := overridden[s := config];
          return Some(s);
        }
        k := k + 1;
      }
      return None;
    }

    /** With hashes that differ, the search always ends within the hash. */
    lemma {:induction false} NeverRunsOut(config: string)
      requires Valid()
      requires forall s :: s in overridden && hash(overridden[s]) == hash(config) ==> overridden[s] == config
      ensures Assigned(overridden, hash(config), config, 5).Some?
    {
      NoneLeftIff(overridden, hash(config), config, 5);
      var s := Suffix(hash(config), HASH_LENGTH);
      if s in overridden && overridden[s] != config {
        var other := hash(overridden[s]);
        var j :| 5 <= j <= HASH_LENGTH && s == Suffix(other, j);
        FullName(hash(config), other, j);
      }
    }

    /** The configuration string of a remote called `name`; for the full one, a suffix is replaced
        by the configuration it stands for. */
    method ConfigString(name: string, root: string, local: bool, full: bool) returns (s: string)
      ensures s == Described(overridden, name, root, local, full)
    {
      var n := name;
      var i := 0;
      while i < |name| && name[i] != '{'
        invariant 0 <= i <= |name| && '{' !in name[..i]
      {
        i := i + 1;
      }
      BraceAt(name, i);
      if full && i < |name| && name[|name| - 1] == '}' {
        var suffix := name[i..];
        if suffix in overridden {
          n := name[..i] + "," + overridden[suffix];
        }
      }
      if n == "local" && local {
        return root;
      }
      return n + ":" + root;
    }
  }

  ghost predicate NameOf(s: string, h: string)
    requires |h| == HASH_LENGTH
  {
    exists k :: 5 <= k <= HASH_LENGTH && s == Suffix(h, k)
  }

  lemma {:induction false} BraceAt(s: string, i: nat)
    requires i <= |s| && '{' !in s[..i] && (i == |s| || s[i] == '{')
    ensures IndexOf(s, '{') == if i == |s| then None else Some(i)
    decreases i
  {
    if i > 0 {
      assert s[..i][0] in s[..i];
      assert s[1..][..i - 1] == s[..i][1..];
      BraceAt(s[1..], i - 1);
    }
  }

  function Described(overridden: map<string, string>, name: string, root: string, local: bool, full: bool): (s: string)
  {
    var n := Expanded(overridden, name, full);
    if n == "local" && local then root else n + ":" + root
  }

  function Expanded(overridden: map<string, string>, name: string, full: bool): (n: string)
  {
    var open := IndexOf(name, '{');
    if full && open.Some? && open.value < |name| && name[|name| - 1] == '}' && name[open.value..] in overridden
    then name[..open.value] + "," + overridden[name[open.value..]]
    else name
  }

  /** The full string of a remote with a suffix gives back the configuration that got it. */
  lemma {:induction false} ExpandedRecovers(overridden: map<string, string>, base: string, hash: string, k: nat)
    requires '{' !in base && k <= |hash| && Suffix(hash, k) in overridden
    ensures Expanded(overridden, base + Suffix(hash, k), true) == base + "," + overridden[Suffix(hash, k)]
    ensures Expanded(overridden, base + Suffix(hash, k), false) == base + Suffix(hash, k)
  {
    var name := base + Suffix(hash, k);
    assert name[..|base|] == base && name[|base|..] == Suffix(hash, k);
    BraceAt(name, |base|);
  }

  /** The first colon of a string without overridden parameters is the one between name and root, and
      a local path has none of its own. */
  lemma {:induction false} DescribedSplit(overridden: map<string, string>, name: string, root: string, local: bool)
    requires ':' !in name
    ensures var s := Described(overridden, name, root, local, false);
      if local && name == "local" then s == root
      else IndexOf(s, ':') == Some(|name|) && s[..|name|] == name && s[|name| + 1..] == root
  {
    ColonAfter(name, root);
    assert (name + ":" + root)[|name| + 1..] == root;
  }

  lemma {:induction false} ColonAfter(name: string, root: string)
    requires ':' !in name
    ensures IndexOf(name + ":" + root, ':') == Some(|name|)
  {
    var s := name + ":" + root;
    assert s[|name|] == ':';
    assert ':' in s;
    assert forall i :: 0 <= i < |name| ==> s[i] == name[i] && name[i] in name;
  }

  /** The full string of a remote with overridden parameters names them, a local one too. */
  lemma {:induction false} DescribedFull(
    overridden: map<string, string>, base: string, hash: string, k: nat, root: string, local: bool)
    requires '{' !in base && k <= |hash| && Suffix(hash, k) in overridden
    ensures Described(overridden, base + Suffix(hash, k), root, local, true) ==
      base + "," + overridden[Suffix(hash, k)] + ":" + root
  {
    ExpandedRecovers(overridden, base, hash, k);
    var n := base + "," + overridden[Suffix(hash, k)];
    assert n[|base|] == ',';
    assert n == "local" ==> ',' in "local";
  }

  /** A name without a suffix that stands for parameters is its own full name. */
  lemma {:induction false} ExpandedSame(overridden: map<string, string>, name: string)
    requires forall i :: 0 <= i < |name| && name[i] == '{' ==>
      '{' in name[..i] || name[|name| - 1] != '}' || name[i..] !in overridden
    ensures Expanded(overridden, name, true) == name
  {
    var open := IndexOf(name, '{');
    assert open.Some? ==> name[open.value] == '{' && '{' !in name[..open.value];
  }

  /** Any sequence of remotes, with hashes that differ for all the configurations there are: every one gets
      a suffix, the same configuration always the same one, and different ones different ones. */
  method NewAll(r: Registry, configs: seq<string>, ghost all: set<string>) returns (suffixes: seq<string>)
    requires r.Valid()
    requires forall a, b :: a in all && b in all && r.hash(a) == r.hash(b) ==> a == b
    requires (forall c :: c in configs ==> c in all) && forall s :: s in r.overridden ==> r.overridden[s] in all
    modifies r
    ensures r.Valid() && |suffixes| == |configs|
    ensures forall i :: 0 <= i < |configs| ==> suffixes[i] in r.overridden && r.overridden[suffixes[i]] == configs[i]
    ensures forall i, j :: 0 <= i < j < |configs| ==> (suffixes[i] == suffixes[j] <==> configs[i] == configs[j])
  {
    suffixes := [];
    for n := 0 to |configs|
      invariant r.Valid() && |suffixes| == n && forall s :: s in r.overridden ==> r.overridden[s] in all
      invariant Named(r.overridden, r.hash, configs[..n], suffixes)
    {
      assert configs[n] in configs;
      r.NeverRunsOut(configs[n]);
      ghost var before := r.overridden;
      var s := r.NewSuffix(configs[n]);
      NamedMore(before, r.overridden, r.hash, configs, n, suffixes, s.value);
      suffixes := suffixes + [s.value];
    }
    assert configs[..|configs|] == configs;
    NamedApart(r.overridden, r.hash, configs, suffixes);
  }

  /** Each configuration has the suffix it would be assigned again. */
  ghost predicate Named(taken: map<string, string>, hash: string -> string, configs: seq<string>, suffixes: seq<string>)
  {
    && |suffixes| == |configs|
    && forall i :: 0 <= i < |configs| ==>
      && |hash(configs[i])| == HASH_LENGTH
      && suffixes[i] in taken && taken[suffixes[i]] == configs[i]
      && Assigned(taken, hash(configs[i]), configs[i], 5) == Some(suffixes[i])
  }

  lemma {:induction false} NamedMore(
    taken: map<string, string>, later: map<string, string>, hash: string -> string,
    configs: seq<string>, n: nat, suffixes: seq<string>, s: string)
    requires n < |configs| && Named(taken, hash, configs[..n], suffixes)
    requires |hash(configs[n])| == HASH_LENGTH && Assigned(taken, hash(configs[n]), configs[n], 5) == Some(s)
    requires later == taken[s := configs[n]]
    requires forall x :: x in taken ==> x in later && later[x] == taken[x]
    ensures Named(later, hash, configs[..n + 1], suffixes + [s])
  {
    var cs, ss := configs[..n + 1], suffixes + [s];
    forall i | 0 <= i < |cs|
      ensures |hash(cs[i])| == HASH_LENGTH && ss[i] in later && later[ss[i]] == cs[i]
      ensures Assigned(later, hash(cs[i]), cs[i], 5) == Some(ss[i])
    {
      assert i < n ==> cs[i] == configs[..n][i];
      AssignedStays(taken, later, hash(cs[i]), cs[i], 5);
    }
  }

  lemma {:induction false} NamedApart(
    taken: map<string, string>, hash: string -> string, configs: seq<string>, suffixes: seq<string>)
    requires Named(taken, hash, configs, suffixes)
    ensures forall i, j :: 0 <= i < j < |configs| ==> (suffixes[i] == suffixes[j] <==> configs[i] == configs[j])
  {
  }
}

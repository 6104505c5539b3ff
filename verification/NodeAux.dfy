/** Values attached to a node by their owners, in a list that is replaced as a whole (vfs/nodeaux.go). */
module NodeAux {
  import opened Wrappers

  type Owner = nat
  type Value = nat

  datatype Entry = Entry(owner: Owner, value: Value)

  predicate Distinct(es: seq<Entry>)
  {
    forall i, j :: 0 <= i < j < |es| ==> es[i].owner != es[j].owner
  }

  /** What a list means. */
  function AsMap(es: seq<Entry>): (m: map<Owner, Value>)
  {
    if es == [] then map[] else AsMap(es[..|es| - 1])[es[|es| - 1].owner := es[|es| - 1].value]
  }

  /** SetAux on what the list means: attach a value, or remove it. */
  function Updated(m: map<Owner, Value>, owner: Owner, value: Option<Value>): (r: map<Owner, Value>)
  {
    if value.Some? then m[owner := value.value] else m - {owner}
  }

  lemma {:induction false} AsMapKeys(es: seq<Entry>, owner: Owner)
    ensures owner in AsMap(es) <==> exists i :: 0 <= i < |es| && es[i].owner == owner
  {
    if es != [] {
      var n := |es| - 1;
      AsMapKeys(es[..n], owner);
      if owner in AsMap(es) && es[n].owner != owner {
        var i :| 0 <= i < n && es[..n][i].owner == owner;
        assert es[i].owner == owner;
      }
      if exists i :: 0 <= i < |es| && es[i].owner == owner && i != n {
        var i :| 0 <= i < |es| && es[i].owner == owner && i != n;
        assert es[..n][i].owner == owner;
      }
    }
  }

  lemma {:induction false} AsMapAt(es: seq<Entry>, i: nat)
    requires i < |es| && Distinct(es)
    ensures es[i].owner in AsMap(es) && AsMap(es)[es[i].owner] == es[i].value
  {
    var n := |es| - 1;
    if i < n {
      AsMapAt(es[..n], i);
    }
  }

  function Without(es: seq<Entry>, owner: Owner): (r: seq<Entry>)
    ensures forall e :: e in r ==> e in es && e.owner != owner
  {
    if es == [] then []
    else
      var e := es[|es| - 1];
      Without(es[..|es| - 1], owner) + if e.owner != owner then [e] else []
  }

  lemma {:induction false} AsMapMore(es: seq<Entry>, e: Entry)
    ensures AsMap(es + [e]) == AsMap(es)[e.owner := e.value]
    ensures Distinct(es) && (forall x :: x in es ==> x.owner != e.owner) ==> Distinct(es + [e])
  {
    assert (es + [e])[..|es|] == es;
  }

  lemma {:induction false} WithoutLast(es: seq<Entry>, owner: Owner)
    requires es != [] && es[|es| - 1].owner == owner
    ensures Without(es, owner) == Without(es[..|es| - 1], owner)
    ensures AsMap(es) - {owner} == AsMap(es[..|es| - 1]) - {owner}
  {
  }

  lemma {:induction false} UpdateThenRemove(m: map<Owner, Value>, owner: Owner, e: Entry)
    requires e.owner != owner
    ensures (m - {owner})[e.owner := e.value] == m[e.owner := e.value] - {owner}
  {
  }

  lemma {:induction false} WithoutOther(es: seq<Entry>, owner: Owner)
    requires es != [] && es[|es| - 1].owner != owner && Distinct(es)
    requires Distinct(Without(es[..|es| - 1], owner))
    requires AsMap(Without(es[..|es| - 1], owner)) == AsMap(es[..|es| - 1]) - {owner}
    ensures Distinct(Without(es, owner)) && AsMap(Without(es, owner)) == AsMap(es) - {owner}
  {
    var init, e := es[..|es| - 1], es[|es| - 1];
    var r := Without(init, owner);
    forall x | x in r ensures x.owner != e.owner {
      assert x in init;
    }
    AsMapMore(r, e);
    assert Without(es, owner) == r + [e];
    UpdateThenRemove(AsMap(init), owner, e);
  }

  lemma {:induction false} WithoutMeans(es: seq<Entry>, owner: Owner)
    requires Distinct(es)
    ensures Distinct(Without(es, owner)) && AsMap(Without(es, owner)) == AsMap(es) - {owner}
  {
    if es != [] {
      var n := |es| - 1;
      WithoutMeans(es[..n], owner);
      if es[n].owner != owner {
        WithoutOther(es, owner);
      } else {
        WithoutLast(es, owner);
      }
    }
  }

  function Next(es: seq<Entry>, owner: Owner, value: Option<Value>): (r: seq<Entry>)
  {
    Without(es, owner) + if value.Some? then [Entry(owner, value.value)] else []
  }

  /** The list SetAux makes means the updated map, and has each owner once. */
  lemma {:induction false} NextMeans(es: seq<Entry>, owner: Owner, value: Option<Value>)
    requires Distinct(es)
    ensures Distinct(Next(es, owner, value)) && AsMap(Next(es, owner, value)) == Updated(AsMap(es), owner, value)
  {
    WithoutMeans(es, owner);
    var rest := Without(es, owner);
    if value.Some? {
      AsMapMore(rest, Entry(owner, value.value));
      RemoveThenUpdate(AsMap(es), owner, value.value);
    } else {
      NothingMore(rest);
    }
  }

  lemma {:induction false} RemoveThenUpdate(m: map<Owner, Value>, owner: Owner, value: Value)
    ensures (m - {owner})[owner := value] == m[owner := value]
  {
  }

  lemma {:induction false} NothingMore(es: seq<Entry>)
    ensures es + [] == es
  {
  }

  /** The copying loop of SetAux. */
  method CopyEntries(es: seq<Entry>, owner: Owner, value: Option<Value>) returns (r: seq<Entry>)
    ensures r == Next(es, owner, value)
  {
    r := [];
    for i := 0 to |es|
      invariant r == Without(es[..i], owner)
    {
      assert es[..i + 1][..i] == es[..i];
      if es[i].owner != owner {
        r := r + [es[i]];
      }
    }
    assert es[..|es|] == es;
    if value.Some? {
      r := r + [Entry(owner, value.value)];
    }
  }

  datatype Update = Update(thread: nat, owner: Owner, value: Option<Value>)

  /** The map after updates were made one after the other. */
  function Replay(log: seq<Update>): (m: map<Owner, Value>)
  {
    if log == [] then map[]
    else
      var u := log[|log| - 1];
      Updated(Replay(log[..|log| - 1]), u.owner, u.value)
  }

  /** A thread is outside SetAux, has loaded the pointer `seen`, or has made a new list from it. */
  datatype Pc =
    | Outside
    | Loaded(owner: Owner, value: Option<Value>, seen: Option<nat>)
    | Made(owner: Owner, value: Option<Value>, seen: Option<nat>, entries: seq<Entry>)

  function ListAt(lists: seq<seq<Entry>>, p: Option<nat>): (es: seq<Entry>)
  {
    if p.Some? && p.value < |lists| then lists[p.value] else []
  }

  /** What a thread has made is made from the list it loaded. */
  ghost predicate InStep(lists: seq<seq<Entry>>, pc: Pc)
  {
    !pc.Outside? ==>
      && (pc.seen.Some? ==> pc.seen.value < |lists|)
      && (pc.Made? ==> pc.entries == Next(ListAt(lists, pc.seen), pc.owner, pc.value))
  }

  ghost predicate AllInStep(lists: seq<seq<Entry>>, pcs: map<nat, Pc>)
  {
    forall t :: t in pcs ==> InStep(lists, pcs[t])
  }

  lemma {:induction false} AllInStepMore(lists: seq<seq<Entry>>, more: seq<seq<Entry>>, pcs: map<nat, Pc>, t: nat)
    requires AllInStep(lists, pcs) && lists <= more
    ensures AllInStep(more, pcs[t := Outside])
  {
    var moved := pcs[t := Outside];
    forall x | x in moved ensures InStep(more, moved[x]) {
      if x != t {
        assert InStep(lists, pcs[x]);
      }
    }
  }

  /** Every call a thread began made one swap, but for the call it is inside. */
  ghost predicate Counts(pcs: map<nat, Pc>, begun: map<nat, nat>, log: seq<Update>)
  {
    && begun.Keys == pcs.Keys
    && forall t :: t in pcs ==> begun[t] == Swaps(log, t) + if pcs[t].Outside? then 0 else 1
  }

  lemma {:induction false} CountsMore(pcs: map<nat, Pc>, begun: map<nat, nat>, log: seq<Update>, u: Update)
    requires Counts(pcs, begun, log) && u.thread in pcs && !pcs[u.thread].Outside?
    ensures Counts(pcs[u.thread := Outside], begun, log + [u])
  {
    SwapsMore(log, u);
  }

  /** The lists are proper, and the present one means exactly the swaps made so far, in their order. */
  ghost predicate Meaning(entries: Option<nat>, lists: seq<seq<Entry>>, log: seq<Update>)
  {
    && (entries.Some? ==> entries.value < |lists|)
    && (forall i :: 0 <= i < |lists| ==> Distinct(lists[i]) && lists[i] != [])
    && AsMap(ListAt(lists, entries)) == Replay(log)
  }

  /** A swap of the list made from the present one is one update more. */
  lemma {:induction false} MeaningMore(
    entries: Option<nat>, lists: seq<seq<Entry>>, log: seq<Update>, u: Update, next: seq<Entry>,
    newEntries: Option<nat>, newLists: seq<seq<Entry>>)
    requires Meaning(entries, lists, log) && next == Next(ListAt(lists, entries), u.owner, u.value)
    requires ListAt(newLists, newEntries) == next && (newEntries.Some? ==> newEntries.value < |newLists|)
    requires newLists == if next != [] then lists + [next] else lists
    ensures Meaning(newEntries, newLists, log + [u])
    ensures AsMap(ListAt(newLists, newEntries)) == Updated(AsMap(ListAt(lists, entries)), u.owner, u.value)
  {
    NextMeans(ListAt(lists, entries), u.owner, u.value);
    SwapsMore(log, u);
    forall i | 0 <= i < |newLists| ensures Distinct(newLists[i]) && newLists[i] != [] {
      assert i < |lists| ==> newLists[i] == lists[i];
    }
  }

  class Aux {
    var entries: Option<nat>           // the pointer to the present list, None being nil
    var lists: seq<seq<Entry>>         // the lists made so far, by address; none is ever changed
    var pcs: map<nat, Pc>
    ghost var log: seq<Update>         // the successful swaps
    ghost var begun: map<nat, nat>     // how many calls each thread has begun

    function At(p: Option<nat>): (es: seq<Entry>)
      reads this
    {
      ListAt(lists, p)
    }

    /** The present list means exactly the swaps made so far, in their order; and every call has
        made one swap, but for the call a thread is inside. */
    ghost predicate Valid()
      reads this
    {
      && Meaning(entries, lists, log)
      && AllInStep(lists, pcs)
      && Counts(pcs, begun, log)
    }

    constructor (threads: set<nat>)
      ensures Valid() && log == [] && pcs.Keys == threads && entries.None?
      ensures forall t :: t in threads ==> pcs[t].Outside?
    {
      entries, lists, log := None, [], [];
      pcs := map t | t in threads :: Outside;
      begun := map t | t in threads :: 0;
    }

    /** A call begins by loading the pointer. */
    method Load(t: nat, owner: Owner, value: Option<Value>)
      requires Valid() && t in pcs && pcs[t].Outside?
      modifies this`pcs, this`begun
      ensures Valid() && pcs == old(pcs)[t := Loaded(owner, value, entries)]
      ensures begun == old(begun)[t := old(begun)[t] + 1]
    {
      pcs := pcs[t := Loaded(owner, value, entries)];
      begun := begun[t := begun[t] + 1];
    }

    method Make(t: nat)
      requires Valid() && t in pcs && pcs[t].Loaded?
      modifies this`pcs
      ensures Valid() && exists next :: var pc := old(pcs)[t];
        && pcs == old(pcs)[t := Made(pc.owner, pc.value, pc.seen, next)]
        && (Distinct(At(pc.seen)) ==> AsMap(next) == Updated(AsMap(At(pc.seen)), pc.owner, pc.value))
    {
      var pc := pcs[t];
      var next := CopyEntries(At(pc.seen), pc.owner, pc.value);
      if Distinct(At(pc.seen)) {
        NextMeans(At(pc.seen), pc.owner, pc.value);
      }
      pcs := pcs[t := Made(pc.owner, pc.value, pc.seen, next)];
    }

    /** Put the new list in place if the pointer is still the one loaded; otherwise load it again. */
    method Swap(t: nat) returns (ok: bool)
      requires Valid() && t in pcs && pcs[t].Made?
      modifies this`pcs, this`entries, this`lists, this`log
      ensures Valid()
      ensures ok <==> old(entries) == old(pcs)[t].seen
      ensures ok ==>
        pcs == old(pcs)[t := Outside] && log == old(log) + [Update(t, old(pcs)[t].owner, old(pcs)[t].value)]
      ensures ok ==> AsMap(At(entries)) == Updated(old(AsMap(At(entries))), old(pcs)[t].owner, old(pcs)[t].value)
      ensures !ok ==> entries == old(entries) && log == old(log)
      ensures !ok ==> pcs == old(pcs)[t := Loaded(old(pcs)[t].owner, old(pcs)[t].value, entries)]
    {
      var pc := pcs[t];
      if entries != pc.seen {
        pcs := pcs[t := Loaded(pc.owner, pc.value, entries)];
        return false;
      }
      Commit(t, pc);
      return true;
    }

    method Commit(t: nat, pc: Pc)
      requires Valid() && t in pcs && pcs[t] == pc && pc.Made? && entries == pc.seen
      modifies this`pcs, this`entries, this`lists, this`log
      ensures Valid() && pcs == old(pcs)[t := Outside] && log == old(log) + [Update(t, pc.owner, pc.value)]
      ensures AsMap(At(entries)) == Updated(old(AsMap(At(entries))), pc.owner, pc.value)
    {
      ghost var u := Update(t, pc.owner, pc.value);
      assert InStep(lists, pc);
      CountsMore(pcs, begun, log, u);
      Publish(pc.entries);
      MeaningMore(old(entries), old(lists), log, u, pc.entries, entries, lists);
      AllInStepMore(old(lists), lists, pcs, t);
      log := log + [u];
      pcs := pcs[t := Outside];
    }

    /** Point to a new list, or to none when it is empty. */
    method Publish(next: seq<Entry>)
      modifies this`entries, this`lists
      ensures At(entries) == next && (entries.Some? ==> entries.value < |lists|)
      ensures lists == if next != [] then old(lists) + [next] else old(lists)
    {
      if next != [] {
        entries := Some(|lists|);
        lists := lists + [next];
      } else {
        entries := None;
      }
    }

    /** The value attached for `owner`: that of the last update made for it. */
    method Get(owner: Owner) returns (r: Option<Value>)
      requires Valid()
      ensures r == if owner in Replay(log) then Some(Replay(log)[owner]) else None
    {
      var es := At(entries);
      AsMapKeys(es, owner);
      for i := 0 to |es|
        invariant forall j :: 0 <= j < i ==> es[j].owner != owner
      {
        if es[i].owner == owner {
          AsMapAt(es, i);
          return Some(es[i].value);
        }
      }
      return None;
    }
  }

  /** The swaps thread `t` has made. */
  function Swaps(log: seq<Update>, t: nat): (n: nat)
  {
    if log == [] then 0
    else Swaps(log[..|log| - 1], t) + if log[|log| - 1].thread == t then 1 else 0
  }

  lemma {:induction false} SwapsMore(log: seq<Update>, u: Update)
    ensures forall t :: Swaps(log + [u], t) == Swaps(log, t) + if u.thread == t then 1 else 0
    ensures Replay(log + [u]) == Updated(Replay(log), u.owner, u.value)
  {
    assert (log + [u])[..|log|] == log;
  }

  /** An update for one owner leaves the values of all others alone. */
  lemma {:induction false} OthersKept(log: seq<Update>, u: Update, other: Owner)
    requires other != u.owner
    ensures other in Replay(log + [u]) <==> other in Replay(log)
    ensures other in Replay(log) ==> Replay(log + [u])[other] == Replay(log)[other]
    ensures u.owner in Replay(log + [u]) <==> u.value.Some?
    ensures u.value.Some? ==> Replay(log + [u])[u.owner] == u.value.value
  {
    SwapsMore(log, u);
  }

  datatype Step = Begin(t: nat, owner: Owner, value: Option<Value>) | GoOn(t: nat)

  /** Any interleaving of any number of threads.  The list is at all times what the swaps make of
      it one after the other, and a thread outside has made one swap for every call it began. */
  method Run(a: Aux, steps: seq<Step>)
    requires a.Valid()
    modifies a
    ensures a.Valid() && old(a.log) <= a.log
    ensures AsMap(a.At(a.entries)) == Replay(a.log) && Distinct(a.At(a.entries))
    ensures forall t :: t in a.pcs && a.pcs[t].Outside? ==> t in a.begun && a.begun[t] == Swaps(a.log, t)
  {
    for i := 0 to |steps|
      invariant a.Valid() && old(a.log) <= a.log
    {
      match steps[i] {
        case Begin(t, owner, value) =>
          if t in a.pcs && a.pcs[t].Outside? {
            a.Load(t, owner, value);
          }
        case GoOn(t) =>
          if t in a.pcs && a.pcs[t].Loaded? {
            a.Make(t);
          } else if t in a.pcs && a.pcs[t].Made? {
            var _ := a.Swap(t);
          }
      }
    }
  }
}

/** Clearing uncommitted blocks once, with no request in flight (backend/azureblob/azureblob.go). */
module BlockChecker {
  import opened Wrappers

  /** Where an uploader is: outside, with a request in flight, having seen the error that asks for
      clearing, holding the lock while it waits for the other requests, or clearing. */
  datatype Pc = Idle | InFlight | Rejected | Waiting | Clearing

  type Threads = map<nat, Pc>

  /** The uploaders that are at `pc`. */
  function At(pcs: Threads, pc: Pc): (s: set<nat>)
  {
    set t | t in pcs && pcs[t] == pc
  }

  lemma {:induction false} AtMoved(pcs: Threads, t: nat, pc: Pc)
    requires t in pcs
    ensures forall p :: At(pcs[t := pc], p) == if p == pc then At(pcs, p) + {t} else At(pcs, p) - {t}
    ensures t in At(pcs, pcs[t]) && forall p :: p != pcs[t] ==> t !in At(pcs, p)
  {
  }

  /** How far the uploaders are from being idle, if none starts anew. */
  function Distance(pcs: Threads): (n: nat)
  {
    4 * |At(pcs, InFlight)| + 3 * |At(pcs, Rejected)| + 2 * |At(pcs, Waiting)| + |At(pcs, Clearing)|
  }

  lemma {:induction false} InFlightMoved(pcs: Threads, t: nat, pc: Pc)
    requires t in pcs && pcs[t] != pc
    ensures |At(pcs[t := pc], InFlight)| == |At(pcs, InFlight)| +
      (if pc == InFlight then 1 else 0) - (if pcs[t] == InFlight then 1 else 0)
  {
    AtMoved(pcs, t, pc);
  }

  lemma {:induction false} DistanceZero(pcs: Threads)
    ensures Distance(pcs) == 0 <==> forall t :: t in pcs ==> pcs[t] == Idle
  {
    if Distance(pcs) == 0 {
      forall t | t in pcs ensures pcs[t] == Idle {
        assert pcs[t] != Idle ==> t in At(pcs, pcs[t]);
      }
    } else {
      forall pc | pc != Idle && At(pcs, pc) != {} ensures exists t :: t in pcs && pcs[t] != Idle {
        var t :| t in At(pcs, pc);
        assert t in pcs && pcs[t] != Idle;
      }
      assert At(pcs, InFlight) == At(pcs, Rejected) == At(pcs, Waiting) == At(pcs, Clearing) == {} ==>
        Distance(pcs) == 0;
    }
  }

  lemma {:induction false} DistanceMoved(pcs: Threads, t: nat, pc: Pc)
    requires t in pcs && pcs[t] != Idle
    requires pc == Idle || (pcs[t] == InFlight && pc == Rejected) || (pcs[t] == Rejected && pc == Waiting)
      || (pcs[t] == Waiting && pc == Clearing)
    ensures Distance(pcs[t := pc]) < Distance(pcs)
  {
    AtMoved(pcs, t, pc);
  }

  class Checker {
    var holder: Option<nat>  // who holds startMu
    var inFlight: nat
    var cleared: bool
    var pcs: Threads
    ghost var clears: nat    // clearings begun

    ghost predicate Valid()
      reads this
    {
      && inFlight == |At(pcs, InFlight)|
      && (forall t :: t in pcs && (pcs[t] == Waiting || pcs[t] == Clearing) ==> holder == Some(t) && !cleared)
      && (holder.Some? ==> holder.value in pcs && (pcs[holder.value] == Waiting || pcs[holder.value] == Clearing))
      && (holder.Some? && pcs[holder.value] == Clearing ==> inFlight == 0)
      && clears == (if cleared || (holder.Some? && pcs[holder.value] == Clearing) then 1 else 0)
    }

    constructor (threads: set<nat>)
      ensures Valid() && pcs.Keys == threads && !cleared && clears == 0
      ensures forall t :: t in threads ==> pcs[t] == Idle
    {
      holder, inFlight, cleared, clears := None, 0, false, 0;
      pcs := map t | t in threads :: Idle;
      new;
      assert At(pcs, InFlight) == {};
    }

    predicate CanStart(t: nat)
      reads this
    {
      t in pcs && pcs[t] == Idle && holder.None?
    }

    /** A request starts, which it cannot while the lock is held. */
    method Start(t: nat)
      requires Valid() && CanStart(t)
      modifies this`inFlight, this`pcs
      ensures Valid() && pcs == old(pcs)[t := InFlight]
    {
      InFlightMoved(pcs, t, InFlight);
      inFlight := inFlight + 1;
      pcs := pcs[t := InFlight];
    }

    /** A request ends; `rejected` if it ran into blocks that have to be cleared. */
    method Stop(t: nat, rejected: bool)
      requires Valid() && t in pcs && pcs[t] == InFlight
      modifies this`inFlight, this`pcs
      ensures Valid() && pcs == old(pcs)[t := if rejected then Rejected else Idle]
      ensures Distance(pcs) < Distance(old(pcs))
    {
      var pc := if rejected then Rejected else Idle;
      InFlightMoved(pcs, t, pc);
      DistanceMoved(pcs, t, pc);
      inFlight := inFlight - 1;
      pcs := pcs[t := pc];
    }

    /** checkErr takes the lock, and gives it back at once when the blocks were cleared before. */
    method Acquire(t: nat)
      requires Valid() && t in pcs && pcs[t] == Rejected && holder.None?
      modifies this`holder, this`pcs
      ensures Valid() && pcs == old(pcs)[t := if cleared then Idle else Waiting]
      ensures Distance(pcs) < Distance(old(pcs))
    {
      var pc := if cleared then Idle else Waiting;
      InFlightMoved(pcs, t, pc);
      DistanceMoved(pcs, t, pc);
      holder := if cleared then None else Some(t);
      pcs := pcs[t := pc];
    }

    /** With no request in flight, the holder of the lock begins to clear. */
    method BeginClear(t: nat)
      requires Valid() && t in pcs && pcs[t] == Waiting && inFlight == 0
      modifies this`pcs, this`clears
      ensures Valid() && pcs == old(pcs)[t := Clearing] && clears == 1 && old(clears) == 0
      ensures Distance(pcs) < Distance(old(pcs))
    {
      InFlightMoved(pcs, t, Clearing);
      DistanceMoved(pcs, t, Clearing);
      clears := clears + 1;
      pcs := pcs[t := Clearing];
    }

    method EndClear(t: nat)
      requires Valid() && t in pcs && pcs[t] == Clearing
      modifies this`pcs, this`cleared, this`holder
      ensures Valid() && pcs == old(pcs)[t := Idle] && cleared && holder.None?
      ensures Distance(pcs) < Distance(old(pcs))
    {
      InFlightMoved(pcs, t, Idle);
      DistanceMoved(pcs, t, Idle);
      cleared := true;
      holder := None;
      pcs := pcs[t := Idle];
    }

    /** Whether uploader `t` can go on without anything new being started. */
    predicate CanMove(t: nat)
      reads this
    {
      && t in pcs
      && match pcs[t]
         case Idle => false
         case InFlight => true
         case Rejected => holder.None?
         case Waiting => inFlight == 0
         case Clearing => true
    }

    /** No deadlock: as long as some uploader is not idle, some uploader can go on. */
    lemma {:induction false} SomeoneCanMove()
      requires Valid() && exists t :: t in pcs && pcs[t] != Idle
      ensures exists t :: CanMove(t)
    {
      if inFlight > 0 {
        var t :| t in At(pcs, InFlight);
        assert CanMove(t);
      } else if holder.Some? {
        assert CanMove(holder.value);
      } else {
        var t :| t in pcs && pcs[t] != Idle;
        assert At(pcs, InFlight) == {};
        assert pcs[t] == InFlight ==> t in At(pcs, InFlight);
        assert CanMove(t);
      }
    }

    /** Uploader `t` goes on; `rejected` is the outcome of its request if it has one in flight. */
    method Move(t: nat, rejected: bool)
      requires Valid() && CanMove(t)
      modifies this
      ensures Valid() && clears <= 1 && pcs.Keys == old(pcs.Keys)
      ensures Distance(pcs) < Distance(old(pcs))
    {
      match pcs[t] {
        case InFlight => Stop(t, rejected);
        case Rejected => Acquire(t);
        case Waiting => BeginClear(t);
        case Clearing => EndClear(t);
      }
    }

    /** Whatever the schedule, once nothing new is started all uploaders become idle. */
    method Drain()
      requires Valid()
      modifies this
      ensures Valid() && clears <= 1 && forall t :: t in pcs ==> pcs[t] == Idle
    {
      DistanceZero(pcs);
      while exists t :: t in pcs && pcs[t] != Idle
        invariant Valid()
        decreases Distance(pcs)
      {
        SomeoneCanMove();
        assert exists t :: t in pcs && CanMove(t);
        var t :| t in pcs && CanMove(t);
        var rejected: bool := *;
        Move(t, rejected);
      }
    }
  }

  /** Any interleaving: a step of a schedule starts a request or lets an uploader go on. */
  datatype Step = Begin(t: nat) | GoOn(t: nat, rejected: bool)

  method Run(c: Checker, steps: seq<Step>)
    requires c.Valid()
    modifies c
    ensures c.Valid() && c.clears <= 1
    ensures forall t :: t in c.pcs && c.pcs[t] == Clearing ==> At(c.pcs, InFlight) == {}
  {
    for i := 0 to |steps|
      invariant c.Valid()
    {
      match steps[i] {
        case Begin(t) =>
          if c.CanStart(t) {
            c.Start(t);
          }
        case GoOn(t, rejected) =>
          if c.CanMove(t) {
            c.Move(t, rejected);
          }
      }
    }
  }
}

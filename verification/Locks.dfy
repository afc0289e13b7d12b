/** `ZoneLocks` of `internal/state/zones.go` and the locking of `applyZone`. */
module Locks {
  class Mutex {
    constructor ()
    {
    }
  }

  class ZoneLocks {
    var locks: map<string, Mutex>

    /** Different zones have different locks. */
    ghost predicate Valid()
      reads this
    {
      forall y, z :: y in locks && z in locks && locks[y] == locks[z] ==> y == z
    }

    constructor ()
      ensures Valid() && locks == map[]
    {
      locks := map[];
    }

    /** `For`: the zone's lock, made on first use and never replaced. */
    method For(zone: string) returns (m: Mutex)
      requires Valid()
      modifies this
      ensures Valid()
      ensures zone in locks && locks[zone] == m
      ensures forall z :: z in old(locks) ==> z in locks && locks[z] == old(locks[z])
      ensures forall z :: z in locks ==> z in old(locks) || z == zone
    {
      if zone in locks {
        return locks[zone];
      }
      m := new Mutex();
      assert forall z :: z in locks ==> locks[z] != m;
      locks := locks[zone := m];
    }
  }

  // ----- every interleaving of applyZone callers -------------------------------

  /** Where a thread is in `applyZone`: outside, holding a reference to the zone's lock, or
      between Lock and Unlock. Lock references are numbered in order of creation. */
  datatype Place = Outside | Waiting(zone: string, lock: nat) | Inside(zone: string, lock: nat)

  datatype World = World(locks: map<string, nat>, made: nat, holder: map<nat, nat>, places: map<nat, Place>)

  const QUIET := World(map[], 0, map[], map[])

  datatype Action = Enter(thread: nat, zone: string) | Acquire(thread: nat) | Leave(thread: nat)

  function PlaceOf(w: World, thread: nat): Place {
    if thread in w.places then w.places[thread] else Outside
  }

  /** The world after `For(zone)`, which is atomic under the table's own mutex. */
  function Named(w: World, zone: string): World {
    if zone in w.locks then w else w.(locks := w.locks[zone := w.made], made := w.made + 1)
  }

  /** A thread may always ask for a zone's lock; it may lock a mutex nobody holds. */
  predicate Enabled(w: World, a: Action) {
    match a
    case Enter(t, _) => PlaceOf(w, t).Outside?
    case Acquire(t) => PlaceOf(w, t).Waiting? && PlaceOf(w, t).lock !in w.holder
    case Leave(t) => PlaceOf(w, t).Inside?
  }

  function Act(w: World, a: Action): World
    requires Enabled(w, a)
  {
    match a
    case Enter(t, zone) =>
      var named := Named(w, zone);
      named.(places := named.places[t := Waiting(zone, named.locks[zone])])
    case Acquire(t) =>
      var p := PlaceOf(w, t);
      w.(holder := w.holder[p.lock := t], places := w.places[t := Inside(p.zone, p.lock)])
    case Leave(t) =>
      w.(holder := w.holder - {PlaceOf(w, t).lock}, places := w.places[t := Outside])
  }

  /** The actions can happen in this order. */
  ghost predicate Possible(actions: seq<Action>) {
    actions != [] ==> var n := |actions| - 1;
                      Possible(actions[..n]) && Enabled(Reached(actions[..n]), actions[n])
  }

  ghost function Reached(actions: seq<Action>): World {
    if actions == [] then QUIET
    else
      var before := Reached(actions[..|actions| - 1]);
      if Enabled(before, actions[|actions| - 1]) then Act(before, actions[|actions| - 1]) else before
  }

  ghost predicate Orderly(w: World) {
    && (forall z :: z in w.locks ==> w.locks[z] < w.made)
    && (forall y, z :: y in w.locks && z in w.locks && w.locks[y] == w.locks[z] ==> y == z)
    && (forall t :: t in w.places && !w.places[t].Outside? ==>
          w.places[t].zone in w.locks && w.locks[w.places[t].zone] == w.places[t].lock)
    && (forall t :: t in w.places && w.places[t].Inside? ==>
          w.places[t].lock in w.holder && w.holder[w.places[t].lock] == t)
    && (forall l :: l in w.holder ==> w.holder[l] in w.places && w.places[w.holder[l]].Inside?
                                      && w.places[w.holder[l]].lock == l)
  }

  lemma NamedOrderly(w: World, zone: string)
    requires Orderly(w)
    ensures Orderly(Named(w, zone)) && zone in Named(w, zone).locks
  {
  }

  lemma EnterOrderly(w: World, t: nat, zone: string)
    requires Orderly(w) && PlaceOf(w, t).Outside? && zone in w.locks
    ensures Orderly(w.(places := w.places[t := Waiting(zone, w.locks[zone])]))
  {
  }

  lemma AcquireOrderly(w: World, t: nat)
    requires Orderly(w) && Enabled(w, Acquire(t))
    ensures Orderly(Act(w, Acquire(t)))
  {
  }

  lemma LeaveOrderly(w: World, t: nat)
    requires Orderly(w) && Enabled(w, Leave(t))
    ensures Orderly(Act(w, Leave(t)))
  {
  }

  lemma OrderlyStep(w: World, a: Action)
    requires Orderly(w) && Enabled(w, a)
    ensures Orderly(Act(w, a))
  {
    hide Orderly;
    match a {
      case Enter(t, zone) =>
        NamedOrderly(w, zone);
        EnterOrderly(Named(w, zone), t, zone);
      case Acquire(t) => AcquireOrderly(w, t);
      case Leave(t) => LeaveOrderly(w, t);
    }
  }

  lemma {:induction false} AlwaysOrderly(actions: seq<Action>)
    requires Possible(actions)
    ensures Orderly(Reached(actions))
  {
    hide Orderly, Act, Enabled;
    if actions == [] {
      QuietOrderly();
    } else {
      var n := |actions| - 1;
      AlwaysOrderly(actions[..n]);
      OrderlyStep(Reached(actions[..n]), actions[n]);
    }
  }

  lemma QuietOrderly()
    ensures Orderly(QUIET)
  {
  }

  /** Mutual exclusion: in every interleaving at most one thread is between lock and unlock for a
      zone. */
  lemma OneInside(actions: seq<Action>, t: nat, u: nat)
    requires Possible(actions)
    requires PlaceOf(Reached(actions), t).Inside? && PlaceOf(Reached(actions), u).Inside?
    requires PlaceOf(Reached(actions), t).zone == PlaceOf(Reached(actions), u).zone
    ensures t == u
  {
    hide Reached, Possible;
    AlwaysOrderly(actions);
  }

  /** Zones do not block each other: a waiting thread is held up exactly by a thread inside the
      same zone. */
  lemma BlockedOnlyByOwnZone(actions: seq<Action>, t: nat)
    requires Possible(actions) && PlaceOf(Reached(actions), t).Waiting?
    ensures var w := Reached(actions);
            !Enabled(w, Acquire(t)) <==> exists u :: PlaceOf(w, u).Inside? && PlaceOf(w, u).zone == PlaceOf(w, t).zone
  {
    hide Reached, Possible;
    AlwaysOrderly(actions);
    var w := Reached(actions);
    var p := PlaceOf(w, t);
    if p.lock in w.holder {
      assert PlaceOf(w, w.holder[p.lock]).Inside?;
    }
  }

  /** A zone keeps its lock for the whole run. */
  lemma {:induction false} LockForGood(before: seq<Action>, after: seq<Action>, zone: string)
    requires zone in Reached(before).locks
    ensures zone in Reached(before + after).locks && Reached(before + after).locks[zone] == Reached(before).locks[zone]
  {
    if after == [] {
      assert before + after == before;
    } else {
      var n := |after| - 1;
      LockForGood(before, after[..n], zone);
      assert (before + after)[..|before + after| - 1] == before + after[..n];
    }
  }
}

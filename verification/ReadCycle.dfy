/** One `ListRecords` cycle on values: what each zone's transfer walk finds and what a whole
    cycle leaves in the pins, the cache and the breaker. */
module ReadCycle {
  import opened Records
  import opened Listing
  import opened Breaker
  import opened Failover

  /** What happens at an attempt: the context is cancelled first, or the DC is asked. */
  datatype Poll = Interrupted | Unserved | Served(records: seq<Record>)

  datatype Fetched = Fetched(dc: string, records: seq<Record>)

  /** One zone's share of a cycle: the DCs asked, in order, and what was got. */
  datatype Visit = Visit(zone: string, asked: seq<string>, got: Option<Fetched>)

  /** A walk along the order: every DC asked before the last served nothing; it stops at the first
      that serves, when interrupted, or at the end of the order. */
  ghost predicate Fetches(order: seq<string>, poll: nat -> Poll, v: Visit) {
    && v.asked <= order
    && (forall i :: 0 <= i < |v.asked| && (v.got.None? || i < |v.asked| - 1) ==> poll(i).Unserved?)
    && match v.got
       case Some(f) => v.asked != [] && v.asked[|v.asked| - 1] == f.dc && poll(|v.asked| - 1) == Served(f.records)
       case None => |v.asked| == |order| || poll(|v.asked|).Interrupted?
  }

  /** `axfrZone`. */
  method AxfrZone(zone: string, pin: Option<string>, available: seq<string>, poll: nat -> Poll) returns (v: Visit)
    ensures v.zone == zone && Fetches(WalkOrder(pin, available), poll, v)
  {
    hide WalkOrder;
    var order := DcOrderForZone(pin, available);
    var asked: seq<string> := [];
    for i := 0 to |order|
      invariant asked == order[..i]
      invariant forall j :: 0 <= j < i ==> poll(j).Unserved?
    {
      if poll(i).Interrupted? {
        return Visit(zone, asked, None);
      }
      asked := asked + [order[i]];
      if poll(i).Served? {
        return Visit(zone, asked, Some(Fetched(order[i], poll(i).records)));
      }
    }
    return Visit(zone, asked, None);
  }

  /** The walk is determined by the answers. */
  lemma FetchesOnce(order: seq<string>, poll: nat -> Poll, v: Visit, w: Visit)
    requires Fetches(order, poll, v) && Fetches(order, poll, w) && v.zone == w.zone
    ensures v == w
  {
    assert |v.asked| == |w.asked|;
    assert v.asked == order[..|v.asked|] && w.asked == order[..|w.asked|];
  }

  /** A zone comes away with nothing exactly when no DC served before an interruption. */
  lemma NothingFetchedIff(order: seq<string>, poll: nat -> Poll, v: Visit)
    requires Fetches(order, poll, v)
    ensures v.got.None? <==> forall i :: 0 <= i < |order| && poll(i).Served? ==> exists j :: 0 <= j < i
                                                                                  && poll(j).Interrupted?
  {
    var k := |v.asked|;
    if v.got.Some? {
      assert poll(k - 1).Served?;
      assert forall j :: 0 <= j < k - 1 ==> !poll(j).Interrupted?;
    } else {
      forall i | 0 <= i < |order| && poll(i).Served? ensures exists j :: 0 <= j < i && poll(j).Interrupted? {
        assert i >= k && poll(k).Interrupted?;
      }
    }
  }

  // ----- a whole cycle ---------------------------------------------------------

  function PinsAfter(pins: map<string, string>, visits: seq<Visit>): map<string, string> {
    if visits == [] then pins
    else
      var n := |visits| - 1;
      var before := PinsAfter(pins, visits[..n]);
      if visits[n].got.Some? then before[visits[n].zone := visits[n].got.value.dc] else before
  }

  function CacheAfter(cache: map<string, seq<Record>>, visits: seq<Visit>): map<string, seq<Record>> {
    if visits == [] then cache
    else
      var n := |visits| - 1;
      var before := CacheAfter(cache, visits[..n]);
      if visits[n].got.Some? then before[visits[n].zone := visits[n].got.value.records] else before - {visits[n].zone}
  }

  /** One zone's endpoints, as `EndpointsFromRecords` lists them. */
  function Listed(filter: seq<string>, zone: string, recs: seq<Record>): seq<Endpoint> {
    var ks := Keys(filter, recs);
    seq(|ks|, i requires 0 <= i < |ks| =>
      EndpointFor(zone, recs, ks[i], if LabelOf(recs, ks[i]).Some? then LabelOf(recs, ks[i]).value else ""))
  }

  /** The cycle's answer: the listings of the zones that were transferred, one after the other. */
  function ListedAll(filter: seq<string>, visits: seq<Visit>): seq<Endpoint> {
    if visits == [] then []
    else
      var n := |visits| - 1;
      ListedAll(filter, visits[..n]) +
      (if visits[n].got.Some? then Listed(filter, visits[n].zone, visits[n].got.value.records) else [])
  }

  /** The answer lists the zones one after the other, in the order of the visits. */
  lemma {:induction false} ListedAllConcat(filter: seq<string>, a: seq<Visit>, b: seq<Visit>)
    ensures ListedAll(filter, a + b) == ListedAll(filter, a) + ListedAll(filter, b)
  {
    hide Listed;
    if b == [] {
      assert a + b == a;
    } else {
      assert (a + b)[..|a + b| - 1] == a + b[..|b| - 1];
      ListedAllConcat(filter, a, b[..|b| - 1]);
    }
  }

  method List(filter: seq<string>, zone: string, recs: seq<Record>) returns (out: seq<Endpoint>)
    ensures out == Listed(filter, zone, recs)
  {
    hide Keys, LabelOf, EndpointFor;
    out := EndpointsFromRecords(filter, zone, recs);
  }

  ghost predicate Tried(visits: seq<Visit>, dc: string) {
    exists i :: 0 <= i < |visits| && dc in visits[i].asked
  }

  ghost predicate ServedSome(visits: seq<Visit>, dc: string) {
    exists i :: 0 <= i < |visits| && visits[i].got.Some? && visits[i].got.value.dc == dc
  }

  /** What the end of the cycle makes of a DC's circuit: one event at most. */
  ghost function Booking(threshold: nat, visits: seq<Visit>, dc: string, c: Circuit, now: int): Circuit {
    if ServedSome(visits, dc) then AfterSuccess(c)
    else if Tried(visits, dc) then AfterFailure(threshold, c, now)
    else c
  }

  /** The visits of a cycle follow the zones, the pins of the moment and the answers. */
  ghost predicate Cycles(zones: seq<string>, pins: map<string, string>, available: seq<string>,
                         polls: nat -> nat -> Poll, visits: seq<Visit>) {
    && |visits| <= |zones|
    && forall i :: 0 <= i < |visits| ==>
         && visits[i].zone == zones[i]
         && Fetches(WalkOrder(PinIn(PinsAfter(pins, visits[..i]), zones[i]), available), polls(i), visits[i])
  }

  function PinIn(pins: map<string, string>, zone: string): Option<string> {
    if zone in pins then Some(pins[zone]) else None
  }

  /** This is the last visit of the zone. */
  predicate LastVisit(visits: seq<Visit>, i: nat, zone: string)
    requires i < |visits|
  {
    visits[i].zone == zone && forall j :: i < j < |visits| ==> visits[j].zone != zone
  }

  /** This is the last visit in which the zone was served. */
  predicate LastServed(visits: seq<Visit>, i: nat, zone: string)
    requires i < |visits|
  {
    && visits[i].zone == zone && visits[i].got.Some?
    && forall j :: i < j < |visits| && visits[j].zone == zone ==> visits[j].got.None?
  }

  /** After a cycle over any zones, repeated or not, a zone's cache entry is what its last visit
      fetched, or absent if that was nothing. */
  lemma {:induction false} LastVisitCached(cache: map<string, seq<Record>>, visits: seq<Visit>, i: nat, zone: string)
    requires i < |visits| && LastVisit(visits, i, zone)
    ensures match visits[i].got
            case Some(f) => zone in CacheAfter(cache, visits) && CacheAfter(cache, visits)[zone] == f.records
            case None => zone !in CacheAfter(cache, visits)
  {
    var n := |visits| - 1;
    if i < n {
      assert visits[n].zone != zone;
      LastVisitCached(cache, visits[..n], i, zone);
    }
  }

  /** Its pin is the DC of the last visit in which it was served. */
  lemma {:induction false} LastServedPinned(pins: map<string, string>, visits: seq<Visit>, i: nat, zone: string)
    requires i < |visits| && LastServed(visits, i, zone)
    ensures PinIn(PinsAfter(pins, visits), zone) == Some(visits[i].got.value.dc)
  {
    var n := |visits| - 1;
    if i < n {
      assert visits[n].zone == zone ==> visits[n].got.None?;
      LastServedPinned(pins, visits[..n], i, zone);
    }
  }

  /** A zone that was not visited keeps its cache entry, and one that was not served keeps its pin. */
  lemma {:induction false} CycleKeeps(cache: map<string, seq<Record>>, pins: map<string, string>, visits: seq<Visit>,
                                      zone: string)
    ensures (forall i :: 0 <= i < |visits| ==> visits[i].zone != zone) ==>
              && (zone in CacheAfter(cache, visits) <==> zone in cache)
              && (zone in cache ==> CacheAfter(cache, visits)[zone] == cache[zone])
    ensures (forall i :: 0 <= i < |visits| && visits[i].zone == zone ==> visits[i].got.None?) ==>
              PinIn(PinsAfter(pins, visits), zone) == PinIn(pins, zone)
  {
    if visits != [] {
      var n := |visits| - 1;
      CycleKeeps(cache, pins, visits[..n], zone);
      assert forall i :: 0 <= i < n ==> visits[..n][i] == visits[i];
    }
  }

  /** A walk starts from the DC that last served its zone in this cycle, or, if none has, from the
      pin the zone had before. */
  lemma OwnPin(zones: seq<string>, pins: map<string, string>, available: seq<string>, polls: nat -> nat -> Poll,
               visits: seq<Visit>, i: nat)
    requires Cycles(zones, pins, available, polls, visits) && i < |visits|
    ensures (forall j :: 0 <= j < i && visits[j].zone == zones[i] ==> visits[j].got.None?) ==>
              Fetches(WalkOrder(PinIn(pins, zones[i]), available), polls(i), visits[i])
    ensures forall j :: 0 <= j < i && LastServed(visits[..i], j, zones[i]) ==>
              Fetches(WalkOrder(Some(visits[j].got.value.dc), available), polls(i), visits[i])
  {
    hide WalkOrder, Fetches, PinsAfter;
    CycleKeeps(map[], pins, visits[..i], zones[i]);
    forall j | 0 <= j < i && LastServed(visits[..i], j, zones[i])
      ensures PinIn(PinsAfter(pins, visits[..i]), zones[i]) == Some(visits[j].got.value.dc)
    {
      LastServedPinned(pins, visits[..i], j, zones[i]);
    }
  }

  /** Only available DCs are tried, and a DC that served was tried. */
  lemma TriedAreAvailable(zones: seq<string>, pins: map<string, string>, available: seq<string>,
                          polls: nat -> nat -> Poll,
                          visits: seq<Visit>, dc: string)
    requires Cycles(zones, pins, available, polls, visits)
    ensures ServedSome(visits, dc) ==> Tried(visits, dc)
    ensures Tried(visits, dc) ==> dc in available
  {
    hide WalkOrder;
    if i :| 0 <= i < |visits| && dc in visits[i].asked {
      WalkCovers(PinIn(PinsAfter(pins, visits[..i]), zones[i]), available, dc);
    }
  }
}

/** The orchestrator object: `ListRecords`, `applyZone` and `ApplyChanges` over its pins, cache
    and breaker. Answers, cancellation and the clock are parameters. */
module Orchestration {
  import opened Records
  import opened Endpoints
  import opened Breaker
  import opened Failover
  import opened ReadCycle
  import opened ChangeSets
  import opened Grouping

  /** One zone's UPDATE of a request: what was sent, along which DCs, and how it ended. */
  datatype Delivery = Delivery(zone: string, cs: ChangeSet, available: seq<string>, trace: seq<Attempt>,
                               outcome: Outcome)

  /** The change set went along the zone's DC order, starting at its pin, and ended like this. */
  ghost predicate Delivers(d: Delivery, cs: ChangeSet, pin: Option<string>, replies: nat -> Reply) {
    var order := WalkOrder(pin, d.available);
    d.cs == cs && Walks(d.trace, order, replies) && Ends(d.trace, order, replies, d.outcome)
  }

  /** The pin moves to the DC that applied the UPDATE. */
  function NewPin(d: Delivery, pin: Option<string>): Option<string> {
    if d.outcome.Applied? && d.trace != [] then Some(d.trace[|d.trace| - 1].dc) else pin
  }

  ghost predicate WentTo(sent: seq<Delivery>, zone: string) {
    exists i :: 0 <= i < |sent| && sent[i].zone == zone
  }

  predicate AllApplied(sent: seq<Delivery>) {
    forall d :: d in sent ==> d.outcome.Applied?
  }

  /** The clock as the zones of a request see it: at the start of a walk and at each attempt. */
  datatype Clocks = Times(now: string -> int, attempts: string -> nat -> int)

  /** What the orchestrator works with. */
  datatype Setting = Setting(cfg: Config, hosts: seq<string>, scope: Scope, cache: map<string, seq<Record>>,
                             pins: map<string, string>, threshold: nat, history: seq<Event>)

  /** The change set a zone gets of a request. */
  function Plan(s: Setting, req: Request, zone: string): ChangeSet {
    Planned(s.cfg, if zone in s.cache then s.cache[zone] else [], BatchOf(s.scope, req, zone))
  }

  /** What the breaker sees of a delivery: a query for every host, then the walk. */
  function Seen(d: Delivery, hosts: seq<string>, times: Clocks): seq<Event> {
    Queries(hosts, times.now(d.zone)) + EventsOf(d.trace, times.attempts(d.zone))
  }

  function Happened(sent: seq<Delivery>, hosts: seq<string>, times: Clocks): seq<Event> {
    if sent == [] then []
    else Happened(sent[..|sent| - 1], hosts, times) + Seen(sent[|sent| - 1], hosts, times)
  }

  /** The delivery was offered exactly the hosts that this history leaves available. */
  ghost predicate Offered(d: Delivery, threshold: nat, hosts: seq<string>, history: seq<Event>, now: int) {
    && d.available == Keep(hosts, UpAfter(threshold, hosts, history, now))
    && forall dc :: dc in d.available ==> dc in hosts
  }

  /** Starting from s, these deliveries were made one after the other, to different zones; the pins
      and the breaker's history are now these. */
  ghost predicate HasSent(s: Setting, req: Request, sent: seq<Delivery>, times: Clocks, replies: string -> nat -> Reply,
                          pins: map<string, string>, history: seq<Event>) {
    && (forall i, j :: 0 <= i < j < |sent| ==> sent[i].zone != sent[j].zone)
    && (forall i :: 0 <= i < |sent| ==>
          var d := sent[i];
          && Delivers(d, Plan(s, req, d.zone), PinIn(s.pins, d.zone), replies(d.zone))
          && Offered(d, s.threshold, s.hosts, s.history + Happened(sent[..i], s.hosts, times), times.now(d.zone))
          && PinIn(pins, d.zone) == NewPin(d, PinIn(s.pins, d.zone)))
    && (forall z :: !WentTo(sent, z) ==> PinIn(pins, z) == PinIn(s.pins, z))
    && history == s.history + Happened(sent, s.hosts, times)
  }

  class Orchestrator {
    const cfg: Config
    const hosts: seq<string>
    const zones: seq<string>
    const filter: seq<string>
    const breaker: DCBreaker
    var pins: map<string, string>
    var cache: map<string, seq<Record>>

    constructor (cfg: Config, hosts: seq<string>, zones: seq<string>, filter: seq<string>, threshold: int)
      ensures this.cfg == cfg && this.hosts == hosts && this.zones == zones && this.filter == filter
      ensures fresh(breaker) && breaker.Valid() && breaker.history == [] && pins == map[] && cache == map[]
      ensures breaker.threshold == if threshold < 1 then 1 else threshold
    {
      this.cfg, this.hosts, this.zones, this.filter := cfg, hosts, zones, filter;
      pins, cache := map[], map[];
      breaker := new DCBreaker(threshold);
    }

    /** The hosts whose circuit lets traffic through. */
    ghost function Up(now: int): seq<string>
      reads this, breaker
    {
      Keep(hosts, set dc | dc in hosts && Available(breaker.View(dc), now))
    }

    /** A circuit once `availableDCs` has asked for every host. */
    ghost function Queried(dc: string, now: int): Circuit
      reads this, breaker
    {
      if dc in hosts then AfterQuery(breaker.View(dc), now) else breaker.View(dc)
    }

    /** `applyZone`: the trace decides the pin and the breaker, and nothing else changes them. */
    method ApplyZone(zone: string, now: int, clock: nat -> int, replies: nat -> Reply)
      returns (outcome: Outcome, trace: seq<Attempt>, available: seq<string>)
      requires breaker.Valid()
      modifies this, breaker
      ensures breaker.Valid()
      ensures breaker.history == old(breaker.history) + Queries(hosts, now) + EventsOf(trace, clock)
      ensures available == old(Up(now))
      ensures var order := WalkOrder(old(PinIn(pins, zone)), available);
              Walks(trace, order, replies) && Ends(trace, order, replies, outcome)
      ensures pins == if outcome.Applied? then old(pins)[zone := trace[|trace| - 1].dc] else old(pins)
      ensures cache == old(cache)
      ensures forall dc :: breaker.View(dc) == Track(breaker.threshold, old(Queried(dc, now)), dc,
              EventsOf(trace, clock))
    {
      hide Keep, Track, AfterQuery, Available;
      trace := [];
      available := AvailableDCs(breaker, hosts, now);
      var order := DcOrderForZone(PinIn(pins, zone), available);
      outcome := NoDC;
      if available != [] {
        outcome, trace := Walk(zone, order, clock, replies);
      } else {
        NothingBooked(clock);
      }
    }

    /** The loop of `applyZone` over the DC order. */
    method Walk(zone: string, order: seq<string>, clock: nat -> int, replies: nat -> Reply)
      returns (outcome: Outcome, trace: seq<Attempt>)
      requires order != []
      requires breaker.Valid()
      modifies this, breaker
      ensures breaker.Valid() && breaker.history == old(breaker.history) + EventsOf(trace, clock)
      ensures Walks(trace, order, replies) && Ends(trace, order, replies, outcome)
      ensures pins == if outcome.Applied? then old(pins)[zone := trace[|trace| - 1].dc] else old(pins)
      ensures cache == old(cache)
      ensures forall dc :: breaker.View(dc) == Track(breaker.threshold, old(breaker.View(dc)), dc,
              EventsOf(trace, clock))
    {
      hide Track, EventsOf, AfterSuccess, AfterFailure, DCBreaker.Valid, FailoverEligible;
      trace := [];
      NothingBooked(clock);
      for i := 0 to |order|
        invariant breaker.Valid() && breaker.history == old(breaker.history) + EventsOf(trace, clock)
        invariant |trace| == i && Walks(trace, order, replies) && pins == old(pins) && cache == old(cache)
        invariant i > 0 ==> MovesOn(trace[i - 1].res)
        invariant forall dc :: breaker.View(dc) == Track(breaker.threshold, old(breaker.View(dc)), dc,
                  EventsOf(trace, clock))
      {
        if replies(i).Cancelled? {
          return Stopped, trace;
        }
        var res := replies(i).res;
        Booked(trace, Attempt(order[i], res), clock);
        trace := trace + [Attempt(order[i], res)];
        if res.ok {
          pins := pins[zone := order[i]];
          breaker.RecordSuccess(order[i]);
          return Applied, trace;
        }
        if !FailoverEligible(res) {
          return Rejected, trace;
        }
        var _ := breaker.RecordFailure(order[i], clock(i));
      }
      return Exhausted, trace;
    }

    ghost function Current(): Setting
      reads this, breaker
    {
      Setting(cfg, hosts, Scope(zones, filter), cache, pins, breaker.threshold, breaker.history)
    }

    /** One zone's turn in `ApplyChanges`. */
    method Deliver(zone: string, cs: ChangeSet, now: int, clock: nat -> int,
                   replies: nat -> Reply) returns (d: Delivery)
      requires breaker.Valid()
      modifies this, breaker
      ensures breaker.Valid() && cache == old(cache) && d.zone == zone
      ensures breaker.history == old(breaker.history) + (Queries(hosts, now) + EventsOf(d.trace, clock))
      ensures Delivers(d, cs, old(PinIn(pins, zone)), replies)
      ensures Offered(d, breaker.threshold, hosts, old(breaker.history), now)
      ensures forall z :: PinIn(pins, z) == if z == zone then NewPin(d, old(PinIn(pins, z))) else old(PinIn(pins, z))
    {
      hide WalkOrder, Keep, Track, EventsOf, Queries, UpAfter, DCBreaker.Valid;
      UpByHistory(breaker, hosts, now);
      ghost var up := set dc | dc in hosts && Available(breaker.View(dc), now);
      forall dc ensures dc in Keep(hosts, up) ==> dc in hosts {
        KeepExact(hosts, up, dc);
      }
      var outcome, trace, available := ApplyZone(zone, now, clock, replies);
      d := Delivery(zone, cs, available, trace, outcome);
    }

    /** `ApplyChanges`: one UPDATE, compiled from the zone's own share of the request and its own
        cache entry, to exactly the zones whose share compiles to a change; the request succeeds
        when all of them are applied. The zones are handled in no particular order; in whichever it
        was, each walk starts from the hosts the walks before it left available. */
    method ApplyChanges(req: Request, dryRun: bool, now: string -> int, clocks: string -> nat -> int,
                        replies: string -> nat -> Reply)
      returns (ok: bool, sent: seq<Delivery>)
      requires breaker.Valid()
      modifies this, breaker
      ensures breaker.Valid() && cache == old(cache)
      ensures forall z :: WentTo(sent, z) <==> !dryRun && Plan(old(Current()), req, z).changes != []
      ensures HasSent(old(Current()), req, sent, Times(now, clocks), replies, pins, breaker.history)
      ensures ok <==> AllApplied(sent)
    {
      hide Planned, BatchOf, HasSent, WentTo, AllApplied, Offered, Delivers, NewPin, PinIn, DCBreaker.Valid;
      var byZone := Group(Scope(zones, filter), req);
      NoWorkNoChanges(cfg);
      ok, sent := true, [];
      NothingSent(Current(), req, Times(now, clocks), replies);
      var rest := byZone.Keys;
      while rest != {}
        invariant breaker.Valid() && cache == old(cache)
        invariant rest <= byZone.Keys
        invariant forall z :: WentTo(sent, z) <==>
                    z in byZone && z !in rest && !dryRun && Plan(old(Current()), req, z).changes != []
        invariant HasSent(old(Current()), req, sent, Times(now, clocks), replies, pins, breaker.history)
        invariant ok <==> AllApplied(sent)
        decreases rest
      {
        var zone :| zone in rest;
        rest := rest - {zone};
        var cs := BuildZoneChangeSet(cfg, if zone in cache then cache[zone] else [], byZone[zone]);
        if cs.changes == [] || dryRun { continue; }
        ghost var before := Current();
        var d := Deliver(zone, cs, now(zone), clocks(zone), replies(zone));
        OneMoreSent(old(Current()), req, sent, Times(now, clocks), replies, before, Current(), d);
        sent := sent + [d];
        ok := ok && d.outcome.Applied?;
      }
    }

    /** `ListRecords`: refreshes every zone, then books each DC it tried once. `None` is the error
        "no DCs available". */
    method ListRecords(now: int, later: int, polls: nat -> nat -> Poll)
      returns (out: Option<seq<Endpoint>>, visits: seq<Visit>)
      requires breaker.Valid()
      modifies this, breaker
      ensures breaker.Valid()
      ensures !cfg.axfrEnabled ==> out == Some([]) && visits == [] && pins == old(pins) && cache == old(cache)
                                   && forall dc :: breaker.View(dc) == old(breaker.View(dc))
      ensures cfg.axfrEnabled ==> (out.None? <==> old(Up(now)) == [])
      ensures out.None? ==> visits == []
      ensures cfg.axfrEnabled && out.Some? ==> |visits| == |zones| && out.value == ListedAll(filter, visits)
      ensures Cycles(zones, old(pins), old(Up(now)), polls, visits)
      ensures pins == PinsAfter(old(pins), visits) && cache == CacheAfter(old(cache), visits)
      ensures cfg.axfrEnabled ==>
                forall dc :: breaker.View(dc) == Booking(breaker.threshold, visits, dc, old(Queried(dc, now)), later)
    {
      hide Track, Keep, Available, AfterQuery, AfterFailure, AfterSuccess, ListedAll, Fetches, WalkOrder;
      visits := [];
      if !cfg.axfrEnabled {
        return Some([]), visits;
      }
      var available := AvailableDCs(breaker, hosts, now);
      if available == [] {
        return None, visits;
      }
      var tried: set<string>, served: set<string>;
      var list: seq<Endpoint>;
      visits, list, tried, served := Refresh(available, polls);
      Book(tried, served, later);
      assert forall dc :: (dc in tried <==> Tried(visits, dc)) && (dc in served <==> ServedSome(visits, dc));
      TriedIfServed(zones, old(pins), available, polls, visits);
      out := Some(list);
    }

    /** The zone loop of `ListRecords`. */
    method Refresh(available: seq<string>, polls: nat -> nat -> Poll)
      returns (visits: seq<Visit>, out: seq<Endpoint>, tried: set<string>, served: set<string>)
      modifies this
      ensures |visits| == |zones| && Cycles(zones, old(pins), available, polls, visits)
      ensures pins == PinsAfter(old(pins), visits) && cache == CacheAfter(old(cache), visits)
      ensures out == ListedAll(filter, visits)
      ensures forall dc :: (dc in tried <==> Tried(visits, dc)) && (dc in served <==> ServedSome(visits, dc))
    {
      hide Fetches, WalkOrder, Listed, ListedAll, Tried, ServedSome, Cycles, PinsAfter, CacheAfter;
      visits, out, tried, served := [], [], {}, {};
      NothingVisited(this, available, polls);
      for i := 0 to |zones|
        invariant |visits| == i && Cycles(zones, old(pins), available, polls, visits)
        invariant pins == PinsAfter(old(pins), visits) && cache == CacheAfter(old(cache), visits)
        invariant out == ListedAll(filter, visits)
        invariant forall dc :: (dc in tried <==> Tried(visits, dc)) && (dc in served <==> ServedSome(visits, dc))
      {
        var v := AxfrZone(zones[i], PinIn(pins, zones[i]), available, polls(i));
        OneMoreVisit(visits, v, old(pins), old(cache), filter);
        CyclesOn(zones, old(pins), available, polls, visits, v);
        visits := visits + [v];
        tried := tried + set dc | dc in v.asked;
        if v.got.None? {
          cache := cache - {zones[i]};
        } else {
          served := served + {v.got.value.dc};
          pins := pins[zones[i] := v.got.value.dc];
          cache := cache[zones[i] := v.got.value.records];
          var more := List(filter, zones[i], v.got.value.records);
          out := out + more;
        }
      }
    }

    /** The bookkeeping loop of `ListRecords`; a Go map is walked in no particular order. */
    method Book(tried: set<string>, served: set<string>, now: int)
      requires breaker.Valid()
      modifies breaker
      ensures breaker.Valid()
      ensures forall dc :: breaker.View(dc) ==
                if dc !in tried then old(breaker.View(dc))
                else if dc in served then AfterSuccess(old(breaker.View(dc)))
                else AfterFailure(breaker.threshold, old(breaker.View(dc)), now)
    {
      hide Track, AfterSuccess, AfterFailure;
      var rest := tried;
      while rest != {}
        invariant breaker.Valid()
        invariant rest <= tried
        invariant forall dc :: breaker.View(dc) ==
                    if dc !in tried - rest then old(breaker.View(dc))
                    else if dc in served then AfterSuccess(old(breaker.View(dc)))
                    else AfterFailure(breaker.threshold, old(breaker.View(dc)), now)
        decreases rest
      {
        var dc :| dc in rest;
        rest := rest - {dc};
        if dc in served {
          breaker.RecordSuccess(dc);
        } else {
          var _ := breaker.RecordFailure(dc, now);
        }
      }
    }
  }

  lemma NothingSent(s: Setting, req: Request, times: Clocks, replies: string -> nat -> Reply)
    ensures HasSent(s, req, [], times, replies, s.pins, s.history) && AllApplied([]) && forall z :: !WentTo([], z)
  {
  }

  /** One more delivery, to a zone that had none, made in the setting the earlier ones left. */
  lemma OneMoreSent(s: Setting, req: Request, sent: seq<Delivery>, times: Clocks, replies: string -> nat -> Reply,
                    before: Setting, after: Setting, d: Delivery)
    requires HasSent(s, req, sent, times, replies, before.pins, before.history) && !WentTo(sent, d.zone)
    requires Delivers(d, Plan(s, req, d.zone), PinIn(before.pins, d.zone), replies(d.zone))
    requires Offered(d, s.threshold, s.hosts, before.history, times.now(d.zone))
    requires after.history == before.history + Seen(d, s.hosts, times)
    requires forall z :: PinIn(after.pins, z) ==
                         if z == d.zone then NewPin(d, PinIn(before.pins, z)) else PinIn(before.pins, z)
    ensures HasSent(s, req, sent + [d], times, replies, after.pins, after.history)
    ensures AllApplied(sent + [d]) <==> AllApplied(sent) && d.outcome.Applied?
    ensures forall z :: WentTo(sent + [d], z) <==> WentTo(sent, z) || z == d.zone
  {
    hide Seen, Delivers, Offered, Plan, PinIn, NewPin, Happened, WentTo;
    var all := sent + [d];
    WentSnoc(sent, d);
    HappenedSnoc(sent, d, s.hosts, times);
    forall i | 0 <= i < |all|
      ensures Delivers(all[i], Plan(s, req, all[i].zone), PinIn(s.pins, all[i].zone), replies(all[i].zone))
      ensures Offered(all[i], s.threshold, s.hosts, s.history + Happened(all[..i], s.hosts, times),
              times.now(all[i].zone))
      ensures PinIn(after.pins, all[i].zone) == NewPin(all[i], PinIn(s.pins, all[i].zone))
    {
      if i < |sent| {
        assert all[i] == sent[i] && all[..i] == sent[..i];
      } else {
        assert all[i] == d && all[..i] == sent;
      }
    }
  }

  lemma WentSnoc(sent: seq<Delivery>, d: Delivery)
    ensures forall z :: WentTo(sent + [d], z) <==> WentTo(sent, z) || z == d.zone
    ensures forall i :: 0 <= i < |sent| ==> WentTo(sent, sent[i].zone)
  {
    var all := sent + [d];
    assert all[|sent|] == d;
    forall z ensures WentTo(all, z) <==> WentTo(sent, z) || z == d.zone {
      if WentTo(sent, z) {
        var i :| 0 <= i < |sent| && sent[i].zone == z;
        assert all[i].zone == z;
      }
    }
  }

  lemma HappenedSnoc(sent: seq<Delivery>, d: Delivery, hosts: seq<string>, times: Clocks)
    ensures Happened(sent + [d], hosts, times) == Happened(sent, hosts, times) + Seen(d, hosts, times)
  {
    assert (sent + [d])[..|sent|] == sent;
  }

  /** A zone without work gets no message. */
  lemma NoWorkNoChanges(cfg: Config)
    ensures forall cached :: Planned(cfg, cached, NO_WORK).changes == []
  {
  }

  lemma TriedIfServed(zones: seq<string>, pins: map<string, string>, available: seq<string>, polls: nat -> nat -> Poll,
                      visits: seq<Visit>)
    requires Cycles(zones, pins, available, polls, visits)
    ensures forall dc :: ServedSome(visits, dc) ==> Tried(visits, dc)
  {
    forall dc ensures ServedSome(visits, dc) ==> Tried(visits, dc) {
      TriedAreAvailable(zones, pins, available, polls, visits, dc);
    }
  }

  lemma CyclesOn(zones: seq<string>, pins: map<string, string>, available: seq<string>, polls: nat -> nat -> Poll,
                 visits: seq<Visit>, v: Visit)
    requires Cycles(zones, pins, available, polls, visits) && |visits| < |zones|
    requires var i := |visits|;
             v.zone == zones[i] && Fetches(WalkOrder(PinIn(PinsAfter(pins, visits), zones[i]), available), polls(i), v)
    ensures Cycles(zones, pins, available, polls, visits + [v])
  {
    hide Fetches, WalkOrder, PinsAfter;
    var all := visits + [v];
    assert all[..|visits|] == visits;
    assert forall j :: 0 <= j < |visits| ==> all[..j] == visits[..j];
  }

  lemma NothingVisited(o: Orchestrator, available: seq<string>, polls: nat -> nat -> Poll)
    ensures Cycles(o.zones, o.pins, available, polls, [])
    ensures PinsAfter(o.pins, []) == o.pins && CacheAfter(o.cache, []) == o.cache && ListedAll(o.filter, []) == []
    ensures forall dc :: !Tried([], dc) && !ServedSome([], dc)
  {
  }

  lemma OneMoreVisit(visits: seq<Visit>, v: Visit, pins: map<string, string>, cache: map<string, seq<Record>>,
                     filter: seq<string>)
    ensures forall dc :: Tried(visits + [v], dc) <==> Tried(visits, dc) || dc in v.asked
    ensures forall dc :: ServedSome(visits + [v], dc) <==>
                           ServedSome(visits, dc) || (v.got.Some? && v.got.value.dc == dc)
    ensures PinsAfter(pins, visits + [v]) ==
            match v.got case None => PinsAfter(pins, visits) case Some(f) => PinsAfter(pins, visits)[v.zone := f.dc]
    ensures CacheAfter(cache, visits + [v]) ==
            match v.got case None => CacheAfter(cache, visits) - {v.zone} case Some(f) => CacheAfter(cache,
              visits)[v.zone := f.records]
    ensures ListedAll(filter, visits + [v]) ==
            ListedAll(filter, visits) + match v.got case None => [] case Some(f) => Listed(filter, v.zone, f.records)
  {
    hide Listed;
    var all := visits + [v];
    assert all[|visits|] == v && all[..|visits|] == visits;
    assert forall i :: 0 <= i < |visits| ==> all[i] == visits[i];
  }
}

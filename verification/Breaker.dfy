/** `internal/state/dcbreaker.go`: the per-DC circuit breaker with capped exponential
    backoff. Times and durations are in seconds. */
module Breaker {
  import opened Records

  const FIRST_COOLDOWN := 60
  const LONGEST_COOLDOWN := 3600

  function Pow2(n: nat): nat {
    if n == 0 then 1 else 2 * Pow2(n - 1)
  }

  /** min(60 * 2^opens, 3600). */
  function Backoff(opens: nat): int {
    if FIRST_COOLDOWN * Pow2(opens) < LONGEST_COOLDOWN then FIRST_COOLDOWN * Pow2(opens) else LONGEST_COOLDOWN
  }

  /** What the breaker records about one DC. */
  datatype Circuit = Circuit(fails: nat, opens: nat, until: Option<int>)

  const FRESH := Circuit(0, 0, None)

  predicate Available(c: Circuit, now: int) {
    c.until.None? || now >= c.until.value
  }

  function AfterQuery(c: Circuit, now: int): Circuit {
    if c.until.Some? && now >= c.until.value then c.(fails := 0, until := None) else c
  }

  function AfterSuccess(c: Circuit): Circuit {
    FRESH
  }

  /** Whether one more failure opens the circuit. */
  predicate Opens(threshold: nat, c: Circuit) {
    c.fails + 1 >= threshold && c.until.None?
  }

  function AfterFailure(threshold: nat, c: Circuit, now: int): Circuit {
    if Opens(threshold, c)
    then Circuit(c.fails + 1, c.opens + 1, Some(now + Backoff(c.opens)))
    else c.(fails := c.fails + 1)
  }

  function Get<T>(m: map<string, T>, k: string, d: T): T {
    if k in m then m[k] else d
  }

  /** The doubling loop of `RecordFailure`. */
  method Cooldown(opens: nat) returns (cooldown: int)
    ensures cooldown == Backoff(opens)
  {
    cooldown := FIRST_COOLDOWN;
    var i := 0;
    while i < opens
      invariant 0 <= i <= opens
      invariant cooldown == FIRST_COOLDOWN * Pow2(i) < LONGEST_COOLDOWN
    {
      cooldown := cooldown * 2;
      if cooldown >= LONGEST_COOLDOWN {
        Pow2Grows(i + 1, opens);
        return LONGEST_COOLDOWN;
      }
      i := i + 1;
    }
  }

  lemma {:induction false} Pow2Grows(a: nat, b: nat)
    requires a <= b
    ensures Pow2(a) <= Pow2(b)
  {
    if a < b {
      Pow2Grows(a, b - 1);
    }
  }

  // ----- histories -------------------------------------------------------------

  datatype Event = Queried(dc: string, now: int) | Succeeded(dc: string) | Failed(dc: string, now: int)

  function Step(threshold: nat, c: Circuit, e: Event): Circuit {
    match e
    case Queried(_, now) => AfterQuery(c, now)
    case Succeeded(_) => AfterSuccess(c)
    case Failed(_, now) => AfterFailure(threshold, c, now)
  }

  /** One DC's circuit after a history in which other DCs take part too. */
  function Track(threshold: nat, c: Circuit, dc: string, events: seq<Event>): Circuit {
    if events == [] then c
    else
      var n := |events| - 1;
      var before := Track(threshold, c, dc, events[..n]);
      if events[n].dc == dc then Step(threshold, before, events[n]) else before
  }

  /** The last event of the history opens the DC's circuit. */
  predicate EndsInOpening(threshold: nat, dc: string, events: seq<Event>) {
    events != [] && var n := |events| - 1;
    events[n].Failed? && events[n].dc == dc && Opens(threshold, Track(threshold, FRESH, dc, events[..n]))
  }

  /** How often the circuit has opened since the DC's last success. */
  function OpeningsSinceSuccess(threshold: nat, dc: string, events: seq<Event>): nat {
    if events == [] then 0
    else
      var n := |events| - 1;
      if events[n] == Succeeded(dc) then 0
      else OpeningsSinceSuccess(threshold, dc, events[..n]) + (if EndsInOpening(threshold, dc, events) then 1 else 0)
  }

  /** When the circuit last opened. */
  function LatestOpening(threshold: nat, dc: string, events: seq<Event>): Option<int> {
    if events == [] then None
    else
      var n := |events| - 1;
      if EndsInOpening(threshold, dc, events) then Some(events[n].now)
      else LatestOpening(threshold, dc, events[..n])
  }

  /** In every reachable state the circuit is recorded open exactly when the streak has reached
      the threshold, and `opens` counts the openings since the last success. */
  lemma {:induction false} RunInvariant(threshold: nat, dc: string, events: seq<Event>)
    requires threshold >= 1
    ensures var c := Track(threshold, FRESH, dc, events);
            && (c.until.Some? <==> c.fails >= threshold)
            && c.opens == OpeningsSinceSuccess(threshold, dc, events)
  {
    if events != [] {
      RunInvariant(threshold, dc, events[..|events| - 1]);
    }
  }

  /** The cooldown starts at a minute and doubles with every opening, up to an hour. */
  lemma BackoffDoubles(opens: nat)
    ensures Backoff(0) == 60
    ensures Backoff(opens + 1) == if 2 * Backoff(opens) < 3600 then 2 * Backoff(opens) else 3600
  {
  }

  /** The k-th opening since the last success lasts exactly min(60 * 2^(k-1), 3600) seconds: the DC
      gets no traffic until then, and does from then on. */
  lemma KthOpening(threshold: nat, dc: string, events: seq<Event>)
    requires threshold >= 1 && EndsInOpening(threshold, dc, events)
    ensures var k := OpeningsSinceSuccess(threshold, dc, events);
            && k >= 1 && Track(threshold, FRESH, dc, events).until == Some(events[|events| - 1].now + Backoff(k - 1))
            && forall t :: Available(Track(threshold, FRESH, dc, events), t) <==>
                             t >= events[|events| - 1].now + Backoff(k - 1)
  {
    RunInvariant(threshold, dc, events[..|events| - 1]);
  }

  // ----- the streak ------------------------------------------------------------

  /** Nothing but failures of this DC. */
  predicate OnlyFailures(events: seq<Event>, dc: string) {
    forall i :: 0 <= i < |events| ==> events[i].Failed? && events[i].dc == dc
  }

  /** Every failure counts, from any circuit, and as many as the threshold open it. */
  lemma {:induction false} FailuresCount(threshold: nat, c: Circuit, dc: string, failures: seq<Event>)
    requires OnlyFailures(failures, dc)
    ensures Track(threshold, c, dc, failures).fails == c.fails + |failures|
    ensures threshold >= 1 && |failures| >= threshold ==> Track(threshold, c, dc, failures).until.Some?
    ensures c.until.Some? ==> Track(threshold, c, dc, failures).until == c.until
  {
    if failures != [] {
      var n := |failures| - 1;
      FailuresCount(threshold, c, dc, failures[..n]);
    }
  }

  /** From a fresh circuit it is the threshold-th failure in a row that opens it, for a minute. */
  lemma {:induction false} OpensAtThreshold(threshold: nat, dc: string, failures: seq<Event>)
    requires threshold >= 1 && OnlyFailures(failures, dc)
    ensures Track(threshold, FRESH, dc, failures).until ==
            if |failures| < threshold then None else Some(failures[threshold - 1].now + 60)
  {
    if failures != [] {
      var n := |failures| - 1;
      OpensAtThreshold(threshold, dc, failures[..n]);
      FailuresCount(threshold, FRESH, dc, failures[..n]);
      NothingOpened(threshold, dc, failures[..n]);
      BackoffDoubles(0);
    }
  }

  lemma {:induction false} NothingOpened(threshold: nat, dc: string, failures: seq<Event>)
    requires OnlyFailures(failures, dc)
    ensures |failures| < threshold ==> Track(threshold, FRESH, dc, failures).opens == 0
  {
    if failures != [] {
      NothingOpened(threshold, dc, failures[..|failures| - 1]);
      FailuresCount(threshold, FRESH, dc, failures[..|failures| - 1]);
    }
  }

  /** The i-th event ends the DC's streak: a success, or a query past the cooldown. */
  predicate EndsStreak(threshold: nat, dc: string, events: seq<Event>, i: nat)
    requires i < |events|
  {
    || events[i] == Succeeded(dc)
    || (events[i].Queried? && events[i].dc == dc
        && Track(threshold, FRESH, dc, events[..i]).until.Some?
        && events[i].now >= Track(threshold, FRESH, dc, events[..i]).until.value)
  }

  function CountFailures(events: seq<Event>, dc: string): nat {
    if events == [] then 0
    else
      var n := |events| - 1;
      CountFailures(events[..n], dc) + (if events[n].Failed? && events[n].dc == dc then 1 else 0)
  }

  /** In every history `fails` counts the DC's failures since its last success or lapsed cooldown. */
  lemma {:induction false} StreakCounts(threshold: nat, dc: string, events: seq<Event>, from: nat)
    requires from <= |events| && (from == 0 || EndsStreak(threshold, dc, events, from - 1))
    requires forall i :: from <= i < |events| ==> !EndsStreak(threshold, dc, events, i)
    ensures Track(threshold, FRESH, dc, events).fails == CountFailures(events[from..], dc)
  {
    hide Backoff;
    var n := |events| - 1;
    if |events| > from {
      var front := events[..n];
      forall i | 0 <= i < n ensures front[..i] == events[..i] {
      }
      assert from > 0 ==> EndsStreak(threshold, dc, front, from - 1);
      forall i | from <= i < n ensures !EndsStreak(threshold, dc, front, i) {
        assert !EndsStreak(threshold, dc, events, i);
      }
      StreakCounts(threshold, dc, front, from);
      assert events[from..][..n - from] == front[from..];
      assert !EndsStreak(threshold, dc, events, n);
    } else if from > 0 {
      assert events[from..] == [];
      assert EndsStreak(threshold, dc, events, n);
    }
  }

  /** An open circuit was opened, and it closes within an hour of its latest opening, however
      many failures are recorded meanwhile. */
  lemma {:induction false} OpenWithinAnHour(threshold: nat, dc: string, events: seq<Event>)
    ensures var c := Track(threshold, FRESH, dc, events);
            c.until.Some? ==>
              && LatestOpening(threshold, dc, events).Some?
              && c.until.value <= LatestOpening(threshold, dc, events).value + 3600
  {
    if events != [] {
      OpenWithinAnHour(threshold, dc, events[..|events| - 1]);
    }
  }

  predicate NoFailureAfter(events: seq<Event>, time: int) {
    forall i :: 0 <= i < |events| && events[i].Failed? ==> events[i].now <= time
  }

  lemma {:induction false} OpeningIsFailure(threshold: nat, dc: string, events: seq<Event>, time: int)
    requires NoFailureAfter(events, time)
    ensures LatestOpening(threshold, dc, events).Some? ==> LatestOpening(threshold, dc, events).value <= time
  {
    if events != [] {
      OpeningIsFailure(threshold, dc, events[..|events| - 1], time);
    }
  }

  /** Bounded unavailability: an hour after the last recorded failure every DC is available. */
  lemma AvailableAgain(threshold: nat, dc: string, events: seq<Event>, time: int, now: int)
    requires NoFailureAfter(events, time) && now >= time + 3600
    ensures Available(Track(threshold, FRESH, dc, events), now)
  {
    OpenWithinAnHour(threshold, dc, events);
    OpeningIsFailure(threshold, dc, events, time);
  }

  // ----- the breaker object ----------------------------------------------------

  /** A history goes on from where its first part ended. */
  lemma TrackSnoc(threshold: nat, c: Circuit, dc: string, events: seq<Event>, e: Event)
    ensures Track(threshold, c, dc, events + [e]) ==
            if e.dc == dc then Step(threshold, Track(threshold, c, dc, events), e) else Track(threshold, c, dc, events)
  {
    assert (events + [e])[..|events|] == events;
  }

  /** The circuit after one opening at threshold one whose cooldown has lapsed. */
  lemma OnceOpened(events: seq<Event>)
    requires events == [Failed("dc", 0), Queried("dc", 60)]
    ensures Track(1, FRESH, "dc", events) == Circuit(0, 1, None)
  {
    hide Track;
    TrackSnoc(1, FRESH, "dc", [], Failed("dc", 0));
    TrackSnoc(1, FRESH, "dc", [Failed("dc", 0)], Queried("dc", 60));
    NoEvents();
    assert [] + [Failed("dc", 0)] == [Failed("dc", 0)];
    assert events == [Failed("dc", 0)] + [Queried("dc", 60)];
  }

  lemma NoEvents()
    ensures Track(1, FRESH, "dc", []) == FRESH && Backoff(0) == 60 && Backoff(1) == 120
  {
    assert Pow2(0) == 1 && Pow2(1) == 2;
  }

  /** At threshold one, a success between two failures starts the backoff over, where a lapsed cooldown
      doubles it. */
  lemma BackoffForgotten(events: seq<Event>)
    requires events == [Failed("dc", 0), Queried("dc", 60)]
    ensures Track(1, FRESH, "dc", events + [Failed("dc", 100)]).until == Some(220)
    ensures Track(1, FRESH, "dc", events + [Succeeded("dc")] + [Failed("dc", 100)]).until == Some(160)
  {
    hide Track, Backoff;
    OnceOpened(events);
    NoEvents();
    TrackSnoc(1, FRESH, "dc", events, Failed("dc", 100));
    TrackSnoc(1, FRESH, "dc", events, Succeeded("dc"));
    TrackSnoc(1, FRESH, "dc", events + [Succeeded("dc")], Failed("dc", 100));
  }

  lemma Remembered(threshold: nat, events: seq<Event>, e: Event)
    ensures forall dc :: Track(threshold, FRESH, dc, events + [e]) ==
              if e.dc == dc then Step(threshold, Track(threshold, FRESH, dc, events), e)
                else Track(threshold, FRESH, dc, events)
  {
    hide Step;
    forall dc ensures Track(threshold, FRESH, dc, events + [e]) ==
              if e.dc == dc then Step(threshold, Track(threshold, FRESH, dc, events), e)
                else Track(threshold, FRESH, dc, events) {
      TrackSnoc(threshold, FRESH, dc, events, e);
    }
  }

  class DCBreaker {
    const threshold: nat
    var fails: map<string, nat>
    var opens: map<string, nat>
    var openUntil: map<string, int>
    ghost var history: seq<Event>

    /** The circuit of one DC; absent entries read as zero. */
    function View(dc: string): Circuit
      reads this
    {
      Circuit(Get(fails, dc, 0), Get(opens, dc, 0), if dc in openUntil then Some(openUntil[dc]) else None)
    }

    /** The maps are what the breaker's whole history makes of them. */
    ghost predicate Valid()
      reads this
    {
      threshold >= 1 && forall dc :: View(dc) == Track(threshold, FRESH, dc, history)
    }

    constructor (threshold: int)
      ensures Valid() && history == []
      ensures this.threshold == if threshold < 1 then 1 else threshold
      ensures forall dc :: View(dc) == FRESH
    {
      this.threshold := if threshold < 1 then 1 else threshold;
      fails, opens, openUntil, history := map[], map[], map[], [];
    }

    /** `IsAvailable`: past the cooldown it closes the circuit and forgets the streak. */
    method IsAvailable(dc: string, now: int) returns (ok: bool)
      requires Valid()
      modifies this
      ensures Valid() && history == old(history) + [Queried(dc, now)]
      ensures ok == old(Available(View(dc), now))
      ensures View(dc) == AfterQuery(old(View(dc)), now)
      ensures forall d :: d != dc ==> View(d) == old(View(d))
    {
      hide Track;
      Remembered(threshold, history, Queried(dc, now));
      history := history + [Queried(dc, now)];
      if dc !in openUntil { return true; }
      if now < openUntil[dc] { return false; }
      openUntil := openUntil - {dc};
      fails := fails[dc := 0];
      return true;
    }

    /** `RecordSuccess`: wipes streak and backoff history. */
    method RecordSuccess(dc: string)
      requires Valid()
      modifies this
      ensures Valid() && history == old(history) + [Succeeded(dc)]
      ensures View(dc) == AfterSuccess(old(View(dc)))
      ensures forall d :: d != dc ==> View(d) == old(View(d))
    {
      hide Track;
      Remembered(threshold, history, Succeeded(dc));
      history := history + [Succeeded(dc)];
      openUntil := openUntil - {dc};
      fails := fails[dc := 0];
      opens := opens[dc := 0];
    }

    /** `RecordFailure`: returns the cooldown when this failure opens the circuit, else 0. */
    method RecordFailure(dc: string, now: int) returns (cooldown: int)
      requires Valid()
      modifies this
      ensures Valid() && history == old(history) + [Failed(dc, now)]
      ensures View(dc) == AfterFailure(threshold, old(View(dc)), now)
      ensures forall d :: d != dc ==> View(d) == old(View(d))
      ensures cooldown == if old(Opens(threshold, View(dc))) then Backoff(old(View(dc)).opens) else 0
    {
      hide Track, Backoff;
      Remembered(threshold, history, Failed(dc, now));
      history := history + [Failed(dc, now)];
      fails := fails[dc := Get(fails, dc, 0) + 1];
      if fails[dc] < threshold { return 0; }
      if dc in openUntil { return 0; }
      var n := Get(opens, dc, 0);
      cooldown := Cooldown(n);
      openUntil := openUntil[dc := now + cooldown];
      opens := opens[dc := n + 1];
    }
  }

  /** The object's streak is the number of failures since the last success or lapsed cooldown. */
  lemma ObjectStreak(b: DCBreaker, dc: string, from: nat)
    requires b.Valid() && from <= |b.history| && (from == 0 || EndsStreak(b.threshold, dc, b.history, from - 1))
    requires forall i :: from <= i < |b.history| ==> !EndsStreak(b.threshold, dc, b.history, i)
    ensures Get(b.fails, dc, 0) == CountFailures(b.history[from..], dc)
  {
    hide EndsStreak, CountFailures, Track;
    StreakCounts(b.threshold, dc, b.history, from);
    assert b.View(dc) == Track(b.threshold, FRESH, dc, b.history);
  }

  /** What holds in every state a breaker object can get into. */
  lemma BreakerInvariant(b: DCBreaker, dc: string)
    requires b.Valid()
    ensures dc in b.openUntil <==> Get(b.fails, dc, 0) >= b.threshold
    ensures Get(b.opens, dc, 0) == OpeningsSinceSuccess(b.threshold, dc, b.history)
    ensures dc in b.openUntil ==>
              && LatestOpening(b.threshold, dc, b.history).Some?
              && b.openUntil[dc] <= LatestOpening(b.threshold, dc, b.history).value + 3600
  {
    hide OpeningsSinceSuccess, LatestOpening;
    RunInvariant(b.threshold, dc, b.history);
    OpenWithinAnHour(b.threshold, dc, b.history);
    assert b.View(dc) == Track(b.threshold, FRESH, dc, b.history);
  }

  // ----- availableDCs ----------------------------------------------------------

  function Keep(hosts: seq<string>, up: set<string>): seq<string> {
    if hosts == [] then []
    else
      var n := |hosts| - 1;
      Keep(hosts[..n], up) + (if hosts[n] in up then [hosts[n]] else [])
  }

  /** The events of asking for every host. */
  function Queries(hosts: seq<string>, now: int): seq<Event> {
    seq(|hosts|, i requires 0 <= i < |hosts| => Queried(hosts[i], now))
  }

  lemma QueryTwice(now: int)
    ensures forall c :: AfterQuery(AfterQuery(c, now), now) == AfterQuery(c, now)
    ensures forall c :: Available(AfterQuery(c, now), now) <==> Available(c, now)
  {
  }

  /** `availableDCs`: the available hosts in configured order; each query may close a circuit. */
  method AvailableDCs(b: DCBreaker, hosts: seq<string>, now: int) returns (out: seq<string>)
    requires b.Valid()
    modifies b
    ensures b.Valid() && b.history == old(b.history) + Queries(hosts, now)
    ensures out == Keep(hosts, old(set dc | dc in hosts && Available(b.View(dc), now)))
    ensures forall dc :: b.View(dc) == if dc in hosts then AfterQuery(old(b.View(dc)), now) else old(b.View(dc))
  {
    hide Available, AfterQuery, Track;
    QueryTwice(now);
    out := [];
    ghost var up := set dc | dc in hosts && Available(b.View(dc), now);
    for i := 0 to |hosts|
      invariant b.Valid() && b.history == old(b.history) + Queries(hosts[..i], now)
      invariant out == Keep(hosts[..i], up)
      invariant forall dc :: b.View(dc) == if dc in hosts[..i] then AfterQuery(old(b.View(dc)), now)
                else old(b.View(dc))
    {
      assert hosts[..i + 1][..i] == hosts[..i];
      assert hosts[..i + 1] == hosts[..i] + [hosts[i]];
      assert Queries(hosts[..i + 1], now) == Queries(hosts[..i], now) + [Queried(hosts[i], now)];
      var ok := b.IsAvailable(hosts[i], now);
      assert ok <==> hosts[i] in up;
      if ok {
        out := out + [hosts[i]];
      }
    }
    assert hosts[..|hosts|] == hosts;
  }

  /** With every host available, all of them are walked. */
  lemma {:induction false} KeepAll(hosts: seq<string>, up: set<string>)
    requires forall dc :: dc in hosts ==> dc in up
    ensures Keep(hosts, up) == hosts
  {
    if hosts != [] {
      var n := |hosts| - 1;
      KeepAll(hosts[..n], up);
      assert hosts == hosts[..n] + [hosts[n]];
    }
  }

  /** The hosts kept stay in their configured order. */
  lemma {:induction false} KeepConcat(a: seq<string>, b: seq<string>, up: set<string>)
    ensures Keep(a + b, up) == Keep(a, up) + Keep(b, up)
  {
    if b == [] {
      assert a + b == a;
    } else {
      assert (a + b)[..|a + b| - 1] == a + b[..|b| - 1];
      KeepConcat(a, b[..|b| - 1], up);
    }
  }

  lemma {:induction false} KeepExact(hosts: seq<string>, up: set<string>, dc: string)
    ensures dc in Keep(hosts, up) <==> dc in hosts && dc in up
  {
    if hosts != [] {
      var n := |hosts| - 1;
      KeepExact(hosts[..n], up, dc);
      assert hosts == hosts[..n] + [hosts[n]];
    }
  }

  /** The hosts a history leaves available. */
  function UpAfter(threshold: nat, hosts: seq<string>, events: seq<Event>, now: int): set<string> {
    set dc | dc in hosts && Available(Track(threshold, FRESH, dc, events), now)
  }

  /** The hosts a breaker object lets through are those its history leaves available. */
  lemma UpByHistory(b: DCBreaker, hosts: seq<string>, now: int)
    requires b.Valid()
    ensures (set dc | dc in hosts && Available(b.View(dc), now)) == UpAfter(b.threshold, hosts, b.history, now)
  {
    hide Available, Track;
    forall dc | dc in hosts ensures b.View(dc) == Track(b.threshold, FRESH, dc, b.history) {
    }
  }

  /** An hour after the last failure of any history `availableDCs` returns every configured host. */
  lemma EveryHostBack(threshold: nat, hosts: seq<string>, events: seq<Event>, time: int, now: int)
    requires NoFailureAfter(events, time) && now >= time + 3600
    ensures Keep(hosts, UpAfter(threshold, hosts, events, now)) == hosts
  {
    forall dc | dc in hosts ensures dc in UpAfter(threshold, hosts, events, now) {
      AvailableAgain(threshold, dc, events, time, now);
    }
    KeepAll(hosts, UpAfter(threshold, hosts, events, now));
  }
}

/** `internal/kerberos/refresh.go` and `internal/state/kerberos.go`: the self-tuning ticket
    refresh. Times and durations are in nanoseconds; kinit itself takes no time. */
module Refresh {
  import opened Records

  const SECOND := 1_000_000_000
  const DEFAULT_CEILING := 8 * 3600 * SECOND
  const RETRY := 60 * SECOND

  /** How a kinit ended: a failure, or a ticket, whose end time the sidecar may be able to read. */
  datatype Kinit = Failure(message: string) | Ticket(expiry: int, readable: bool)

  /** Go's integer division truncates toward zero. */
  function Half(d: int): int {
    if d >= 0 then d / 2 else -((-d) / 2)
  }

  /** `ceiling`. */
  function Ceiling(interval: int): (c: int)
    ensures c > 0 && (interval > 0 ==> c == interval)
    ensures interval <= 0 ==> c == 28_800_000_000_000
  {
    if interval > 0 then interval else DEFAULT_CEILING
  }

  /** How long to wait after a kinit that ended like this at time `now`. */
  function Delay(interval: int, k: Kinit, now: int): int {
    match k
    case Failure(_) => RETRY
    case Ticket(expiry, readable) =>
      var half := Half(expiry - now);
      if readable && 0 < half < Ceiling(interval) then half else Ceiling(interval)
  }

  datatype Status = Unknown | Ready | Expired

  class Kerberos {
    var status: Status
    var detail: string
    var lastRefresh: Option<int>

    constructor ()
      ensures status == Unknown && detail == "" && lastRefresh == None
    {
      status, detail, lastRefresh := Unknown, "", None;
    }

    method MarkReady(time: int)
      modifies this
      ensures status == Ready && detail == "" && lastRefresh == Some(time)
    {
      status, detail, lastRefresh := Ready, "", Some(time);
    }

    /** The time of the last good kinit stays visible. */
    method MarkExpired(message: string)
      modifies this
      ensures status == Expired && detail == message && lastRefresh == old(lastRefresh)
    {
      status, detail := Expired, message;
    }
  }

  class Refresher {
    const interval: int
    const state: Kerberos

    constructor (interval: int, state: Kerberos)
      ensures this.interval == interval && this.state == state
    {
      this.interval, this.state := interval, state;
    }

    /** `refreshOnce`. */
    method RefreshOnce(k: Kinit, now: int) returns (next: int)
      modifies state
      ensures next == Delay(interval, k, now) && next > 0
      ensures state.status == if k.Ticket? then Ready else Expired
      ensures state.lastRefresh == if k.Ticket? then Some(now) else old(state.lastRefresh)
      ensures state.detail == if k.Ticket? then "" else k.message
    {
      if k.Failure? {
        state.MarkExpired(k.message);
        return RETRY;
      }
      next := Ceiling(interval);
      if k.readable {
        var half := Half(k.expiry - now);
        if half > 0 && half < next {
          next := half;
        }
      }
      state.MarkReady(now);
    }

    /** `Run`, cancelled after these kinits: when each was made, and what the state then shows. */
    method Run(start: int, outs: seq<Kinit>) returns (times: seq<int>)
      modifies state
      ensures |times| == |outs|
      ensures forall i :: 0 <= i < |times| ==> times[i] == At(interval, start, outs[..i])
      ensures outs != [] ==> state.status == if outs[|outs| - 1].Ticket? then Ready else Expired
      ensures state.lastRefresh == LastGood(interval, start, outs, old(state.lastRefresh))
    {
      times := [];
      var now, next := start, Ceiling(interval);
      for i := 0 to |outs|
        invariant |times| == i && now + next == At(interval, start, outs[..i])
        invariant forall j :: 0 <= j < i ==> times[j] == At(interval, start, outs[..j])
        invariant i > 0 ==> state.status == if outs[i - 1].Ticket? then Ready else Expired
        invariant state.lastRefresh == LastGood(interval, start, outs[..i], old(state.lastRefresh))
      {
        assert outs[..i + 1][..i] == outs[..i];
        now := now + next;
        times := times + [now];
        next := RefreshOnce(outs[i], now);
      }
      assert outs[..|outs|] == outs;
    }
  }

  // ----- runs ------------------------------------------------------------------

  /** When the attempt after these kinits is made; the first one waits a whole ceiling. */
  function At(interval: int, start: int, outs: seq<Kinit>): int {
    if outs == [] then start + Ceiling(interval)
    else
      var n := |outs| - 1;
      var now := At(interval, start, outs[..n]);
      now + Delay(interval, outs[n], now)
  }

  /** When the last successful kinit was made. */
  function LastGood(interval: int, start: int, outs: seq<Kinit>, before: Option<int>): Option<int> {
    if outs == [] then before
    else
      var n := |outs| - 1;
      if outs[n].Ticket? then Some(At(interval, start, outs[..n])) else LastGood(interval, start, outs[..n], before)
  }

  /** When the cached ticket expires; a failed kinit leaves the cache alone. */
  function Expiry(first: int, outs: seq<Kinit>): int {
    if outs == [] then first
    else
      var n := |outs| - 1;
      if outs[n].Ticket? then outs[n].expiry else Expiry(first, outs[..n])
  }

  /** How many kinits have failed in a row. */
  function Streak(outs: seq<Kinit>): nat {
    if outs == [] || outs[|outs| - 1].Ticket? then 0 else Streak(outs[..|outs| - 1]) + 1
  }

  /** How long each wait is: a minute after a failure; after a ticket that can be read half its time left,
      rounded down and at most the ceiling; the ceiling after any other. */
  lemma WaitLengths(interval: int, k: Kinit, now: int)
    ensures k.Failure? ==> Delay(interval, k, now) == 60_000_000_000
    ensures k.Ticket? && k.readable && k.expiry - now >= 2 ==>
              var wait := Delay(interval, k, now);
              && wait <= Ceiling(interval) && 2 * wait <= k.expiry - now
              && (wait == Ceiling(interval) || k.expiry - now <= 2 * wait + 1)
    ensures k.Ticket? && (!k.readable || k.expiry - now < 2) ==> Delay(interval, k, now) == Ceiling(interval)
  {
    if k.Ticket? && k.expiry - now < 0 {
      assert Half(k.expiry - now) <= 0;
    }
  }

  /** A fresh readable ticket is renewed before it expires exactly when it has 2ns left. */
  lemma NextBeforeExpiry(interval: int, expiry: int, now: int)
    ensures now + Delay(interval, Ticket(expiry, true), now) < expiry <==> expiry - now >= 2
  {
    var left := expiry - now;
    if left < 0 {
      assert Half(left) <= 0;
    }
  }

  predicate AllFailures(outs: seq<Kinit>) {
    forall i :: 0 <= i < |outs| ==> outs[i].Failure?
  }

  /** Failures only ever postpone the next attempt by a minute each. */
  lemma {:induction false} FailuresPostpone(interval: int, start: int, outs: seq<Kinit>, failures: seq<Kinit>)
    requires AllFailures(failures)
    ensures At(interval, start, outs + failures) == At(interval, start, outs) + |failures| * 60_000_000_000
  {
    if failures == [] {
      assert outs + failures == outs;
    } else {
      var n := |failures| - 1;
      FailuresPostpone(interval, start, outs, failures[..n]);
      assert (outs + failures)[..|outs + failures| - 1] == outs + failures[..n];
    }
  }

  /** How long the wait after a ticket with this much time left is. */
  function FirstWait(interval: int, left: int, readable: bool): int {
    if readable && 2 <= left && left / 2 < Ceiling(interval) then left / 2 else Ceiling(interval)
  }

  /** The ticket outlives the wait after it and n retries. */
  predicate HasRoom(interval: int, left: int, readable: bool, n: nat) {
    FirstWait(interval, left, readable) + n * 60_000_000_000 < left
  }

  /** After a ticket and n failures another attempt comes before the ticket expires exactly when the
      ticket has room for them; if it is readable, n minutes within half the lifetime always fit. */
  lemma MarginForFailures(interval: int, start: int, outs: seq<Kinit>, k: Kinit, failures: seq<Kinit>)
    requires k.Ticket? && AllFailures(failures)
    ensures var left, n := k.expiry - At(interval, start, outs), |failures|;
            && (At(interval, start, outs + [k] + failures) < k.expiry <==> HasRoom(interval, left, k.readable, n))
            && (k.readable && 2 <= left && 2 * n * 60_000_000_000 < left ==> HasRoom(interval, left, k.readable, n))
  {
    var left := k.expiry - At(interval, start, outs);
    FailuresPostpone(interval, start, outs + [k], failures);
    assert (outs + [k])[..|outs|] == outs;
    WaitIsDelay(interval, k, At(interval, start, outs));
  }

  lemma WaitIsDelay(interval: int, k: Kinit, now: int)
    requires k.Ticket?
    ensures Delay(interval, k, now) == FirstWait(interval, k.expiry - now, k.readable)
  {
    if k.expiry - now < 0 {
      assert Half(k.expiry - now) <= 0;
    }
  }

  /** Every ticket of the run has room for n failures in a row, and the one it starts with outlives
      the first wait, which is a whole ceiling, and n retries. */
  ghost predicate Roomy(interval: int, start: int, first: int, outs: seq<Kinit>, n: nat) {
    && HasRoom(interval, first - start, false, n)
    && forall i :: 0 <= i < |outs| && outs[i].Ticket? ==>
         HasRoom(interval, outs[i].expiry - At(interval, start, outs[..i]), outs[i].readable, n)
  }

  ghost predicate Patient(outs: seq<Kinit>, n: nat) {
    forall i :: 0 <= i <= |outs| ==> Streak(outs[..i]) <= n
  }

  /** Over whole runs: as long as no more than n kinits fail in a row, every attempt is made
      while the cached ticket is still valid. */
  lemma NeverLapses(interval: int, start: int, first: int, outs: seq<Kinit>, n: nat)
    requires Roomy(interval, start, first, outs, n) && Patient(outs, n)
    ensures forall i :: 0 <= i <= |outs| ==> At(interval, start, outs[..i]) < Expiry(first, outs[..i])
  {
    hide Roomy, Patient, At, Expiry, Streak;
    forall i | 0 <= i <= |outs| ensures At(interval, start, outs[..i]) < Expiry(first, outs[..i]) {
      PrefixRoomy(interval, start, first, outs, n, i);
      MarginLeft(interval, start, first, outs[..i], n);
    }
  }

  lemma PrefixRoomy(interval: int, start: int, first: int, outs: seq<Kinit>, n: nat, i: nat)
    requires Roomy(interval, start, first, outs, n) && Patient(outs, n) && i <= |outs|
    ensures Roomy(interval, start, first, outs[..i], n) && Patient(outs[..i], n)
  {
    hide At, Streak;
    assert forall j :: 0 <= j <= i ==> outs[..i][..j] == outs[..j];
  }

  /** The run invariant: the failures still allowed fit before the expiry. */
  lemma {:induction false} MarginLeft(interval: int, start: int, first: int, outs: seq<Kinit>, n: nat)
    requires Roomy(interval, start, first, outs, n) && Patient(outs, n)
    ensures Streak(outs) <= n
    ensures At(interval, start, outs) + (n - Streak(outs)) * 60_000_000_000 < Expiry(first, outs)
  {
    assert outs[..|outs|] == outs;
    if outs != [] {
      var m := |outs| - 1;
      PrefixRoomy(interval, start, first, outs, n, m);
      MarginLeft(interval, start, first, outs[..m], n);
      if outs[m].Ticket? {
        WaitIsDelay(interval, outs[m], At(interval, start, outs[..m]));
      }
    }
  }

  /** However kinit starts failing during the run, n times in a row at most, every attempt is made on
      a valid ticket. */
  ghost predicate Withstands(interval: int, start: int, first: int, outs: seq<Kinit>, n: nat) {
    forall i, failures: seq<Kinit> | 0 <= i <= |outs| && AllFailures(failures) && Patient(outs[..i] + failures, n) ::
      At(interval, start, outs[..i] + failures) < Expiry(first, outs[..i] + failures)
  }

  /** The room is exactly what it takes: if the start-up ticket or any later one lacks it, n failures
      after that ticket reach its expiry. */
  lemma WithstandsIff(interval: int, start: int, first: int, outs: seq<Kinit>, n: nat)
    requires Patient(outs, n)
    ensures Withstands(interval, start, first, outs, n) <==> Roomy(interval, start, first, outs, n)
  {
    hide Roomy, Patient, At, Expiry;
    if Roomy(interval, start, first, outs, n) {
      forall i, failures: seq<Kinit> | 0 <= i <= |outs| && AllFailures(failures) && Patient(outs[..i] + failures, n)
        ensures At(interval, start, outs[..i] + failures) < Expiry(first, outs[..i] + failures)
      {
        StillRoomy(interval, start, first, outs, n, i, failures);
        MarginLeft(interval, start, first, outs[..i] + failures, n);
        StreakFits(outs[..i] + failures, n);
      }
    } else {
      var i, failures := Lapse(interval, start, first, outs, n);
    }
  }

  lemma StreakFits(outs: seq<Kinit>, n: nat)
    requires Patient(outs, n)
    ensures Streak(outs) <= n
  {
    assert outs[..|outs|] == outs;
  }

  lemma StillRoomy(interval: int, start: int, first: int, outs: seq<Kinit>, n: nat, i: nat, failures: seq<Kinit>)
    requires Roomy(interval, start, first, outs, n) && i <= |outs| && AllFailures(failures)
    ensures Roomy(interval, start, first, outs[..i] + failures, n)
  {
    hide At, HasRoom;
    var run := outs[..i] + failures;
    forall j | 0 <= j < |run| && run[j].Ticket?
      ensures HasRoom(interval, run[j].expiry - At(interval, start, run[..j]), run[j].readable, n)
    {
      assert run[..j] == outs[..j] && run[j] == outs[j];
    }
  }

  /** Where a run lacks room, n failures let its ticket lapse. */
  lemma Lapse(interval: int, start: int, first: int, outs: seq<Kinit>, n: nat) returns (i: nat, failures: seq<Kinit>)
    requires Patient(outs, n) && !Roomy(interval, start, first, outs, n)
    ensures i <= |outs| && AllFailures(failures) && |failures| == n && Patient(outs[..i] + failures, n)
    ensures At(interval, start, outs[..i] + failures) >= Expiry(first, outs[..i] + failures)
  {
    hide Patient, Streak, At, HasRoom;
    failures := seq(n, _ => Failure("kinit"));
    if !HasRoom(interval, first - start, false, n) {
      i := 0;
      LapseAtStart(interval, start, first, failures);
      assert outs[..0] + failures == failures;
    } else {
      var j :| 0 <= j < |outs| && outs[j].Ticket?
               && !HasRoom(interval, outs[j].expiry - At(interval, start, outs[..j]), outs[j].readable, n);
      i := j + 1;
      assert outs[..i] == outs[..j] + [outs[j]];
      MarginForFailures(interval, start, outs[..j], outs[j], failures);
    }
    ExpiryThroughFailures(first, outs[..i], failures);
    PatientThroughFailures(outs, n, i, failures);
  }

  lemma LapseAtStart(interval: int, start: int, first: int, failures: seq<Kinit>)
    requires AllFailures(failures) && !HasRoom(interval, first - start, false, |failures|)
    ensures At(interval, start, failures) >= first
  {
    FailuresPostpone(interval, start, [], failures);
    assert [] + failures == failures;
  }

  lemma {:induction false} ExpiryThroughFailures(first: int, outs: seq<Kinit>, failures: seq<Kinit>)
    requires AllFailures(failures)
    ensures Expiry(first, outs + failures) == Expiry(first, outs)
    ensures Streak(outs + failures) == Streak(outs) + |failures|
  {
    if failures == [] {
      assert outs + failures == outs;
    } else {
      var n := |failures| - 1;
      ExpiryThroughFailures(first, outs, failures[..n]);
      assert (outs + failures)[..|outs + failures| - 1] == outs + failures[..n];
    }
  }

  /** Failures right after a ticket, or right at the start, make the only streak there. */
  lemma PatientThroughFailures(outs: seq<Kinit>, n: nat, i: nat, failures: seq<Kinit>)
    requires Patient(outs, n) && i <= |outs| && AllFailures(failures) && |failures| == n
    requires i == 0 || outs[i - 1].Ticket?
    ensures Patient(outs[..i] + failures, n)
  {
    var run := outs[..i] + failures;
    forall j | 0 <= j <= |run| ensures Streak(run[..j]) <= n {
      if j <= i {
        assert run[..j] == outs[..j];
      } else {
        assert run[..j] == outs[..i] + failures[..j - i];
        ExpiryThroughFailures(0, outs[..i], failures[..j - i]);
      }
    }
  }

  /** The default ceiling against tickets of at least ten hours, readable or not: two hours of
      failures, 119 in a row, never let the ticket lapse. */
  lemma TenHourTickets(start: int, first: int, outs: seq<Kinit>)
    requires first - start >= 10 * 3600 * SECOND
    requires forall i :: 0 <= i < |outs| && outs[i].Ticket? ==>
               outs[i].expiry - At(0, start, outs[..i]) >= 10 * 3600 * SECOND
    requires Patient(outs, 119)
    ensures forall i :: 0 <= i <= |outs| ==> At(0, start, outs[..i]) < Expiry(first, outs[..i])
  {
    NeverLapses(0, start, first, outs, 119);
  }
}

/** The failover walk of `applyZone`: DC order with sticky pins, what each answer means,
    and what the walk leaves behind. */
module Failover {
  import opened Text
  import opened Records
  import opened Breaker

  // ----- answers ---------------------------------------------------------------

  datatype Rcode =
    | NoRcode | NOERROR | FORMERR | SERVFAIL | REFUSED | YXRRSET | NXRRSET | NOTAUTH | NOTZONE
    | OtherRcode(code: int)

  datatype ApplyResult = ApplyResult(ok: bool, rcode: Rcode, retryable: bool)

  /** `ClassifyRcode`, by the numbers of section 2.2 of RFC 2136. */
  function ClassifyRcode(code: int): ApplyResult {
    match code
    case 0 => ApplyResult(true, NOERROR, false)
    case 2 => ApplyResult(false, SERVFAIL, true)
    case 7 => ApplyResult(false, YXRRSET, false)
    case 8 => ApplyResult(false, NXRRSET, false)
    case 9 => ApplyResult(false, NOTAUTH, false)
    case 10 => ApplyResult(false, NOTZONE, false)
    case 5 => ApplyResult(false, REFUSED, false)
    case 1 => ApplyResult(false, FORMERR, false)
    case _ => ApplyResult(false, OtherRcode(code), false)
  }

  predicate Contains(s: string, sub: string) {
    sub <= s || (s != "" && Contains(s[1..], sub))
  }

  /** `classifyTSIGError`. */
  function ClassifyTSIGError(message: string): Option<ApplyResult> {
    var lower := Lower(message);
    if Contains(lower, "badtime") || Contains(lower, "bad time") then Some(ApplyResult(false, NoRcode, true))
    else if Contains(lower, "badsig") || Contains(lower, "bad signature") then Some(ApplyResult(false, NoRcode, false))
    else if Contains(lower, "badkey") || Contains(lower, "key not found") then Some(ApplyResult(false, NoRcode, false))
    else None
  }

  /** `classifyExchangeResult`: a response code, an error, both or neither. */
  function ClassifyExchange(resp: Option<int>, err: Option<string>): ApplyResult {
    if err.Some? then
      if resp == Some(0) then ApplyResult(true, NOERROR, false)
      else if resp.Some? then ClassifyRcode(resp.value)
      else match ClassifyTSIGError(err.value)
        case Some(r) => r
        case None => ApplyResult(false, NoRcode, true)
    else if resp.None? then ApplyResult(false, NoRcode, true)
    else ClassifyRcode(resp.value)
  }

  /** `isFailoverEligible`. */
  predicate FailoverEligible(res: ApplyResult) {
    res.retryable || res.rcode == SERVFAIL || res.rcode == REFUSED || res.rcode == NOTAUTH
  }

  /** The word occurs in the text. */
  ghost predicate Occurs(word: string, text: string) {
    exists a: string, b: string :: text == a + word + b
  }

  /** `Contains` finds exactly what occurs. */
  lemma {:induction false} ContainsIff(text: string, word: string)
    ensures Contains(text, word) <==> Occurs(word, text)
  {
    if Contains(text, word) {
      var a, b := FindWord(text, word);
    }
    if Occurs(word, text) {
      var a: string, b: string :| text == a + word + b;
      WordIsFound(a, word, b);
    }
  }

  lemma {:induction false} FindWord(text: string, word: string) returns (a: string, b: string)
    requires Contains(text, word)
    ensures text == a + word + b
  {
    if word <= text {
      a, b := "", text[|word|..];
    } else {
      a, b := FindWord(text[1..], word);
      a := [text[0]] + a;
      assert text == [text[0]] + text[1..];
    }
  }

  lemma {:induction false} WordIsFound(a: string, word: string, b: string)
    ensures Contains(a + word + b, word)
  {
    var text := a + word + b;
    if a == "" {
      assert text == word + b;
    } else {
      WordIsFound(a[1..], word, b);
      assert text[1..] == a[1..] + word + b;
    }
  }

  /** The key or the signature is wrong, so every server would say the same: the error names one of the
      four, in any case, and does not speak of the time. */
  ghost predicate KeyTrouble(message: string) {
    var lower := Lower(message);
    && !Occurs("badtime", lower) && !Occurs("bad time", lower)
    && (Occurs("badsig", lower) || Occurs("bad signature", lower)
        || Occurs("badkey", lower) || Occurs("key not found", lower))
  }

  /** Which exchanges count as applied and which send the walk on to the next DC: no answer at all
      unless the key is at fault, SERVFAIL, REFUSED and NOTAUTH; nothing else. In particular a
      failed prerequisite, FORMERR and NOTZONE end the walk. */
  lemma ExchangeMeaning(resp: Option<int>, err: Option<string>)
    ensures var r := ClassifyExchange(resp, err);
            && (r.ok <==> resp == Some(0))
            && (!r.ok && FailoverEligible(r) <==>
                  if resp.Some? then resp.value in {2, 5, 9} else !(err.Some? && KeyTrouble(err.value)))
            && (r.rcode == YXRRSET <==> resp == Some(7)) && (r.rcode == NXRRSET <==> resp == Some(8))
            && (r.rcode == FORMERR <==> resp == Some(1)) && (r.rcode == NOTZONE <==> resp == Some(10))
  {
    hide Contains, Lower, Occurs;
    if err.Some? {
      forall word ensures Contains(Lower(err.value), word) <==> Occurs(word, Lower(err.value)) {
        ContainsIff(Lower(err.value), word);
      }
    }
  }

  // ----- the order -------------------------------------------------------------

  function DropLeading(dcs: seq<string>, first: string): seq<string> {
    if dcs != [] && dcs[0] == first then DropLeading(dcs[1..], first) else dcs
  }

  /** The DC the walk starts with: the pin if it is available, else the first available DC. */
  function First(pin: Option<string>, available: seq<string>): string
    requires available != []
  {
    if pin.Some? && pin.value in available then pin.value else available[0]
  }

  /** The walk order in closed form: the first DC, then the list without its leading run of it. */
  function WalkOrder(pin: Option<string>, available: seq<string>): seq<string> {
    if available == [] then []
    else [First(pin, available)] + DropLeading(available, First(pin, available))
  }

  /** `dcOrderForZone`: the second loop skips the first DC only while it is alone in the order. */
  method DcOrderForZone(pin: Option<string>, available: seq<string>) returns (order: seq<string>)
    ensures order == WalkOrder(pin, available)
  {
    order := [];
    if pin.Some? {
      for i := 0 to |available|
        invariant order == [] && pin.value !in available[..i]
      {
        assert available[..i + 1] == available[..i] + [available[i]];
        if available[i] == pin.value {
          order := [available[i]];
          break;
        }
      }
      assert order == [] ==> available[..|available|] == available;
    }
    ghost var pinned := order;
    for i := 0 to |available|
      invariant i == 0 ==> order == pinned
      invariant i > 0 && |order| == 1 ==>
                  order == [First(pin, available)]
                  && DropLeading(available, order[0]) == DropLeading(available[i..], order[0])
      invariant i > 0 ==> |order| >= 1
      invariant |order| > 1 ==> order + available[i..] == WalkOrder(pin, available)
    {
      assert available[i..] == [available[i]] + available[i + 1..];
      if |order| == 1 && available[i] == order[0] { continue; }
      order := order + [available[i]];
    }
    assert available[|available|..] == [];
  }

  /** The walk visits only available DCs and all of them, the pin first. */
  lemma WalkCovers(pin: Option<string>, available: seq<string>, dc: string)
    ensures dc in WalkOrder(pin, available) <==> dc in available
    ensures available != [] && pin.Some? && pin.value in available ==> WalkOrder(pin, available)[0] == pin.value
  {
    if available != [] {
      DropLeadingExact(available, First(pin, available), dc);
    }
  }

  /** After its head the order is the configured one: a tail of the list, missing only leading copies of
      the head. */
  lemma WalkTail(pin: Option<string>, available: seq<string>) returns (j: nat)
    requires available != []
    ensures j <= |available| && WalkOrder(pin, available)[1..] == available[j..]
    ensures forall i :: 0 <= i < j ==> available[i] == WalkOrder(pin, available)[0]
    ensures j < |available| ==> available[j] != WalkOrder(pin, available)[0]
  {
    j := LeadingRun(available, First(pin, available));
  }

  lemma {:induction false} LeadingRun(dcs: seq<string>, first: string) returns (j: nat)
    ensures j <= |dcs| && DropLeading(dcs, first) == dcs[j..]
    ensures (forall i :: 0 <= i < j ==> dcs[i] == first) && (j < |dcs| ==> dcs[j] != first)
  {
    if dcs != [] && dcs[0] == first {
      j := LeadingRun(dcs[1..], first);
      j := j + 1;
      assert dcs == [dcs[0]] + dcs[1..];
    } else {
      j := 0;
    }
  }

  lemma {:induction false} DropLeadingExact(dcs: seq<string>, first: string, dc: string)
    ensures dc != first ==> (dc in DropLeading(dcs, first) <==> dc in dcs)
    ensures dc in DropLeading(dcs, first) ==> dc in dcs
  {
    if dcs != [] && dcs[0] == first {
      DropLeadingExact(dcs[1..], first, dc);
      assert dcs == [dcs[0]] + dcs[1..];
    }
  }

  lemma UniqueCons(first: string, rest: seq<string>)
    ensures Unique([first] + rest) <==> first !in rest && Unique(rest)
  {
    var order := [first] + rest;
    assert forall i :: 0 <= i < |rest| ==> order[i + 1] == rest[i];
    if Unique(order) {
      forall x | x in rest ensures x != first {
        var i :| 0 <= i < |rest| && rest[i] == x;
        assert order[i + 1] == x && order[0] == first;
      }
    }
    if first !in rest && Unique(rest) {
      forall i, j | 0 <= i < j < |order| ensures order[i] != order[j] {
        assert order[j] == rest[j - 1] && order[j] in rest;
      }
    }
  }

  /** The order is free of duplicates, as its comment says, exactly when the pin is not available
      or heads the list and no host is repeated past the leading run of the first; otherwise some
      DC is visited twice. */
  lemma WalkDistinctIff(pin: Option<string>, available: seq<string>)
    ensures Unique(WalkOrder(pin, available)) <==>
              available == [] ||
              (var rest := DropLeading(available, available[0]);
               && (pin.None? || pin.value !in available || pin.value == available[0])
               && available[0] !in rest && Unique(rest))
  {
    if available != [] {
      var f := First(pin, available);
      UniqueCons(f, DropLeading(available, f));
    }
  }

  // ----- the walk --------------------------------------------------------------

  /** What happens at an attempt: the context is cancelled first, or the server is asked. */
  datatype Reply = Cancelled | Answer(res: ApplyResult)

  datatype Attempt = Attempt(dc: string, res: ApplyResult)

  datatype Outcome = NoDC | Stopped | Applied | Rejected | Exhausted

  predicate MovesOn(res: ApplyResult) {
    !res.ok && FailoverEligible(res)
  }

  /** The breaker events a trace stands for; attempt i is booked at time clock(i). */
  function EventsOf(trace: seq<Attempt>, clock: nat -> int): seq<Event> {
    if trace == [] then []
    else
      var n := |trace| - 1;
      var a := trace[n];
      EventsOf(trace[..n], clock) +
      (if a.res.ok then [Succeeded(a.dc)] else if FailoverEligible(a.res) then [Failed(a.dc, clock(n))] else [])
  }

  /** The trace follows the order and moves on only from failover-eligible answers. */
  ghost predicate Walks(trace: seq<Attempt>, order: seq<string>, replies: nat -> Reply) {
    && |trace| <= |order|
    && (forall i :: 0 <= i < |trace| ==> trace[i].dc == order[i] && replies(i) == Answer(trace[i].res))
    && (forall i :: 0 <= i < |trace| - 1 ==> MovesOn(trace[i].res))
  }

  ghost predicate Ends(trace: seq<Attempt>, order: seq<string>, replies: nat -> Reply, outcome: Outcome) {
    match outcome
    case NoDC => order == [] && trace == []
    case Stopped => |trace| < |order| && replies(|trace|).Cancelled? && (trace != []
      ==> MovesOn(trace[|trace| - 1].res))
    case Applied => trace != [] && trace[|trace| - 1].res.ok
    case Rejected => trace != [] && !trace[|trace| - 1].res.ok && !FailoverEligible(trace[|trace| - 1].res)
    case Exhausted => order != [] && |trace| == |order| && MovesOn(trace[|trace| - 1].res)
  }

  lemma NothingBooked(clock: nat -> int)
    ensures EventsOf([], clock) == []
    ensures forall threshold: nat, c, dc :: Track(threshold, c, dc, EventsOf([], clock)) == c
  {
  }

  /** One more attempt books one more event, for its own DC only. */
  lemma Booked(trace: seq<Attempt>, a: Attempt, clock: nat -> int)
    ensures EventsOf(trace + [a], clock) == EventsOf(trace, clock)
            + (if a.res.ok then [Succeeded(a.dc)] else if FailoverEligible(a.res) then [Failed(a.dc, clock(|trace|))]
              else [])
    ensures forall threshold: nat, c, dc ::
              Track(threshold, c, dc, EventsOf(trace + [a], clock)) ==
              var before := Track(threshold, c, dc, EventsOf(trace, clock));
              if a.dc != dc then before
              else if a.res.ok then AfterSuccess(before)
              else if FailoverEligible(a.res) then AfterFailure(threshold, before, clock(|trace|))
              else before
  {
    assert (trace + [a])[..|trace|] == trace;
    var booked := EventsOf(trace, clock);
    var e := if a.res.ok then Succeeded(a.dc) else Failed(a.dc, clock(|trace|));
    var moved := a.res.ok || FailoverEligible(a.res);
    assert EventsOf(trace + [a], clock) == if moved then booked + [e] else booked;
    forall threshold: nat, c, dc
      ensures moved ==> Track(threshold, c, dc, booked + [e]) ==
                        if a.dc == dc then Step(threshold, Track(threshold, c, dc, booked), e)
                          else Track(threshold, c, dc, booked)
    {
      TrackSnoc(threshold, c, dc, booked, e);
    }
  }

  /** What a walk books: a failure for every DC it moved on from, at the time of the attempt, and a
      success for the one that applied the UPDATE; a rejection is not booked. */
  lemma WalkBooks(trace: seq<Attempt>, order: seq<string>, replies: nat -> Reply, outcome: Outcome, clock: nat -> int)
    requires Walks(trace, order, replies) && Ends(trace, order, replies, outcome)
    ensures var booked := EventsOf(trace, clock);
            && |booked| == (if outcome.Rejected? then |trace| - 1 else |trace|)
            && (forall i :: 0 <= i < |booked| && !(outcome.Applied? && i == |trace| - 1) ==>
                  booked[i] == Failed(order[i], clock(i)))
            && (outcome.Applied? ==> booked[|trace| - 1] == Succeeded(order[|trace| - 1]))
  {
    hide FailoverEligible;
    if trace != [] {
      MovedOnBooked(trace[..|trace| - 1], clock);
    }
  }

  lemma {:induction false} MovedOnBooked(trace: seq<Attempt>, clock: nat -> int)
    requires forall i :: 0 <= i < |trace| ==> MovesOn(trace[i].res)
    ensures |EventsOf(trace, clock)| == |trace|
    ensures forall i :: 0 <= i < |trace| ==> EventsOf(trace, clock)[i] == Failed(trace[i].dc, clock(i))
  {
    hide FailoverEligible;
    if trace != [] {
      MovedOnBooked(trace[..|trace| - 1], clock);
    }
  }

  /** At most one answer of a walk is a success, and it is the last. */
  lemma OneSuccess(trace: seq<Attempt>, order: seq<string>, replies: nat -> Reply, i: nat)
    requires Walks(trace, order, replies) && i < |trace| && trace[i].res.ok
    ensures i == |trace| - 1
  {
  }

  /** A walk that is never cancelled and gets only failover-eligible answers asks every available DC. */
  lemma ExhaustedAsksAll(pin: Option<string>, available: seq<string>, trace: seq<Attempt>, replies: nat -> Reply,
                         dc: string)
    requires Walks(trace, WalkOrder(pin, available), replies) && Ends(trace, WalkOrder(pin, available), replies,
             Exhausted)
    requires dc in available
    ensures exists i :: 0 <= i < |trace| && trace[i].dc == dc && MovesOn(trace[i].res)
  {
    WalkCovers(pin, available, dc);
    var order := WalkOrder(pin, available);
    var i :| 0 <= i < |order| && order[i] == dc;
    assert trace[i].dc == dc;
  }
}

/** An authoritative server for one zone, as RFC 2136 describes it: it checks the
    prerequisites of an UPDATE (section 3.2) and then applies all of its changes or none
    (section 3.7). Only the forms the sidecar sends are modelled. */
module DnsServer {
  import opened Records

  /** The zone's records with their TTLs. */
  type Zone = map<RR, int>

  /** `Absent`: "RRset does not exist" (section 2.4.3).
      `Present`: one member of "RRset exists (value dependent)" (section 2.4.2). */
  datatype Guard = Absent(name: string, rtype: RType) | Present(rr: RR)

  /** `Put`: "add to an RRset" (2.5.1). `Remove`: "delete an RR from an RRset" (2.5.4). */
  datatype Edit = Put(rr: RR, ttl: int) | Remove(rr: RR)

  datatype Message = Message(guards: seq<Guard>, edits: seq<Edit>)

  ghost function RRset(z: Zone, name: string, t: RType): set<RData> {
    set rr | rr in z && InSet(rr, name, t) :: rr.data
  }

  /** The record data the message demands at (name, type), taken together. */
  ghost function Demanded(guards: seq<Guard>, name: string, t: RType): set<RData> {
    set g | g in guards && g.Present? && InSet(g.rr, name, t) :: g.rr.data
  }

  ghost predicate GuardHolds(z: Zone, guards: seq<Guard>, g: Guard) {
    match g
    case Absent(name, t) => RRset(z, name, t) == {}
    case Present(rr) =>
      RRset(z, rr.name, TypeOf(rr.data)) == Demanded(guards, rr.name, TypeOf(rr.data))
  }

  /** All prerequisites of the message hold in the zone. */
  ghost predicate Accepts(z: Zone, m: Message) {
    forall g :: g in m.guards ==> GuardHolds(z, m.guards, g)
  }

  function ApplyEdit(z: Zone, e: Edit): Zone {
    match e
    case Put(rr, ttl) => z[rr := ttl]
    case Remove(rr) => z - {rr}
  }

  function ApplyEdits(z: Zone, edits: seq<Edit>): Zone {
    if edits == [] then z
    else ApplyEdit(ApplyEdits(z, edits[..|edits| - 1]), edits[|edits| - 1])
  }

  /** The zone after the server has processed the message. */
  ghost function Serve(z: Zone, m: Message): Zone {
    if Accepts(z, m) then ApplyEdits(z, m.edits) else z
  }

  // ----- what a list of edits does to one record -------------------------------

  function Look(z: Zone, rr: RR): Option<int> {
    if rr in z then Some(z[rr]) else None
  }

  /** What the edits decide about a record: nothing, removal, or presence with a TTL. */
  function Verdict(edits: seq<Edit>, rr: RR): Option<Option<int>> {
    if edits == [] then None
    else
      var last := edits[|edits| - 1];
      if last.rr == rr then Some(if last.Put? then Some(last.ttl) else None)
      else Verdict(edits[..|edits| - 1], rr)
  }

  /** The last edit naming a record decides it; the others leave it alone. */
  lemma {:induction false} EditsDecide(z: Zone, edits: seq<Edit>, rr: RR)
    ensures Look(ApplyEdits(z, edits), rr) ==
            (match Verdict(edits, rr) case None => Look(z, rr) case Some(v) => v)
  {
    if edits != [] {
      EditsDecide(z, edits[..|edits| - 1], rr);
    }
  }

  lemma {:induction false} Untouched(edits: seq<Edit>, rr: RR)
    ensures Verdict(edits, rr).None? <==> forall e :: e in edits ==> e.rr != rr
  {
    if edits != [] {
      Untouched(edits[..|edits| - 1], rr);
      assert edits == edits[..|edits| - 1] + [edits[|edits| - 1]];
    }
  }

  lemma {:induction false} VerdictOfConcat(a: seq<Edit>, b: seq<Edit>, rr: RR)
    ensures Verdict(a + b, rr) == if Verdict(b, rr).Some? then Verdict(b, rr) else Verdict(a, rr)
  {
    if b == [] {
      assert a + b == a;
    } else {
      assert (a + b)[..|a + b| - 1] == a + b[..|b| - 1];
      VerdictOfConcat(a, b[..|b| - 1], rr);
    }
  }

  /** If every edit of a record is of one kind, so is the verdict. */
  lemma {:induction false} VerdictKind(edits: seq<Edit>, rr: RR)
    ensures (forall e :: e in edits && e.rr == rr ==> e.Remove?) && (exists e :: e in edits && e.rr == rr)
            ==> Verdict(edits, rr) == Some(None)
    ensures (forall e :: e in edits && e.rr == rr ==> e.Put?) && (exists e :: e in edits && e.rr == rr)
            ==> Verdict(edits, rr).Some? && Verdict(edits, rr).value.Some?
    ensures Verdict(edits, rr).Some? && Verdict(edits, rr).value.Some?
            ==> Put(rr, Verdict(edits, rr).value.value) in edits
    ensures Verdict(edits, rr) == Some(None) ==> Remove(rr) in edits
  {
    if edits != [] {
      var n := |edits| - 1;
      VerdictKind(edits[..n], rr);
      assert edits == edits[..n] + [edits[n]];
      assert forall e :: e in edits[..n] ==> e in edits;
    }
  }

  /** An RRset none of whose members is edited keeps its records and their TTLs. */
  ghost predicate SameRRset(z: Zone, z': Zone, name: string, t: RType) {
    forall rr :: InSet(rr, name, t) ==> Look(z', rr) == Look(z, rr)
  }

  lemma QuietRRset(z: Zone, edits: seq<Edit>, name: string, t: RType)
    requires forall e :: e in edits ==> !InSet(e.rr, name, t)
    ensures SameRRset(z, ApplyEdits(z, edits), name, t)
    ensures RRset(ApplyEdits(z, edits), name, t) == RRset(z, name, t)
  {
    forall rr | InSet(rr, name, t) ensures Look(ApplyEdits(z, edits), rr) == Look(z, rr) {
      Untouched(edits, rr);
      EditsDecide(z, edits, rr);
    }
    SameRRsetSameData(z, ApplyEdits(z, edits), name, t);
  }

  lemma SameRRsetSameData(z: Zone, z': Zone, name: string, t: RType)
    requires SameRRset(z, z', name, t)
    ensures RRset(z', name, t) == RRset(z, name, t)
  {
    forall d ensures d in RRset(z', name, t) <==> d in RRset(z, name, t) {
      InRRset(z, name, t, d);
      InRRset(z', name, t, d);
      var rr := RR(name, d);
      assert InSet(rr, name, t) ==> Look(z', rr) == Look(z, rr);
    }
  }

  lemma InRRset(z: Zone, name: string, t: RType, d: RData)
    ensures d in RRset(z, name, t) <==> RR(name, d) in z && TypeOf(d) == t
  {
    if d in RRset(z, name, t) {
      var rr :| rr in z && InSet(rr, name, t) && rr.data == d;
      assert rr == RR(name, d);
    }
    if RR(name, d) in z && TypeOf(d) == t {
      assert InSet(RR(name, d), name, t);
    }
  }

  /** Applying the same edits twice is applying them once. */
  lemma EditsIdempotent(z: Zone, edits: seq<Edit>)
    ensures ApplyEdits(ApplyEdits(z, edits), edits) == ApplyEdits(z, edits)
  {
    var z1 := ApplyEdits(z, edits);
    var z2 := ApplyEdits(z1, edits);
    forall rr ensures Look(z2, rr) == Look(z1, rr) {
      EditsDecide(z, edits, rr);
      EditsDecide(z1, edits, rr);
    }
    SameLooks(z1, z2);
  }

  /** Zones that agree on every record are equal. */
  lemma SameLooks(z1: Zone, z2: Zone)
    requires forall rr :: Look(z1, rr) == Look(z2, rr)
    ensures z1 == z2
  {
    forall rr ensures rr in z1 <==> rr in z2 {
      assert Look(z1, rr) == Look(z2, rr);
    }
    forall rr | rr in z1 ensures z1[rr] == z2[rr] {
      assert Look(z1, rr) == Look(z2, rr);
    }
  }

  /** A message with a single kind of demand passes when the zone meets exactly that demand. */
  lemma OneGuardAccepted(z: Zone, m: Message, rr: RR)
    requires forall g :: g in m.guards ==> g == Present(rr)
    requires RRset(z, rr.name, TypeOf(rr.data)) == {rr.data}
    ensures Accepts(z, m)
  {
    forall g | g in m.guards ensures GuardHolds(z, m.guards, g) {
      assert InSet(Present(rr).rr, rr.name, TypeOf(rr.data));
      assert Demanded(m.guards, rr.name, TypeOf(rr.data)) == {rr.data};
    }
  }
}

/** What the listing of a zone knows about a key: the key's record set and the markers that
    stand for it. */
module Marks {
  import opened Text
  import opened Records
  import opened Ownership
  import opened Cache
  import opened DnsServer
  import opened Axfr
  import opened Listing
  import opened ListingOrder
  import opened PairingRuns
  import opened ReadBack

  /** All ownership markers of the zone that stand for the key name this owner. */
  ghost predicate LabelledBy(z: Zone, k: Key, owner: string) {
    forall rr :: rr in z && MarksKey(rr, k) ==> OwnerIn(rr.data) == Some(owner)
  }

  /** The record reads back as an ownership marker for the key. */
  predicate MarksKey(rr: RR, k: Key) {
    OwnedData(rr.data) && DecodeOwnershipName(TrimDot(Lower(rr.name))) == Some(k)
  }

  function OwnerIn(d: RData): Option<string> {
    if d.Text? then DecodeOwnership("\"" + Concat(d.chunks) + "\"") else None
  }

  /** Markers of a snapshot are the markers of the zone. */
  lemma LabelOrigin(recs: seq<Record>, z: Zone, k: Key, r: Record) returns (rr: RR)
    requires Snapshot(recs, z) && r in recs && Labels(r, k)
    ensures rr in z && MarksKey(rr, k) && OwnerIn(rr.data) == DecodeOwnership(r.value)
  {
    hide DecodeOwnership, DecodeOwnershipName, Concat;
    SnapshotExact(recs, z, r);
    rr :| rr in z && RrToRecord(rr, z[rr]) == Some(r);
  }

  lemma LabelShown(recs: seq<Record>, z: Zone, k: Key, rr: RR)
    requires Snapshot(recs, z) && rr in z && MarksKey(rr, k)
    ensures exists r :: r in recs && Labels(r, k)
  {
    hide DecodeOwnership, DecodeOwnershipName, Concat;
    var r := RrToRecord(rr, z[rr]).value;
    SnapshotExact(recs, z, r);
    assert Labels(r, k);
  }

  /** A marker's name, stored and transferred, still decodes to its key. */
  lemma MarkerReadsBack(t: RType, nm: string)
    requires IsData(t) && Settled(nm) && NormalizeName(nm) == nm
    ensures DecodeOwnershipName(TrimDot(Lower(MarkerWire(t, nm)))) == Some((nm, t))
  {
    hide DecodeOwnershipName, NormalizeName;
    var m := OwnershipNameFor(t, nm);
    MarkerSettled(t, nm);
    SettledWire(m);
    LowerFixed(MarkerWire(t, nm));
    MarkerRoundTrip(t, nm);
  }

  /** A marker the create relies on as an orphan stands for the created key. */
  lemma OrphanMarks(z: Zone, cached: seq<Record>, t: RType, nm: string) returns (rr: RR)
    requires Legal(z) && Snapshot(cached, z) && IsOrphan(cached, OwnershipNameFor(t, nm))
    requires IsData(t) && Settled(nm) && NormalizeName(nm) == nm
    ensures rr in z && MarksKey(rr, (nm, t)) && rr.name == MarkerWire(t, nm)
  {
    hide DecodeOwnershipName, NormalizeName, OwnershipNameFor, IsMarker, Orphaned, IsOwnerName, MarkerWire,
         OwnedData, Settled, RrToRecord, Snapshot;
    var r :| r in cached && IsMarker(r) && NormalizeName(r.name) == OwnershipNameFor(t, nm);
    SnapshotExact(cached, z, r);
    rr :| rr in z && RrToRecord(rr, z[rr]) == Some(r);
    ShownMarker(rr, z[rr], r);
    MarkerListed(rr, t, nm);
    MarkerReadsBack(t, nm);
  }

  lemma NormalTwice(name: string)
    requires Settled(NormalizeName(name))
    ensures NormalizeName(NormalizeName(name)) == NormalizeName(name) && Lowered(NormalizeName(name))
    ensures Wire(NormalizeName(name)) == NormalizeName(name) + "."
  {
    assert Lowered(NormalizeName(name));
    SettledWire(NormalizeName(name));
  }

  /** A zone can be transferred with any of its records last. */
  lemma EnumerateEndingIn(z: Zone, last: RR) returns (body: seq<Arrival>)
    requires last in z
    ensures Enumerates(body, z) && body != [] && body[|body| - 1].rr == last
  {
    var rest := z - {last};
    var front := EnumerateAny(rest);
    body := front + [Arrival(last, z[last])];
    EnumerateSnoc(front, z, last);
  }

  lemma {:induction false} EnumerateAny(z: Zone) returns (body: seq<Arrival>)
    ensures Enumerates(body, z)
    decreases |z|
  {
    if z == map[] {
      body := [];
    } else {
      var rr :| rr in z;
      var rest := z - {rr};
      assert |rest| < |z| by { assert rest.Keys == z.Keys - {rr}; assert |rest| == |rest.Keys| && |z| == |z.Keys|; }
      var front := EnumerateAny(rest);
      body := front + [Arrival(rr, z[rr])];
      EnumerateSnoc(front, z, rr);
    }
  }

  lemma EnumerateSnoc(front: seq<Arrival>, z: Zone, rr: RR)
    requires rr in z && Enumerates(front, z - {rr})
    ensures Enumerates(front + [Arrival(rr, z[rr])], z)
  {
    var body := front + [Arrival(rr, z[rr])];
    forall i | 0 <= i < |body| ensures Look(z, body[i].rr) == Some(body[i].ttl) {
      if i < |front| { assert Look(z - {rr}, front[i].rr) == Some(front[i].ttl); }
    }
    forall x | x in z ensures exists i :: 0 <= i < |body| && body[i].rr == x {
      if x == rr {
        assert body[|front|].rr == x;
      } else {
        assert x in z - {rr};
        var i :| 0 <= i < |front| && front[i].rr == x;
        assert body[i].rr == x;
      }
    }
    forall i, j | 0 <= i < j < |body| ensures body[i].rr != body[j].rr {
      assert Look(z - {rr}, front[i].rr) == Some(front[i].ttl);
      assert body[i] == front[i];
      if j < |front| { assert body[j] == front[j]; }
    }
  }

  /** Some transfer shows the owner of a given marker. */
  lemma ForeignLast(z: Zone, rr: RR, k: Key) returns (recs: seq<Record>)
    requires rr in z && MarksKey(rr, k)
    ensures Snapshot(recs, z) && LabelOf(recs, k) == OwnerIn(rr.data)
  {
    hide DecodeOwnership, DecodeOwnershipName, Enumerates, Concat;
    var body := EnumerateEndingIn(z, rr);
    recs := Convert(body);
    var n := |body| - 1;
    var r := RrToRecord(rr, body[n].ttl);
    assert recs == Convert(body[..n]) + [r.value];
    assert Labels(r.value, k);
  }

  /** The key's markers all sit at the marker's own name. */
  ghost predicate MarkedInPlace(z: Zone, k: Key) {
    forall rr :: rr in z && MarksKey(rr, k) ==> rr.name == MarkerWire(k.1, k.0)
  }

  /** Only a wildcard key has a second name that decodes to it: the one that spells the asterisk. */
  lemma PlainInPlace(z: Zone, k: Key)
    requires Legal(z) && IsData(k.1) && Normal(k.0) && !("*." <= k.0)
    ensures MarkedInPlace(z, k)
  {
    hide MarksKey, MarkerWire, IsOwnerName, Normal;
    forall rr | rr in z && MarksKey(rr, k) ensures rr.name == MarkerWire(k.1, k.0) {
      assert IsOwnerName(rr.name);
      MarksAt(rr.name, k, rr.data);
    }
  }

  lemma MarksAt(w: string, k: Key, d: RData)
    requires IsOwnerName(w) && MarksKey(RR(w, d), k) && IsData(k.1) && Normal(k.0) && !("*." <= k.0)
    ensures w == MarkerWire(k.1, k.0)
  {
    hide IsOwnerName, Wire, NormalizeName, Lower, OwnedData;
    NameOfMark(w, k);
    var n := TrimDot(w);
    LabelSpells(n[4..FirstDot(n)], k.1);
    assert NormalizeName(k.0) == k.0 by { NormalFixed(k.0); }
    assert n == "ddo-" + TypeLabel(k.1) + "." + k.0;
    assert OwnershipNameFor(k.1, k.0) == n;
  }

  /** How a legal marker name decodes, when not to a wildcard. */
  lemma NameOfMark(w: string, k: Key)
    requires IsOwnerName(w) && DecodeOwnershipName(TrimDot(Lower(w))) == Some(k) && !("*." <= k.0)
    ensures var n := TrimDot(w);
            && Wire(n) == w && "ddo-" <= n && 4 <= FirstDot(n) < |n|
            && n == "ddo-" + n[4..FirstDot(n)] + "." + k.0 && TypeOfLabel(n[4..FirstDot(n)]) == k.1
  {
    hide IsOwnerName, Wire, NormalizeName, Lower, TypeOfLabel, DecodeOwnershipName, FirstDot, Lowered, Settled;
    assert EndsInDot(w) && Lowered(w) by { OwnerNameDotted(w); }
    LowerFixed(w);
    OwnerNameShape(w);
    assert w != "." by { RootMarksNothing(); }
    var n := TrimDot(w);
    SettledWire(n);
    DecodeParts(n, k);
  }

  lemma RootMarksNothing()
    ensures DecodeOwnershipName(TrimDot(Lower("."))) == None
  {
    assert TrimDot(Lower(".")) == "";
  }

  lemma NormalFixed(name: string)
    requires Normal(name)
    ensures NormalizeName(name) == name
  {
    hide NormalizeName;
    if name == "" {
      EmptyNormal();
    } else {
      SettledWire(name);
    }
  }

  lemma EmptyNormal()
    ensures NormalizeName("") == ""
  {
  }

  lemma LabelSpells(s: string, t: RType)
    requires TypeOfLabel(s) == t && IsData(t)
    ensures s == TypeLabel(t)
  {
  }

  // ----- how a zone's key is listed --------------------------------------------

  /** A key of a legal zone is listed when it passes the filter, has a marker and has data, with its
      record set as targets, each record once. */
  lemma ListedFromZone(filter: seq<string>, recs: seq<Record>, z: Zone, k: Key) returns (ds: seq<RData>)
    requires Legal(z) && Snapshot(recs, z) && Normal(k.0) && IsData(k.1)
    ensures Unique(ds) && (forall d :: d in ds <==> d in RRset(z, Wire(k.0), k.1)) && ValuesAt(recs, k) == ShowAll(ds)
    ensures LabelOf(recs, k).Some? <==> exists rr :: rr in z && MarksKey(rr, k)
    ensures k in Keys(filter, recs) <==> Passes(filter, k.0) && (exists rr :: rr in z && MarksKey(rr, k)) && ds != []
  {
    hide Snapshot, Legal, MarksKey, LabelOf, KeysIn, ValuesAt, RRset, Normal, Passes, Labels, Wire, Unique;
    ds := TargetsAreRRset(recs, z, k.0, k.1);
    LabelExact(recs, k);
    if rr :| rr in z && MarksKey(rr, k) {
      LabelShown(recs, z, k, rr);
    }
    if r :| r in recs && Labels(r, k) {
      var rr := LabelOrigin(recs, z, k, r);
    }
    ListedByValues(filter, recs, k);
    assert |ShowAll(ds)| == |ds|;
  }

  /** Markers that name one owner show that owner. */
  lemma LabelFromZone(recs: seq<Record>, z: Zone, k: Key, owner: string)
    requires Snapshot(recs, z) && LabelledBy(z, k, owner) && LabelOf(recs, k).Some?
    ensures LabelOf(recs, k) == Some(owner)
  {
    hide Snapshot, MarksKey, OwnerIn, LabelOf, Labels;
    LabelExact(recs, k);
    var r :| r in recs && Labels(r, k) && DecodeOwnership(r.value) == LabelOf(recs, k);
    var origin := LabelOrigin(recs, z, k, r);
  }

  /** Every transfer shows the owner exactly when all markers for the key name it. */
  lemma OwnerAlwaysShownIff(z: Zone, k: Key, owner: string)
    requires exists rr :: rr in z && MarksKey(rr, k)
    ensures (forall recs :: Snapshot(recs, z) ==> LabelOf(recs, k) == Some(owner)) <==> LabelledBy(z, k, owner)
  {
    hide Snapshot, MarksKey, OwnerIn, LabelOf, Labels;
    if LabelledBy(z, k, owner) {
      forall recs | Snapshot(recs, z) ensures LabelOf(recs, k) == Some(owner) {
        var rr :| rr in z && MarksKey(rr, k);
        LabelShown(recs, z, k, rr);
        LabelExact(recs, k);
        LabelFromZone(recs, z, k, owner);
      }
    } else {
      var rr :| rr in z && MarksKey(rr, k) && OwnerIn(rr.data) != Some(owner);
      var recs := ForeignLast(z, rr, k);
    }
  }

  /** A record set with one TTL is listed with that TTL. */
  lemma TTLFromZone(recs: seq<Record>, z: Zone, k: Key, ttl: int)
    requires Legal(z) && Snapshot(recs, z) && Normal(k.0) && IsData(k.1) && ValuesAt(recs, k) != []
    requires forall rr :: rr in z && InSet(rr, Wire(k.0), k.1) ==> z[rr] == ttl
    ensures FirstTTL(recs, k) == ttl
  {
    hide Snapshot, ValuesAt, FirstTTL, KeyOf, Normal, Wire, IsOwnerName, RrToRecord;
    forall r | r in recs && KeyOf(r) == k ensures r.ttl == ttl {
      SnapshotExact(recs, z, r);
      var rr :| rr in z && RrToRecord(rr, z[rr]) == Some(r);
      assert IsOwnerName(rr.name);
      ArrivalKey(rr, z[rr], k.0, k.1);
      ShownTTL(rr, z[rr]);
    }
    CommonTTL(recs, k, ttl);
  }

  lemma ShownTTL(rr: RR, ttl: int)
    ensures RrToRecord(rr, ttl).Some? ==> RrToRecord(rr, ttl).value.ttl == ttl
  {
  }
}

/** List, then delete: when deleting the endpoint that a listing shows goes through, what it leaves,
    and when it takes the zone back to exactly what it was before a create. */
module Lifecycle {
  import opened Text
  import opened Records
  import opened Ownership
  import opened Endpoints
  import opened Cache
  import opened DnsServer
  import opened Update
  import opened ChangeSets
  import opened Protocol
  import opened Axfr
  import opened Listing
  import opened ListingOrder
  import opened PairingRuns
  import opened ReadBack
  import opened Marks
  import opened Effects
  import opened RoundTrip
  import opened UpdateTrip
  import opened TargetLimits
  import opened Pairing

  /** A batch that deletes one endpoint. */
  function Deleting(e: Endpoint): Batch {
    Batch([], [], [], [e])
  }

  /** None of the endpoint's records points at the root. */
  ghost predicate NoRootHosts(cfg: Config, e: Endpoint) {
    forall rr :: NewData(cfg, e, rr) ==> !RootHost(rr.data)
  }

  lemma TypeNameReads(t: RType)
    requires IsData(t)
    ensures DataType(TypeName(t)) == Some(t)
  {
    var s := TypeName(t);
    assert Upper(s) == s;
    assert "NS"[0] != "MX"[0];
  }

  /** The records of the listed endpoint are the created records again. */
  lemma ListedRecord(cfg: Config, e: Endpoint, cfg2: Config, ep: Endpoint, ds: seq<RData>, nm: string, t: RType,
                     d: RData)
    returns (r: Record)
    requires IsData(t) && DataType(e.recordType) == Some(t) && nm == NormalizeName(e.dnsName) && NormalizeName(nm) == nm
    requires ep.dnsName == nm && ep.recordType == TypeName(t) && ep.targets == ShowAll(ds)
    requires d in ds && NewData(cfg, e, RR(Wire(nm), d)) && !RootHost(d)
    ensures r in RecordsOf(cfg2, ep) && RecordRR(r) == Some(RR(Wire(nm), d))
    ensures r == Record(nm, t, ClampTTL(cfg2, ep.recordTTL), CanonicalRdata(t, ValueOf(d)))
  {
    hide NormalizeName, DataType, RecordsOf, Wire, CanonicalRdata, ClampTTL, ParseData, ValueOf, IsOwnerName;
    var r0 :| r0 in RecordsOf(cfg, e) && RecordRR(r0) == Some(RR(Wire(nm), d));
    RecordsShareKey(cfg, e, r0);
    var x :| x in e.targets && r0.value == CanonicalRdata(t, x);
    Recanonical(t, x, d);
    NothingParsesToData(t);
    TypeNameReads(t);
    var v := CanonicalRdata(t, ValueOf(d));
    r := Record(nm, t, ClampTTL(cfg2, ep.recordTTL), v);
    var i :| 0 <= i < |ds| && ds[i] == d;
    assert ep.targets[i] == ValueOf(d) && ep.targets[i] in ep.targets;
    InRecordsOf(cfg2, ep, t, r, ValueOf(d));
  }

  lemma NothingParsesToData(t: RType)
    requires IsData(t)
    ensures ParseData(t, "") == None
  {
  }

  lemma InRecordsOf(cfg: Config, e: Endpoint, t: RType, r: Record, x: string)
    requires DataType(e.recordType) == Some(t) && x in e.targets && r.value == CanonicalRdata(t, x) && r.value != ""
    requires r.name == NormalizeName(e.dnsName) && r.rtype == t && r.ttl == ClampTTL(cfg, e.recordTTL)
    ensures r in RecordsOf(cfg, e)
  {
    TargetRecordsExact(NormalizeName(e.dnsName), t, ClampTTL(cfg, e.recordTTL), e.targets, r);
  }

  /** Every record of the listed endpoint is one of the created ones. */
  lemma ListedRecordBack(cfg: Config, e: Endpoint, cfg2: Config, ep: Endpoint, ds: seq<RData>, nm: string, t: RType,
                         r: Record)
    returns (d: RData)
    requires IsData(t) && DataType(e.recordType) == Some(t) && nm == NormalizeName(e.dnsName) && NormalizeName(nm) == nm
    requires ep.dnsName == nm && ep.recordType == TypeName(t) && ep.targets == ShowAll(ds)
    requires r in RecordsOf(cfg2, ep)
    requires forall d :: d in ds ==> NewData(cfg, e, RR(Wire(nm), d)) && !RootHost(d)
    ensures d in ds && RecordRR(r) == Some(RR(Wire(nm), d)) && r.name == nm && r.rtype == t
  {
    hide NormalizeName, DataType, RecordsOf, Wire, CanonicalRdata, ClampTTL, ParseData, ValueOf, NewData, RecordRR;
    TypeNameReads(t);
    RecordsShareKey(cfg2, ep, r);
    var x :| x in ep.targets && r.value == CanonicalRdata(t, x);
    var i :| 0 <= i < |ep.targets| && ep.targets[i] == x;
    d := ds[i];
    assert d in ds && x == ValueOf(d);
    var r' := ListedRecord(cfg, e, cfg2, ep, ds, nm, t, d);
    assert r == r';
  }

  // ----- the delete message ----------------------------------------------------

  lemma DropsOf(cfg: Config, cached: seq<Record>, ep: Endpoint, owner: string)
    requires OwnerOf(ep) == Some(owner)
    ensures var intents := Intents(cfg, cached, Deleting(ep));
            forall it :: it in intents <==> it.Drop? && it.owner == owner && it.rec in RecordsOf(cfg, ep)
  {
    hide RecordsOf, OwnerOf;
    var intents := Intents(cfg, cached, Deleting(ep));
    var recs := RecordsOf(cfg, ep);
    assert intents == DropIntents(owner, recs) by {
      assert [ep][..0] == [];
      assert AllDrops(cfg, [ep]) == [] + EndpointDrops(cfg, ep);
    }
    forall it: Intent | it.Drop? && it.owner == owner && it.rec in recs ensures it in intents {
      var i :| 0 <= i < |recs| && recs[i] == it.rec;
      assert DropIntents(owner, recs)[i] == it;
    }
  }

  /** If every drop's record and marker can be built, so can the message. */
  lemma DropsSendable(intents: seq<Intent>)
    requires forall it :: it in intents ==>
               it.Drop? && RecordRR(it.rec).Some? && RecordRR(MarkerRecord(it.owner, it.rec, 0)).Some?
    ensures CanSend(intents)
  {
    hide RecordRR, OwnershipNameFor;
    CompiledExact(intents);
    var cs := Compile(intents);
    forall p | p in cs.prereqs ensures PrereqGuard(p).Some? {
      var it :| it in intents && p in Ops(it).prereqs;
      assert p == OwnedGuard(it.owner, it.rec);
      GuardFromMarker(it.owner, it.rec);
    }
    forall c | c in cs.changes ensures ChangeEdit(c).Some? {
      var it :| it in intents && c in Ops(it).changes;
    }
  }

  lemma GuardFromMarker(owner: string, r: Record)
    requires RecordRR(MarkerRecord(owner, r, 0)).Some?
    ensures PrereqGuard(OwnedGuard(owner, r)).Some?
  {
    hide ParseRR, OwnershipNameFor;
    assert EncodeOwnership(owner) != "";
  }

  /** The delete of the listed endpoint, in terms of the records the create brought in. */
  ghost predicate UndoesCreate(cfg: Config, cached: seq<Record>, e: Endpoint, intents: seq<Intent>)
    requires OwnerOf(e).Some? && DataType(e.recordType).Some?
  {
    && CanSend(intents)
    && (forall g :: g in Packed(intents).guards ==> g == Present(NewMarker(e)))
    && (forall x :: x in Packed(intents).edits ==> x.Remove? && New(cfg, cached, e, x.rr))
    && (forall rr :: New(cfg, cached, e, rr) ==> Remove(rr) in Packed(intents).edits)
  }

  lemma DeleteUndoes(cfg: Config, cached: seq<Record>, e: Endpoint, z: Zone, cfg2: Config, cached2: seq<Record>,
                     ep: Endpoint, ds: seq<RData>)
    requires Created(cfg, cached, Creating(e), e, z) && !RidesOrphan(cached, e) && NoRootHosts(cfg, e)
             && Settled(NormalizeName(e.dnsName))
    requires OwnerOf(ep) == OwnerOf(e) && ep.dnsName == NormalizeName(e.dnsName)
    requires ep.recordType == TypeName(DataType(e.recordType).value) && ep.targets == ShowAll(ds)
    requires forall d :: d in ds <==> NewData(cfg, e, RR(Wire(NormalizeName(e.dnsName)), d))
    ensures UndoesCreate(cfg, cached, e, Intents(cfg2, cached2, Deleting(ep)))
  {
    hide NormalizeName, OwnerOf, DataType, RecordsOf, Wire, NewData, Created, RidesOrphan, CanSend, Packed, Intents,
         OwnershipNameFor, ParseRR, OwnerText, EncodeOwnership, Settled, ClampTTL;
    var nm := NormalizeName(e.dnsName);
    var t := CreatedType(cfg, cached, Creating(e), e, z);
    var o := OwnerOf(e).value;
    NormalTwice(e.dnsName);
    var intents := Intents(cfg2, cached2, Deleting(ep));
    DropsOf(cfg2, cached2, ep, o);
    forall it | it in intents
      ensures it.rec.name == nm && it.rec.rtype == t
      ensures RecordRR(it.rec).Some? && NewData(cfg, e, RecordRR(it.rec).value)
      ensures RecordRR(MarkerRecord(it.owner, it.rec, 0)) == Some(NewMarker(e))
    {
      var d := ListedRecordBack(cfg, e, cfg2, ep, ds, nm, t, it.rec);
      MarkerParses(cfg, cached, e, z, it.rec);
    }
    DropsSendable(intents);
    forall g | g in Packed(intents).guards ensures g == Present(NewMarker(e)) {
      var it, p := OriginOfGuard(intents, g);
      OwnedGuardBuilt(it.owner, it.rec);
    }
    forall x | x in Packed(intents).edits ensures x.Remove? && New(cfg, cached, e, x.rr) {
      var it, c := OriginOfEdit(intents, x);
    }
    forall rr | New(cfg, cached, e, rr) ensures Remove(rr) in Packed(intents).edits {
      UndoneBy(cfg, cached, e, z, cfg2, ep, ds, intents, rr);
    }
  }

  /** Each record the create brought in is removed by some drop. */
  lemma UndoneBy(cfg: Config, cached: seq<Record>, e: Endpoint, z: Zone, cfg2: Config, ep: Endpoint, ds: seq<RData>,
                 intents: seq<Intent>, rr: RR)
    requires Created(cfg, cached, Creating(e), e, z) && NoRootHosts(cfg, e) && Settled(NormalizeName(e.dnsName))
    requires ep.dnsName == NormalizeName(e.dnsName)
    requires ep.recordType == TypeName(DataType(e.recordType).value) && ep.targets == ShowAll(ds)
    requires forall d :: d in ds <==> NewData(cfg, e, RR(Wire(NormalizeName(e.dnsName)), d))
    requires CanSend(intents) && New(cfg, cached, e, rr)
    requires forall r :: r in RecordsOf(cfg2, ep) ==> Drop(OwnerOf(e).value, r) in intents
    requires forall it :: it in intents ==>
               it.Drop? && RecordRR(MarkerRecord(it.owner, it.rec, 0)) == Some(NewMarker(e))
    ensures Remove(rr) in Packed(intents).edits
  {
    hide NormalizeName, OwnerOf, DataType, RecordsOf, Wire, NewData, Created, RidesOrphan, CanSend, Packed,
         OwnershipNameFor, OwnerText, EncodeOwnership, Settled, ClampTTL, ParseRR, MarkerRecord, NewMarker;
    var nm := NormalizeName(e.dnsName);
    var t := CreatedType(cfg, cached, Creating(e), e, z);
    NormalTwice(e.dnsName);
    if NewData(cfg, e, rr) {
      NewDataKey(cfg, e, rr);
      assert rr == RR(Wire(nm), rr.data) && rr.data in ds;
      var r := ListedRecord(cfg, e, cfg2, ep, ds, nm, t, rr.data);
      EditOf(intents, Drop(OwnerOf(e).value, r), Delete(r));
    } else {
      var d0 := SomeNewData(cfg, cached, e, z);
      NewDataKey(cfg, e, d0);
      assert d0.data in ds;
      var r := ListedRecord(cfg, e, cfg2, ep, ds, nm, t, d0.data);
      var it := Drop(OwnerOf(e).value, r);
      var c := Delete(MarkerRecord(it.owner, r, 0));
      assert c in Ops(it).changes;
      EditOf(intents, it, c);
    }
  }

  lemma NewDataKey(cfg: Config, e: Endpoint, rr: RR)
    requires NewData(cfg, e, rr)
    ensures rr.name == Wire(NormalizeName(e.dnsName))
  {
    hide RecordsOf, NormalizeName, Wire;
    var r :| r in RecordsOf(cfg, e) && RecordRR(r) == Some(rr);
    RecordsShareKey(cfg, e, r);
  }

  lemma SomeNewData(cfg: Config, cached: seq<Record>, e: Endpoint, z: Zone) returns (rr: RR)
    requires Created(cfg, cached, Creating(e), e, z)
    ensures NewData(cfg, e, rr)
  {
    hide RecordsOf, OwnerOf, DataType, RidesOrphan, Intents, Planned, Sent, NewData;
    CreateIntentsAlike(cfg, cached, Creating(e), e);
    rr := CreateParses(cfg, cached, Creating(e), e, z, RecordsOf(cfg, e)[0]);
  }

  /** The create built its marker, so the delete can build it too. */
  lemma MarkerParses(cfg: Config, cached: seq<Record>, e: Endpoint, z: Zone, r: Record)
    requires Created(cfg, cached, Creating(e), e, z) && !RidesOrphan(cached, e)
    requires r.name == NormalizeName(e.dnsName) && r.rtype == DataType(e.recordType).value
    ensures RecordRR(MarkerRecord(OwnerOf(e).value, r, 0)) == Some(NewMarker(e))
  {
    hide RecordsOf, OwnerOf, DataType, RidesOrphan, Intents, Planned, CanSend, Packed, ParseData, OwnershipNameFor,
         EncodeOwnership, IsOwnerName, OwnerText, NormalizeName, Wire, Accepts;
    CreateIntentsAlike(cfg, cached, Creating(e), e);
    var intents := Intents(cfg, cached, Creating(e));
    var it := Create(OwnerOf(e).value, RecordsOf(cfg, e)[0], RidesOrphan(cached, e));
    assert it.rec in RecordsOf(cfg, e);
    RecordsShareKey(cfg, e, it.rec);
    var c := Add(MarkerRecord(it.owner, it.rec, it.rec.ttl));
    assert c in Ops(it).changes;
    EditOf(intents, it, c);
    MarkerRecordBuilt(it.owner, it.rec, it.rec.ttl);
  }

  // ----- the round trip --------------------------------------------------------

  /** After the create its marker's record set holds exactly the requester's text. */
  lemma MarkerSetAfterCreate(cfg: Config, cached: seq<Record>, e: Endpoint, z: Zone)
    requires Created(cfg, cached, Creating(e), e, z) && !RidesOrphan(cached, e)
    ensures RRset(AfterBatch(cfg, cached, Creating(e), z), NewMarker(e).name, TXT) == {NewMarker(e).data}
  {
    hide OwnerOf, DataType, RidesOrphan, Created, AfterBatch, NewData, MarkerWire, OwnerText, NormalizeName, RRset;
    var t := CreatedType(cfg, cached, Creating(e), e, z);
    var mk := NewMarker(e);
    OwnerTextIsTxt(OwnerOf(e).value);
    var z' := AfterBatch(cfg, cached, Creating(e), z);
    forall d ensures d in RRset(z', mk.name, TXT) <==> d == mk.data {
      InRRset(z', mk.name, TXT, d);
      var rr := RR(mk.name, d);
      CreateEffect(cfg, cached, Creating(e), e, z, rr);
      if NewData(cfg, e, rr) {
        NewDataNoMarker(cfg, e, rr, ("", TXT));
      }
      if TypeOf(d) == TXT && rr in z {
        MarkerSetWasEmpty(cfg, cached, e, z, rr);
      }
    }
  }

  lemma MarkerSetWasEmpty(cfg: Config, cached: seq<Record>, e: Endpoint, z: Zone, rr: RR)
    requires Created(cfg, cached, Creating(e), e, z) && !RidesOrphan(cached, e) && InSet(rr, NewMarker(e).name, TXT)
    ensures rr !in z
  {
    hide RecordsOf, OwnerOf, DataType, RidesOrphan, Intents, Planned, CanSend, Packed, OwnershipNameFor, OwnerText,
         NormalizeName, Wire, Accepts;
    CreateIntentsAlike(cfg, cached, Creating(e), e);
    var intents := Intents(cfg, cached, Creating(e));
    var it := Create(OwnerOf(e).value, RecordsOf(cfg, e)[0], RidesOrphan(cached, e));
    assert it.rec in RecordsOf(cfg, e);
    RecordsShareKey(cfg, e, it.rec);
    var p := NxRRset(OwnershipNameFor(it.rec.rtype, it.rec.name), TXT);
    assert p in Ops(it).prereqs;
    GuardOf(intents, it, p);
    AbsentMeansAbsent(z, Packed(intents), rr, NewMarker(e).name, TXT);
  }

  /** The endpoint's delete can be sent, is accepted, and leads from z' to z. */
  ghost predicate LeadsBack(cfg: Config, cached: seq<Record>, ep: Endpoint, z': Zone, z: Zone) {
    && Sent(cfg, cached, Deleting(ep)).Some?
    && Accepts(z', Sent(cfg, cached, Deleting(ep)).value)
    && Serve(z', Sent(cfg, cached, Deleting(ep)).value) == z
  }

  /** Create, list, delete what the listing shows, by any sidecar with any cache: the delete is accepted
      and restores the zone exactly when the create did not rely on an orphan marker, points nowhere at
      the root, and is listed for its requester. */
  lemma DeleteRestoresIff(cfg: Config, cached: seq<Record>, e: Endpoint, z: Zone, recs: seq<Record>, zone: string,
                          cfg2: Config, cached2: seq<Record>)
    requires Legal(z) && Snapshot(cached, z) && Created(cfg, cached, Creating(e), e, z)
    requires Settled(NormalizeName(e.dnsName)) && Snapshot(recs, AfterBatch(cfg, cached, Creating(e), z))
    ensures KeyFor(e) in Keys([], recs) && LabelOf(recs, KeyFor(e)).Some?
    ensures LeadsBack(cfg2, cached2, EndpointFor(zone, recs, KeyFor(e), LabelOf(recs, KeyFor(e)).value),
                      AfterBatch(cfg, cached, Creating(e), z), z)
            <==> !RidesOrphan(cached, e) && NoRootHosts(cfg, e) && LabelOf(recs, KeyFor(e)) == OwnerOf(e)
  {
    hide NormalizeName, Settled, Snapshot, Legal, Created, AfterBatch, RidesOrphan, NoRootHosts, DataType, KeysIn,
         LabelOf, ValuesAt, NewData, LeadsBack, Unique, TypeName, FirstTTL, OwnerOf;
    var ds := CreateIsListed(cfg, [], cached, Creating(e), e, z, recs);
    var t := CreatedType(cfg, cached, Creating(e), e, z);
    if !RidesOrphan(cached, e) && NoRootHosts(cfg, e) && LabelOf(recs, KeyFor(e)) == OwnerOf(e) {
      DeleteRestores(cfg, cached, e, z, recs, zone, cfg2, cached2, ds);
    }
    var ep := EndpointFor(zone, recs, KeyFor(e), LabelOf(recs, KeyFor(e)).value);
    if LeadsBack(cfg2, cached2, ep, AfterBatch(cfg, cached, Creating(e), z), z) {
      RestoringNeeds(cfg, cached, e, z, cfg2, cached2, ep, ds);
      ShownOwner(zone, recs, KeyFor(e));
    }
  }

  lemma ShownOwner(zone: string, recs: seq<Record>, k: Key)
    requires LabelOf(recs, k).Some? && OwnerOf(EndpointFor(zone, recs, k, LabelOf(recs, k).value)).Some?
    ensures LabelOf(recs, k) == OwnerOf(EndpointFor(zone, recs, k, LabelOf(recs, k).value))
  {
    hide LabelOf, ValuesAt, FirstTTL, TypeName;
  }

  lemma DeleteRestores(cfg: Config, cached: seq<Record>, e: Endpoint, z: Zone, recs: seq<Record>, zone: string,
                       cfg2: Config, cached2: seq<Record>, ds: seq<RData>)
    requires Created(cfg, cached, Creating(e), e, z) && Settled(NormalizeName(e.dnsName))
    requires !RidesOrphan(cached, e) && NoRootHosts(cfg, e) && LabelOf(recs, KeyFor(e)) == OwnerOf(e)
    requires ValuesAt(recs, KeyFor(e)) == ShowAll(ds)
    requires forall d :: d in ds <==> NewData(cfg, e, RR(Wire(NormalizeName(e.dnsName)), d))
    ensures LeadsBack(cfg2, cached2, EndpointFor(zone, recs, KeyFor(e), OwnerOf(e).value),
                      AfterBatch(cfg, cached, Creating(e), z), z)
  {
    hide NormalizeName, Settled, Created, AfterBatch, RidesOrphan, NoRootHosts, DataType, Wire, LabelOf, ValuesAt,
         NewData, Intents, CanSend, Packed, Accepts, OwnerText, New, TypeName, FirstTTL, RRset;
    var t := CreatedType(cfg, cached, Creating(e), e, z);
    var ep := EndpointFor(zone, recs, KeyFor(e), OwnerOf(e).value);
    assert OwnerOf(ep) == OwnerOf(e) by { OwnerNotEmpty(e); }
    DeleteUndoes(cfg, cached, e, z, cfg2, cached2, ep, ds);
    var intents := Intents(cfg2, cached2, Deleting(ep));
    var z' := AfterBatch(cfg, cached, Creating(e), z);
    MarkerSetAfterCreate(cfg, cached, e, z);
    OwnerTextIsTxt(OwnerOf(e).value);
    OneGuardAccepted(z', Packed(intents), NewMarker(e));
    UndoRestores(cfg, cached, e, z, intents);
  }

  // ----- the conditions are needed ---------------------------------------------

  /** The zone is restored only if every created record is removed by some drop. */
  lemma RemovedBack(cfg: Config, cached: seq<Record>, e: Endpoint, z: Zone, cfg2: Config, cached2: seq<Record>,
                    ep: Endpoint, rr: RR)
    returns (it: Intent, c: Change)
    requires Created(cfg, cached, Creating(e), e, z) && NewData(cfg, e, rr)
    requires LeadsBack(cfg2, cached2, ep, AfterBatch(cfg, cached, Creating(e), z), z)
    ensures it in Intents(cfg2, cached2, Deleting(ep)) && c in Ops(it).changes && ChangeEdit(c) == Some(Remove(rr))
  {
    hide Created, AfterBatch, NewData, Intents, CanSend, Packed, Accepts, DataType, OwnerOf, Ops, ChangeEdit,
         RidesOrphan, NewMarker, ClampTTL;
    var t := CreatedType(cfg, cached, Creating(e), e, z);
    var z', edits := AfterBatch(cfg, cached, Creating(e), z), Packed(Intents(cfg2, cached2, Deleting(ep))).edits;
    CreateEffect(cfg, cached, Creating(e), e, z, rr);
    EditsDecide(z', edits, rr);
    VerdictKind(edits, rr);
    it, c := OriginOfEdit(Intents(cfg2, cached2, Deleting(ep)), Remove(rr));
  }

  lemma OnlyOwnersDelete(cfg: Config, cached: seq<Record>, ep: Endpoint)
    ensures OwnerOf(ep).None? ==> Intents(cfg, cached, Deleting(ep)) == []
  {
    hide RecordsOf, OwnerOf;
    if OwnerOf(ep).None? {
      assert [ep][..0] == [];
      assert AllDrops(cfg, [ep]) == [] + EndpointDrops(cfg, ep);
    }
  }

  lemma RestoringNeeds(cfg: Config, cached: seq<Record>, e: Endpoint, z: Zone, cfg2: Config, cached2: seq<Record>,
                       ep: Endpoint,
                       ds: seq<RData>)
    requires Legal(z) && Snapshot(cached, z) && Created(cfg, cached, Creating(e), e, z)
             && Settled(NormalizeName(e.dnsName))
    requires ep.dnsName == NormalizeName(e.dnsName) && ep.recordType == TypeName(DataType(e.recordType).value)
    requires ep.targets == ShowAll(ds) && forall d :: d in ds <==> NewData(cfg, e,
             RR(Wire(NormalizeName(e.dnsName)), d))
    requires LeadsBack(cfg2, cached2, ep, AfterBatch(cfg, cached, Creating(e), z), z)
    ensures !RidesOrphan(cached, e) && NoRootHosts(cfg, e) && OwnerOf(ep) == OwnerOf(e)
  {
    hide NormalizeName, Settled, Snapshot, Legal, Created, AfterBatch, RidesOrphan, DataType, NewData, OwnerOf,
         OwnerText, TypeName, Intents, Ops, ChangeEdit, LeadsBack, Wire, RRset, MarkerWire, RecordsOf;
    var t := CreatedType(cfg, cached, Creating(e), e, z);
    var rr := SomeNewData(cfg, cached, e, z);
    var it, c := RemovedBack(cfg, cached, e, z, cfg2, cached2, ep, rr);
    OnlyOwnersDelete(cfg2, cached2, ep);
    var o := OwnerOf(ep).value;
    DropsOf(cfg2, cached2, ep, o);
    NormalTwice(e.dnsName);
    TypeNameReads(t);
    var z' := AfterBatch(cfg, cached, Creating(e), z);
    BackDemands(cfg2, cached2, ep, z', z, it);
    assert CanSend(Intents(cfg2, cached2, Deleting(ep))) by { BackIsSent(cfg2, cached2, ep, z', z); }
    if RidesOrphan(cached, e) {
      var lost := OrphanLost(cfg, cached, e, z, cfg2, cached2, ep, it);
      LostIsLost(cfg2, cached2, ep, z', z, lost);
    }
    MarkerSetAfterCreate(cfg, cached, e, z);
    assert OwnerText(o) == OwnerText(OwnerOf(e).value);
    OwnerTextInjective(o, OwnerOf(e).value);
    forall x | NewData(cfg, e, x) ensures !RootHost(x.data) {
      RootStays(cfg, cached, e, z, cfg2, cached2, ep, ds, x);
    }
  }

  lemma BackIsSent(cfg: Config, cached: seq<Record>, ep: Endpoint, z': Zone, z: Zone)
    requires LeadsBack(cfg, cached, ep, z', z)
    ensures CanSend(Intents(cfg, cached, Deleting(ep)))
  {
  }

  lemma LostIsLost(cfg: Config, cached: seq<Record>, ep: Endpoint, z': Zone, z: Zone, rr: RR)
    requires rr in z && CanSend(Intents(cfg, cached, Deleting(ep)))
    requires rr !in ApplyEdits(z', Packed(Intents(cfg, cached, Deleting(ep))).edits)
    ensures !LeadsBack(cfg, cached, ep, z', z)
  {
    hide Intents, CanSend, Packed, ApplyEdits;
  }

  lemma OwnerTextInjective(a: string, b: string)
    requires OwnerText(a) == OwnerText(b)
    ensures a == b
  {
    assert (OWNED_PREFIX + a)[|OWNED_PREFIX|..] == a && (OWNED_PREFIX + b)[|OWNED_PREFIX|..] == b;
  }

  /** The delete leads back from a zone whose marker says exactly the deleting owner. */
  lemma BackDemands(cfg: Config, cached: seq<Record>, ep: Endpoint, z': Zone, z: Zone, it: Intent)
    requires LeadsBack(cfg, cached, ep, z', z) && it in Intents(cfg, cached, Deleting(ep)) && it.Drop?
    requires OwnerOf(ep) == Some(it.owner) && it.rec in RecordsOf(cfg, ep) && DataType(ep.recordType).Some?
    ensures RRset(z', MarkerWire(KeyFor(ep).1, KeyFor(ep).0), TXT) == {OwnerText(it.owner)}
  {
    hide NormalizeName, DataType, OwnerOf, OwnerText, Intents, Accepts, Wire, RRset, MarkerWire, RecordsOf, CanSend,
         Packed;
    DeleteMarker(cfg, cached, Deleting(ep), ep, z', it);
  }

  /** A marker the create relied on is not there any more after the delete. */
  lemma OrphanLost(cfg: Config, cached: seq<Record>, e: Endpoint, z: Zone, cfg2: Config, cached2: seq<Record>,
                   ep: Endpoint, it: Intent)
    returns (rr: RR)
    requires Legal(z) && Snapshot(cached, z) && Created(cfg, cached, Creating(e), e, z)
             && Settled(NormalizeName(e.dnsName))
    requires RidesOrphan(cached, e) && ep.dnsName == NormalizeName(e.dnsName)
               && DataType(ep.recordType) == DataType(e.recordType)
    requires it in Intents(cfg2, cached2, Deleting(ep)) && it.Drop? && it.rec in RecordsOf(cfg2, ep)
               && OwnerOf(ep) == Some(it.owner)
    requires CanSend(Intents(cfg2, cached2, Deleting(ep)))
    requires RRset(AfterBatch(cfg, cached, Creating(e), z), MarkerWire(KeyFor(ep).1, KeyFor(ep).0), TXT)
             == {OwnerText(it.owner)}
    ensures rr in z
    ensures rr !in ApplyEdits(AfterBatch(cfg, cached, Creating(e), z), Packed(Intents(cfg2, cached2,
            Deleting(ep))).edits)
  {
    hide NormalizeName, Settled, Snapshot, Legal, Created, AfterBatch, DataType, NewData, OwnerOf, OwnerText,
         Intents, Accepts, Wire, RRset, MarkerWire, RecordsOf, CanSend, Packed, OwnershipNameFor, IsOrphan, MarksKey,
         EncodeOwnership, ClampTTL, ParseRR, NewMarker;
    var t := CreatedType(cfg, cached, Creating(e), e, z);
    NormalTwice(e.dnsName);
    rr := OrphanMarks(z, cached, t, NormalizeName(e.dnsName));
    var z', intents := AfterBatch(cfg, cached, Creating(e), z), Intents(cfg2, cached2, Deleting(ep));
    CreateEffect(cfg, cached, Creating(e), e, z, rr);
    MarkIsText(rr, KeyFor(e));
    InRRset(z', rr.name, TXT, rr.data);
    assert rr == RR(rr.name, OwnerText(it.owner));
    RecordsShareKey(cfg2, ep, it.rec);
    var c := Delete(MarkerRecord(it.owner, it.rec, 0));
    assert c in Ops(it).changes;
    EditOf(intents, it, c);
    MarkerRecordBuilt(it.owner, it.rec, 0);
    assert Remove(rr) in Packed(intents).edits;
    DropsOf(cfg2, cached2, ep, it.owner);
    forall x | x in Packed(intents).edits ensures x.Remove? {
      var y, d := OriginOfEdit(intents, x);
    }
    VerdictKind(Packed(intents).edits, rr);
    EditsDecide(z', Packed(intents).edits, rr);
  }

  /** A record that points at the root is shown as something the delete cannot name. */
  lemma RootStays(cfg: Config, cached: seq<Record>, e: Endpoint, z: Zone, cfg2: Config, cached2: seq<Record>,
                  ep: Endpoint,
                  ds: seq<RData>, rr: RR)
    requires Created(cfg, cached, Creating(e), e, z) && Settled(NormalizeName(e.dnsName)) && NewData(cfg, e, rr)
    requires ep.dnsName == NormalizeName(e.dnsName) && ep.recordType == TypeName(DataType(e.recordType).value)
             && OwnerOf(ep).Some?
    requires ep.targets == ShowAll(ds) && forall d :: d in ds <==> NewData(cfg, e,
             RR(Wire(NormalizeName(e.dnsName)), d))
    requires LeadsBack(cfg2, cached2, ep, AfterBatch(cfg, cached, Creating(e), z), z)
    ensures !RootHost(rr.data)
  {
    hide NormalizeName, Settled, Created, AfterBatch, RidesOrphan, DataType, NewData, OwnerOf, OwnerText, TypeName,
         Intents, LeadsBack, Wire, RecordsOf, CanonicalRdata, ParseData, ClampTTL, OwnershipNameFor, EncodeOwnership,
         IsOwnerName, ValueOf, RootHost;
    var t := CreatedType(cfg, cached, Creating(e), e, z);
    TypeNameReads(t);
    var it, c := RemovedBack(cfg, cached, e, z, cfg2, cached2, ep, rr);
    DropsOf(cfg2, cached2, ep, OwnerOf(ep).value);
    var r := it.rec;
    RecordsShareKey(cfg2, ep, r);
    assert c.rec == r by { NewDataNoMarker(cfg, e, rr, ("", TXT)); MarkerIsText(it.owner, r, 0); }
    var x :| x in ep.targets && r.value == CanonicalRdata(t, x);
    var i :| 0 <= i < |ds| && ep.targets[i] == x;
    var d := ds[i];
    assert d in ds && x == ValueOf(d);
    ShownAgain(cfg, e, t, d, rr.data);
  }

  lemma ShownAgain(cfg: Config, e: Endpoint, t: RType, d: RData, d2: RData)
    requires DataType(e.recordType) == Some(t) && NewData(cfg, e, RR(Wire(NormalizeName(e.dnsName)), d))
    requires CanonicalRdata(t, ValueOf(d)) != "" && ParseData(t, CanonicalRdata(t, ValueOf(d))) == Some(d2)
    ensures !RootHost(d2)
  {
    hide NormalizeName, DataType, RecordsOf, Wire, CanonicalRdata, ParseData, IsOwnerName, ValueOf, RootHost;
    var w := Wire(NormalizeName(e.dnsName));
    var r :| r in RecordsOf(cfg, e) && RecordRR(r) == Some(RR(w, d));
    RecordsShareKey(cfg, e, r);
    var x :| x in e.targets && r.value == CanonicalRdata(t, x);
    Recanonical(t, x, d);
    if RootHost(d) {
      RootShowsNothing(t, x, d);
    }
  }

  lemma RootShowsNothing(t: RType, target: string, d: RData)
    requires IsData(t) && ParseData(t, CanonicalRdata(t, target)) == Some(d) && RootHost(d)
    ensures CanonicalRdata(t, ValueOf(d)) == ""
  {
    hide TrimSpace, Fields, Fqdn, Wire, IsHost, IsPreference, StripZeros;
    if t.MX? {
      MailTargetIff(target);
      RootMailShown(target, d);
    } else {
      assert Lower(".") == "." && TrimDot(".") == "";
      EmptyTrims();
    }
  }

  lemma RootMailShown(target: string, d: RData)
    requires ParseData(MX, CanonicalRdata(MX, target)) == Some(d) && RootHost(d)
    ensures CanonicalRdata(MX, ValueOf(d)) == ""
  {
    hide TrimSpace, Fields, Fqdn, Wire, IsHost, StripZeros;
    var ps := Fields(TrimSpace(target));
    MailTargetIff(target);
    FieldsAreTokens(TrimSpace(target));
    LowerToken(ps[1]);
    FieldsOfTwo(ps[0], Fqdn(Lower(ps[1])));
    StripZerosNumber(ps[0]);
    RootMail(StripZeros(ps[0]));
  }

  lemma OwnerNotEmpty(e: Endpoint)
    requires OwnerOf(e).Some?
    ensures OwnerOf(e).value != ""
  {
  }

  lemma UndoRestores(cfg: Config, cached: seq<Record>, e: Endpoint, z: Zone, intents: seq<Intent>)
    requires Created(cfg, cached, Creating(e), e, z) && UndoesCreate(cfg, cached, e, intents)
    ensures ApplyEdits(AfterBatch(cfg, cached, Creating(e), z), Packed(intents).edits) == z
  {
    hide Created, AfterBatch, New, NewMarker, CanSend, Packed, ClampTTL;
    var z' := AfterBatch(cfg, cached, Creating(e), z);
    var edits := Packed(intents).edits;
    var z'' := ApplyEdits(z', edits);
    forall rr ensures Look(z'', rr) == Look(z, rr) {
      CreateEffect(cfg, cached, Creating(e), e, z, rr);
      EditsDecide(z', edits, rr);
      Untouched(edits, rr);
      VerdictKind(edits, rr);
    }
    SameLooks(z'', z);
  }

  // ----- deleting any listed endpoint ------------------------------------------

  /** Every record of the endpoint, and its marker, can be built. */
  ghost predicate CanBuild(cfg: Config, ep: Endpoint)
    requires OwnerOf(ep).Some?
  {
    forall r :: r in RecordsOf(cfg, ep) ==>
      RecordRR(r).Some? && RecordRR(MarkerRecord(OwnerOf(ep).value, r, 0)).Some?
  }

  /** The delete of the endpoint can be sent and the zone accepts it. */
  ghost predicate Deletable(cfg: Config, cached: seq<Record>, ep: Endpoint, z: Zone) {
    Sent(cfg, cached, Deleting(ep)).Some? && Accepts(z, Sent(cfg, cached, Deleting(ep)).value)
  }

  /** Deleting what any listing of any zone shows, by any sidecar with any cache: accepted exactly when
      everything listed can be built and the marker's record set says just the owner shown. Then the
      marker's set is empty, and what is left of the data is what the listing did not show in a form
      that reads back. */
  lemma DeleteListedIff(cfg: Config, cached: seq<Record>, filter: seq<string>, zone: string, z: Zone, recs: seq<Record>,
                        k: Key, ep: Endpoint)
    requires Legal(z) && Snapshot(recs, z) && ListedEndpoint(filter, zone, recs, k) == Some(ep)
    requires OwnerOf(ep).Some? && RecordsOf(cfg, ep) != []
    ensures Deletable(cfg, cached, ep, z) <==>
              CanBuild(cfg, ep) && RRset(z, MarkerWire(k.1, k.0), TXT) == {OwnerText(OwnerOf(ep).value)}
    ensures Deletable(cfg, cached, ep, z) ==>
              var z' := AfterBatch(cfg, cached, Deleting(ep), z);
              && RRset(z', MarkerWire(k.1, k.0), TXT) == {}
              && forall d :: d in RRset(z', Wire(k.0), k.1) <==>
                   d in RRset(z, Wire(k.0), k.1) && !NewData(cfg, ep, RR(Wire(k.0), d))
  {
    hide Legal, Snapshot, OwnerOf, RecordsOf, RRset, MarkerWire, OwnerText, NewData, Wire, Deletable, CanBuild,
         KeysIn, LabelOf, ValuesAt, FirstTTL, TypeName, AfterBatch, NormalizeName, DataType;
    ListedKey(filter, zone, recs, z, k, ep);
    if CanBuild(cfg, ep) && RRset(z, MarkerWire(k.1, k.0), TXT) == {OwnerText(OwnerOf(ep).value)} {
      BuildableDeletes(cfg, cached, ep, z);
    }
    if Deletable(cfg, cached, ep, z) {
      DeletableMeans(cfg, cached, ep, z);
      forall d ensures d in RRset(AfterBatch(cfg, cached, Deleting(ep), z), Wire(k.0), k.1) <==>
                         d in RRset(z, Wire(k.0), k.1) && !NewData(cfg, ep, RR(Wire(k.0), d)) {
        DataLeft(cfg, cached, Deleting(ep), ep, z, d);
      }
    }
  }

  /** A listed endpoint spells its own key. */
  lemma ListedKey(filter: seq<string>, zone: string, recs: seq<Record>, z: Zone, k: Key, ep: Endpoint)
    requires Legal(z) && Snapshot(recs, z) && ListedEndpoint(filter, zone, recs, k) == Some(ep)
    ensures Normal(k.0) && IsData(k.1) && NormalizeName(k.0) == k.0 && ep.dnsName == k.0
    ensures DataType(ep.recordType) == Some(k.1) && KeyFor(ep) == k
    ensures ep.targets == ValuesAt(recs, k) && ep.targets != []
  {
    hide Legal, Snapshot, KeysIn, LabelOf, ValuesAt, FirstTTL, TypeName, NormalizeName, DataType, Normal, IsData,
         Passes;
    ListedByValues(filter, recs, k);
    if !(Normal(k.0) && IsData(k.1)) {
      NoTargets(recs, z, k);
    }
    TypeNameReads(k.1);
    NormalFixed(k.0);
  }

  /** A listed endpoint spells the type of the data that is stored under its key. */
  lemma ListedSpelledType(filter: seq<string>, zone: string, recs: seq<Record>, z: Zone, k: Key, ep: Endpoint, d: RData)
    requires Legal(z) && Snapshot(recs, z) && ListedEndpoint(filter, zone, recs, k) == Some(ep)
    requires d in RRset(z, Wire(k.0), k.1)
    ensures ep.recordType == "A" <==> d.Address4?
    ensures ep.recordType == "AAAA" <==> d.Address6?
    ensures ep.recordType == "CNAME" <==> d.Alias?
    ensures ep.recordType == "NS" <==> d.Server?
    ensures ep.recordType == "MX" <==> d.Mail?
  {
    hide Legal, Snapshot, KeysIn, LabelOf, ValuesAt, FirstTTL, TypeName, NormalizeName, Normal, Wire, TypeOf, RRset,
         Passes;
    ListedKey(filter, zone, recs, z, k, ep);
    InRRset(z, Wire(k.0), k.1, d);
    TypeOfMeans(d);
    TypeSpelling(k.1);
    assert |"A"| == 1 && |"AAAA"| == 4 && |"CNAME"| == 5 && "NS"[0] != "MX"[0];
    assert ep.recordType == TypeName(k.1);
  }

  /** With everything buildable and the right marker the delete goes through. */
  lemma BuildableDeletes(cfg: Config, cached: seq<Record>, ep: Endpoint, z: Zone)
    requires OwnerOf(ep).Some? && DataType(ep.recordType).Some? && CanBuild(cfg, ep)
    requires RRset(z, MarkerWire(KeyFor(ep).1, KeyFor(ep).0), TXT) == {OwnerText(OwnerOf(ep).value)}
    ensures Deletable(cfg, cached, ep, z)
  {
    hide OwnerOf, RecordsOf, RRset, MarkerWire, OwnerText, Intents, CanSend, Packed, DataType, NormalizeName,
         RecordRR, MarkerRecord, OwnedGuard, PrereqGuard, Accepts;
    var intents, o := Intents(cfg, cached, Deleting(ep)), OwnerOf(ep).value;
    DropsOf(cfg, cached, ep, o);
    DropsSendable(intents);
    var mk := RR(MarkerWire(KeyFor(ep).1, KeyFor(ep).0), OwnerText(o));
    forall g | g in Packed(intents).guards ensures g == Present(mk) {
      var it, p := OriginOfGuard(intents, g);
      RecordsShareKey(cfg, ep, it.rec);
      OwnedGuardBuilt(it.owner, it.rec);
    }
    OwnerTextIsTxt(o);
    OneGuardAccepted(z, Packed(intents), mk);
  }

  /** An accepted delete was buildable, found its marker alone, and removes it. */
  lemma DeletableMeans(cfg: Config, cached: seq<Record>, ep: Endpoint, z: Zone)
    requires OwnerOf(ep).Some? && DataType(ep.recordType).Some? && RecordsOf(cfg, ep) != []
    requires Deletable(cfg, cached, ep, z)
    ensures CanBuild(cfg, ep) && DeletedIn(cfg, cached, Deleting(ep), ep, z)
    ensures var mk := MarkerWire(KeyFor(ep).1, KeyFor(ep).0);
            && RRset(z, mk, TXT) == {OwnerText(OwnerOf(ep).value)}
            && RRset(AfterBatch(cfg, cached, Deleting(ep), z), mk, TXT) == {}
  {
    hide OwnerOf, RecordsOf, RRset, MarkerWire, OwnerText, Intents, CanSend, Packed, DataType, NormalizeName,
         RecordRR, Accepts, OwnershipNameFor, EncodeOwnership, NewData;
    var intents, o := Intents(cfg, cached, Deleting(ep)), OwnerOf(ep).value;
    DropsOf(cfg, cached, ep, o);
    forall r | r in RecordsOf(cfg, ep) ensures RecordRR(r).Some? && RecordRR(MarkerRecord(o, r, 0)).Some? {
      var it, c := Drop(o, r), Delete(MarkerRecord(o, r, 0));
      assert c in Ops(it).changes;
      EditOf(intents, it, Delete(r));
      EditOf(intents, it, c);
    }
    DeleteMarker(cfg, cached, Deleting(ep), ep, z, Drop(o, RecordsOf(cfg, ep)[0]));
    DeleteRemoves(cfg, cached, Deleting(ep), ep, z, NewMarker(ep));
    forall x | x in Packed(intents).edits ensures x.Remove? {
      var it, c := OriginOfEdit(intents, x);
    }
    var mk := MarkerWire(KeyFor(ep).1, KeyFor(ep).0);
    forall d ensures d !in RRset(ApplyEdits(z, Packed(intents).edits), mk, TXT) {
      OnlyRemoves(z, Packed(intents).edits, mk, TXT, d);
    }
  }

  /** An endpoint without an owner, or with no target that has a canonical form, deletes nothing. */
  lemma NothingToDelete(cfg: Config, cached: seq<Record>, ep: Endpoint, z: Zone)
    requires OwnerOf(ep).None? || RecordsOf(cfg, ep) == []
    ensures Deletable(cfg, cached, ep, z) && AfterBatch(cfg, cached, Deleting(ep), z) == z
  {
    hide OwnerOf, RecordsOf;
    assert [ep][..0] == [];
    assert AllDrops(cfg, [ep]) == [] + EndpointDrops(cfg, ep);
    assert Intents(cfg, cached, Deleting(ep)) == [];
  }

  /** Data that some target is built into. */
  ghost predicate Built(t: RType, d: RData) {
    exists target :: ParseData(t, CanonicalRdata(t, target)) == Some(d)
  }

  /** Of a record set that was built from targets, the listing names for deletion all but the records
      that point at the root. */
  lemma ListedNamesBuilt(cfg: Config, filter: seq<string>, zone: string, z: Zone, recs: seq<Record>, k: Key,
                         ep: Endpoint,
                         d: RData)
    requires Legal(z) && Snapshot(recs, z) && ListedEndpoint(filter, zone, recs, k) == Some(ep)
    requires IsVerbatim(Wire(k.0)) && forall x :: x in RRset(z, Wire(k.0), k.1) ==> Built(k.1, x)
    requires d in RRset(z, Wire(k.0), k.1)
    ensures NewData(cfg, ep, RR(Wire(k.0), d)) <==> !RootHost(d)
  {
    hide Legal, Snapshot, RRset, Wire, KeysIn, LabelOf, ValuesAt, FirstTTL, TypeName, NormalizeName, DataType,
         Normal, CanonicalRdata, ParseData, ValueOf, RootHost, IsOwnerName, IsVerbatim, RecordsOf, ClampTTL, Unique;
    ListedKey(filter, zone, recs, z, k, ep);
    var ds := TargetsAreRRset(recs, z, k.0, k.1);
    var t, w := k.1, Wire(k.0);
    assert IsOwnerName(w) by { InRRset(z, w, t, d); LegalNames(z); }
    if !RootHost(d) {
      var x :| ParseData(t, CanonicalRdata(t, x)) == Some(d);
      Recanonical(t, x, d);
      NothingParsesToData(t);
      var i :| 0 <= i < |ds| && ds[i] == d;
      assert ep.targets[i] == ValueOf(d) && ep.targets[i] in ep.targets;
      var r := Record(k.0, t, ClampTTL(cfg, ep.recordTTL), CanonicalRdata(t, ValueOf(d)));
      InRecordsOf(cfg, ep, t, r, ValueOf(d));
      assert RecordRR(r) == Some(RR(w, d));
    }
    if NewData(cfg, ep, RR(w, d)) {
      var r :| r in RecordsOf(cfg, ep) && RecordRR(r) == Some(RR(w, d));
      RecordsShareKey(cfg, ep, r);
      var v :| v in ep.targets && r.value == CanonicalRdata(t, v);
      var i :| 0 <= i < |ds| && ep.targets[i] == v;
      assert ds[i] in ds && v == ValueOf(ds[i]);
      var x :| ParseData(t, CanonicalRdata(t, x)) == Some(ds[i]);
      Recanonical(t, x, ds[i]);
      if RootHost(ds[i]) {
        RootShowsNothing(t, x, ds[i]);
      }
    }
  }
}

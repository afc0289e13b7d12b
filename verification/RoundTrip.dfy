/** Write, then read, for creates: what an accepted create looks like in the next listing. */
module RoundTrip {
  import opened Text
  import opened Records
  import opened Ownership
  import opened Endpoints
  import opened Cache
  import opened DnsServer
  import opened Update
  import opened ChangeSets
  import opened Protocol
  import opened Axfr
  import opened Listing
  import opened ListingOrder
  import opened ReadBack
  import opened PairingRuns
  import opened Marks
  import opened Effects

  /** A batch that creates one endpoint. */
  function Creating(e: Endpoint): Batch {
    Batch([e], [], [], [])
  }

  /** The batch names the endpoint's key by this create alone. */
  predicate OnlyCreate(b: Batch, e: Endpoint) {
    && e in b.creates
    && (forall f :: f in b.creates && ServerKey(f) == ServerKey(e) ==> f == e)
    && (forall f :: f in b.updOld + b.updNew + b.dels ==> ServerKey(f) != ServerKey(e))
  }

  /** The batch creates the endpoint, not dropped as a collision, and the zone accepts it. */
  ghost predicate Created(cfg: Config, cached: seq<Record>, b: Batch, e: Endpoint, z: Zone) {
    && WellPaired(b) && OnlyCreate(b, e)
    && OwnerOf(e).Some? && DataType(e.recordType).Some? && EndpointCreates(cfg, cached, e) != []
    && Sent(cfg, cached, b).Some? && Accepts(z, Sent(cfg, cached, b).value)
  }

  /** The zone after the batch has been sent and delivered. */
  ghost function AfterBatch(cfg: Config, cached: seq<Record>, b: Batch, z: Zone): Zone {
    if WellPaired(b) then After(z, Step(cfg, cached, b, true)) else z
  }

  /** The normalised name and the type the endpoint spells. */
  function KeyFor(e: Endpoint): Key
    requires DataType(e.recordType).Some?
  {
    (NormalizeName(e.dnsName), DataType(e.recordType).value)
  }

  /** An endpoint with a settled name is listed under what it spells. */
  lemma SpeltIsListed(e: Endpoint)
    requires DataType(e.recordType).Some? && Settled(NormalizeName(e.dnsName))
    ensures KeyFor(e) == ListedUnder(e)
  {
    hide DataType, NormalizeName, Settled, Wire;
    NormalTwice(e.dnsName);
    assert (KeyFor(e).0 + ".")[..|KeyFor(e).0|] == KeyFor(e).0;
  }

  predicate RidesOrphan(cached: seq<Record>, e: Endpoint)
    requires DataType(e.recordType).Some?
  {
    IsOrphan(cached, OwnershipNameFor(DataType(e.recordType).value, NormalizeName(e.dnsName)))
  }

  ghost predicate NewData(cfg: Config, e: Endpoint, rr: RR) {
    exists r :: r in RecordsOf(cfg, e) && RecordRR(r) == Some(rr)
  }

  function NewMarker(e: Endpoint): RR
    requires OwnerOf(e).Some? && DataType(e.recordType).Some?
  {
    RR(MarkerWire(DataType(e.recordType).value, NormalizeName(e.dnsName)), OwnerText(OwnerOf(e).value))
  }

  /** The records the create brings into the zone. */
  ghost predicate New(cfg: Config, cached: seq<Record>, e: Endpoint, rr: RR)
    requires OwnerOf(e).Some? && DataType(e.recordType).Some?
  {
    NewData(cfg, e, rr) || (!RidesOrphan(cached, e) && rr == NewMarker(e))
  }

  /** What an endpoint writes has the type it spells, in any case. */
  lemma WritesSpelledType(cfg: Config, e: Endpoint, rr: RR)
    requires NewData(cfg, e, rr)
    ensures rr.data.Address4? <==> Upper(e.recordType) == "A"
    ensures rr.data.Address6? <==> Upper(e.recordType) == "AAAA"
    ensures rr.data.Alias? <==> Upper(e.recordType) == "CNAME"
    ensures rr.data.Server? <==> Upper(e.recordType) == "NS"
    ensures rr.data.Mail? <==> Upper(e.recordType) == "MX"
  {
    hide RecordsOf, NormalizeName, Wire, DataType, TypeOf, Upper, IsOwnerName;
    var r :| r in RecordsOf(cfg, e) && RecordRR(r) == Some(rr);
    RecordsShareKey(cfg, e, r);
    DataTypeMeans(e.recordType);
    TypeOfMeans(rr.data);
  }

  // ----- the effect of one create ----------------------------------------------

  /** The endpoint has records, and each has its create among the intents of the batch. */
  lemma CreateIntentsAlike(cfg: Config, cached: seq<Record>, b: Batch, e: Endpoint)
    requires WellPaired(b) && e in b.creates && EndpointCreates(cfg, cached, e) != []
    requires OwnerOf(e).Some? && DataType(e.recordType).Some?
    ensures RecordsOf(cfg, e) != []
    ensures forall r :: r in RecordsOf(cfg, e) ==>
              Create(OwnerOf(e).value, r, RidesOrphan(cached, e)) in Intents(cfg, cached, b)
  {
    hide OwnershipNameFor, RecordsOf, OwnerOf, NormalizeName, DataType, IsOrphan, Collision, AllCreates;
    var o, recs := OwnerOf(e).value, RecordsOf(cfg, e);
    var first := EndpointCreates(cfg, cached, e)[0];
    assert first in EndpointCreates(cfg, cached, e);
    CreateIntentsExact(cfg, cached, o, recs, first);
    RecordsShareKey(cfg, e, first.rec);
    forall r | r in recs ensures Create(o, r, RidesOrphan(cached, e)) in Intents(cfg, cached, b) {
      var it := Create(o, r, RidesOrphan(cached, e));
      RecordsShareKey(cfg, e, r);
      SameCollision(cached, first.rec, r, o);
      CreateIntentsExact(cfg, cached, o, recs, it);
      AllCreatesExact(cfg, cached, b.creates, it);
    }
  }

  lemma SameCollision(cached: seq<Record>, r: Record, s: Record, owner: string)
    requires r.name == s.name && r.rtype == s.rtype
    ensures Collision(cached, r, owner) == Collision(cached, s, owner)
  {
    hide OwnershipNameFor, NormalizeName, FirstOwner;
  }

  /** A create adds its records, none of which was there, and changes nothing else about its key;
      in a batch of its own it changes nothing else at all. */
  lemma CreateEffect(cfg: Config, cached: seq<Record>, b: Batch, e: Endpoint, z: Zone, rr: RR)
    requires Created(cfg, cached, b, e, z) && (About(rr, KeyFor(e)) || b == Creating(e))
    ensures var z' := AfterBatch(cfg, cached, b, z);
            if New(cfg, cached, e, rr) then Look(z, rr) == None && Look(z', rr) == Some(ClampTTL(cfg, e.recordTTL))
            else Look(z', rr) == Look(z, rr)
  {
    hide OwnershipNameFor, RecordsOf, OwnerOf, NormalizeName, DataType, IsOrphan, CanSend, Packed, Intents, ClampTTL,
         Wire, RidesOrphan, NewMarker, Accepts, ParseRR, NewData, About, EndpointCreates, OnlyCreate;
    var m := Packed(Intents(cfg, cached, b));
    forall x | x in m.edits && x.rr == rr ensures x.Put? && x.ttl == ClampTTL(cfg, e.recordTTL)
      && New(cfg, cached, e, x.rr) {
      EditIsNew(cfg, cached, b, e, x);
    }
    Untouched(m.edits, rr);
    EditsDecide(z, m.edits, rr);
    VerdictKind(m.edits, rr);
    if New(cfg, cached, e, rr) {
      NewIsEdited(cfg, cached, b, e, z, rr);
    }
  }

  lemma EditIsNew(cfg: Config, cached: seq<Record>, b: Batch, e: Endpoint, x: Edit)
    requires WellPaired(b) && OnlyCreate(b, e) && OwnerOf(e).Some? && DataType(e.recordType).Some?
    requires CanSend(Intents(cfg, cached, b)) && x in Packed(Intents(cfg, cached, b)).edits
    requires About(x.rr, KeyFor(e)) || b == Creating(e)
    ensures x.Put? && x.ttl == ClampTTL(cfg, e.recordTTL) && New(cfg, cached, e, x.rr)
  {
    hide OwnershipNameFor, RecordsOf, OwnerOf, NormalizeName, DataType, IsOrphan, CanSend, Packed, Intents, ClampTTL,
         Wire, ParseRR, OwnerText, EncodeOwnership, About, Collision;
    var it, c := CreateOrigin(cfg, cached, b, e, x);
    IntentJustified(cfg, cached, b, it);
    RecordsShareKey(cfg, e, it.rec);
    if c != Add(it.rec) {
      MarkerRecordBuilt(it.owner, it.rec, it.rec.ttl);
    }
  }

  /** Edits about the key of the only create for it come from that create. */
  lemma CreateOrigin(cfg: Config, cached: seq<Record>, b: Batch, e: Endpoint, x: Edit) returns (it: Intent, c: Change)
    requires WellPaired(b) && OnlyCreate(b, e) && OwnerOf(e).Some? && DataType(e.recordType).Some?
    requires CanSend(Intents(cfg, cached, b)) && x in Packed(Intents(cfg, cached, b)).edits
    requires About(x.rr, KeyFor(e)) || b == Creating(e)
    ensures it in Intents(cfg, cached, b) && c in Ops(it).changes && ChangeEdit(c) == Some(x)
    ensures it.Create? && OwnerOf(e) == Some(it.owner) && it.rec in RecordsOf(cfg, e)
  {
    hide RecordsOf, OwnerOf, NormalizeName, DataType, CanSend, Packed, Intents, Wire, About, Ops, ChangeEdit,
         Collision, IsOrphan;
    if b == Creating(e) {
      it, c := OriginOfEdit(Intents(cfg, cached, b), x);
      IntentJustified(cfg, cached, b, it);
    } else {
      var f;
      it, c, f := AboutOrigin(cfg, cached, b, x, KeyFor(e));
      assert Names(cfg, b, it, f, KeyFor(e)) && ServerKey(f) == ServerKey(e);
      if it.Replace? {
        PairSides(cfg, b, it, f);
      }
    }
  }

  lemma PairSides(cfg: Config, b: Batch, it: Intent, f: Endpoint)
    requires WellPaired(b) && FromPair(cfg, b, it, f)
    ensures f in b.updOld || f in b.updNew
  {
  }

  /** A new record is edited in, and a prerequisite says it was not there. */
  lemma NewIsEdited(cfg: Config, cached: seq<Record>, b: Batch, e: Endpoint, z: Zone, rr: RR)
    requires Created(cfg, cached, b, e, z) && New(cfg, cached, e, rr)
    ensures rr !in z
    ensures exists x :: x in Packed(Intents(cfg, cached, b)).edits && x.rr == rr
  {
    hide OwnershipNameFor, RecordsOf, OwnerOf, NormalizeName, DataType, IsOrphan, CanSend, Packed, Intents, ClampTTL,
         Wire, ParseRR, OwnerText, EncodeOwnership, RRset, Accepts, Planned;
    var intents := Intents(cfg, cached, b);
    CreateIntentsAlike(cfg, cached, b, e);
    if NewData(cfg, e, rr) {
      var r :| r in RecordsOf(cfg, e) && RecordRR(r) == Some(rr);
      var it := Create(OwnerOf(e).value, r, RidesOrphan(cached, e));
      EditOf(intents, it, Add(r));
      assert ChangeEdit(Add(r)).value.rr == rr;
      GuardOf(intents, it, NxRRset(r.name, r.rtype));
      assert InSet(rr, Wire(r.name), r.rtype);
      AbsentMeansAbsent(z, Packed(intents), rr, Wire(r.name), r.rtype);
    } else {
      var r := RecordsOf(cfg, e)[0];
      var it := Create(OwnerOf(e).value, r, RidesOrphan(cached, e));
      RecordsShareKey(cfg, e, r);
      var c := Add(MarkerRecord(it.owner, r, r.ttl));
      assert c in Ops(it).changes;
      EditOf(intents, it, c);
      MarkerRecordBuilt(it.owner, r, r.ttl);
      assert ChangeEdit(c).value.rr == rr;
      var p := NxRRset(OwnershipNameFor(r.rtype, r.name), TXT);
      assert p in Ops(it).prereqs;
      GuardOf(intents, it, p);
      assert InSet(rr, rr.name, TXT) by { assert TypeOf(rr.data) == TXT by { OwnerTextIsTxt(it.owner); } }
      AbsentMeansAbsent(z, Packed(intents), rr, rr.name, TXT);
    }
  }

  lemma AbsentMeansAbsent(z: Zone, m: Message, rr: RR, name: string, t: RType)
    requires Accepts(z, m) && Absent(name, t) in m.guards && InSet(rr, name, t)
    ensures rr !in z
  {
    assert GuardHolds(z, m.guards, Absent(name, t));
    InRRset(z, name, t, rr.data);
    assert rr == RR(name, rr.data);
  }

  /** Every record of the new record set is new: the set was empty. */
  lemma NewSetIsNew(cfg: Config, cached: seq<Record>, b: Batch, e: Endpoint, z: Zone, rr: RR)
    requires Created(cfg, cached, b, e, z)
    requires InSet(rr, Wire(NormalizeName(e.dnsName)), DataType(e.recordType).value)
    ensures rr !in z
    ensures rr in AfterBatch(cfg, cached, b, z) <==> NewData(cfg, e, rr)
  {
    hide OwnershipNameFor, RecordsOf, OwnerOf, NormalizeName, IsOrphan, CanSend, Packed, Intents, ClampTTL, Wire,
         RidesOrphan, ParseRR, OwnerText, RRset, Accepts, Planned, NewData;
    var intents := Intents(cfg, cached, b);
    CreateIntentsAlike(cfg, cached, b, e);
    var r := RecordsOf(cfg, e)[0];
    RecordsShareKey(cfg, e, r);
    GuardOf(intents, Create(OwnerOf(e).value, r, RidesOrphan(cached, e)), NxRRset(r.name, r.rtype));
    AbsentMeansAbsent(z, Packed(intents), rr, Wire(r.name), r.rtype);
    CreateEffect(cfg, cached, b, e, z, rr);
    OwnerTextIsTxt(OwnerOf(e).value);
  }

  lemma LegalAfter(cfg: Config, cached: seq<Record>, b: Batch, z: Zone)
    requires Legal(z)
    ensures Legal(AfterBatch(cfg, cached, b, z))
  {
    hide Legal, After;
    if WellPaired(b) {
      LegalKept(z, Step(cfg, cached, b, true));
    }
  }

  // ----- the next listing ------------------------------------------------------

  /** The marker a create adds stands for the created key and names the requester. */
  lemma NewMarkerMarks(e: Endpoint)
    requires OwnerOf(e).Some? && DataType(e.recordType).Some? && Settled(NormalizeName(e.dnsName))
    ensures MarksKey(NewMarker(e), KeyFor(e))
    ensures OwnerIn(NewMarker(e).data) == OwnerOf(e)
  {
    hide DecodeOwnership, OwnerOf, DecodeOwnershipName, OwnershipNameFor;
    var o, nm, t := OwnerOf(e).value, NormalizeName(e.dnsName), DataType(e.recordType).value;
    OwnershipRoundTrip(o);
    assert Concat([OWNED_PREFIX + o]) == OWNED_PREFIX + o by {
      assert Concat([OWNED_PREFIX + o]) == (OWNED_PREFIX + o) + Concat([]);
    }
    assert "\"" + (OWNED_PREFIX + o) + "\"" == EncodeOwnership(o);
    MarkerReadsBack(t, nm);
  }

  /** Write then read: from a cache equal to the zone, a create accepted in any batch that names its
      key once is listed under its normalised name and type with exactly its records as targets,
      each once. */
  lemma CreateIsListed(cfg: Config, filter: seq<string>, cached: seq<Record>, b: Batch, e: Endpoint, z: Zone,
                       recs: seq<Record>)
    returns (ds: seq<RData>)
    requires Legal(z) && Snapshot(cached, z) && Created(cfg, cached, b, e, z) && Settled(NormalizeName(e.dnsName))
    requires Passes(filter, NormalizeName(e.dnsName)) && Snapshot(recs, AfterBatch(cfg, cached, b, z))
    ensures KeyFor(e) in Keys(filter, recs) && LabelOf(recs, KeyFor(e)).Some?
              && ValuesAt(recs, KeyFor(e)) == ShowAll(ds) && FirstTTL(recs, KeyFor(e)) == ClampTTL(cfg, e.recordTTL)
    ensures Unique(ds) && forall d :: d in ds <==> NewData(cfg, e, RR(Wire(NormalizeName(e.dnsName)), d))
  {
    hide DecodeOwnership, DecodeOwnershipName, NormalizeName, OwnershipNameFor, Wire, Settled, Created, Snapshot,
         LabelOf, Normal, OwnerOf, DataType, RRset, Legal, KeysIn, ValuesAt, MarksKey, Labels, Passes, KeyOf,
         NewData, RecordsOf, AfterBatch, FirstTTL, ClampTTL;
    var nm := NormalizeName(e.dnsName);
    var t := CreatedType(cfg, cached, b, e, z);
    var k := (nm, t);
    var z' := AfterBatch(cfg, cached, b, z);
    assert Normal(nm) by { SettledIsNormal(e.dnsName); }
    LegalAfter(cfg, cached, b, z);
    ds := TargetsAreRRset(recs, z', nm, t);
    forall d ensures d in ds <==> NewData(cfg, e, RR(Wire(nm), d)) {
      NewRRset(cfg, cached, b, e, z, d);
    }
    var rr := SomeMarker(cfg, cached, b, e, z);
    LabelShown(recs, z', k, rr);
    LabelExact(recs, k);
    CreatedHasRecord(cfg, cached, b, e, z, recs);
    ListedIfManaged(filter, recs, recs, k);
    ListedByValues(filter, recs, k);
    forall x | x in z' && InSet(x, Wire(nm), t) ensures z'[x] == ClampTTL(cfg, e.recordTTL) {
      NewSetTTL(cfg, cached, b, e, z, x);
    }
    TTLFromZone(recs, z', k, ClampTTL(cfg, e.recordTTL));
  }

  /** The whole new record set has the endpoint's TTL. */
  lemma NewSetTTL(cfg: Config, cached: seq<Record>, b: Batch, e: Endpoint, z: Zone, rr: RR)
    requires Created(cfg, cached, b, e, z) && rr in AfterBatch(cfg, cached, b, z)
    requires InSet(rr, Wire(NormalizeName(e.dnsName)), DataType(e.recordType).value)
    ensures AfterBatch(cfg, cached, b, z)[rr] == ClampTTL(cfg, e.recordTTL)
  {
    hide RecordsOf, NormalizeName, Wire, Created, AfterBatch, DataType, ClampTTL, NewData, MarksKey;
    var t := CreatedType(cfg, cached, b, e, z);
    NewSetIsNew(cfg, cached, b, e, z, rr);
    SetIsAbout(rr, KeyFor(e));
    CreateEffect(cfg, cached, b, e, z, rr);
  }

  lemma SettledIsNormal(name: string)
    requires Settled(NormalizeName(name))
    ensures Normal(NormalizeName(name))
  {
  }

  /** It is listed for its requester if no older marker for the key names anyone else. */
  lemma CreateThenList(cfg: Config, filter: seq<string>, cached: seq<Record>, b: Batch, e: Endpoint, z: Zone,
                       recs: seq<Record>)
    returns (ds: seq<RData>)
    requires Legal(z) && Snapshot(cached, z) && Created(cfg, cached, b, e, z) && Settled(NormalizeName(e.dnsName))
    requires Passes(filter, NormalizeName(e.dnsName)) && LabelledBy(z, KeyFor(e), OwnerOf(e).value)
    requires Snapshot(recs, AfterBatch(cfg, cached, b, z))
    ensures var k := KeyFor(e);
            && k in Keys(filter, recs) && LabelOf(recs, k) == OwnerOf(e)
            && ValuesAt(recs, k) == ShowAll(ds) && FirstTTL(recs, k) == ClampTTL(cfg, e.recordTTL)
    ensures Unique(ds) && forall d :: d in ds <==> NewData(cfg, e, RR(Wire(NormalizeName(e.dnsName)), d))
  {
    hide NormalizeName, Wire, Settled, Created, Snapshot, LabelOf, OwnerOf, DataType, Legal, KeysIn, ValuesAt,
         Passes, NewData, AfterBatch, LabelledBy, Unique, FirstTTL, ClampTTL;
    ds := CreateIsListed(cfg, filter, cached, b, e, z, recs);
    CreatedLabel(cfg, cached, b, e, z, recs);
  }

  lemma CreatedType(cfg: Config, cached: seq<Record>, b: Batch, e: Endpoint, z: Zone) returns (t: RType)
    requires Created(cfg, cached, b, e, z)
    ensures DataType(e.recordType) == Some(t) && IsData(t) && OwnerOf(e).Some?
  {
    t := DataType(e.recordType).value;
  }

  lemma NewRRset(cfg: Config, cached: seq<Record>, b: Batch, e: Endpoint, z: Zone, d: RData)
    requires Created(cfg, cached, b, e, z)
    ensures var w := Wire(NormalizeName(e.dnsName));
            d in RRset(AfterBatch(cfg, cached, b, z), w, DataType(e.recordType).value) <==> NewData(cfg, e, RR(w, d))
  {
    hide RecordsOf, NormalizeName, Wire, Created, AfterBatch, DataType, RRset;
    var w := Wire(NormalizeName(e.dnsName));
    var t := CreatedType(cfg, cached, b, e, z);
    InRRset(AfterBatch(cfg, cached, b, z), w, t, d);
    if TypeOf(d) == t {
      NewSetIsNew(cfg, cached, b, e, z, RR(w, d));
    }
    if NewData(cfg, e, RR(w, d)) {
      var r :| r in RecordsOf(cfg, e) && RecordRR(r) == Some(RR(w, d));
      RecordsShareKey(cfg, e, r);
    }
  }

  /** The created key shows its requester as owner. */
  lemma CreatedLabel(cfg: Config, cached: seq<Record>, b: Batch, e: Endpoint, z: Zone, recs: seq<Record>)
    requires Legal(z) && Snapshot(cached, z) && Created(cfg, cached, b, e, z) && Settled(NormalizeName(e.dnsName))
    requires LabelledBy(z, KeyFor(e), OwnerOf(e).value)
    requires Snapshot(recs, AfterBatch(cfg, cached, b, z))
    ensures LabelOf(recs, KeyFor(e)) == OwnerOf(e)
  {
    hide DecodeOwnership, DecodeOwnershipName, NormalizeName, OwnershipNameFor, Wire, Settled, Created, Snapshot,
         LabelOf, OwnerOf, DataType, Legal, AfterBatch, Labels, MarksKey, NewData, RidesOrphan, NewMarker, OwnerIn;
    var nm := NormalizeName(e.dnsName);
    var t := CreatedType(cfg, cached, b, e, z);
    var k := (nm, t);
    var z' := AfterBatch(cfg, cached, b, z);
    LabelExact(recs, k);
    var rr := SomeMarker(cfg, cached, b, e, z);
    LabelShown(recs, z', k, rr);
    var r :| r in recs && Labels(r, k) && DecodeOwnership(r.value) == LabelOf(recs, k);
    var origin := LabelOrigin(recs, z', k, r);
    CreateEffect(cfg, cached, b, e, z, origin);
    if New(cfg, cached, e, origin) {
      if NewData(cfg, e, origin) {
        NewDataNoMarker(cfg, e, origin, k);
      }
      NewMarkerMarks(e);
    } else {
      assert origin in z;
    }
  }

  lemma NewDataNoMarker(cfg: Config, e: Endpoint, rr: RR, k: Key)
    requires NewData(cfg, e, rr)
    ensures !MarksKey(rr, k) && IsData(TypeOf(rr.data))
  {
    hide RecordsOf, NormalizeName, DecodeOwnershipName, DecodeOwnership;
    var r :| r in RecordsOf(cfg, e) && RecordRR(r) == Some(rr);
    RecordsShareKey(cfg, e, r);
  }

  /** After a create there is a marker for its key. */
  lemma SomeMarker(cfg: Config, cached: seq<Record>, b: Batch, e: Endpoint, z: Zone) returns (rr: RR)
    requires Legal(z) && Snapshot(cached, z) && Created(cfg, cached, b, e, z) && Settled(NormalizeName(e.dnsName))
    ensures rr in AfterBatch(cfg, cached, b, z) && MarksKey(rr, KeyFor(e))
  {
    hide NormalizeName, Settled, Created, Snapshot, OwnerOf, DataType, Legal, AfterBatch, MarksKey, NewData,
         NewMarker, OwnershipNameFor, IsOrphan;
    var t := CreatedType(cfg, cached, b, e, z);
    NormalTwice(e.dnsName);
    if RidesOrphan(cached, e) {
      rr := OrphanMarks(z, cached, t, NormalizeName(e.dnsName));
      CreateEffect(cfg, cached, b, e, z, rr);
    } else {
      rr := NewMarker(e);
      NewMarkerMarks(e);
      CreateEffect(cfg, cached, b, e, z, rr);
    }
  }

  lemma CreatedHasRecord(cfg: Config, cached: seq<Record>, b: Batch, e: Endpoint, z: Zone, recs: seq<Record>)
    requires Legal(z)
    requires Created(cfg, cached, b, e, z) && Settled(NormalizeName(e.dnsName))
    requires Snapshot(recs, AfterBatch(cfg, cached, b, z))
    ensures exists r :: r in recs && KeyOf(r) == KeyFor(e)
  {
    hide NormalizeName, Settled, Snapshot, OwnerOf, DataType, AfterBatch, RecordsOf, KeyOf, Wire, IsOwnerName,
         Planned, Sent, Accepts, RidesOrphan, Intents, CanSend, Packed;
    var nm := NormalizeName(e.dnsName);
    var t := CreatedType(cfg, cached, b, e, z);
    NormalTwice(e.dnsName);
    CreateIntentsAlike(cfg, cached, b, e);
    var r := RecordsOf(cfg, e)[0];
    RecordsShareKey(cfg, e, r);
    var rr := CreateParses(cfg, cached, b, e, z, r);
    LegalAfter(cfg, cached, b, z);
    CreateEffect(cfg, cached, b, e, z, rr);
    var z' := AfterBatch(cfg, cached, b, z);
    ArrivalKey(rr, z'[rr], nm, t);
    SnapshotExact(recs, z', RrToRecord(rr, z'[rr]).value);
  }

  lemma CreateParses(cfg: Config, cached: seq<Record>, b: Batch, e: Endpoint, z: Zone, r: Record) returns (rr: RR)
    requires Created(cfg, cached, b, e, z) && r in RecordsOf(cfg, e)
    ensures RecordRR(r) == Some(rr) && NewData(cfg, e, rr)
  {
    hide RecordsOf, OwnerOf, DataType, RidesOrphan, Intents, CanSend, Packed, ParseRR, Planned, Accepts;
    CreateIntentsAlike(cfg, cached, b, e);
    EditOf(Intents(cfg, cached, b), Create(OwnerOf(e).value, r, RidesOrphan(cached, e)), Add(r));
    rr := RecordRR(r).value;
  }

  lemma OldStays(cfg: Config, cached: seq<Record>, b: Batch, e: Endpoint, z: Zone, rr: RR)
    requires Created(cfg, cached, b, e, z) && About(rr, KeyFor(e)) && rr in z
    ensures rr in AfterBatch(cfg, cached, b, z)
  {
    hide Created, AfterBatch, New, ClampTTL, About;
    assert DataType(e.recordType).Some? && OwnerOf(e).Some? by { var t := CreatedType(cfg, cached, b, e, z); }
    CreateEffect(cfg, cached, b, e, z, rr);
  }

  // ----- who the listing says owns it ------------------------------------------

  /** The create is listed for its requester in every transfer order exactly when no marker for
      the key named anyone else before: the orphan exemption does not look at the owner. */
  lemma OwnerShownIff(cfg: Config, cached: seq<Record>, b: Batch, e: Endpoint, z: Zone)
    requires Legal(z) && Snapshot(cached, z) && Created(cfg, cached, b, e, z) && Settled(NormalizeName(e.dnsName))
    ensures var k := KeyFor(e);
            (forall recs :: Snapshot(recs, AfterBatch(cfg, cached, b, z)) ==> LabelOf(recs, k) == OwnerOf(e))
            <==> LabelledBy(z, k, OwnerOf(e).value)
  {
    hide NormalizeName, Settled, Created, OwnerOf, DataType, Legal, AfterBatch, LabelOf, MarksKey, OwnerIn, Snapshot;
    var t := CreatedType(cfg, cached, b, e, z);
    var k := (NormalizeName(e.dnsName), t);
    if LabelledBy(z, k, OwnerOf(e).value) {
      forall recs | Snapshot(recs, AfterBatch(cfg, cached, b, z)) ensures LabelOf(recs, k) == OwnerOf(e) {
        CreatedLabel(cfg, cached, b, e, z, recs);
      }
    } else {
      var rr :| rr in z && MarksKey(rr, k) && OwnerIn(rr.data) != Some(OwnerOf(e).value);
      OldStays(cfg, cached, b, e, z, rr);
      var recs := ForeignLast(AfterBatch(cfg, cached, b, z), rr, k);
    }
  }


}

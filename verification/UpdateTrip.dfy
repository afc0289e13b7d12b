/** Write, then read, for updates and deletes: what an accepted update pair or delete looks like in
    the next listing, in any batch that names its key once and with any cache. */
module UpdateTrip {
  import opened Text
  import opened Records
  import opened Ownership
  import opened Endpoints
  import opened Cache
  import opened DnsServer
  import opened Update
  import opened ChangeSets
  import opened Protocol
  import opened IsolationLimits
  import opened Axfr
  import opened Listing
  import opened Pairing
  import opened PairingRuns
  import opened ReadBack
  import opened Marks
  import opened Effects
  import opened RoundTrip

  // ----- one intent alone decides about a record -------------------------------

  predicate Edits(it: Intent, rr: RR) {
    exists c :: c in Ops(it).changes && ChangeEdit(c).Some? && ChangeEdit(c).value.rr == rr
  }

  lemma NobodyEdits(intents: seq<Intent>, rr: RR)
    requires CanSend(intents) && forall it :: it in intents ==> !Edits(it, rr)
    ensures Verdict(Packed(intents).edits, rr) == None
  {
    hide CanSend, Packed, Ops, ChangeEdit;
    forall x | x in Packed(intents).edits ensures x.rr != rr {
      var it, c := OriginOfEdit(intents, x);
    }
    Untouched(Packed(intents).edits, rr);
  }

  /** If no other intent edits a record, this one decides about it. */
  lemma {:induction false} SoleAuthor(intents: seq<Intent>, it: Intent, rr: RR)
    requires CanSend(intents) && it in intents && forall x :: x in intents && x != it ==> !Edits(x, rr)
    ensures CanSend([it]) && Verdict(Packed(intents).edits, rr) == Verdict(Packed([it]).edits, rr)
  {
    hide CanSend, Packed, Edits, Verdict;
    var n := |intents| - 1;
    var rest, last := intents[..n], intents[n];
    assert intents == rest + [last];
    EditsConcat(rest, [last]);
    VerdictOfConcat(Packed(rest).edits, Packed([last]).edits, rr);
    if it in rest {
      SoleAuthor(rest, it, rr);
    } else {
      NobodyEdits(rest, rr);
    }
    if last != it {
      NobodyEdits([last], rr);
    }
  }

  // ----- the effect of an update pair ------------------------------------------

  /** The i-th pair keeps its key, and the batch names that key nowhere else. */
  predicate OnlyUpdate(b: Batch, i: nat)
    requires WellPaired(b) && i < |b.updOld|
  {
    var key := ServerKey(b.updOld[i]);
    && ServerKey(b.updNew[i]) == key
    && (forall f :: f in b.creates + b.dels ==> ServerKey(f) != key)
    && (forall j :: 0 <= j < |b.updOld| && j != i ==> ServerKey(b.updOld[j]) != key && ServerKey(b.updNew[j]) != key)
  }

  /** The pair is sent for an owner, with at least one old record, and the zone accepts the batch. */
  ghost predicate Updated(cfg: Config, cached: seq<Record>, b: Batch, i: nat, z: Zone) {
    && WellPaired(b) && i < |b.updOld| && OnlyUpdate(b, i)
    && OwnerOf(b.updOld[i]).Some? && DataType(b.updOld[i].recordType).Some? && RecordsOf(cfg, b.updOld[i]) != []
    && Sent(cfg, cached, b).Some? && Accepts(z, Sent(cfg, cached, b).value)
  }

  function PairIntent(cfg: Config, b: Batch, i: nat): Intent
    requires WellPaired(b) && i < |b.updOld| && OwnerOf(b.updOld[i]).Some?
  {
    Replace(OwnerOf(b.updOld[i]).value, RecordsOf(cfg, b.updOld[i]), RecordsOf(cfg, b.updNew[i]))
  }

  lemma PairIsIntended(cfg: Config, cached: seq<Record>, b: Batch, i: nat)
    requires WellPaired(b) && i < |b.updOld| && OwnerOf(b.updOld[i]).Some?
    ensures PairIntent(cfg, b, i) in Intents(cfg, cached, b)
  {
    hide RecordsOf, OwnerOf, AllReplaces, AllCreates, AllDrops;
    AllReplacesExact(cfg, b.updOld, b.updNew, PairIntent(cfg, b, i));
    assert PairIntent(cfg, b, i) in PairReplace(cfg, b.updOld[i], b.updNew[i]);
  }

  /** What edits something about the pair's key is the pair. */
  lemma PairAlone(cfg: Config, cached: seq<Record>, b: Batch, i: nat, it: Intent, rr: RR)
    requires WellPaired(b) && i < |b.updOld| && OnlyUpdate(b, i) && DataType(b.updOld[i].recordType).Some?
    requires CanSend(Intents(cfg, cached, b)) && it in Intents(cfg, cached, b)
    requires About(rr, KeyFor(b.updOld[i])) && Edits(it, rr)
    ensures OwnerOf(b.updOld[i]).Some? && it == PairIntent(cfg, b, i) && !MarksKey(rr, KeyFor(b.updOld[i]))
  {
    hide RecordsOf, OwnerOf, Intents, CanSend, Ops, ChangeEdit, About, MarksKey, DataType, Wire, NormalizeName;
    var k := KeyFor(b.updOld[i]);
    assert !k.1.TXT?;
    var c :| c in Ops(it).changes && ChangeEdit(c).Some? && ChangeEdit(c).value.rr == rr;
    var e := AboutIntent(cfg, cached, b, it, c, ChangeEdit(c).value, k);
    assert ServerKey(e) == ServerKey(b.updOld[i]);
    assert e !in b.creates + b.dels;
    assert it.Replace?;
    var j :| 0 <= j < |b.updOld| && OwnerOf(b.updOld[j]).Some? && (e == b.updOld[j] || e == b.updNew[j])
             && it == Replace(OwnerOf(b.updOld[j]).value, RecordsOf(cfg, b.updOld[j]), RecordsOf(cfg, b.updNew[j]));
  }

  /** What a pair decides about a record: its new records are there, its other old ones are gone. */
  lemma PairVerdict(cfg: Config, old_: Endpoint, new_: Endpoint, it: Intent, rr: RR)
    requires it.Replace? && CanSend([it]) && it.olds == RecordsOf(cfg, old_) && it.news == RecordsOf(cfg, new_)
    ensures Verdict(Packed([it]).edits, rr) ==
            if NewData(cfg, new_, rr) then Some(Some(ClampTTL(cfg, new_.recordTTL)))
            else if NewData(cfg, old_, rr) then Some(None) else None
  {
    hide RecordsOf, CanSend, Packed, RecordRR, ClampTTL, Verdict;
    if NewData(cfg, new_, rr) {
      var r :| r in RecordsOf(cfg, new_) && RecordRR(r) == Some(rr);
      RecordsShareKey(cfg, new_, r);
      var put := LastPut(cfg, new_, it, r);
    } else {
      var edits := Packed([it]).edits;
      forall x | x in edits && x.rr == rr ensures x.Remove? && NewData(cfg, old_, rr) {
        var y, c := OriginOfEdit([it], x);
        ReplaceChange(it, c);
      }
      if NewData(cfg, old_, rr) {
        var r :| r in RecordsOf(cfg, old_) && RecordRR(r) == Some(rr);
        DeletesOld(it, r);
        EditOf([it], it, Delete(r));
      }
      VerdictKind(edits, rr);
      Untouched(edits, rr);
    }
  }

  lemma DeletesOld(it: Intent, r: Record)
    requires it.Replace? && r in it.olds
    ensures Delete(r) in Ops(it).changes
  {
    hide OwnershipNameFor, EncodeOwnership;
    var i :| 0 <= i < |it.olds| && it.olds[i] == r;
    assert Deletes(it.olds)[i] == Delete(r);
  }

  /** An accepted update, in any batch that names its key once: its new records are there with their
      TTL, its other old records are gone, and nothing else about its key changes. */
  lemma UpdateEffect(cfg: Config, cached: seq<Record>, b: Batch, i: nat, z: Zone, rr: RR)
    requires Updated(cfg, cached, b, i, z) && About(rr, KeyFor(b.updOld[i]))
    ensures Look(AfterBatch(cfg, cached, b, z), rr) ==
            if NewData(cfg, b.updNew[i], rr) then Some(ClampTTL(cfg, b.updNew[i].recordTTL))
            else if NewData(cfg, b.updOld[i], rr) then None else Look(z, rr)
  {
    hide RecordsOf, OwnerOf, Intents, CanSend, Packed, About, DataType, NewData, ClampTTL, Accepts, Edits,
         OnlyUpdate, MarksKey;
    var intents := Intents(cfg, cached, b);
    var it := PairIntent(cfg, b, i);
    PairIsIntended(cfg, cached, b, i);
    forall x | x in intents && x != it ensures !Edits(x, rr) {
      if Edits(x, rr) {
        PairAlone(cfg, cached, b, i, x, rr);
      }
    }
    SoleAuthor(intents, it, rr);
    PairVerdict(cfg, b.updOld[i], b.updNew[i], it, rr);
    EditsDecide(z, Packed(intents).edits, rr);
  }

  // ----- who owns it -----------------------------------------------------------

  /** Every demand on a key's marker comes from an endpoint with that key. */
  lemma GuardOrigins(cfg: Config, cached: seq<Record>, b: Batch, g: Guard, name: string, t: RType)
    returns (it: Intent, r: Record, e: Endpoint)
    requires WellPaired(b) && CanSend(Intents(cfg, cached, b)) && g in Packed(Intents(cfg, cached, b)).guards
    requires g.Present? && g.rr.name == MarkerWire(t, name) && IsData(t) && IsOwnerName(Wire(name))
    ensures it in Intents(cfg, cached, b) && g.rr.data == OwnerText(it.owner) && OwnedGuard(it.owner,
            r) in Ops(it).prereqs
    ensures e in EndpointsOf(b) && ServerKey(e) == (Wire(name), Some(t)) && r in RecordsOf(cfg, e)
    ensures it.Drop? ==> e in b.dels && OwnerOf(e) == Some(it.owner) && r == it.rec
    ensures it.Replace? ==> FromPair(cfg, b, it, e)
    ensures !it.Create?
  {
    hide RecordsOf, OwnerOf, Intents, CanSend, Packed, DataType, Wire, NormalizeName, IsOwnerName, OwnerText,
         OwnershipNameFor, EncodeOwnership, Collision, IsOrphan, MarkerWire, ParseRR;
    var intents := Intents(cfg, cached, b);
    var p;
    it, p := OriginOfGuard(intents, g);
    IntentJustified(cfg, cached, b, it);
    r, e := DemandedRecord(cfg, cached, b, it, p);
    OwnedGuardBuilt(it.owner, r);
    EditOf(intents, it, Delete(r));
    assert IsOwnerName(Wire(r.name)) by { DeleteLegal(r); }
    MarkerWireInjective(r.rtype, r.name, t, name);
  }

  lemma DeleteLegal(r: Record)
    requires ChangeEdit(Delete(r)).Some?
    ensures IsOwnerName(Wire(r.name))
  {
    hide IsOwnerName, Wire, ParseData;
  }

  lemma DemandedRecord(cfg: Config, cached: seq<Record>, b: Batch, it: Intent, p: Prereq) returns (r: Record,
                       e: Endpoint)
    requires WellPaired(b) && Justified(cfg, cached, b, it) && p in Ops(it).prereqs && p.YxRRset?
    ensures p == OwnedGuard(it.owner, r) && Delete(r) in Ops(it).changes && !it.Create?
    ensures e in EndpointsOf(b) && r in RecordsOf(cfg, e) && DataType(e.recordType) == Some(r.rtype)
    ensures IsData(r.rtype) && r.name == NormalizeName(e.dnsName)
    ensures it.Drop? ==> e in b.dels && OwnerOf(e) == Some(it.owner) && r == it.rec
    ensures it.Replace? ==> FromPair(cfg, b, it, e)
  {
    hide RecordsOf, OwnerOf, DataType, NormalizeName, OwnershipNameFor, EncodeOwnership, Collision, IsOrphan;
    if it.Drop? {
      r := it.rec;
      e :| e in b.dels && OwnerOf(e) == Some(it.owner) && r in RecordsOf(cfg, e);
    } else {
      var j :| 0 <= j < |it.olds| && OwnedGuards(it.owner, it.olds)[j] == p;
      r := it.olds[j];
      assert r in it.olds;
      DeletesOld(it, r);
      var i :| 0 <= i < |b.updOld| && OwnerOf(b.updOld[i]) == Some(it.owner)
               && it.olds == RecordsOf(cfg, b.updOld[i]) && it.news == RecordsOf(cfg, b.updNew[i]);
      e := b.updOld[i];
      assert e in b.updOld;
    }
    RecordsShareKey(cfg, e, r);
  }

  /** If one endpoint alone makes demands on a key's marker, its record set is exactly that owner's. */
  lemma MarkerDemanded(cfg: Config, cached: seq<Record>, b: Batch, z: Zone, it: Intent, r: Record)
    requires WellPaired(b) && CanSend(Intents(cfg, cached, b)) && Accepts(z, Packed(Intents(cfg, cached, b)))
    requires it in Intents(cfg, cached, b) && OwnedGuard(it.owner, r) in Ops(it).prereqs && IsData(r.rtype)
    requires forall g | g in Packed(Intents(cfg, cached, b)).guards && g.Present? ::
               g.rr.name == MarkerWire(r.rtype, r.name) ==> g.rr.data == OwnerText(it.owner)
    ensures RRset(z, MarkerWire(r.rtype, r.name), TXT) == {OwnerText(it.owner)}
  {
    hide Intents, CanSend, Packed, RRset, OwnerText, MarkerWire, Ops, PrereqGuard;
    var m, mk := Packed(Intents(cfg, cached, b)), MarkerWire(r.rtype, r.name);
    GuardOf(Intents(cfg, cached, b), it, OwnedGuard(it.owner, r));
    OwnedGuardBuilt(it.owner, r);
    OwnerTextIsTxt(it.owner);
    var g := Present(RR(mk, OwnerText(it.owner)));
    assert g in m.guards && GuardHolds(z, m.guards, g);
    assert InSet(g.rr, mk, TXT);
    assert Demanded(m.guards, mk, TXT) == {OwnerText(it.owner)};
  }

  /** An accepted update finds its marker saying exactly its owner. */
  lemma UpdateMarker(cfg: Config, cached: seq<Record>, b: Batch, i: nat, z: Zone)
    requires Updated(cfg, cached, b, i, z)
    ensures var k := KeyFor(b.updOld[i]);
            RRset(z, MarkerWire(k.1, k.0), TXT) == {OwnerText(OwnerOf(b.updOld[i]).value)} && IsOwnerName(Wire(k.0))
  {
    hide RecordsOf, OwnerOf, Intents, CanSend, Packed, DataType, Accepts, MarkerWire, OwnerText, NormalizeName, Wire,
         IsOwnerName, RRset, OwnershipNameFor, EncodeOwnership;
    var intents := Intents(cfg, cached, b);
    var it := PairIntent(cfg, b, i);
    PairIsIntended(cfg, cached, b, i);
    var r := it.olds[0];
    RecordsShareKey(cfg, b.updOld[i], r);
    assert OwnedGuards(it.owner, it.olds)[0] == OwnedGuard(it.owner, r);
    DeletesOld(it, r);
    EditOf(intents, it, Delete(r));
    assert IsOwnerName(Wire(r.name)) by { DeleteLegal(r); }
    forall g | g in Packed(intents).guards && g.Present? && g.rr.name == MarkerWire(r.rtype, r.name)
      ensures g.rr.data == OwnerText(it.owner)
    {
      var x, s, e := GuardOrigins(cfg, cached, b, g, r.name, r.rtype);
      assert ServerKey(e) == ServerKey(b.updOld[i]);
      assert e !in b.creates + b.dels;
      assert x.Replace?;
      var j :| 0 <= j < |b.updOld| && OwnerOf(b.updOld[j]).Some? && (e == b.updOld[j] || e == b.updNew[j])
               && x == Replace(OwnerOf(b.updOld[j]).value, RecordsOf(cfg, b.updOld[j]), RecordsOf(cfg, b.updNew[j]));
    }
    MarkerDemanded(cfg, cached, b, z, it, r);
  }

  /** A marker record set that says one owner, with no marker elsewhere, labels the key for that owner. */
  lemma LabelledInPlace(z: Zone, k: Key, owner: string)
    requires MarkedInPlace(z, k) && RRset(z, MarkerWire(k.1, k.0), TXT) == {OwnerText(owner)}
    ensures LabelledBy(z, k, owner)
  {
    hide MarkerWire, RRset, DecodeOwnershipName, DecodeOwnership, OwnerText;
    forall rr | rr in z && MarksKey(rr, k) ensures OwnerIn(rr.data) == Some(owner) {
      InRRset(z, MarkerWire(k.1, k.0), TXT, rr.data);
      assert rr == RR(rr.name, rr.data) && TypeOf(rr.data) == TXT;
      OwnerTextReads(owner);
    }
  }

  lemma OwnerTextReads(owner: string)
    ensures OwnerIn(OwnerText(owner)) == Some(owner)
  {
    hide DecodeOwnership;
    OwnershipRoundTrip(owner);
    assert Concat([OWNED_PREFIX + owner]) == OWNED_PREFIX + owner by {
      assert Concat([OWNED_PREFIX + owner]) == (OWNED_PREFIX + owner) + Concat([]);
    }
    assert "\"" + (OWNED_PREFIX + owner) + "\"" == EncodeOwnership(owner);
  }

  // ----- the next listing ------------------------------------------------------

  /** Update, then list: an accepted update with any cache, in any batch that names its key once, is
      listed if anything is left, with its new records and whatever records of the set the old side
      did not list, and with its TTL if the old side listed everything. */
  lemma UpdateThenList(cfg: Config, cached: seq<Record>, b: Batch, i: nat, z: Zone, filter: seq<string>,
                       recs: seq<Record>)
    returns (ds: seq<RData>)
    requires Legal(z) && Updated(cfg, cached, b, i, z) && Settled(NormalizeName(b.updOld[i].dnsName))
    requires Snapshot(recs, AfterBatch(cfg, cached, b, z))
    ensures var k := KeyFor(b.updOld[i]);
            && (k in Keys(filter, recs) <==> Passes(filter, k.0) && ds != [])
            && LabelOf(recs, k).Some? && ValuesAt(recs, k) == ShowAll(ds)
            && (ListsAll(cfg, z, b.updOld[i]) && ds != [] ==>
                  FirstTTL(recs, k) == ClampTTL(cfg, b.updNew[i].recordTTL))
    ensures Unique(ds)
    ensures var w := Wire(NormalizeName(b.updOld[i].dnsName));
            forall d :: d in ds <==>
              || NewData(cfg, b.updNew[i], RR(w, d))
              || (d in RRset(z, w, DataType(b.updOld[i].recordType).value) && !NewData(cfg, b.updOld[i], RR(w, d)))
  {
    hide Legal, Updated, Settled, NormalizeName, DataType, OwnerOf, Snapshot, AfterBatch, KeysIn, LabelOf, ValuesAt,
         Unique, RRset, NewData, Passes, MarksKey, Wire, Normal, ListsAll, FirstTTL, ClampTTL;
    var t := UpdatedType(cfg, cached, b, i, z);
    var k, z' := KeyFor(b.updOld[i]), AfterBatch(cfg, cached, b, z);
    assert Normal(k.0) by { SettledIsNormal(b.updOld[i].dnsName); }
    LegalAfter(cfg, cached, b, z);
    MarksKept(cfg, cached, b, i, z);
    ds := ListedFromZone(filter, recs, z', k);
    forall d ensures d in RRset(z', Wire(k.0), t) <==>
                       || NewData(cfg, b.updNew[i], RR(Wire(k.0), d))
                       || (d in RRset(z, Wire(k.0), t) && !NewData(cfg, b.updOld[i], RR(Wire(k.0), d))) {
      UpdatedSet(cfg, cached, b, i, z, d);
    }
    if ListsAll(cfg, z, b.updOld[i]) && ds != [] {
      assert |ShowAll(ds)| == |ds|;
      forall rr | rr in z' && InSet(rr, Wire(k.0), t) ensures z'[rr] == ClampTTL(cfg, b.updNew[i].recordTTL) {
        WholeUpdateTTL(cfg, cached, b, i, z, rr);
      }
      TTLFromZone(recs, z', k, ClampTTL(cfg, b.updNew[i].recordTTL));
    }
  }

  /** If the old side lists everything, what is left comes from the new side. */
  lemma WholeUpdateTTL(cfg: Config, cached: seq<Record>, b: Batch, i: nat, z: Zone, rr: RR)
    requires Updated(cfg, cached, b, i, z) && ListsAll(cfg, z, b.updOld[i]) && rr in AfterBatch(cfg, cached, b, z)
    requires InSet(rr, Wire(KeyFor(b.updOld[i]).0), KeyFor(b.updOld[i]).1)
    ensures AfterBatch(cfg, cached, b, z)[rr] == ClampTTL(cfg, b.updNew[i].recordTTL)
  {
    hide Updated, NormalizeName, DataType, AfterBatch, RRset, Wire, ClampTTL, RecordsOf, RecordRR, MarksKey;
    var t := UpdatedType(cfg, cached, b, i, z);
    var k := KeyFor(b.updOld[i]);
    SetIsAbout(rr, k);
    UpdateEffect(cfg, cached, b, i, z, rr);
    InRRset(z, Wire(k.0), t, rr.data);
    assert rr == RR(Wire(k.0), rr.data);
  }

  /** It is listed for its owner in every transfer order exactly when every marker for the key names
      that owner, which the accepted prerequisite makes sure of unless the key is a wildcard. */
  lemma UpdateOwnerShownIff(cfg: Config, cached: seq<Record>, b: Batch, i: nat, z: Zone)
    requires Legal(z) && Updated(cfg, cached, b, i, z) && Settled(NormalizeName(b.updOld[i].dnsName))
    ensures var k := KeyFor(b.updOld[i]);
            (forall recs :: Snapshot(recs, AfterBatch(cfg, cached, b, z)) ==> LabelOf(recs, k) == OwnerOf(b.updOld[i]))
            <==> LabelledBy(z, k, OwnerOf(b.updOld[i]).value)
    ensures !("*." <= NormalizeName(b.updOld[i].dnsName)) ==>
              LabelledBy(z, KeyFor(b.updOld[i]), OwnerOf(b.updOld[i]).value)
  {
    hide Legal, Updated, Settled, NormalizeName, DataType, OwnerOf, Snapshot, AfterBatch, LabelOf, MarksKey, Normal,
         OwnerIn, MarkerWire, OwnerText, RRset, MarkedInPlace, Wire, IsOwnerName;
    var t := UpdatedType(cfg, cached, b, i, z);
    var k, owner, z' := KeyFor(b.updOld[i]), OwnerOf(b.updOld[i]).value, AfterBatch(cfg, cached, b, z);
    MarksKept(cfg, cached, b, i, z);
    OwnerAlwaysShownIff(z', k, owner);
    assert LabelledBy(z', k, owner) <==> LabelledBy(z, k, owner) by {
      forall rr | MarksKey(rr, k) ensures rr in z' <==> rr in z {
        assert Look(z', rr) == Look(z, rr);
      }
    }
    if !("*." <= k.0) {
      assert Normal(k.0) by { SettledIsNormal(b.updOld[i].dnsName); }
      PlainInPlace(z, k);
      UpdateMarker(cfg, cached, b, i, z);
      LabelledInPlace(z, k, owner);
    }
  }

  lemma UpdatedType(cfg: Config, cached: seq<Record>, b: Batch, i: nat, z: Zone) returns (t: RType)
    requires Updated(cfg, cached, b, i, z)
    ensures WellPaired(b) && i < |b.updOld| && OwnerOf(b.updOld[i]).Some?
    ensures DataType(b.updOld[i].recordType) == Some(t) && IsData(t) && ServerKey(b.updNew[i]) == ServerKey(b.updOld[i])
  {
    t := DataType(b.updOld[i].recordType).value;
  }

  /** The key's markers survive the update, and there is one. */
  lemma MarksKept(cfg: Config, cached: seq<Record>, b: Batch, i: nat, z: Zone)
    requires Updated(cfg, cached, b, i, z) && Settled(NormalizeName(b.updOld[i].dnsName))
    ensures var k := KeyFor(b.updOld[i]);
            && (forall rr :: MarksKey(rr, k) ==> Look(AfterBatch(cfg, cached, b, z), rr) == Look(z, rr))
            && exists rr :: rr in AfterBatch(cfg, cached, b, z) && MarksKey(rr, k)
  {
    hide Updated, Settled, NormalizeName, DataType, AfterBatch, RRset, NewData, MarkerWire, OwnerText, MarksKey,
         OwnerOf, Wire, IsOwnerName;
    var t := UpdatedType(cfg, cached, b, i, z);
    var k, owner, z' := KeyFor(b.updOld[i]), OwnerOf(b.updOld[i]).value, AfterBatch(cfg, cached, b, z);
    forall rr | MarksKey(rr, k) ensures Look(z', rr) == Look(z, rr) {
      MarkIsAbout(rr, k);
      UpdateEffect(cfg, cached, b, i, z, rr);
      if NewData(cfg, b.updNew[i], rr) { NewDataNoMarker(cfg, b.updNew[i], rr, k); }
      if NewData(cfg, b.updOld[i], rr) { NewDataNoMarker(cfg, b.updOld[i], rr, k); }
    }
    UpdateMarker(cfg, cached, b, i, z);
    var rr := RR(MarkerWire(k.1, k.0), OwnerText(owner));
    InRRset(z, MarkerWire(k.1, k.0), TXT, OwnerText(owner));
    assert MarksKey(rr, k) by { NormalTwice(b.updOld[i].dnsName); OwnMarkMarks(k, owner); }
    assert Look(z', rr) == Look(z, rr);
  }

  lemma MarkIsAbout(rr: RR, k: Key)
    requires MarksKey(rr, k)
    ensures About(rr, k)
  {
  }

  lemma OwnMarkMarks(k: Key, owner: string)
    requires IsData(k.1) && Settled(k.0) && NormalizeName(k.0) == k.0
    ensures MarksKey(RR(MarkerWire(k.1, k.0), OwnerText(owner)), k)
  {
    hide DecodeOwnershipName, MarkerWire, OwnerText, Settled, NormalizeName;
    OwnerTextOwned(owner);
    MarkerReadsBack(k.1, k.0);
  }

  lemma UpdatedSet(cfg: Config, cached: seq<Record>, b: Batch, i: nat, z: Zone, d: RData)
    requires Updated(cfg, cached, b, i, z)
    ensures var k := KeyFor(b.updOld[i]);
            d in RRset(AfterBatch(cfg, cached, b, z), Wire(k.0), k.1) <==>
              || NewData(cfg, b.updNew[i], RR(Wire(k.0), d))
              || (d in RRset(z, Wire(k.0), k.1) && !NewData(cfg, b.updOld[i], RR(Wire(k.0), d)))
  {
    hide Updated, NormalizeName, DataType, AfterBatch, RRset, NewData, Wire, ClampTTL;
    var t := UpdatedType(cfg, cached, b, i, z);
    var k := KeyFor(b.updOld[i]);
    var rr := RR(Wire(k.0), d);
    InRRset(AfterBatch(cfg, cached, b, z), Wire(k.0), t, d);
    InRRset(z, Wire(k.0), t, d);
    if NewData(cfg, b.updNew[i], rr) {
      NewDataType(cfg, b.updNew[i], rr);
    }
    if TypeOf(d) == t {
      SetIsAbout(rr, k);
      UpdateEffect(cfg, cached, b, i, z, rr);
    }
  }

  lemma NewDataType(cfg: Config, e: Endpoint, rr: RR)
    requires NewData(cfg, e, rr)
    ensures DataType(e.recordType) == Some(TypeOf(rr.data))
  {
    hide RecordsOf, NormalizeName, Wire, DataType;
    var r :| r in RecordsOf(cfg, e) && RecordRR(r) == Some(rr);
    RecordsShareKey(cfg, e, r);
  }

  // ----- deletes ---------------------------------------------------------------

  /** The batch names the endpoint's key by this delete alone. */
  predicate OnlyDelete(b: Batch, e: Endpoint) {
    && e in b.dels
    && (forall f :: f in b.dels && ServerKey(f) == ServerKey(e) ==> f == e)
    && (forall f :: f in b.creates + b.updOld + b.updNew ==> ServerKey(f) != ServerKey(e))
  }

  /** The delete is sent for an owner, with at least one record, and the zone accepts the batch. */
  ghost predicate DeletedIn(cfg: Config, cached: seq<Record>, b: Batch, e: Endpoint, z: Zone) {
    && WellPaired(b) && OnlyDelete(b, e)
    && OwnerOf(e).Some? && DataType(e.recordType).Some? && RecordsOf(cfg, e) != []
    && Sent(cfg, cached, b).Some? && Accepts(z, Sent(cfg, cached, b).value)
  }

  /** An accepted delete, in any batch that names its key once: its records and its marker are gone,
      and nothing else about its key changes. */
  lemma DeleteEffect(cfg: Config, cached: seq<Record>, b: Batch, e: Endpoint, z: Zone, rr: RR)
    requires DeletedIn(cfg, cached, b, e, z) && About(rr, KeyFor(e))
    ensures Look(AfterBatch(cfg, cached, b, z), rr) ==
            if NewData(cfg, e, rr) || rr == NewMarker(e) then None else Look(z, rr)
  {
    hide RecordsOf, OwnerOf, Intents, CanSend, Packed, MarksKey, DataType, Wire, NormalizeName, Accepts, About,
         NewMarker, NewData, OnlyDelete;
    var edits := Packed(Intents(cfg, cached, b)).edits;
    forall x | x in edits && x.rr == rr ensures x.Remove? && (NewData(cfg, e, rr) || rr == NewMarker(e)) {
      DeleteOnlyRemoves(cfg, cached, b, e, x);
    }
    if NewData(cfg, e, rr) || rr == NewMarker(e) {
      DeleteRemoves(cfg, cached, b, e, z, rr);
    }
    EditsDecide(z, edits, rr);
    VerdictKind(edits, rr);
    Untouched(edits, rr);
  }

  /** The delete removes its records and its marker. */
  lemma DeleteRemoves(cfg: Config, cached: seq<Record>, b: Batch, e: Endpoint, z: Zone, rr: RR)
    requires DeletedIn(cfg, cached, b, e, z) && (NewData(cfg, e, rr) || rr == NewMarker(e))
    ensures Remove(rr) in Packed(Intents(cfg, cached, b)).edits
  {
    hide RecordsOf, OwnerOf, Intents, CanSend, Packed, DataType, Wire, NormalizeName, Accepts, RecordRR,
         OwnershipNameFor, EncodeOwnership, OwnerText, MarkerWire, ServerKey;
    var intents, v := Intents(cfg, cached, b), OwnerOf(e).value;
    if NewData(cfg, e, rr) {
      var r :| r in RecordsOf(cfg, e) && RecordRR(r) == Some(rr);
      DropPresent(cfg, cached, b, e, r);
      EditOf(intents, Drop(v, r), Delete(r));
    } else {
      var r := RecordsOf(cfg, e)[0];
      RecordsShareKey(cfg, e, r);
      DropPresent(cfg, cached, b, e, r);
      var c := Delete(MarkerRecord(v, r, 0));
      assert c in Ops(Drop(v, r)).changes;
      EditOf(intents, Drop(v, r), c);
      MarkerRecordBuilt(v, r, 0);
    }
  }

  /** Delete, then list: an accepted delete with any cache, in any batch that names its key once, is
      still listed exactly when it did not list all of the data and a second marker, under the name
      that spells a wildcard's asterisk, stays behind. */
  lemma DeleteThenList(cfg: Config, cached: seq<Record>, b: Batch, e: Endpoint, z: Zone, filter: seq<string>,
                       recs: seq<Record>)
    requires Legal(z) && DeletedIn(cfg, cached, b, e, z) && Settled(NormalizeName(e.dnsName))
    requires Snapshot(recs, AfterBatch(cfg, cached, b, z))
    ensures var k := KeyFor(e);
            k in Keys(filter, recs) <==>
              && Passes(filter, k.0)
              && (exists rr :: rr in z && MarksKey(rr, k) && rr.name != MarkerWire(k.1, k.0))
              && (exists d :: d in RRset(z, Wire(k.0), k.1) && !NewData(cfg, e, RR(Wire(k.0), d)))
    ensures !("*." <= NormalizeName(e.dnsName)) ==> KeyFor(e) !in Keys(filter, recs)
  {
    hide Legal, DeletedIn, Settled, NormalizeName, DataType, OwnerOf, Snapshot, AfterBatch, KeysIn, MarksKey, Normal,
         Passes, RRset, Wire, MarkerWire, NewData, Unique, LabelOf, ValuesAt;
    var t := DeletedType(cfg, cached, b, e, z);
    var k, z' := KeyFor(e), AfterBatch(cfg, cached, b, z);
    assert Normal(k.0) by { SettledIsNormal(e.dnsName); }
    LegalAfter(cfg, cached, b, z);
    var ds := ListedFromZone(filter, recs, z', k);
    forall rr | MarksKey(rr, k) ensures rr in z' <==> rr in z && rr.name != MarkerWire(k.1, k.0) {
      MarkLeft(cfg, cached, b, e, z, rr);
    }
    forall d
      ensures d in RRset(z', Wire(k.0), t) <==> d in RRset(z, Wire(k.0), t) && !NewData(cfg, e, RR(Wire(k.0), d))
    {
      DataLeft(cfg, cached, b, e, z, d);
    }
    assert ds != [] <==> exists d :: d in RRset(z, Wire(k.0), t) && !NewData(cfg, e, RR(Wire(k.0), d)) by {
      if ds != [] { assert ds[0] in ds; }
    }
    if !("*." <= k.0) {
      PlainInPlace(z, k);
    }
  }

  /** The markers an accepted delete leaves are those at another name. */
  lemma MarkLeft(cfg: Config, cached: seq<Record>, b: Batch, e: Endpoint, z: Zone, rr: RR)
    requires DeletedIn(cfg, cached, b, e, z) && MarksKey(rr, KeyFor(e))
    ensures rr in AfterBatch(cfg, cached, b, z) <==> rr in z && rr.name != MarkerWire(KeyFor(e).1, KeyFor(e).0)
  {
    hide RecordsOf, OwnerOf, Intents, MarksKey, DataType, Wire, NormalizeName, RRset, ServerKey, MarkerWire,
         OwnerText, About, NewData, AfterBatch, Accepts, CanSend, Packed;
    var k, v := KeyFor(e), OwnerOf(e).value;
    var r := RecordsOf(cfg, e)[0];
    DropPresent(cfg, cached, b, e, r);
    DeleteMarker(cfg, cached, b, e, z, Drop(v, r));
    MarkIsAbout(rr, k);
    DeleteEffect(cfg, cached, b, e, z, rr);
    if NewData(cfg, e, rr) { NewDataNoMarker(cfg, e, rr, k); }
    MarkIsText(rr, k);
    InRRset(z, MarkerWire(k.1, k.0), TXT, rr.data);
  }

  lemma DataLeft(cfg: Config, cached: seq<Record>, b: Batch, e: Endpoint, z: Zone, d: RData)
    requires DeletedIn(cfg, cached, b, e, z)
    ensures var k := KeyFor(e);
            d in RRset(AfterBatch(cfg, cached, b, z), Wire(k.0), k.1)
            <==> d in RRset(z, Wire(k.0), k.1) && !NewData(cfg, e, RR(Wire(k.0), d))
  {
    hide DeletedIn, NormalizeName, DataType, AfterBatch, RRset, NewData, Wire, MarkerWire, OwnerText, OwnerOf;
    var t := DeletedType(cfg, cached, b, e, z);
    var k := KeyFor(e);
    var rr := RR(Wire(k.0), d);
    InRRset(AfterBatch(cfg, cached, b, z), Wire(k.0), t, d);
    InRRset(z, Wire(k.0), t, d);
    if TypeOf(d) == t {
      SetIsAbout(rr, k);
      DeleteEffect(cfg, cached, b, e, z, rr);
      OwnerTextIsTxt(OwnerOf(e).value);
    }
  }

  lemma DeletedType(cfg: Config, cached: seq<Record>, b: Batch, e: Endpoint, z: Zone) returns (t: RType)
    requires DeletedIn(cfg, cached, b, e, z)
    ensures WellPaired(b) && DataType(e.recordType) == Some(t) && IsData(t) && OwnerOf(e).Some?
  {
    t := DataType(e.recordType).value;
  }

  /** An edit about the key of the only delete for it removes one of its records or its marker. */
  lemma DeleteOnlyRemoves(cfg: Config, cached: seq<Record>, b: Batch, e: Endpoint, x: Edit)
    requires WellPaired(b) && OnlyDelete(b, e) && OwnerOf(e).Some? && DataType(e.recordType).Some?
    requires CanSend(Intents(cfg, cached, b)) && x in Packed(Intents(cfg, cached, b)).edits && About(x.rr, KeyFor(e))
    ensures x.Remove? && (NewData(cfg, e, x.rr) || x.rr == NewMarker(e))
  {
    hide RecordsOf, OwnerOf, Intents, CanSend, Packed, About, MarksKey, DataType, Wire, NormalizeName,
         OwnershipNameFor, EncodeOwnership, RecordRR, MarkerWire, OwnerText, MarkerRecord;
    var it, c, f := AboutOrigin(cfg, cached, b, x, KeyFor(e));
    assert ServerKey(f) == ServerKey(e);
    assert f !in b.creates + b.updOld + b.updNew;
    if it.Replace? {
      PairSides(cfg, b, it, f);
    }
    assert it.Drop? && f == e;
    RecordsShareKey(cfg, e, it.rec);
    if c.rec != it.rec {
      MarkerChange(it, c, x);
    }
  }

  lemma MarkIsText(rr: RR, k: Key)
    requires MarksKey(rr, k)
    ensures TypeOf(rr.data) == TXT && rr == RR(rr.name, rr.data)
  {
    hide DecodeOwnershipName, DecodeOwnership;
  }

  /** An accepted delete finds its marker saying exactly its owner. */
  lemma DeleteMarker(cfg: Config, cached: seq<Record>, b: Batch, e: Endpoint, z: Zone, it: Intent)
    requires DeletedIn(cfg, cached, b, e, z) && it in Intents(cfg, cached, b)
    requires it.Drop? && OwnerOf(e) == Some(it.owner) && it.rec in RecordsOf(cfg, e)
    ensures var k := KeyFor(e); RRset(z, MarkerWire(k.1, k.0), TXT) == {OwnerText(it.owner)}
  {
    hide RecordsOf, OwnerOf, Intents, CanSend, Packed, DataType, Accepts, MarkerWire, OwnerText, NormalizeName, Wire,
         IsOwnerName, RRset, OwnershipNameFor, EncodeOwnership;
    var intents, r := Intents(cfg, cached, b), it.rec;
    RecordsShareKey(cfg, e, r);
    EditOf(intents, it, Delete(r));
    assert IsOwnerName(Wire(r.name)) by { DeleteLegal(r); }
    forall g | g in Packed(intents).guards && g.Present? && g.rr.name == MarkerWire(r.rtype, r.name)
      ensures g.rr.data == OwnerText(it.owner)
    {
      var x, s, f := GuardOrigins(cfg, cached, b, g, r.name, r.rtype);
      assert ServerKey(f) == ServerKey(e);
      assert f !in b.creates + b.updOld + b.updNew;
      if x.Replace? {
        PairSides(cfg, b, x, f);
      }
      assert x.Drop?;
    }
    MarkerDemanded(cfg, cached, b, z, it, r);
  }

  // ----- who has the last word -------------------------------------------------

  lemma {:induction false} VerdictOfParts(a: seq<Intent>, b: seq<Intent>, rr: RR)
    requires CanSend(a + b)
    ensures CanSend(a) && CanSend(b)
    ensures Verdict(Packed(a + b).edits, rr) ==
            if Verdict(Packed(b).edits, rr).Some? then Verdict(Packed(b).edits, rr) else Verdict(Packed(a).edits, rr)
  {
    hide CanSend, Packed, Verdict;
    EditsConcat(a, b);
    VerdictOfConcat(Packed(a).edits, Packed(b).edits, rr);
  }

  /** Deletes come last: whatever else an accepted batch does, what it deletes is gone, marker included. */
  lemma DeletesComeLast(cfg: Config, cached: seq<Record>, b: Batch, e: Endpoint, z: Zone, rr: RR)
    requires WellPaired(b) && Sent(cfg, cached, b).Some? && Accepts(z, Sent(cfg, cached, b).value)
    requires e in b.dels && OwnerOf(e).Some? && DataType(e.recordType).Some?
    requires NewData(cfg, e, rr) || (RecordsOf(cfg, e) != [] && rr == NewMarker(e))
    ensures rr !in AfterBatch(cfg, cached, b, z)
  {
    hide RecordsOf, OwnerOf, CanSend, Packed, AllCreates, AllReplaces, AllDrops, Verdict, Accepts, NewData,
         NewMarker, DataType;
    var front, drops := AllCreates(cfg, cached, b.creates) + AllReplaces(cfg, b.updOld, b.updNew),
      AllDrops(cfg, b.dels);
    VerdictOfParts(front, drops, rr);
    DropsRemove(cfg, b.dels, e, rr);
    EditsDecide(z, Packed(front + drops).edits, rr);
  }

  lemma DropsRemove(cfg: Config, dels: seq<Endpoint>, e: Endpoint, rr: RR)
    requires CanSend(AllDrops(cfg, dels)) && e in dels && OwnerOf(e).Some? && DataType(e.recordType).Some?
    requires NewData(cfg, e, rr) || (RecordsOf(cfg, e) != [] && rr == NewMarker(e))
    ensures Verdict(Packed(AllDrops(cfg, dels)).edits, rr) == Some(None)
  {
    hide RecordsOf, OwnerOf, CanSend, Packed, AllDrops, Verdict, DataType, RecordRR, OwnershipNameFor,
         EncodeOwnership, OwnerText, MarkerWire, NormalizeName, Wire;
    var drops, o := AllDrops(cfg, dels), OwnerOf(e).value;
    forall x | x in Packed(drops).edits ensures x.Remove? {
      var it, c := OriginOfEdit(drops, x);
      OnlyDrops(cfg, dels, it);
    }
    if NewData(cfg, e, rr) {
      var r :| r in RecordsOf(cfg, e) && RecordRR(r) == Some(rr);
      DropAmong(cfg, dels, e, r);
      EditOf(drops, Drop(o, r), Delete(r));
    } else {
      var r := RecordsOf(cfg, e)[0];
      RecordsShareKey(cfg, e, r);
      DropAmong(cfg, dels, e, r);
      var c := Delete(MarkerRecord(o, r, 0));
      assert c in Ops(Drop(o, r)).changes;
      EditOf(drops, Drop(o, r), c);
      MarkerRecordBuilt(o, r, 0);
    }
    assert Remove(rr) in Packed(drops).edits;
    VerdictKind(Packed(drops).edits, rr);
  }

  lemma OnlyDrops(cfg: Config, dels: seq<Endpoint>, it: Intent)
    requires it in AllDrops(cfg, dels)
    ensures it.Drop?
  {
    hide RecordsOf, OwnerOf, AllDrops;
    AllDropsExact(cfg, dels, it);
  }

  lemma DropAmong(cfg: Config, dels: seq<Endpoint>, e: Endpoint, r: Record)
    requires e in dels && OwnerOf(e).Some? && r in RecordsOf(cfg, e)
    ensures Drop(OwnerOf(e).value, r) in AllDrops(cfg, dels)
  {
    hide RecordsOf, OwnerOf, AllDrops;
    var recs, it := RecordsOf(cfg, e), Drop(OwnerOf(e).value, r);
    var i :| 0 <= i < |recs| && recs[i] == r;
    assert DropIntents(OwnerOf(e).value, recs)[i] == it;
    assert it in EndpointDrops(cfg, e);
    AllDropsExact(cfg, dels, it);
  }

  /** Updates come after creates: what a pair removes and no pair adds is gone, even if it was created. */
  lemma UpdatesFollowCreates(cfg: Config, cached: seq<Record>, b: Batch, i: nat, z: Zone, rr: RR)
    requires WellPaired(b) && Sent(cfg, cached, b).Some? && Accepts(z, Sent(cfg, cached, b).value)
    requires i < |b.updOld| && OwnerOf(b.updOld[i]).Some? && NewData(cfg, b.updOld[i], rr)
    requires forall j :: 0 <= j < |b.updNew| && OwnerOf(b.updOld[j]).Some? ==> !NewData(cfg, b.updNew[j], rr)
    ensures rr !in AfterBatch(cfg, cached, b, z)
  {
    hide RecordsOf, OwnerOf, CanSend, Packed, AllCreates, AllReplaces, AllDrops, Verdict, Accepts, NewData;
    var creates, pairs, drops := AllCreates(cfg, cached, b.creates), AllReplaces(cfg, b.updOld, b.updNew),
      AllDrops(cfg, b.dels);
    VerdictOfParts(creates + pairs, drops, rr);
    VerdictOfParts(creates, pairs, rr);
    PairsRemove(cfg, b, i, rr);
    DropsOnlyRemove(cfg, b.dels, rr);
    EditsDecide(z, Packed(creates + pairs + drops).edits, rr);
  }

  lemma DropsOnlyRemove(cfg: Config, dels: seq<Endpoint>, rr: RR)
    requires CanSend(AllDrops(cfg, dels))
    ensures var v := Verdict(Packed(AllDrops(cfg, dels)).edits, rr); v == None || v == Some(None)
  {
    hide CanSend, Packed, AllDrops, Verdict, OwnershipNameFor, EncodeOwnership, RecordRR;
    var drops := AllDrops(cfg, dels);
    forall x | x in Packed(drops).edits ensures x.Remove? {
      var it, c := OriginOfEdit(drops, x);
      OnlyDrops(cfg, dels, it);
    }
    VerdictKind(Packed(drops).edits, rr);
    Untouched(Packed(drops).edits, rr);
  }

  lemma PairsRemove(cfg: Config, b: Batch, i: nat, rr: RR)
    requires WellPaired(b) && CanSend(AllReplaces(cfg, b.updOld, b.updNew))
    requires i < |b.updOld| && OwnerOf(b.updOld[i]).Some? && NewData(cfg, b.updOld[i], rr)
    requires forall j :: 0 <= j < |b.updNew| && OwnerOf(b.updOld[j]).Some? ==> !NewData(cfg, b.updNew[j], rr)
    ensures Verdict(Packed(AllReplaces(cfg, b.updOld, b.updNew)).edits, rr) == Some(None)
  {
    hide RecordsOf, OwnerOf, CanSend, Packed, AllReplaces, Verdict, RecordRR, OwnershipNameFor, EncodeOwnership;
    var pairs := AllReplaces(cfg, b.updOld, b.updNew);
    forall x | x in Packed(pairs).edits && x.rr == rr ensures x.Remove? {
      var it, c := OriginOfEdit(pairs, x);
      AllReplacesExact(cfg, b.updOld, b.updNew, it);
      var j :| 0 <= j < |b.updOld| && it in PairReplace(cfg, b.updOld[j], b.updNew[j]);
      ReplaceChange(it, c);
    }
    var it := PairIntent(cfg, b, i);
    AllReplacesExact(cfg, b.updOld, b.updNew, it);
    assert it in PairReplace(cfg, b.updOld[i], b.updNew[i]);
    var r :| r in RecordsOf(cfg, b.updOld[i]) && RecordRR(r) == Some(rr);
    DeletesOld(it, r);
    EditOf(pairs, it, Delete(r));
    assert Remove(rr) in Packed(pairs).edits;
    VerdictKind(Packed(pairs).edits, rr);
  }
}

/** Where data and marker come apart: the conditions of the pairing theorem on a single create,
    update pair or delete are necessary as well as sufficient. */
module PairingLimits {
  import opened Text
  import opened Records
  import opened Ownership
  import opened Endpoints
  import opened DnsServer
  import opened Update
  import opened ChangeSets
  import opened Protocol
  import opened Axfr
  import opened Pairing
  import opened PairingRuns
  import opened RoundTrip
  import opened IsolationLimits
  import opened UpdateTrip
  import opened TargetLimits
  import opened Lifecycle

  /** An accepted delete always takes the marker away; data stays behind exactly when the endpoint
      does not list every record the zone has. */
  lemma DeleteLeavesDataIff(cfg: Config, cached: seq<Record>, e: Endpoint, z: Zone)
    requires DeletedIn(cfg, cached, Deleting(e), e, z)
    ensures DataType(e.recordType).Some?
    ensures var name, t := NormalizeName(e.dnsName), DataType(e.recordType).value;
            var z' := Serve(z, Sent(cfg, cached, Deleting(e)).value);
            !Marked(z', name, t) && (HasData(z', name, t) <==> !ListsAll(cfg, z, e))
  {
    hide NormalizeName, Wire, MarkerWire, IsOwnerName, RecordsOf, OwnerOf, DataType, Intents, Packed, CanSend,
         HasData, Marked, OnKey, Proper, Accepts, RecordRR, RRset, ListsAll;
    var intents := Intents(cfg, cached, Deleting(e));
    var first := RecordsOf(cfg, e)[0];
    DropsOf(cfg, cached, e, OwnerOf(e).value);
    var it := Drop(OwnerOf(e).value, first);
    RecordsShareKey(cfg, e, first);
    var name, t := NormalizeName(e.dnsName), first.rtype;
    forall x | x in intents ensures Proper(x) { DropIsProper(cfg, e, x); }
    OnOwnKey(it);
    LegalDrop(intents, it);
    if ListsAll(cfg, z, e) {
      AllListed(cfg, cached, e, z);
      NothingAfterDrop(intents, z, it, name, t);
    } else {
      MarkerGone(intents, z, it, name, t);
      var d := Unlisted(cfg, z, e);
      UnlistedStays(cfg, cached, e, z, name, t, d);
      SomeData(Serve(z, Packed(intents)), name, t, d);
    }
  }

  lemma DropIsProper(cfg: Config, e: Endpoint, x: Intent)
    requires x.Drop? && x.rec in RecordsOf(cfg, e)
    ensures Proper(x)
  {
    hide RecordsOf;
    RecordsShareKey(cfg, e, x.rec);
  }

  lemma OnOwnKey(it: Intent)
    requires it.Drop?
    ensures OnKey(it, it.rec.name, it.rec.rtype)
  {
    assert it.rec in DataRecords(it) && AtKey(it.rec, it.rec.name, it.rec.rtype);
  }

  /** A drop that could be sent names a legal owner. */
  lemma LegalDrop(intents: seq<Intent>, it: Intent)
    requires CanSend(intents) && it in intents && it.Drop?
    ensures IsOwnerName(Wire(it.rec.name))
  {
    hide Wire, IsOwnerName, ParseData, OwnershipNameFor, CanSend, Packed;
    EditOf(intents, it, Delete(it.rec));
  }

  lemma AllListed(cfg: Config, cached: seq<Record>, e: Endpoint, z: Zone)
    requires OwnerOf(e).Some? && DataType(e.recordType).Some? && ListsAll(cfg, z, e)
    ensures forall d :: d in RRset(z, Wire(NormalizeName(e.dnsName)), DataType(e.recordType).value) ==>
              exists x :: x in Intents(cfg, cached, Deleting(e)) && x.Drop?
                          && RecordRR(x.rec) == Some(RR(Wire(NormalizeName(e.dnsName)), d))
  {
    hide RecordsOf, NormalizeName, Wire, Intents, RecordRR, RRset, OwnerOf;
    DropsOf(cfg, cached, e, OwnerOf(e).value);
    forall d | d in RRset(z, Wire(NormalizeName(e.dnsName)), DataType(e.recordType).value)
      ensures exists x :: x in Intents(cfg, cached, Deleting(e)) && x.Drop?
                          && RecordRR(x.rec) == Some(RR(Wire(NormalizeName(e.dnsName)), d))
    {
      var r :| r in RecordsOf(cfg, e) && RecordRR(r) == Some(RR(Wire(NormalizeName(e.dnsName)), d));
      assert Drop(OwnerOf(e).value, r).rec == r;
    }
  }

  lemma MarkerGone(intents: seq<Intent>, z: Zone, it: Intent, name: string, t: RType)
    requires Fit(intents) && IsData(t) && IsOwnerName(Wire(name)) && Accepts(z, Packed(intents))
    requires it in intents && OnKey(it, name, t) && forall x :: x in intents ==> x.Drop?
    ensures !Marked(Serve(z, Packed(intents)), name, t)
  {
    hide Wire, MarkerWire, IsOwnerName, Packed, CanSend, RRset, OnKey, Proper, OwnedData, Accepts;
    var edits, mk := Packed(intents).edits, MarkerWire(t, name);
    forall x | x in edits && InSet(x.rr, mk, TXT) ensures x.Remove? {
      var i, c := KeyOfEdit(intents, x, name, t);
    }
    forall d | d in RRset(ApplyEdits(z, edits), mk, TXT) ensures false {
      OnlyRemoves(z, edits, mk, TXT, d);
      MarkerDropped(intents, z, it, name, t, d);
    }
  }

  lemma Unlisted(cfg: Config, z: Zone, e: Endpoint) returns (d: RData)
    requires !ListsAll(cfg, z, e)
    ensures DataType(e.recordType).Some? && d in RRset(z, Wire(NormalizeName(e.dnsName)), DataType(e.recordType).value)
    ensures forall r :: r in RecordsOf(cfg, e) ==> RecordRR(r) != Some(RR(Wire(NormalizeName(e.dnsName)), d))
  {
    d :| d in RRset(z, Wire(NormalizeName(e.dnsName)), DataType(e.recordType).value)
         && !exists r :: r in RecordsOf(cfg, e) && RecordRR(r) == Some(RR(Wire(NormalizeName(e.dnsName)), d));
  }

  /** A record the endpoint does not list is not touched. */
  lemma UnlistedStays(cfg: Config, cached: seq<Record>, e: Endpoint, z: Zone, name: string, t: RType, d: RData)
    requires DeletedIn(cfg, cached, Deleting(e), e, z) && IsData(t) && d in RRset(z, Wire(name), t)
    requires forall r :: r in RecordsOf(cfg, e) ==> RecordRR(r) != Some(RR(Wire(name), d))
    ensures d in RRset(Serve(z, Sent(cfg, cached, Deleting(e)).value), Wire(name), t)
  {
    hide Wire, RecordsOf, OwnerOf, Intents, Packed, CanSend, Accepts, RRset, RecordRR;
    var intents := Intents(cfg, cached, Deleting(e));
    var rr := RR(Wire(name), d);
    DropsOf(cfg, cached, e, OwnerOf(e).value);
    InRRset(z, Wire(name), t, d);
    forall x | x in Packed(intents).edits ensures x.rr != rr {
      var it, c := OriginOfEdit(intents, x);
      if c.rec != it.rec {
        MarkerEdit(it, x);
      }
    }
    Untouched(Packed(intents).edits, rr);
    EditsDecide(z, Packed(intents).edits, rr);
    InRRset(Serve(z, Packed(intents)), Wire(name), t, d);
  }

  lemma MarkerEdit(it: Intent, x: Edit)
    requires it.Drop? && ChangeEdit(Delete(MarkerRecord(it.owner, it.rec, 0))) == Some(x)
    ensures TypeOf(x.rr.data) == TXT
  {
    hide Wire, OwnershipNameFor, EncodeOwnership, IsOwnerName;
  }

  lemma SomeData(z: Zone, name: string, t: RType, d: RData)
    requires d in RRset(z, Wire(name), t)
    ensures HasData(z, name, t)
  {
  }

  /** An accepted create is marked afterwards exactly when it wrote its own marker or the orphan
      its cache promised was really there. */
  lemma CreateMarkedIff(cfg: Config, cached: seq<Record>, e: Endpoint, z: Zone)
    requires Created(cfg, cached, Creating(e), e, z)
    ensures var name, t := NormalizeName(e.dnsName), DataType(e.recordType).value;
            Marked(AfterBatch(cfg, cached, Creating(e), z), name, t) <==> !RidesOrphan(cached, e) || Marked(z, name, t)
  {
    hide NormalizeName, MarkerWire, RecordsOf, OwnerOf, DataType, RidesOrphan, Created, AfterBatch, RRset, OwnedData,
         NewData, OwnerText;
    CreatedHas(cfg, cached, e, z);
    var name, t := NormalizeName(e.dnsName), DataType(e.recordType).value;
    var mk, z' := MarkerWire(t, name), AfterBatch(cfg, cached, Creating(e), z);
    if !RidesOrphan(cached, e) {
      var d := OwnerText(OwnerOf(e).value);
      CreateEffect(cfg, cached, Creating(e), e, z, RR(mk, d));
      OwnerTextOwned(OwnerOf(e).value);
      InRRset(z', mk, TXT, d);
    } else {
      forall d ensures d in RRset(z', mk, TXT) <==> d in RRset(z, mk, TXT) {
        InRRset(z', mk, TXT, d);
        InRRset(z, mk, TXT, d);
        if TypeOf(d) == TXT {
          if NewData(cfg, e, RR(mk, d)) { NewDataIsData(cfg, e, RR(mk, d)); }
          CreateEffect(cfg, cached, Creating(e), e, z, RR(mk, d));
        }
      }
    }
  }

  lemma CreatedHas(cfg: Config, cached: seq<Record>, e: Endpoint, z: Zone)
    requires Created(cfg, cached, Creating(e), e, z)
    ensures OwnerOf(e).Some? && DataType(e.recordType).Some?
  {
  }

  lemma NewDataIsData(cfg: Config, e: Endpoint, rr: RR)
    requires NewData(cfg, e, rr)
    ensures IsData(TypeOf(rr.data))
  {
    hide RecordsOf, Wire, IsOwnerName;
    var r :| r in RecordsOf(cfg, e) && RecordRR(r) == Some(rr);
    RecordsShareKey(cfg, e, r);
  }

  // ----- update pairs ----------------------------------------------------------

  /** The pair leaves data under its old key, unless there was none: it adds some there, or does not
      list all that there is. */
  ghost predicate KeepsOldSide(cfg: Config, z: Zone, old_: Endpoint, new_: Endpoint) {
    RecordsOf(cfg, old_) != [] && DataType(old_.recordType).Some? ==>
      || !HasData(z, NormalizeName(old_.dnsName), DataType(old_.recordType).value)
      || !ListsAll(cfg, z, old_)
      || (RecordsOf(cfg, new_) != [] && ServerKey(old_) == ServerKey(new_))
  }

  /** The pair adds data only where there is data or a marker already. */
  ghost predicate KnowsNewSide(cfg: Config, z: Zone, new_: Endpoint) {
    RecordsOf(cfg, new_) != [] && DataType(new_.recordType).Some? ==>
      || HasData(z, NormalizeName(new_.dnsName), DataType(new_.recordType).value)
      || Marked(z, NormalizeName(new_.dnsName), DataType(new_.recordType).value)
  }

  /** An accepted update pair makes no new unmarked data and no new orphan marker exactly when it leaves
      data under its old key and adds data only where there is data or a marker. An empty new side or a
      renaming one breaks the pairing whenever the old side lists everything. */
  lemma UpdatePairsIff(cfg: Config, cached: seq<Record>, old_: Endpoint, new_: Endpoint, z: Zone)
    requires OwnerOf(old_).Some? && Sent(cfg, cached, Updating(old_, new_)).Some?
    requires Accepts(z, Sent(cfg, cached, Updating(old_, new_)).value)
    ensures NoWorse(z, Serve(z, Sent(cfg, cached, Updating(old_, new_)).value))
            <==> KeepsOldSide(cfg, z, old_, new_) && KnowsNewSide(cfg, z, new_)
  {
    hide Intents, CanSend, Packed, OwnerOf, RecordsOf, DataType, NormalizeName, Wire, HasData, Marked, ListsAll,
         Accepts, NoWorse, KeepsOldSide, KnowsNewSide;
    var z' := Serve(z, Sent(cfg, cached, Updating(old_, new_)).value);
    if KeepsOldSide(cfg, z, old_, new_) && KnowsNewSide(cfg, z, new_) {
      forall name, t | IsData(t) && IsOwnerName(Wire(name))
        ensures HasData(z', name, t) && !Marked(z', name, t) ==> HasData(z, name, t) && !Marked(z, name, t)
        ensures Marked(z', name, t) && !HasData(z', name, t) ==> Marked(z, name, t) && !HasData(z, name, t)
      {
        PairKeeps(cfg, cached, old_, new_, z, name, t);
      }
      NoWorseByKey(z, z');
    } else if !KeepsOldSide(cfg, z, old_, new_) {
      OldSideLost(cfg, cached, old_, new_, z);
    } else {
      NewSideUnknown(cfg, cached, old_, new_, z);
    }
  }

  lemma NoWorseByKey(z: Zone, z': Zone)
    requires forall name, t | IsData(t) && IsOwnerName(Wire(name)) ::
               && (HasData(z', name, t) && !Marked(z', name, t) ==> HasData(z, name, t) && !Marked(z, name, t))
               && (Marked(z', name, t) && !HasData(z', name, t) ==> Marked(z, name, t) && !HasData(z, name, t))
    ensures NoWorse(z, z')
  {
    hide HasData, Marked, IsOwnerName, Wire;
  }

  /** What an accepted pair does to any record of the zone. */
  lemma PairEffect(cfg: Config, cached: seq<Record>, old_: Endpoint, new_: Endpoint, z: Zone, rr: RR)
    requires OwnerOf(old_).Some? && Sent(cfg, cached, Updating(old_, new_)).Some?
    requires Accepts(z, Sent(cfg, cached, Updating(old_, new_)).value)
    ensures Look(Serve(z, Sent(cfg, cached, Updating(old_, new_)).value), rr) ==
            if NewData(cfg, new_, rr) then Some(ClampTTL(cfg, new_.recordTTL))
            else if NewData(cfg, old_, rr) then None else Look(z, rr)
  {
    hide Intents, CanSend, Packed, OwnerOf, RecordsOf, NewData, Accepts, ClampTTL;
    OnlyPair(cfg, cached, old_, new_);
    var it := Replace(OwnerOf(old_).value, RecordsOf(cfg, old_), RecordsOf(cfg, new_));
    PairVerdict(cfg, old_, new_, it, rr);
    EditsDecide(z, Packed([it]).edits, rr);
  }

  /** The data after an accepted pair, and that no marker is touched. */
  lemma PairSets(cfg: Config, cached: seq<Record>, old_: Endpoint, new_: Endpoint, z: Zone, name: string, t: RType)
    requires OwnerOf(old_).Some? && Sent(cfg, cached, Updating(old_, new_)).Some?
    requires Accepts(z, Sent(cfg, cached, Updating(old_, new_)).value) && IsData(t)
    ensures var z' := Serve(z, Sent(cfg, cached, Updating(old_, new_)).value);
            && (Marked(z', name, t) <==> Marked(z, name, t))
            && (forall d :: d in RRset(z', Wire(name), t) <==>
                  || (TypeOf(d) == t && NewData(cfg, new_, RR(Wire(name), d)))
                  || (d in RRset(z, Wire(name), t) && !NewData(cfg, old_, RR(Wire(name), d))))
  {
    hide Sent, OwnerOf, RecordsOf, NewData, Accepts, ClampTTL, Serve, Wire, MarkerWire, OwnedData, RRset;
    var z' := Serve(z, Sent(cfg, cached, Updating(old_, new_)).value);
    forall d ensures d in RRset(z', MarkerWire(t, name), TXT) <==> d in RRset(z, MarkerWire(t, name), TXT) {
      var rr := RR(MarkerWire(t, name), d);
      InRRset(z', rr.name, TXT, d);
      InRRset(z, rr.name, TXT, d);
      PairEffect(cfg, cached, old_, new_, z, rr);
      if NewData(cfg, new_, rr) { NewDataIsData(cfg, new_, rr); }
      if NewData(cfg, old_, rr) { NewDataIsData(cfg, old_, rr); }
    }
    forall d ensures d in RRset(z', Wire(name), t) <==>
                       || (TypeOf(d) == t && NewData(cfg, new_, RR(Wire(name), d)))
                       || (d in RRset(z, Wire(name), t) && !NewData(cfg, old_, RR(Wire(name), d)))
    {
      InRRset(z', Wire(name), t, d);
      InRRset(z, Wire(name), t, d);
      PairEffect(cfg, cached, old_, new_, z, RR(Wire(name), d));
    }
  }

  /** New data of an endpoint sits under the endpoint's key. */
  lemma NewDataAt(cfg: Config, e: Endpoint, rr: RR)
    requires NewData(cfg, e, rr)
    ensures RecordsOf(cfg, e) != [] && ServerKey(e) == (rr.name, Some(TypeOf(rr.data)))
  {
    hide RecordsOf, NormalizeName, Wire, DataType, IsOwnerName;
    var r :| r in RecordsOf(cfg, e) && RecordRR(r) == Some(rr);
    RecordsShareKey(cfg, e, r);
  }

  /** Keys that are one on the server are marked alike. */
  lemma SameOnServer(z: Zone, a: string, b: string, t: RType)
    requires Wire(a) == Wire(b)
    ensures HasData(z, a, t) == HasData(z, b, t) && Marked(z, a, t) == Marked(z, b, t)
  {
    hide Wire, OwnershipNameFor, OwnedData, RRset;
    MarkerByWire(t, a, b);
  }

  /** A sent record of the pair has its resource record. */
  lemma SentData(cfg: Config, cached: seq<Record>, old_: Endpoint, new_: Endpoint, e: Endpoint) returns (rr: RR)
    requires OwnerOf(old_).Some? && Sent(cfg, cached, Updating(old_, new_)).Some?
    requires (e == old_ || e == new_) && RecordsOf(cfg, e) != []
    ensures NewData(cfg, e, rr) && IsOwnerName(rr.name)
  {
    hide Intents, CanSend, Packed, OwnerOf, RecordsOf, IsOwnerName, Wire, ParseData, OwnershipNameFor,
         EncodeOwnership;
    OnlyPair(cfg, cached, old_, new_);
    var it := Replace(OwnerOf(old_).value, RecordsOf(cfg, old_), RecordsOf(cfg, new_));
    var r := RecordsOf(cfg, e)[0];
    ReplaceHas(it, r);
    EditOf([it], it, if e == old_ then Delete(r) else Add(r));
    rr := RecordRR(r).value;
  }

  lemma PairKeeps(cfg: Config, cached: seq<Record>, old_: Endpoint, new_: Endpoint, z: Zone, name: string, t: RType)
    requires OwnerOf(old_).Some? && Sent(cfg, cached, Updating(old_, new_)).Some?
    requires Accepts(z, Sent(cfg, cached, Updating(old_, new_)).value) && IsData(t)
    requires KeepsOldSide(cfg, z, old_, new_) && KnowsNewSide(cfg, z, new_)
    ensures var z' := Serve(z, Sent(cfg, cached, Updating(old_, new_)).value);
            && (HasData(z', name, t) && !Marked(z', name, t) ==> HasData(z, name, t) && !Marked(z, name, t))
            && (Marked(z', name, t) && !HasData(z', name, t) ==> Marked(z, name, t) && !HasData(z, name, t))
  {
    hide Sent, OwnerOf, RecordsOf, NewData, Accepts, Serve, Wire, MarkerWire, Marked, DataType, NormalizeName, RRset;
    var z', w := Serve(z, Sent(cfg, cached, Updating(old_, new_)).value), Wire(name);
    PairSets(cfg, cached, old_, new_, z, name, t);
    if HasData(z', name, t) && !HasData(z, name, t) {
      var d :| d in RRset(z', w, t);
      NewDataAt(cfg, new_, RR(w, d));
      SameOnServer(z, NormalizeName(new_.dnsName), name, t);
    }
    if HasData(z, name, t) && !HasData(z', name, t) {
      var d :| d in RRset(z, w, t);
      InRRset(z, w, t, d);
      assert d !in RRset(z', w, t);
      NewDataAt(cfg, old_, RR(w, d));
      SameOnServer(z, NormalizeName(old_.dnsName), name, t);
      assert ListsAll(cfg, z, old_) by { AllOldListed(cfg, z, z', old_, w, t); }
      var rr := SentData(cfg, cached, old_, new_, new_);
      NewDataAt(cfg, new_, rr);
    }
  }

  lemma AllOldListed(cfg: Config, z: Zone, z': Zone, e: Endpoint, w: string, t: RType)
    requires ServerKey(e) == (w, Some(t)) && RRset(z', w, t) == {}
    requires forall d :: d in RRset(z, w, t) && !NewData(cfg, e, RR(w, d)) ==> d in RRset(z', w, t)
    ensures ListsAll(cfg, z, e)
  {
    hide RecordsOf, Wire, DataType, NormalizeName, RRset, RecordRR;
    forall d | d in RRset(z, w, t) ensures exists r :: r in RecordsOf(cfg, e) && RecordRR(r) == Some(RR(w, d)) {
      assert NewData(cfg, e, RR(w, d));
    }
  }

  lemma OldSideLost(cfg: Config, cached: seq<Record>, old_: Endpoint, new_: Endpoint, z: Zone)
    requires OwnerOf(old_).Some? && Sent(cfg, cached, Updating(old_, new_)).Some?
    requires Accepts(z, Sent(cfg, cached, Updating(old_, new_)).value) && !KeepsOldSide(cfg, z, old_, new_)
    ensures !NoWorse(z, Serve(z, Sent(cfg, cached, Updating(old_, new_)).value))
  {
    hide Sent, OwnerOf, RecordsOf, NewData, Accepts, Serve, Wire, MarkerWire, Marked, DataType, NormalizeName, RRset,
         IsOwnerName, ListsAll;
    var z' := Serve(z, Sent(cfg, cached, Updating(old_, new_)).value);
    var name, t := NormalizeName(old_.dnsName), DataType(old_.recordType).value;
    PairSets(cfg, cached, old_, new_, z, name, t);
    var rr := SentData(cfg, cached, old_, new_, old_);
    NewDataAt(cfg, old_, rr);
    assert !HasData(z', name, t) by {
      if d :| d in RRset(z', Wire(name), t) {
        if NewData(cfg, new_, RR(Wire(name), d)) {
          NewDataAt(cfg, new_, RR(Wire(name), d));
        }
        ListedIsOld(cfg, z, old_, d);
      }
    }
    OldMarked(cfg, cached, old_, new_, z);
  }

  lemma ListedIsOld(cfg: Config, z: Zone, e: Endpoint, d: RData)
    requires ListsAll(cfg, z, e) && DataType(e.recordType).Some?
    ensures var w := Wire(NormalizeName(e.dnsName));
            d in RRset(z, w, DataType(e.recordType).value) ==> NewData(cfg, e, RR(w, d))
  {
    hide RecordsOf, Wire, DataType, NormalizeName, RRset, RecordRR;
  }

  /** An accepted pair with old records finds its marker. */
  lemma OldMarked(cfg: Config, cached: seq<Record>, old_: Endpoint, new_: Endpoint, z: Zone)
    requires OwnerOf(old_).Some? && Sent(cfg, cached, Updating(old_, new_)).Some?
    requires Accepts(z, Sent(cfg, cached, Updating(old_, new_)).value) && RecordsOf(cfg, old_) != []
    ensures DataType(old_.recordType).Some? && Marked(z, NormalizeName(old_.dnsName), DataType(old_.recordType).value)
  {
    hide Intents, CanSend, Packed, OwnerOf, RecordsOf, Accepts, Wire, DataType, NormalizeName, RRset,
         OwnershipNameFor, EncodeOwnership, OwnerText, OwnedData, PrereqGuard;
    OnlyPair(cfg, cached, old_, new_);
    var o := OwnerOf(old_).value;
    var it := Replace(o, RecordsOf(cfg, old_), RecordsOf(cfg, new_));
    var r := it.olds[0];
    RecordsShareKey(cfg, old_, r);
    assert OwnedGuards(o, it.olds)[0] == OwnedGuard(o, r);
    GuardOf([it], it, OwnedGuard(o, r));
    OwnedGuardBuilt(o, r);
    OwnerTextOwned(o);
    var rr := RR(MarkerWire(r.rtype, r.name), OwnerText(o));
    DemandedIsThere(z, Packed([it]), rr);
    assert OwnerText(o) in RRset(z, MarkerWire(r.rtype, r.name), TXT);
  }

  lemma NewSideUnknown(cfg: Config, cached: seq<Record>, old_: Endpoint, new_: Endpoint, z: Zone)
    requires OwnerOf(old_).Some? && Sent(cfg, cached, Updating(old_, new_)).Some?
    requires Accepts(z, Sent(cfg, cached, Updating(old_, new_)).value) && !KnowsNewSide(cfg, z, new_)
    ensures !NoWorse(z, Serve(z, Sent(cfg, cached, Updating(old_, new_)).value))
  {
    hide Sent, OwnerOf, RecordsOf, NewData, Accepts, Serve, Wire, MarkerWire, Marked, DataType, NormalizeName, RRset,
         IsOwnerName;
    var z' := Serve(z, Sent(cfg, cached, Updating(old_, new_)).value);
    var name, t := NormalizeName(new_.dnsName), DataType(new_.recordType).value;
    PairSets(cfg, cached, old_, new_, z, name, t);
    var rr := SentData(cfg, cached, old_, new_, new_);
    NewDataAt(cfg, new_, rr);
    assert rr == RR(Wire(name), rr.data);
    assert rr.data in RRset(z', Wire(name), t);
  }
}

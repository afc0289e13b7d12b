/** Data/marker pairing for whole batches and whole runs. */
module PairingRuns {
  import opened Text
  import opened Records
  import opened Ownership
  import opened Endpoints
  import opened Cache
  import opened DnsServer
  import opened Update
  import opened ChangeSets
  import opened Protocol
  import opened Axfr
  import opened Pairing

  function ServerKey(e: Endpoint): (string, Option<RType>) {
    (Wire(NormalizeName(e.dnsName)), DataType(e.recordType))
  }

  /** No record set is created, updated and deleted by the same batch. */
  predicate Separate(b: Batch) {
    && (forall e, f :: e in b.creates && f in b.updOld ==> ServerKey(e) != ServerKey(f))
    && (forall e, f :: e in b.creates && f in b.dels ==> ServerKey(e) != ServerKey(f))
    && (forall e, f :: e in b.updOld && f in b.dels ==> ServerKey(e) != ServerKey(f))
  }

  /** An update pair that keeps its key and has records on both sides. */
  predicate Steady(cfg: Config, old_: Endpoint, new_: Endpoint) {
    OwnerOf(old_).Some? ==>
        RecordsOf(cfg, old_) != [] && RecordsOf(cfg, new_) != [] && ServerKey(old_) == ServerKey(new_)
  }

  /** The endpoint lists every record the zone has under its key. */
  ghost predicate ListsAll(cfg: Config, z: Zone, e: Endpoint) {
    DataType(e.recordType).Some? ==>
      forall d :: d in RRset(z, Wire(NormalizeName(e.dnsName)), DataType(e.recordType).value)
        ==> exists r :: r in RecordsOf(cfg, e) && RecordRR(r) == Some(RR(Wire(NormalizeName(e.dnsName)), d))
  }

  /** Every marker in the cache is still in the zone; the rest of the cache may be stale. */
  ghost predicate MarkersReal(z: Zone, cached: seq<Record>) {
    forall r :: r in cached && IsMarker(r) ==> exists rr :: rr in z && RrToRecord(rr, z[rr]) == Some(r)
  }

  ghost predicate GoodStep(z: Zone, s: Step) {
    && WellPaired(s.batch) && Separate(s.batch) && MarkersReal(z, s.cached)
    && (forall i :: 0 <= i < |s.batch.updOld| ==> Steady(s.cfg, s.batch.updOld[i], s.batch.updNew[i]))
    && (forall e :: e in s.batch.dels && OwnerOf(e).Some? ==> ListsAll(s.cfg, z, e))
  }

  /** A cache equal to the zone has only real markers. */
  lemma SnapshotMarkersReal(z: Zone, cached: seq<Record>)
    requires Snapshot(cached, z)
    ensures MarkersReal(z, cached)
  {
    hide RrToRecord;
    forall r | r in cached && IsMarker(r) ensures exists rr :: rr in z && RrToRecord(rr, z[rr]) == Some(r) {
      SnapshotExact(cached, z, r);
    }
  }

  /** An orphan the builder relies on is a marker of the zone. */
  lemma OrphanIsMarked(z: Zone, cached: seq<Record>, name: string, t: RType)
    requires Legal(z) && MarkersReal(z, cached) && IsOrphan(cached, OwnershipNameFor(t, name))
    ensures Marked(z, name, t)
  {
    hide NormalizeName, OwnershipNameFor, DecodeOwnershipName, DecodeOwnership, Orphaned, Wire, IsOwnerName, RRset,
         RrToRecord, TrimDot, Lower, Legal;
    assert forall x :: x in z ==> IsOwnerName(x.name) by { LegalNames(z); }
    var m := OwnershipNameFor(t, name);
    var r :| r in cached && IsMarker(r) && NormalizeName(r.name) == m;
    var rr :| rr in z && RrToRecord(rr, z[rr]) == Some(r);
    ShownMarker(rr, z[rr], r);
    MarkerListed(rr, t, name);
    InRRset(z, rr.name, TXT, rr.data);
  }

  lemma LegalNames(z: Zone)
    requires Legal(z)
    ensures forall rr :: rr in z ==> IsOwnerName(rr.name)
  {
  }

  /** Only ownership TXT data is shown as a marker. */
  lemma ShownMarker(rr: RR, ttl: int, r: Record)
    requires RrToRecord(rr, ttl) == Some(r) && IsMarker(r)
    ensures OwnedData(rr.data) && r.name == TrimDot(Lower(rr.name))
  {
    hide DecodeOwnership, Concat;
  }

  /** A record listed under a marker's name sits at the marker's server-side key. */
  lemma MarkerListed(rr: RR, t: RType, name: string)
    requires IsOwnerName(rr.name) && NormalizeName(TrimDot(Lower(rr.name))) == OwnershipNameFor(t, name)
    ensures rr.name == MarkerWire(t, name)
  {
    hide NormalizeName, IsOwnerName, Wire;
    var m := OwnershipNameFor(t, name);
    MarkerShape(t, name);
    ListedName(rr, m);
    SettledWire(m);
  }

  // ----- the intents of a good batch -------------------------------------------

  lemma IntentProper(z: Zone, s: Step, it: Intent)
    requires GoodStep(z, s) && it in Intents(s.cfg, s.cached, s.batch)
    ensures Proper(it)
  {
    hide Collision, IsOrphan, OwnershipNameFor, RecordsOf, OwnerOf, DataType, NormalizeName, Wire, ListsAll,
         MarkersReal, Intents;
    var b, cfg := s.batch, s.cfg;
    IntentJustified(cfg, s.cached, b, it);
    match it {
      case Create(o, r, _) =>
        var e :| e in b.creates && OwnerOf(e) == Some(o) && r in RecordsOf(cfg, e);
        RecordsShareKey(cfg, e, r);
      case Replace(o, olds, news) =>
        var i :| 0 <= i < |b.updOld| && OwnerOf(b.updOld[i]) == Some(o)
                 && olds == RecordsOf(cfg, b.updOld[i]) && news == RecordsOf(cfg, b.updNew[i]);
        assert Steady(cfg, b.updOld[i], b.updNew[i]);
        forall r | r in DataRecords(it)
          ensures IsData(r.rtype) && (Wire(r.name), Some(r.rtype)) == ServerKey(b.updOld[i])
        {
          if r in olds { RecordsShareKey(cfg, b.updOld[i], r); } else { RecordsShareKey(cfg, b.updNew[i], r); }
        }
      case Drop(o, r) =>
        var e :| e in b.dels && OwnerOf(e) == Some(o) && r in RecordsOf(cfg, e);
        RecordsShareKey(cfg, e, r);
    }
  }

  /** The endpoint of the batch that put an intent on a key. */
  lemma EndpointOnKey(z: Zone, s: Step, it: Intent, name: string, t: RType) returns (e: Endpoint)
    requires GoodStep(z, s) && it in Intents(s.cfg, s.cached, s.batch) && OnKey(it, name, t)
    ensures ServerKey(e) == (Wire(name), Some(t))
    ensures it.Create? ==> e in s.batch.creates
    ensures it.Replace? ==> e in s.batch.updOld
    ensures it.Drop? ==> e in s.batch.dels && OwnerOf(e) == Some(it.owner)
  {
    hide Collision, IsOrphan, OwnershipNameFor, RecordsOf, OwnerOf, DataType, NormalizeName, Wire, ListsAll,
         MarkersReal, Intents, Separate;
    var b, cfg := s.batch, s.cfg;
    IntentJustified(cfg, s.cached, b, it);
    var q :| q in DataRecords(it) && AtKey(q, name, t);
    match it {
      case Create(o, r, _) =>
        e :| e in b.creates && OwnerOf(e) == Some(o) && r in RecordsOf(cfg, e);
        RecordsShareKey(cfg, e, r);
      case Replace(o, olds, news) =>
        var i :| 0 <= i < |b.updOld| && OwnerOf(b.updOld[i]) == Some(o)
                 && olds == RecordsOf(cfg, b.updOld[i]) && news == RecordsOf(cfg, b.updNew[i]);
        assert Steady(cfg, b.updOld[i], b.updNew[i]);
        e := b.updOld[i];
        if q in olds { RecordsShareKey(cfg, e, q); } else { RecordsShareKey(cfg, b.updNew[i], q); }
      case Drop(o, r) =>
        e :| e in b.dels && OwnerOf(e) == Some(o) && r in RecordsOf(cfg, e);
        RecordsShareKey(cfg, e, r);
    }
  }

  lemma SameKind(z: Zone, s: Step, a: Intent, x: Intent, name: string, t: RType)
    requires GoodStep(z, s) && a in Intents(s.cfg, s.cached, s.batch) && x in Intents(s.cfg, s.cached, s.batch)
    requires OnKey(a, name, t) && OnKey(x, name, t)
    ensures a.Create? == x.Create? && a.Replace? == x.Replace?
  {
    hide ServerKey, OnKey, Intents, ListsAll, MarkersReal, OwnerOf, Steady;
    var e := EndpointOnKey(z, s, a, name, t);
    var f := EndpointOnKey(z, s, x, name, t);
  }

  // ----- one step --------------------------------------------------------------

  /** After an accepted good step a record set is either as it was, or it and its marker are
      both there, or both gone. */
  lemma StepPairs(z: Zone, s: Step, name: string, t: RType)
    requires Legal(z) && GoodStep(z, s) && IsData(t) && IsOwnerName(Wire(name))
    requires Sent(s.cfg, s.cached, s.batch).Some? && Accepts(z, Sent(s.cfg, s.cached, s.batch).value)
    ensures var z' := Serve(z, Sent(s.cfg, s.cached, s.batch).value);
            || (HasData(z', name, t) && Marked(z', name, t))
            || (!HasData(z', name, t) && !Marked(z', name, t))
            || (HasData(z', name, t) == HasData(z, name, t) && Marked(z', name, t) == Marked(z, name, t))
  {
    hide Wire, IsOwnerName, CanSend, Packed, HasData, Marked, OnKey, Proper, Intents, Accepts, GoodStep;
    GoodIsPaired(z, s);
    var intents := Intents(s.cfg, s.cached, s.batch);
    var edits := Packed(intents).edits;
    forall it | it in intents ensures Proper(it) { IntentProper(z, s, it); }
    if exists it :: it in intents && OnKey(it, name, t) {
      var it :| it in intents && OnKey(it, name, t);
      forall x | x in intents && OnKey(x, name, t) ensures it.Create? == x.Create? && it.Replace? == x.Replace? {
        SameKind(z, s, it, x, name, t);
      }
      if it.Drop? {
        DropWhole(z, s, it, name, t);
        NothingAfterDrop(intents, z, it, name, t);
      } else {
        DataAfterwards(intents, name, t);
        EndsInPut(z, edits, Wire(name), t);
        DataByRRset(ApplyEdits(z, edits), name, t);
        if it.Create? {
          OrphanMarked(z, s, it, name, t);
          MarkerAfterCreate(intents, z, it, name, t);
        } else {
          MarkerAfterReplace(intents, z, it, name, t);
        }
      }
    } else {
      KeyUntouched(intents, z, name, t);
    }
  }

  lemma DataByRRset(z: Zone, name: string, t: RType)
    requires RRset(z, Wire(name), t) != {}
    ensures HasData(z, name, t)
  {
  }

  lemma OrphanMarked(z: Zone, s: Step, it: Intent, name: string, t: RType)
    requires Legal(z) && GoodStep(z, s) && it in Intents(s.cfg, s.cached, s.batch) && it.Create? && OnKey(it, name, t)
    ensures AtKey(it.rec, name, t)
    ensures it.orphan ==> Marked(z, name, t)
  {
    hide Collision, IsOrphan, OwnershipNameFor, RecordsOf, OwnerOf, NormalizeName, Wire, ListsAll, MarkersReal,
         Intents, Separate, Steady, Legal, OwnedData, RRset;
    IntentJustified(s.cfg, s.cached, s.batch, it);
    if it.orphan {
      OrphanIsMarked(z, s.cached, it.rec.name, it.rec.rtype);
      MarkerByWire(t, it.rec.name, name);
    }
  }

  /** A drop on a key brings along a drop for every record the zone has there. */
  lemma DropWhole(z: Zone, s: Step, it: Intent, name: string, t: RType)
    requires GoodStep(z, s) && it in Intents(s.cfg, s.cached, s.batch) && it.Drop? && OnKey(it, name, t)
    ensures forall d :: d in RRset(z, Wire(name), t) ==>
              exists x :: x in Intents(s.cfg, s.cached, s.batch) && x.Drop?
                          && RecordRR(x.rec) == Some(RR(Wire(name), d))
  {
    hide RecordsOf, NormalizeName, Wire, MarkersReal, Intents, Separate, Steady, RRset, RecordRR, DataType, OnKey;
    var e := EndpointOnKey(z, s, it, name, t);
    assert ListsAll(s.cfg, z, e);
    forall d | d in RRset(z, Wire(name), t)
      ensures exists x :: x in Intents(s.cfg, s.cached, s.batch) && x.Drop?
                && RecordRR(x.rec) == Some(RR(Wire(name), d))
    {
      var r :| r in RecordsOf(s.cfg, e) && RecordRR(r) == Some(RR(Wire(NormalizeName(e.dnsName)), d));
      DropPresent(s.cfg, s.cached, s.batch, e, r);
      assert Drop(OwnerOf(e).value, r).rec == r;
    }
  }

  /** Messages only add legal owner names. */
  lemma LegalKept(z: Zone, s: Step)
    requires Legal(z) && WellPaired(s.batch)
    ensures Legal(After(z, s))
  {
    hide IsOwnerName, CanSend, Packed, Intents, Accepts, Ops, ParseData;
    var m := Sent(s.cfg, s.cached, s.batch);
    var z' := After(z, s);
    if s.delivered && m.Some? && Accepts(z, m.value) {
      forall rr | rr in z' ensures IsOwnerName(rr.name) {
        EditsDecide(z, m.value.edits, rr);
        VerdictKind(m.value.edits, rr);
        if Verdict(m.value.edits, rr).Some? {
          var it, c := OriginOfEdit(Intents(s.cfg, s.cached, s.batch), Put(rr, z'[rr]));
        } else {
          assert Look(z, rr) == Look(z', rr);
        }
      }
    }
  }

  /** One good step makes no new unmarked data and no new orphan marker. */
  lemma PairedStep(z: Zone, s: Step)
    requires Legal(z) && GoodStep(z, s)
    ensures Legal(After(z, s)) && NoWorse(z, After(z, s))
  {
    hide Wire, IsOwnerName, HasData, Marked, GoodStep, Legal, Accepts, CanSend, Packed, Intents;
    assert WellPaired(s.batch) by { GoodIsPaired(z, s); }
    LegalKept(z, s);
    forall name, t | IsData(t) && IsOwnerName(Wire(name))
      ensures var z' := After(z, s);
              && (HasData(z', name, t) && !Marked(z', name, t) ==> HasData(z, name, t) && !Marked(z, name, t))
              && (Marked(z', name, t) && !HasData(z', name, t) ==> Marked(z, name, t) && !HasData(z, name, t))
    {
      var m := Sent(s.cfg, s.cached, s.batch);
      if s.delivered && m.Some? && Accepts(z, m.value) {
        StepPairs(z, s, name, t);
      }
    }
  }

  lemma GoodIsPaired(z: Zone, s: Step)
    requires GoodStep(z, s)
    ensures WellPaired(s.batch)
  {
  }

  /** Every step of the run is good for the zone it meets. */
  ghost predicate GoodRun(z: Zone, steps: seq<Step>) {
    AllPaired(steps) && forall i :: 0 <= i < |steps| ==> GoodStep(Run(z, steps[..i]), steps[i])
  }

  /** Pairing over whole runs: the sets of unmarked data and of orphan markers never grow. */
  lemma {:induction false} PairingOverRuns(z: Zone, steps: seq<Step>)
    requires Legal(z) && GoodRun(z, steps)
    ensures Legal(Run(z, steps)) && NoWorse(z, Run(z, steps))
  {
    hide GoodStep, Legal, HasData, Marked, IsOwnerName, Wire, After;
    if steps != [] {
      var n := |steps| - 1;
      assert forall i :: 0 <= i < n ==> steps[..n][..i] == steps[..i];
      PairingOverRuns(z, steps[..n]);
      PairedStep(Run(z, steps[..n]), steps[n]);
    }
  }

  /** A create that is accepted leaves its record set with data and with a marker, its own owner's
      unless it relied on an orphan. */
  lemma CreatedIsPaired(z: Zone, s: Step, it: Intent)
    requires Legal(z) && GoodStep(z, s) && it in Intents(s.cfg, s.cached, s.batch) && it.Create?
    requires Sent(s.cfg, s.cached, s.batch).Some? && Accepts(z, Sent(s.cfg, s.cached, s.batch).value)
    requires IsOwnerName(Wire(it.rec.name))
    ensures var z' := Serve(z, Sent(s.cfg, s.cached, s.batch).value);
            && HasData(z', it.rec.name, it.rec.rtype) && Marked(z', it.rec.name, it.rec.rtype)
            && (!it.orphan ==> OwnerText(it.owner) in RRset(z', MarkerWire(it.rec.rtype, it.rec.name), TXT))
  {
    hide Wire, IsOwnerName, CanSend, Packed, HasData, Marked, Proper, Intents, Accepts, GoodStep;
    GoodIsPaired(z, s);
    var intents := Intents(s.cfg, s.cached, s.batch);
    var name, t := it.rec.name, it.rec.rtype;
    forall x | x in intents ensures Proper(x) { IntentProper(z, s, x); }
    assert it.rec in DataRecords(it) && AtKey(it.rec, name, t);
    assert OnKey(it, name, t);
    assert IsData(t) by { ProperData(it); }
    forall x | x in intents && OnKey(x, name, t) ensures x.Create? {
      SameKind(z, s, it, x, name, t);
    }
    DataAfterwards(intents, name, t);
    EndsInPut(z, Packed(intents).edits, Wire(name), t);
    DataByRRset(ApplyEdits(z, Packed(intents).edits), name, t);
    OrphanMarked(z, s, it, name, t);
    MarkerAfterCreate(intents, z, it, name, t);
  }

  lemma ProperData(it: Intent)
    requires Proper(it) && it.Create?
    ensures IsData(it.rec.rtype)
  {
    assert it.rec in DataRecords(it);
  }
}

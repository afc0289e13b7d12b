/** Data and marker go together: well-formed batches never leave data without a marker
    or a marker without data that was not already so. */
module Pairing {
  import opened Text
  import opened Records
  import opened Ownership
  import opened DnsServer
  import opened Update
  import opened ChangeSets
  import opened Protocol
  import opened Axfr

  ghost predicate HasData(z: Zone, name: string, t: RType) {
    RRset(z, Wire(name), t) != {}
  }

  /** Some TXT at the marker's name reads as an ownership marker. */
  ghost predicate Marked(z: Zone, name: string, t: RType) {
    exists d :: d in RRset(z, MarkerWire(t, name), TXT) && OwnedData(d)
  }

  /** Every unmarked record set and every orphan marker of z' was one in z already. */
  ghost predicate NoWorse(z: Zone, z': Zone) {
    forall name, t | IsData(t) && IsOwnerName(Wire(name)) ::
      && (HasData(z', name, t) && !Marked(z', name, t) ==> HasData(z, name, t) && !Marked(z, name, t))
      && (Marked(z', name, t) && !HasData(z', name, t) ==> Marked(z, name, t) && !HasData(z, name, t))
  }

  // ----- the last edit of a record set -----------------------------------------

  /** Whether the last edit inside (name, t) is an addition; none if it is never edited. */
  function SetVerdict(edits: seq<Edit>, name: string, t: RType): Option<bool> {
    if edits == [] then None
    else
      var last := edits[|edits| - 1];
      if InSet(last.rr, name, t) then Some(last.Put?)
      else SetVerdict(edits[..|edits| - 1], name, t)
  }

  lemma {:induction false} EndsInPut(z: Zone, edits: seq<Edit>, name: string, t: RType)
    ensures SetVerdict(edits, name, t) == Some(true) ==> RRset(ApplyEdits(z, edits), name, t) != {}
  {
    if edits != [] {
      var n := |edits| - 1;
      var before := ApplyEdits(z, edits[..n]);
      if InSet(edits[n].rr, name, t) {
        InRRset(ApplyEdits(z, edits), name, t, edits[n].rr.data);
      } else {
        EndsInPut(z, edits[..n], name, t);
        QuietRRset(before, [edits[n]], name, t);
        assert ApplyEdits(before, [edits[n]]) == ApplyEdits(z, edits) by {
          assert [edits[n]][..0] == [];
          assert ApplyEdits(before, []) == before;
        }
      }
    }
  }

  lemma {:induction false} SetVerdictConcat(a: seq<Edit>, b: seq<Edit>, name: string, t: RType)
    ensures SetVerdict(a + b, name, t) == if SetVerdict(b, name, t).Some? then SetVerdict(b, name, t)
            else SetVerdict(a, name, t)
  {
    if b == [] {
      assert a + b == a;
    } else {
      assert (a + b)[..|a + b| - 1] == a + b[..|b| - 1];
      SetVerdictConcat(a, b[..|b| - 1], name, t);
    }
  }

  lemma {:induction false} SetVerdictNone(edits: seq<Edit>, name: string, t: RType)
    requires forall e :: e in edits ==> !InSet(e.rr, name, t)
    ensures SetVerdict(edits, name, t) == None
  {
    if edits != [] {
      SetVerdictNone(edits[..|edits| - 1], name, t);
    }
  }

  /** Additions alone never lose data. */
  lemma OnlyPuts(z: Zone, edits: seq<Edit>, name: string, t: RType, d: RData)
    requires forall e :: e in edits && InSet(e.rr, name, t) ==> e.Put?
    requires TypeOf(d) == t && (d in RRset(z, name, t) || exists e :: e in edits && e.rr == RR(name, d))
    ensures d in RRset(ApplyEdits(z, edits), name, t)
  {
    var rr := RR(name, d);
    assert InSet(rr, name, t);
    VerdictKind(edits, rr);
    Untouched(edits, rr);
    EditsDecide(z, edits, rr);
    InRRset(z, name, t, d);
    InRRset(ApplyEdits(z, edits), name, t, d);
  }

  /** Removals alone never add data, and what they name is gone. */
  lemma OnlyRemoves(z: Zone, edits: seq<Edit>, name: string, t: RType, d: RData)
    requires forall e :: e in edits && InSet(e.rr, name, t) ==> e.Remove?
    ensures d in RRset(ApplyEdits(z, edits), name, t) ==> d in RRset(z, name, t) && Remove(RR(name, d)) !in edits
  {
    var rr := RR(name, d);
    InRRset(ApplyEdits(z, edits), name, t, d);
    InRRset(z, name, t, d);
    if RR(name, d) in ApplyEdits(z, edits) && TypeOf(d) == t {
      assert InSet(rr, name, t);
      VerdictKind(edits, rr);
      Untouched(edits, rr);
      EditsDecide(z, edits, rr);
    }
  }

  // ----- intents on a key ------------------------------------------------------

  function DataRecords(it: Intent): seq<Record> {
    match it
    case Create(_, r, _) => [r]
    case Replace(_, olds, news) => olds + news
    case Drop(_, r) => [r]
  }

  predicate AtKey(r: Record, name: string, t: RType) {
    Wire(r.name) == Wire(name) && r.rtype == t
  }

  predicate OnKey(it: Intent, name: string, t: RType) {
    exists r :: r in DataRecords(it) && AtKey(r, name, t)
  }

  /** The records of an intent are data records, and an update keeps one key and adds something. */
  predicate Proper(it: Intent) {
    && (forall r :: r in DataRecords(it) ==> IsData(r.rtype))
    && (it.Replace? ==>
          && it.olds != [] && it.news != []
          && forall r, s :: r in DataRecords(it) && s in DataRecords(it) ==> AtKey(r, s.name, s.rtype))
  }

  predicate Fit(intents: seq<Intent>) {
    CanSend(intents) && forall it :: it in intents ==> Proper(it)
  }

  /** An edit in a record set or at its marker comes from an intent on that key. */
  lemma KeyOfEdit(intents: seq<Intent>, e: Edit, name: string, t: RType) returns (it: Intent, c: Change)
    requires Fit(intents) && IsData(t) && IsOwnerName(Wire(name)) && e in Packed(intents).edits
    requires InSet(e.rr, Wire(name), t) || InSet(e.rr, MarkerWire(t, name), TXT)
    ensures it in intents && c in Ops(it).changes && ChangeEdit(c) == Some(e) && OnKey(it, name, t)
    ensures it.Replace? ==> !InSet(e.rr, MarkerWire(t, name), TXT)
    ensures it.Create? ==> e.Put?
    ensures it.Drop? ==> e.Remove?
  {
    hide Wire, MarkerWire, OwnershipNameFor, EncodeOwnership, IsOwnerName, Packed, CanSend, ParseData;
    it, c := OriginOfEdit(intents, e);
    assert e.rr.name == Wire(c.rec.name) && TypeOf(e.rr.data) == c.rec.rtype;
    if it.Replace? {
      ReplaceChange(it, c);
      assert AtKey(c.rec, name, t);
    } else {
      var r := it.rec;
      assert r in DataRecords(it) && IsData(r.rtype);
      if c.rec != r {
        assert c.rec.name == OwnershipNameFor(r.rtype, r.name) && c.rec.rtype == TXT;
        var first := if it.Create? then Add(r) else Delete(r);
        EditOf(intents, it, first);
        assert MarkerWire(r.rtype, r.name) == MarkerWire(t, name) by { UnfoldMarker(r.rtype, r.name); UnfoldMarker(t,
          name); }
        MarkerWireInjective(r.rtype, r.name, t, name);
      }
      assert AtKey(r, name, t);
    }
  }

  lemma UnfoldMarker(t: RType, name: string)
    ensures MarkerWire(t, name) == Wire(OwnershipNameFor(t, name))
  {
  }

  lemma ReplaceChange(it: Intent, c: Change)
    requires it.Replace? && c in Ops(it).changes
    ensures c.rec in DataRecords(it)
    ensures c.Add? ==> c.rec in it.news
  {
    hide OwnershipNameFor, EncodeOwnership;
    if c in Deletes(it.olds) {
      assert c.rec in it.olds;
    } else {
      assert c in Adds(it.news);
      assert c.rec in it.news;
    }
  }

  /** No intent on the key: nothing about it changes. */
  lemma KeyUntouched(intents: seq<Intent>, z: Zone, name: string, t: RType)
    requires Fit(intents) && IsData(t) && IsOwnerName(Wire(name))
    requires forall it :: it in intents ==> !OnKey(it, name, t)
    ensures var z' := ApplyEdits(z, Packed(intents).edits);
            (HasData(z', name, t) <==> HasData(z, name, t)) && (Marked(z', name, t) <==> Marked(z, name, t))
  {
    hide Wire, MarkerWire, IsOwnerName, Packed, CanSend, RRset, OnKey, Proper;
    var edits := Packed(intents).edits;
    forall e | e in edits ensures !InSet(e.rr, Wire(name), t) && !InSet(e.rr, MarkerWire(t, name), TXT) {
      if InSet(e.rr, Wire(name), t) || InSet(e.rr, MarkerWire(t, name), TXT) {
        var it, c := KeyOfEdit(intents, e, name, t);
      }
    }
    QuietRRset(z, edits, Wire(name), t);
    QuietRRset(z, edits, MarkerWire(t, name), TXT);
  }

  /** Creates and updates on the key: data is there afterwards. */
  lemma {:induction false} DataAfterwards(intents: seq<Intent>, name: string, t: RType)
    requires Fit(intents) && IsData(t) && IsOwnerName(Wire(name))
    requires forall it :: it in intents && OnKey(it, name, t) ==> !it.Drop?
    requires exists it :: it in intents && OnKey(it, name, t)
    ensures SetVerdict(Packed(intents).edits, Wire(name), t) == Some(true)
  {
    hide Wire, IsOwnerName, Packed, CanSend, OnKey, Proper, InSet;
    var n := |intents| - 1;
    var last := intents[n];
    assert intents == intents[..n] + [last];
    EditsConcat(intents[..n], [last]);
    SetVerdictConcat(Packed(intents[..n]).edits, Packed([last]).edits, Wire(name), t);
    if OnKey(last, name, t) {
      LastAdds(last, name, t);
    } else {
      forall e | e in Packed([last]).edits ensures !InSet(e.rr, Wire(name), t) {
        if InSet(e.rr, Wire(name), t) {
          var it, c := KeyOfEdit([last], e, name, t);
        }
      }
      SetVerdictNone(Packed([last]).edits, Wire(name), t);
      DataAfterwards(intents[..n], name, t);
    }
  }

  /** The message for one intent has one edit per change, in order. */
  lemma EditsOfOne(it: Intent)
    requires CanSend([it])
    ensures |Packed([it]).edits| == |Ops(it).changes|
    ensures forall i :: 0 <= i < |Ops(it).changes| ==> ChangeEdit(Ops(it).changes[i]) == Some(Packed([it]).edits[i])
  {
    hide Ops, ChangeEdit, PrereqGuard;
    CompileSnoc([], it);
    assert [] + [it] == [it];
    assert Join(Compile([]), Ops(it)) == Ops(it);
  }

  /** The edit that adds a record falls into the record's set. */
  lemma AddEdit(r: Record, e: Edit)
    requires ChangeEdit(Add(r)) == Some(e)
    ensures e.Put? && InSet(e.rr, Wire(r.name), r.rtype)
  {
    hide Wire, IsOwnerName;
  }

  /** The last thing a create or an update does inside its record set is to add. */
  lemma LastAdds(it: Intent, name: string, t: RType)
    requires CanSend([it]) && Proper(it) && OnKey(it, name, t) && !it.Drop? && IsData(t)
    ensures SetVerdict(Packed([it]).edits, Wire(name), t) == Some(true)
  {
    hide Wire, OwnershipNameFor, MarkerRecord, ChangeEdit, CanSend, Packed;
    EditsOfOne(it);
    var edits, changes := Packed([it]).edits, Ops(it).changes;
    if it.Create? {
      AddEdit(it.rec, edits[0]);
      assert edits[..1] == [edits[0]];
      assert SetVerdict(edits[..1], Wire(name), t) == Some(true);
      if |edits| == 2 {
        var marker := MarkerRecord(it.owner, it.rec, it.rec.ttl);
        assert changes[1] == Add(marker) && marker.rtype == TXT by { MarkerIsText(it.owner, it.rec, it.rec.ttl); }
        AddEdit(marker, edits[1]);
      }
    } else {
      var k := |edits| - 1;
      var r := it.news[|it.news| - 1];
      assert changes[k] == Add(r);
      AddEdit(r, edits[k]);
      var q :| q in DataRecords(it) && AtKey(q, name, t);
      assert r in DataRecords(it) && AtKey(r, q.name, q.rtype);
    }
  }

  lemma MarkerIsText(owner: string, r: Record, ttl: int)
    ensures MarkerRecord(owner, r, ttl).rtype == TXT
  {
  }

  /** Creates on the key: the marker is there afterwards, its own or the orphan it relied on. */
  lemma MarkerAfterCreate(intents: seq<Intent>, z: Zone, it: Intent, name: string, t: RType)
    requires Fit(intents) && IsData(t) && IsOwnerName(Wire(name))
    requires it in intents && it.Create? && AtKey(it.rec, name, t)
    requires forall x :: x in intents && OnKey(x, name, t) ==> x.Create?
    requires it.orphan ==> Marked(z, name, t)
    ensures Marked(ApplyEdits(z, Packed(intents).edits), name, t)
    ensures !it.orphan ==> OwnerText(it.owner) in RRset(ApplyEdits(z, Packed(intents).edits), MarkerWire(t, name), TXT)
  {
    hide Wire, OwnershipNameFor, IsOwnerName, Packed, CanSend, RRset, OnKey, Proper, ParseRR, OwnerText, OwnedData;
    var edits := Packed(intents).edits;
    var mk := MarkerWire(t, name);
    forall e | e in edits && InSet(e.rr, mk, TXT) ensures e.Put? {
      var x, c := KeyOfEdit(intents, e, name, t);
    }
    if it.orphan {
      var d :| d in RRset(z, mk, TXT) && OwnedData(d);
      InRRset(z, mk, TXT, d);
      OnlyPuts(z, edits, mk, TXT, d);
    } else {
      var r := it.rec;
      var c := Add(MarkerRecord(it.owner, r, r.ttl));
      assert c in Ops(it).changes;
      EditOf(intents, it, c);
      MarkerRecordBuilt(it.owner, r, r.ttl);
      MarkerByWire(t, r.name, name);
      OwnerTextOwned(it.owner);
      assert ChangeEdit(c).value.rr == RR(mk, OwnerText(it.owner));
      OnlyPuts(z, edits, mk, TXT, OwnerText(it.owner));
    }
  }

  lemma OwnerTextOwned(owner: string)
    ensures OwnedData(OwnerText(owner)) && TypeOf(OwnerText(owner)) == TXT
  {
    hide DecodeOwnership;
    OwnershipRoundTrip(owner);
    assert Concat([OWNED_PREFIX + owner]) == OWNED_PREFIX + owner by {
      assert Concat([OWNED_PREFIX + owner]) == (OWNED_PREFIX + owner) + Concat([]);
    }
    assert "\"" + (OWNED_PREFIX + owner) + "\"" == EncodeOwnership(owner);
  }

  /** Updates on the key: the marker was demanded and is left alone. */
  lemma MarkerAfterReplace(intents: seq<Intent>, z: Zone, it: Intent, name: string, t: RType)
    requires Fit(intents) && IsData(t) && IsOwnerName(Wire(name)) && Accepts(z, Packed(intents))
    requires it in intents && it.Replace? && OnKey(it, name, t)
    requires forall x :: x in intents && OnKey(x, name, t) ==> x.Replace?
    ensures Marked(ApplyEdits(z, Packed(intents).edits), name, t)
  {
    hide Wire, OwnershipNameFor, IsOwnerName, Packed, CanSend, RRset, OnKey, ParseRR, OwnerText, OwnedData,
         PrereqGuard, Demanded;
    var edits := Packed(intents).edits;
    var mk := MarkerWire(t, name);
    forall e | e in edits ensures !InSet(e.rr, mk, TXT) {
      if InSet(e.rr, mk, TXT) {
        var x, c := KeyOfEdit(intents, e, name, t);
      }
    }
    QuietRRset(z, edits, mk, TXT);
    var r := it.olds[0];
    ReplaceAtKey(it, r, name, t);
    var p := OwnedGuards(it.owner, it.olds)[0];
    assert p in Ops(it).prereqs && p == OwnedGuard(it.owner, r);
    GuardOf(intents, it, p);
    OwnedGuardBuilt(it.owner, r);
    MarkerByWire(t, r.name, name);
    OwnerTextOwned(it.owner);
    DemandedIsThere(z, Packed(intents), RR(mk, OwnerText(it.owner)));
  }

  lemma ReplaceAtKey(it: Intent, r: Record, name: string, t: RType)
    requires it.Replace? && Proper(it) && OnKey(it, name, t) && r in DataRecords(it)
    ensures AtKey(r, name, t)
  {
    var q :| q in DataRecords(it) && AtKey(q, name, t);
    assert AtKey(r, q.name, q.rtype);
  }

  lemma DemandedIsThere(z: Zone, m: Message, rr: RR)
    requires Accepts(z, m) && Present(rr) in m.guards
    ensures rr.data in RRset(z, rr.name, TypeOf(rr.data))
    ensures RRset(z, rr.name, TypeOf(rr.data)) == Demanded(m.guards, rr.name, TypeOf(rr.data))
  {
    assert GuardHolds(z, m.guards, Present(rr));
    assert InSet(Present(rr).rr, rr.name, TypeOf(rr.data));
  }

  /** Drops on the key that name all of its data: neither data nor marker is left. */
  lemma NothingAfterDrop(intents: seq<Intent>, z: Zone, it: Intent, name: string, t: RType)
    requires Fit(intents) && IsData(t) && IsOwnerName(Wire(name)) && Accepts(z, Packed(intents))
    requires it in intents && it.Drop? && OnKey(it, name, t)
    requires forall x :: x in intents && OnKey(x, name, t) ==> x.Drop?
    requires forall d :: d in RRset(z, Wire(name), t) ==>
               exists x :: x in intents && x.Drop? && RecordRR(x.rec) == Some(RR(Wire(name), d))
    ensures !HasData(ApplyEdits(z, Packed(intents).edits), name, t)
    ensures !Marked(ApplyEdits(z, Packed(intents).edits), name, t)
  {
    hide Wire, MarkerWire, IsOwnerName, Packed, CanSend, RRset, OnKey, Proper, ParseRR, OwnedData, Demanded;
    var edits := Packed(intents).edits;
    var z' := ApplyEdits(z, edits);
    var mk := MarkerWire(t, name);
    forall e | e in edits && (InSet(e.rr, Wire(name), t) || InSet(e.rr, mk, TXT)) ensures e.Remove? {
      var x, c := KeyOfEdit(intents, e, name, t);
    }
    forall d | d in RRset(z', Wire(name), t) ensures false {
      OnlyRemoves(z, edits, Wire(name), t, d);
      var x :| x in intents && x.Drop? && RecordRR(x.rec) == Some(RR(Wire(name), d));
      EditOf(intents, x, Delete(x.rec));
    }
    forall d | d in RRset(z', mk, TXT) ensures false {
      OnlyRemoves(z, edits, mk, TXT, d);
      MarkerDropped(intents, z, it, name, t, d);
    }
  }

  /** Whatever the zone has at the marker was demanded by a drop, which removes it. */
  lemma MarkerDropped(intents: seq<Intent>, z: Zone, it: Intent, name: string, t: RType, d: RData)
    requires Fit(intents) && IsData(t) && IsOwnerName(Wire(name)) && Accepts(z, Packed(intents))
    requires it in intents && it.Drop? && OnKey(it, name, t)
    requires forall x :: x in intents && OnKey(x, name, t) ==> x.Drop?
    requires d in RRset(z, MarkerWire(t, name), TXT)
    ensures Remove(RR(MarkerWire(t, name), d)) in Packed(intents).edits
  {
    hide Wire, OwnershipNameFor, IsOwnerName, Packed, CanSend, RRset, ParseRR, OwnerText, PrereqGuard;
    var mk := MarkerWire(t, name);
    var r := it.rec;
    assert AtKey(r, name, t);
    MarkerByWire(t, r.name, name);
    GuardOf(intents, it, OwnedGuard(it.owner, r));
    OwnedGuardBuilt(it.owner, r);
    OwnerTextOwned(it.owner);
    DemandedIsThere(z, Packed(intents), RR(mk, OwnerText(it.owner)));
    var g :| g in Packed(intents).guards && g.Present? && InSet(g.rr, mk, TXT) && g.rr.data == d;
    var x, p := OriginOfGuard(intents, g);
    var owner, s := KeyOfGuard(intents, x, p, name, t);
    var c := Delete(MarkerRecord(x.owner, x.rec, 0));
    assert c in Ops(x).changes;
    EditOf(intents, x, c);
    MarkerRecordBuilt(x.owner, x.rec, 0);
    OwnedGuardBuilt(x.owner, x.rec);
    assert ChangeEdit(c).value == Remove(g.rr);
  }

  /** An ownership demand at the key's marker comes from an intent on the key; here, a drop. */
  lemma KeyOfGuard(intents: seq<Intent>, x: Intent, p: Prereq, name: string, t: RType) returns (owner: string,
                   s: Record)
    requires Fit(intents) && IsData(t) && IsOwnerName(Wire(name)) && x in intents && p in Ops(x).prereqs
    requires PrereqGuard(p).Some? && PrereqGuard(p).value.Present?
               && PrereqGuard(p).value.rr.name == MarkerWire(t, name)
    requires forall x :: x in intents && OnKey(x, name, t) ==> x.Drop?
    ensures x.Drop? && owner == x.owner && s == x.rec && p == OwnedGuard(owner, s)
  {
    hide Wire, OwnershipNameFor, EncodeOwnership, IsOwnerName, CanSend, ParseData, OwnerText;
    owner := x.owner;
    assert !x.Create?;
    if x.Replace? {
      var i :| 0 <= i < |x.olds| && OwnedGuards(x.owner, x.olds)[i] == p;
      s := x.olds[i];
      var c := Deletes(x.olds)[i];
      assert c in Ops(x).changes;
      EditOf(intents, x, c);
      assert s in DataRecords(x);
    } else {
      s := x.rec;
      EditOf(intents, x, Delete(s));
      assert s in DataRecords(x);
    }
    MarkerWireInjective(s.rtype, s.name, t, name);
    assert AtKey(s, name, t);
  }
}

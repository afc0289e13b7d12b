/** Exactly when an update pair respects other owners: the prerequisites it carries guard
    the old name and type only. */
module IsolationLimits {
  import opened Text
  import opened Records
  import opened Ownership
  import opened Endpoints
  import opened DnsServer
  import opened Update
  import opened ChangeSets
  import opened Protocol
  import opened Isolation
  import opened Pairing

  /** A batch with one update pair. */
  function Updating(old_: Endpoint, new_: Endpoint): Batch {
    Batch([], [old_], [new_], [])
  }

  /** Nothing that `owner` holds anywhere changes, whatever the zone. */
  ghost predicate Respects(m: Message, owner: string) {
    forall z, name, t | IsData(t) && IsOwnerName(Wire(name)) && Holds(z, name, t, owner) :: Kept(z, Serve(z, m), name,
      t)
  }

  /** An update pair leaves every other owner's records alone exactly when it is guarded: its old
      side has records and its new side keeps their name and type. */
  lemma PairRespectsIff(cfg: Config, cached: seq<Record>, old_: Endpoint, new_: Endpoint, owner: string)
    requires OwnerOf(old_).Some? && OwnerOf(old_).value != owner && Sent(cfg, cached, Updating(old_, new_)).Some?
    ensures Respects(Sent(cfg, cached, Updating(old_, new_)).value, owner) <==> Guarded(cfg, old_, new_)
  {
    hide Holds, Kept, Accepts, Intents, CanSend, Packed, Wire, IsOwnerName, OwnerOf, RecordsOf, DataType;
    var b := Updating(old_, new_);
    var m := Sent(cfg, cached, b).value;
    if Guarded(cfg, old_, new_) {
      assert Foreign(cfg, b, owner);
      forall z, name, t | IsData(t) && IsOwnerName(Wire(name)) && Holds(z, name, t, owner)
        ensures Kept(z, Serve(z, m), name, t)
      {
        IsolatedStep(z, Step(cfg, cached, b, true), name, t, owner);
      }
    } else {
      Trespass(cfg, cached, old_, new_, owner);
    }
  }

  /** An unguarded pair is accepted by a zone where `owner` holds the new name, and writes there. */
  lemma Trespass(cfg: Config, cached: seq<Record>, old_: Endpoint, new_: Endpoint, owner: string)
    requires OwnerOf(old_).Some? && OwnerOf(old_).value != owner && Sent(cfg, cached, Updating(old_, new_)).Some?
    requires !Guarded(cfg, old_, new_)
    ensures !Respects(Sent(cfg, cached, Updating(old_, new_)).value, owner)
  {
    hide Accepts, CanSend, Packed, OwnerOf, RecordsOf, DataType, Wire, IsOwnerName, Intents, MarkerWire, OwnerText,
         Kept, Holds, NormalizeName;
    var o, olds, news := OwnerOf(old_).value, RecordsOf(cfg, old_), RecordsOf(cfg, new_);
    var it := Replace(o, olds, news);
    var m := Sent(cfg, cached, Updating(old_, new_)).value;
    OnlyPair(cfg, cached, old_, new_);
    var r := news[0];
    assert r in news;
    RecordsShareKey(cfg, new_, r);
    var rr := LastPut(cfg, new_, it, r);
    var marker := RR(MarkerWire(r.rtype, r.name), OwnerText(owner));
    var z: Zone := map[rr := r.ttl + 1, marker := 0];
    OwnerTextIsTxt(owner);
    if olds != [] {
      var oldMarker := OldMarker(cfg, old_, new_, it, r);
      z := z[oldMarker := 0];
      OwnerTextIsTxt(o);
      MarkerSets(z, rr, marker, oldMarker);
      OneGuardAccepted(z, m, oldMarker);
    } else {
      assert m.guards == [] by { NoOldsNoGuards(it); }
      assert Accepts(z, m) by { NoGuards(z, m); }
      MarkerSets(z, rr, marker, marker);
    }
    HoldsThere(z, rr, r, owner);
    EditsDecide(z, m.edits, rr);
    Changed(z, Serve(z, m), rr, r);
  }

  lemma OnlyPair(cfg: Config, cached: seq<Record>, old_: Endpoint, new_: Endpoint)
    requires OwnerOf(old_).Some?
    ensures Intents(cfg, cached, Updating(old_, new_)) == [Replace(OwnerOf(old_).value, RecordsOf(cfg, old_),
            RecordsOf(cfg, new_))]
  {
    hide OwnerOf, RecordsOf;
    assert [old_][..0] == [] && [new_][..0] == [];
    assert AllReplaces(cfg, [old_], [new_]) == [] + PairReplace(cfg, old_, new_);
  }

  lemma SoloOps(it: Intent)
    ensures Compile([it]) == Ops(it)
  {
    hide Ops;
    CompileSnoc([], it);
    assert [] + [it] == [it];
  }

  /** The last edit of a new record adds it with the endpoint's TTL. */
  lemma LastPut(cfg: Config, new_: Endpoint, it: Intent, r: Record) returns (rr: RR)
    requires it.Replace? && CanSend([it]) && it.news == RecordsOf(cfg, new_) && r in it.news
    ensures RecordRR(r) == Some(rr) && InSet(rr, Wire(r.name), r.rtype) && IsOwnerName(Wire(r.name))
    ensures Verdict(Packed([it]).edits, rr) == Some(Some(r.ttl))
  {
    hide RecordsOf, RecordRR, IsOwnerName, Wire, CanSend, Packed, Verdict, InSet;
    NewsLast(it);
    var edits := Packed([it]).edits;
    var k := |it.olds|;
    var puts := edits[k..];
    var i :| 0 <= i < |it.news| && it.news[i] == r;
    rr := RecordRR(r).value;
    assert IsOwnerName(Wire(r.name)) && InSet(rr, Wire(r.name), r.rtype) by { ParsedIsLegal(r); }
    assert puts[i] == Put(rr, r.ttl);
    RecordsShareKey(cfg, new_, r);
    forall x | x in puts ensures x.Put? && x.ttl == r.ttl {
      var j :| 0 <= j < |puts| && puts[j] == x;
      RecordsShareKey(cfg, new_, it.news[j]);
    }
    VerdictKind(puts, rr);
    assert edits == edits[..k] + puts;
    VerdictOfConcat(edits[..k], puts, rr);
  }

  lemma ParsedIsLegal(r: Record)
    requires RecordRR(r).Some?
    ensures IsOwnerName(Wire(r.name)) && InSet(RecordRR(r).value, Wire(r.name), r.rtype)
  {
    hide IsOwnerName, Wire, ParseData;
  }

  /** An update's additions come after its removals, in order. */
  lemma NewsLast(it: Intent)
    requires it.Replace? && CanSend([it])
    ensures |Packed([it]).edits| == |it.olds| + |it.news|
    ensures forall j :: 0 <= j < |it.news| ==>
              RecordRR(it.news[j]).Some?
              && Packed([it]).edits[|it.olds| + j] == Put(RecordRR(it.news[j]).value, it.news[j].ttl)
  {
    hide OwnedGuard, ParseRR, CanSend, Packed;
    EditsOfOne(it);
    var edits, changes := Packed([it]).edits, Ops(it).changes;
    forall j | 0 <= j < |it.news|
      ensures RecordRR(it.news[j]).Some? && edits[|it.olds| + j] == Put(RecordRR(it.news[j]).value, it.news[j].ttl)
    {
      assert changes[|it.olds| + j] == Add(it.news[j]);
    }
  }

  /** All guards of the pair demand the old marker, which is not the new one. */
  lemma OldMarker(cfg: Config, old_: Endpoint, new_: Endpoint, it: Intent, r: Record) returns (marker: RR)
    requires OwnerOf(old_) == Some(it.owner) && it == Replace(it.owner, RecordsOf(cfg, old_), RecordsOf(cfg, new_))
             && CanSend([it])
    requires it.olds != [] && r in it.news && !Guarded(cfg, old_, new_)
    ensures marker.data == OwnerText(it.owner) && marker.name != MarkerWire(r.rtype, r.name)
    ensures forall g :: g in Packed([it]).guards ==> g == Present(marker)
  {
    hide RecordsOf, OwnershipNameFor, EncodeOwnership, ParseData, IsOwnerName, Wire, Compile, OwnerText, OwnerOf,
         DataType, NormalizeName, CanSend, Packed;
    var s := it.olds[0];
    assert s in it.olds;
    RecordsShareKey(cfg, old_, s);
    RecordsShareKey(cfg, new_, r);
    marker := RR(MarkerWire(s.rtype, s.name), OwnerText(it.owner));
    assert Deletes(it.olds)[0] == Delete(s) && Deletes(it.olds)[0] in Ops(it).changes;
    EditOf([it], it, Delete(s));
    var i :| 0 <= i < |it.news| && it.news[i] == r;
    assert Adds(it.news)[i] == Add(r) && Adds(it.news)[i] in Ops(it).changes;
    EditOf([it], it, Add(r));
    if MarkerWire(s.rtype, s.name) == MarkerWire(r.rtype, r.name) {
      MarkerWireInjective(s.rtype, s.name, r.rtype, r.name);
    }
    forall g | g in Packed([it]).guards ensures g == Present(marker) {
      var x, p := OriginOfGuard([it], g);
      var j :| 0 <= j < |it.olds| && OwnedGuards(it.owner, it.olds)[j] == p;
      assert it.olds[j] in it.olds;
      RecordsShareKey(cfg, old_, it.olds[j]);
      OwnedGuardBuilt(it.owner, it.olds[j]);
    }
  }

  lemma NoOldsNoGuards(it: Intent)
    requires it.Replace? && it.olds == [] && CanSend([it])
    ensures Packed([it]).guards == []
  {
    hide OwnershipNameFor, EncodeOwnership;
    SoloOps(it);
  }

  lemma NoGuards(z: Zone, m: Message)
    requires m.guards == []
    ensures Accepts(z, m)
  {
  }

  /** The TXT record sets of a zone made of one data record and two markers. */
  lemma MarkerSets(z: Zone, rr: RR, m1: RR, m2: RR)
    requires z.Keys == {rr, m1, m2} && !TypeOf(rr.data).TXT? && TypeOf(m1.data).TXT? && TypeOf(m2.data).TXT?
    requires m1.name != m2.name || m1 == m2
    ensures RRset(z, m1.name, TXT) == {m1.data} && RRset(z, m2.name, TXT) == {m2.data}
  {
    forall d ensures d in RRset(z, m1.name, TXT) <==> d == m1.data { InRRset(z, m1.name, TXT, d); }
    forall d ensures d in RRset(z, m2.name, TXT) <==> d == m2.data { InRRset(z, m2.name, TXT, d); }
  }

  lemma HoldsThere(z: Zone, rr: RR, r: Record, owner: string)
    requires rr in z && InSet(rr, Wire(r.name), r.rtype)
    requires RRset(z, MarkerWire(r.rtype, r.name), TXT) == {OwnerText(owner)}
    ensures Holds(z, r.name, r.rtype, owner)
  {
    hide Wire, MarkerWire, OwnerText;
    InRRset(z, Wire(r.name), r.rtype, rr.data);
    assert rr == RR(rr.name, rr.data);
  }

  lemma Changed(z: Zone, z': Zone, rr: RR, r: Record)
    requires InSet(rr, Wire(r.name), r.rtype) && Look(z', rr) != Look(z, rr)
    ensures !Kept(z, z', r.name, r.rtype)
  {
    hide Wire, MarkerWire;
  }
}

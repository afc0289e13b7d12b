/** Replay safety: after an ambiguous failure the same change set may be sent again,
    to the same server or to another one holding the same zone. */
module Replay {
  import opened Text
  import opened Records
  import opened Ownership
  import opened Endpoints
  import opened Cache
  import opened DnsServer
  import opened Update
  import opened ChangeSets
  import opened Protocol

  /** A second delivery is either refused or changes nothing. */
  lemma ResendHarmless(z: Zone, m: Message)
    ensures Serve(Serve(z, m), m) == Serve(z, m)
  {
    EditsIdempotent(z, m.edits);
  }

  /** The zone after a failover walk in which some of the sends reached a server. */
  ghost function AfterSends(z: Zone, m: Message, reached: seq<bool>): Zone {
    if reached == [] then z
    else
      var before := AfterSends(z, m, reached[..|reached| - 1]);
      if reached[|reached| - 1] then Serve(before, m) else before
  }

  /** However often a change set is sent, and whichever sends arrive, it takes effect at most once. */
  lemma {:induction false} AtMostOnce(z: Zone, m: Message, reached: seq<bool>)
    ensures AfterSends(z, m, reached) == if true in reached then Serve(z, m) else z
  {
    if reached != [] {
      var n := |reached| - 1;
      AtMostOnce(z, m, reached[..n]);
      assert reached == reached[..n] + [reached[n]];
      ResendHarmless(z, m);
    }
  }

  /** A batch that really deletes something is refused the second time: its marker is gone. */
  lemma DeleteRefusedTwice(cfg: Config, cached: seq<Record>, b: Batch, z: Zone, e: Endpoint)
    requires WellPaired(b) && Sent(cfg, cached, b).Some? && Accepts(z, Sent(cfg, cached, b).value)
    requires e in b.dels && OwnerOf(e).Some? && RecordsOf(cfg, e) != []
    ensures !Accepts(Serve(z, Sent(cfg, cached, b).value), Sent(cfg, cached, b).value)
  {
    hide AllCreates, AllReplaces, RecordsOf, OwnerOf, MarkerWire, OwnershipNameFor, OwnerText, CanSend, Packed,
         PrereqGuard, ChangeEdit, ParseRR;
    var r := RecordsOf(cfg, e)[0];
    var intents := Intents(cfg, cached, b);
    var m := Packed(intents);
    var it := Drop(OwnerOf(e).value, r);
    DropPresent(cfg, cached, b, e, r);
    var marker := RR(MarkerWire(r.rtype, r.name), OwnerText(it.owner));
    GuardOf(intents, it, OwnedGuard(it.owner, r));
    OwnedGuardBuilt(it.owner, r);
    DropsDecide(AllCreates(cfg, cached, b.creates) + AllReplaces(cfg, b.updOld, b.updNew), cfg, b.dels, e, r);
    EditsDecide(z, m.edits, marker);
    GuardMissing(Serve(z, m), m, marker);
  }

  /** The drops come last, so a marker they remove stays removed. */
  lemma DropsDecide(before: seq<Intent>, cfg: Config, dels: seq<Endpoint>, e: Endpoint, r: Record)
    requires CanSend(before + AllDrops(cfg, dels))
    requires e in dels && OwnerOf(e).Some? && r in RecordsOf(cfg, e)
    ensures Verdict(Packed(before + AllDrops(cfg, dels)).edits,
                    RR(MarkerWire(r.rtype, r.name), OwnerText(OwnerOf(e).value))) == Some(None)
  {
    hide RecordsOf, OwnerOf, MarkerWire, OwnershipNameFor, OwnerText, CanSend, Packed, PrereqGuard, ParseRR,
         AllDrops;
    var drops := AllDrops(cfg, dels);
    var it := Drop(OwnerOf(e).value, r);
    EditsConcat(before, drops);
    DropPresent(cfg, [], Batch([], [], [], dels), e, r);
    assert it in drops by { assert AllCreates(cfg, [], []) + AllReplaces(cfg, [], []) + drops == drops; }
    var marker := RR(MarkerWire(r.rtype, r.name), OwnerText(it.owner));
    var gone := Delete(MarkerRecord(it.owner, r, 0));
    EditOf(drops, it, gone);
    MarkerRecordBuilt(it.owner, r, 0);
    assert ChangeEdit(gone).value == Remove(marker);
    forall x | x in Packed(drops).edits ensures x.Remove? {
      var it', c := OriginOfEdit(drops, x);
      AllDropsExact(cfg, dels, it');
    }
    VerdictKind(Packed(drops).edits, marker);
    VerdictOfConcat(Packed(before).edits, Packed(drops).edits, marker);
  }

  lemma GuardMissing(z: Zone, m: Message, rr: RR)
    requires Present(rr) in m.guards && rr !in z
    ensures !Accepts(z, m)
  {
    var t := TypeOf(rr.data);
    assert InSet(rr, rr.name, t);
    assert rr.data in Demanded(m.guards, rr.name, t);
    InRRset(z, rr.name, t, rr.data);
    assert !GuardHolds(z, m.guards, Present(rr));
  }

  /** A batch of creates alone that changed anything is refused the second time: the data is there. */
  lemma CreatesRefusedTwice(cfg: Config, cached: seq<Record>, b: Batch, z: Zone)
    requires WellPaired(b) && b.updOld == [] && b.dels == [] && Planned(cfg, cached, b).changes != []
    requires Sent(cfg, cached, b).Some? && Accepts(z, Sent(cfg, cached, b).value)
    ensures !Accepts(Serve(z, Sent(cfg, cached, b).value), Sent(cfg, cached, b).value)
  {
    hide AllCreates, OwnershipNameFor, EncodeOwnership, CanSend, Packed, ParseRR, Collision, IsOrphan, RRset,
         Justified, ApplyEdits, Verdict, Wire;
    var intents := Intents(cfg, cached, b);
    var m := Packed(intents);
    assert intents == AllCreates(cfg, cached, b.creates);
    assert intents[0] in intents;
    CreateJustified(cfg, cached, b, intents[0]);
    var r := intents[0].rec;
    GuardOf(intents, intents[0], NxRRset(r.name, r.rtype));
    EditOf(intents, intents[0], Add(r));
    var rr := RecordRR(r).value;
    assert rr == RR(Wire(r.name), rr.data) && TypeOf(rr.data) == r.rtype;
    forall x | x in m.edits ensures x.Put? {
      var it, c := OriginOfEdit(intents, x);
      CreateJustified(cfg, cached, b, it);
    }
    VerdictKind(m.edits, rr);
    EditsDecide(z, m.edits, rr);
    InRRset(Serve(z, m), Wire(r.name), r.rtype, rr.data);
    assert !GuardHolds(Serve(z, m), m.guards, Absent(Wire(r.name), r.rtype));
  }

  /** A batch of updates alone is accepted again and changes nothing more. */
  lemma UpdatesAcceptedTwice(cfg: Config, cached: seq<Record>, b: Batch, z: Zone)
    requires WellPaired(b) && b.creates == [] && b.dels == []
    requires Sent(cfg, cached, b).Some? && Accepts(z, Sent(cfg, cached, b).value)
    ensures Accepts(Serve(z, Sent(cfg, cached, b).value), Sent(cfg, cached, b).value)
    ensures Serve(Serve(z, Sent(cfg, cached, b).value), Sent(cfg, cached, b).value)
            == Serve(z, Sent(cfg, cached, b).value)
  {
    hide AllReplaces, OwnershipNameFor, CanSend, Packed, ParseRR, RRset, Ops;
    var intents := Intents(cfg, cached, b);
    var m := Packed(intents);
    assert intents == AllReplaces(cfg, b.updOld, b.updNew);
    forall x | x in m.edits ensures !TypeOf(x.rr.data).TXT? {
      var it, c := OriginOfEdit(intents, x);
      ReplaceOps(cfg, b, it);
    }
    forall g | g in m.guards ensures GuardHolds(Serve(z, m), m.guards, g) {
      var it, p := OriginOfGuard(intents, g);
      ReplaceOps(cfg, b, it);
      assert g.Present? && TypeOf(g.rr.data).TXT?;
      QuietRRset(z, m.edits, g.rr.name, TXT);
      assert GuardHolds(z, m.guards, g);
    }
    ResendHarmless(z, m);
  }

  lemma ReplaceOps(cfg: Config, b: Batch, it: Intent)
    requires WellPaired(b) && it in AllReplaces(cfg, b.updOld, b.updNew)
    ensures forall p :: p in Ops(it).prereqs ==> p.YxRRset? && p.rtype.TXT?
    ensures forall c :: c in Ops(it).changes ==> IsData(c.rec.rtype)
  {
    hide RecordsOf, OwnershipNameFor, EncodeOwnership;
    AllReplacesExact(cfg, b.updOld, b.updNew, it);
    var i :| 0 <= i < |b.updOld| && it in PairReplace(cfg, b.updOld[i], b.updNew[i]);
    forall c | c in Ops(it).changes ensures IsData(c.rec.rtype) {
      if c in Deletes(it.olds) {
        RecordsShareKey(cfg, b.updOld[i], c.rec);
      } else {
        assert c in Adds(it.news);
        RecordsShareKey(cfg, b.updNew[i], c.rec);
      }
    }
  }
}

/** Ownership isolation: no run of other owners' batches, whatever their caches say,
    changes a record set that an owner holds or the marker that says so. */
module Isolation {
  import opened Text
  import opened Records
  import opened Ownership
  import opened Endpoints
  import opened Cache
  import opened DnsServer
  import opened Update
  import opened ChangeSets
  import opened Protocol

  /** `owner` holds the record set (name, t): it has data and its marker says exactly that. */
  ghost predicate Holds(z: Zone, name: string, t: RType, owner: string) {
    && RRset(z, Wire(name), t) != {}
    && RRset(z, MarkerWire(t, name), TXT) == {OwnerText(owner)}
  }

  /** Data and marker of (name, t), TTLs included, are the same in both zones. */
  ghost predicate Kept(z: Zone, z': Zone, name: string, t: RType) {
    SameRRset(z, z', Wire(name), t) && SameRRset(z, z', MarkerWire(t, name), TXT)
  }

  /** An update pair whose new records all fall under the guard of its old ones. */
  predicate Guarded(cfg: Config, old_: Endpoint, new_: Endpoint) {
    OwnerOf(old_).Some? && RecordsOf(cfg, new_) != [] ==>
      && RecordsOf(cfg, old_) != []
      && Wire(NormalizeName(old_.dnsName)) == Wire(NormalizeName(new_.dnsName))
      && DataType(old_.recordType) == DataType(new_.recordType)
  }

  /** The batch acts for other owners only, and its update pairs keep name and type. */
  predicate Foreign(cfg: Config, b: Batch, owner: string) {
    && WellPaired(b)
    && (forall e :: e in b.creates ==> OwnerOf(e) != Some(owner))
    && (forall e :: e in b.updOld ==> OwnerOf(e) != Some(owner))
    && (forall e :: e in b.dels ==> OwnerOf(e) != Some(owner))
    && (forall i :: 0 <= i < |b.updOld| ==> Guarded(cfg, b.updOld[i], b.updNew[i]))
  }

  // ----- what an intent must ask before it may touch a record set --------------

  predicate Sound(it: Intent) {
    match it
    case Create(_, r, _) => IsData(r.rtype)
    case Replace(_, olds, news) =>
      && (forall r :: r in olds ==> IsData(r.rtype))
      && (forall r :: r in news ==> IsData(r.rtype))
      && (forall r :: r in news ==> exists o :: o in olds && Wire(o.name) == Wire(r.name) && o.rtype == r.rtype)
    case Drop(_, r) => IsData(r.rtype)
  }

  lemma ForeignIntent(cfg: Config, cached: seq<Record>, b: Batch, owner: string, it: Intent)
    requires Foreign(cfg, b, owner) && it in Intents(cfg, cached, b)
    ensures Sound(it) && it.owner != owner
  {
    hide Collision, IsOrphan, OwnershipNameFor, RecordsOf, OwnerOf, DataType, NormalizeName, Wire;
    IntentJustified(cfg, cached, b, it);
    match it {
      case Create(o, r, _) =>
        var e :| e in b.creates && OwnerOf(e) == Some(o) && r in RecordsOf(cfg, e);
        RecordsShareKey(cfg, e, r);
      case Replace(o, olds, news) =>
        var i :| 0 <= i < |b.updOld| && OwnerOf(b.updOld[i]) == Some(o)
                 && olds == RecordsOf(cfg, b.updOld[i]) && news == RecordsOf(cfg, b.updNew[i]);
        assert b.updOld[i] in b.updOld && Guarded(cfg, b.updOld[i], b.updNew[i]);
        GuardedPair(cfg, b.updOld[i], b.updNew[i]);
      case Drop(o, r) =>
        var e :| e in b.dels && OwnerOf(e) == Some(o) && r in RecordsOf(cfg, e);
        RecordsShareKey(cfg, e, r);
    }
  }

  lemma GuardedPair(cfg: Config, old_: Endpoint, new_: Endpoint)
    requires Guarded(cfg, old_, new_) && OwnerOf(old_).Some?
    ensures Sound(Replace(OwnerOf(old_).value, RecordsOf(cfg, old_), RecordsOf(cfg, new_)))
  {
    hide RecordsOf, OwnerOf, DataType, NormalizeName, Wire;
    var olds, news := RecordsOf(cfg, old_), RecordsOf(cfg, new_);
    forall r | r in olds ensures IsData(r.rtype) {
      RecordsShareKey(cfg, old_, r);
    }
    forall r | r in news
      ensures IsData(r.rtype) && exists o :: o in olds && Wire(o.name) == Wire(r.name) && o.rtype == r.rtype
    {
      RecordsShareKey(cfg, new_, r);
      RecordsShareKey(cfg, old_, olds[0]);
      assert olds[0] in olds;
    }
  }

  /** A change of the intent concerns the record set (name, t) or its marker. */
  predicate Touches(c: Change, name: string, t: RType) {
    || (Wire(c.rec.name) == Wire(name) && c.rec.rtype == t)
    || (Wire(c.rec.name) == MarkerWire(t, name) && c.rec.rtype == TXT)
  }

  /** The intent asks either that (name, t) be empty or that its marker name the intent's owner. */
  ghost predicate Asks(it: Intent, p: Prereq, name: string, t: RType) {
    || (p.NxRRset? && Wire(p.name) == Wire(name) && p.rtype == t)
    || (exists r: Record :: p == OwnedGuard(it.owner, r) && MarkerWire(r.rtype, r.name) == MarkerWire(t, name))
  }

  lemma TouchIsAsked(it: Intent, c: Change, name: string, t: RType) returns (p: Prereq)
    requires Sound(it) && c in Ops(it).changes && Touches(c, name, t)
    requires IsData(t) && IsOwnerName(Wire(name))
    requires forall c' :: c' in Ops(it).changes ==> IsOwnerName(Wire(c'.rec.name))
    ensures p in Ops(it).prereqs && Asks(it, p, name, t)
  {
    hide Wire, OwnershipNameFor, EncodeOwnership, IsOwnerName, MarkerWire;
    match it {
      case Create(owner, r, orphan) =>
        p := NxRRset(r.name, r.rtype);
        assert Add(r) in Ops(it).changes;
        SameKey(it, c, r, name, t);
      case Replace(owner, olds, news) =>
        var o: Record;
        if c in Deletes(olds) {
          o := c.rec;
        } else {
          assert c.rec in news;
          o :| o in olds && Wire(o.name) == Wire(c.rec.name) && o.rtype == c.rec.rtype;
        }
        var i :| 0 <= i < |olds| && olds[i] == o;
        p := OwnedGuards(owner, olds)[i];
        assert p == OwnedGuard(owner, o);
        SameMarker(c.rec, o, name, t);
      case Drop(owner, r) =>
        p := OwnedGuard(owner, r);
        assert Delete(r) in Ops(it).changes;
        SameKey(it, c, r, name, t);
        SameMarker(r, r, name, t);
    }
  }

  /** A create or a drop that touches (name, t) or its marker is about (name, t) itself. */
  lemma SameKey(it: Intent, c: Change, r: Record, name: string, t: RType)
    requires IsData(t) && IsData(r.rtype) && IsOwnerName(Wire(name)) && IsOwnerName(Wire(r.name))
    requires c.rec == r || (c.rec.rtype == TXT && c.rec.name == OwnershipNameFor(r.rtype, r.name))
    requires Touches(c, name, t)
    ensures Wire(r.name) == Wire(name) && r.rtype == t
  {
    hide Wire, OwnershipNameFor, IsOwnerName;
    if c.rec != r {
      MarkerWireInjective(r.rtype, r.name, t, name);
    }
  }

  lemma SameMarker(r: Record, o: Record, name: string, t: RType)
    requires IsData(t) && IsData(r.rtype) && Wire(r.name) == Wire(name) && r.rtype == t
    requires Wire(o.name) == Wire(r.name) && o.rtype == r.rtype
    ensures MarkerWire(o.rtype, o.name) == MarkerWire(t, name)
  {
    hide Wire, OwnershipNameFor;
    MarkerByWire(t, o.name, name);
  }

  // ----- one step --------------------------------------------------------------

  /** What an asked prerequisite becomes in the message. */
  lemma AskedGuard(it: Intent, p: Prereq, name: string, t: RType)
    requires Asks(it, p, name, t) && PrereqGuard(p).Some?
    ensures PrereqGuard(p).value == Absent(Wire(name), t)
            || PrereqGuard(p).value == Present(RR(MarkerWire(t, name), OwnerText(it.owner)))
  {
    hide Wire, OwnershipNameFor, EncodeOwnership, IsOwnerName;
    if !(p.NxRRset? && Wire(p.name) == Wire(name) && p.rtype == t) {
      ParsedOwner(it.owner);
    }
  }

  /** A message that passes its prerequisites edits nothing of a record set another owner holds. */
  lemma ForeignEditsElsewhere(cfg: Config, cached: seq<Record>, b: Batch, z: Zone, name: string, t: RType,
                              owner: string, e: Edit)
    requires Foreign(cfg, b, owner) && IsData(t) && IsOwnerName(Wire(name))
    requires Sent(cfg, cached, b).Some? && Accepts(z, Sent(cfg, cached, b).value)
    requires Holds(z, name, t, owner) && e in Sent(cfg, cached, b).value.edits
    ensures !InSet(e.rr, Wire(name), t) && !InSet(e.rr, MarkerWire(t, name), TXT)
  {
    hide Wire, MarkerWire, IsOwnerName, Intents, Compile, Ops, ParseData, OwnerText;
    var intents := Intents(cfg, cached, b);
    var m := Packed(intents);
    if InSet(e.rr, Wire(name), t) || InSet(e.rr, MarkerWire(t, name), TXT) {
      var it, c := OriginOfEdit(intents, e);
      ForeignIntent(cfg, cached, b, owner, it);
      assert Touches(c, name, t);
      forall c' | c' in Ops(it).changes ensures IsOwnerName(Wire(c'.rec.name)) {
        EditOf(intents, it, c');
      }
      var p := TouchIsAsked(it, c, name, t);
      GuardOf(intents, it, p);
      AskedGuard(it, p, name, t);
      RefusedBy(z, m, name, t, owner, it.owner, PrereqGuard(p).value);
    }
  }

  /** A zone where `owner` holds (name, t) fails both kinds of guard. */
  lemma RefusedBy(z: Zone, m: Message, name: string, t: RType, owner: string, other: string, g: Guard)
    requires Holds(z, name, t, owner) && other != owner && g in m.guards
    requires g == Absent(Wire(name), t) || g == Present(RR(MarkerWire(t, name), OwnerText(other)))
    ensures !Accepts(z, m)
  {
    hide Wire, MarkerWire;
    assert (OWNED_PREFIX + other)[|OWNED_PREFIX|..] == other && (OWNED_PREFIX + owner)[|OWNED_PREFIX|..] == owner;
    if g.Present? {
      assert InSet(g.rr, MarkerWire(t, name), TXT);
      assert OwnerText(other) in Demanded(m.guards, MarkerWire(t, name), TXT);
    }
    assert !GuardHolds(z, m.guards, g);
  }

  /** One batch of other owners, delivered or not, with any cache. */
  lemma IsolatedStep(z: Zone, s: Step, name: string, t: RType, owner: string)
    requires Foreign(s.cfg, s.batch, owner) && IsData(t) && IsOwnerName(Wire(name))
    requires Holds(z, name, t, owner)
    ensures Kept(z, After(z, s), name, t)
    ensures Holds(After(z, s), name, t, owner)
  {
    hide Wire, MarkerWire, IsOwnerName, OwnerText, RRset, Guarded, OwnerOf;
    var m := Sent(s.cfg, s.cached, s.batch);
    if s.delivered && m.Some? && Accepts(z, m.value) {
      forall e | e in m.value.edits
        ensures !InSet(e.rr, Wire(name), t) && !InSet(e.rr, MarkerWire(t, name), TXT)
      {
        ForeignEditsElsewhere(s.cfg, s.cached, s.batch, z, name, t, owner, e);
      }
      QuietRRset(z, m.value.edits, Wire(name), t);
      QuietRRset(z, m.value.edits, MarkerWire(t, name), TXT);
    }
  }

  /** Ownership isolation over whole runs: any number of sidecars with arbitrary, possibly stale
      caches, any losses, any order. What `owner` holds is untouched as long as no batch
      carries that owner and update pairs keep name and type. */
  lemma {:induction false} IsolationOverRuns(z: Zone, steps: seq<Step>, name: string, t: RType, owner: string)
    requires AllPaired(steps) && forall i :: 0 <= i < |steps| ==> Foreign(steps[i].cfg, steps[i].batch, owner)
    requires IsData(t) && IsOwnerName(Wire(name)) && Holds(z, name, t, owner)
    ensures Kept(z, Run(z, steps), name, t)
    ensures Holds(Run(z, steps), name, t, owner)
  {
    hide Wire, MarkerWire, IsOwnerName, Foreign, Holds, After;
    if steps != [] {
      var n := |steps| - 1;
      IsolationOverRuns(z, steps[..n], name, t, owner);
      IsolatedStep(Run(z, steps[..n]), steps[n], name, t, owner);
    }
  }
}

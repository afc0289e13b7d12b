/** Sidecars and one zone: each step is one sidecar turning one batch into an UPDATE with
    whatever it has cached, and the server processing it unless it is lost. */
module Protocol {
  import opened Text
  import opened Records
  import opened Ownership
  import opened Endpoints
  import opened DnsServer
  import opened Update
  import opened ChangeSets

  /** The message a sidecar sends for a batch, if its text can be built into one. */
  ghost function Sent(cfg: Config, cached: seq<Record>, b: Batch): Option<Message>
    requires WellPaired(b)
  {
    if CanSend(Intents(cfg, cached, b)) then Some(Packed(Intents(cfg, cached, b))) else None
  }

  /** One sidecar handling one batch with whatever it has cached; the message may be lost. */
  datatype Step = Step(cfg: Config, cached: seq<Record>, batch: Batch, delivered: bool)

  ghost function After(z: Zone, s: Step): Zone
    requires WellPaired(s.batch)
  {
    var m := Sent(s.cfg, s.cached, s.batch);
    if s.delivered && m.Some? then Serve(z, m.value) else z
  }

  ghost predicate AllPaired(steps: seq<Step>) {
    forall i :: 0 <= i < |steps| ==> WellPaired(steps[i].batch)
  }

  /** The zone after any interleaving of any number of sidecars. */
  ghost function Run(z: Zone, steps: seq<Step>): Zone
    requires AllPaired(steps)
  {
    if steps == [] then z
    else After(Run(z, steps[..|steps| - 1]), steps[|steps| - 1])
  }

  function OwnerText(owner: string): RData {
    Text([OWNED_PREFIX + owner])
  }

  lemma OwnerTextIsTxt(owner: string)
    ensures TypeOf(OwnerText(owner)) == TXT
  {
  }

  /** A parsed marker value is the owner's text. */
  lemma ParsedOwner(owner: string)
    requires ParseData(TXT, EncodeOwnership(owner)).Some?
    ensures ParseData(TXT, EncodeOwnership(owner)) == Some(OwnerText(owner))
  {
    var v := EncodeOwnership(owner);
    assert v[1..|v| - 1] == OWNED_PREFIX + owner;
  }

  /** The guard an ownership prerequisite becomes. */
  lemma OwnedGuardBuilt(owner: string, r: Record)
    requires PrereqGuard(OwnedGuard(owner, r)).Some?
    ensures PrereqGuard(OwnedGuard(owner, r)).value == Present(RR(MarkerWire(r.rtype, r.name), OwnerText(owner)))
  {
    hide Wire, OwnershipNameFor, EncodeOwnership, IsOwnerName;
    ParsedOwner(owner);
  }

  /** The record a marker change is about. */
  lemma MarkerRecordBuilt(owner: string, r: Record, ttl: int)
    requires RecordRR(MarkerRecord(owner, r, ttl)).Some?
    ensures RecordRR(MarkerRecord(owner, r, ttl)).value == RR(MarkerWire(r.rtype, r.name), OwnerText(owner))
  {
    hide Wire, OwnershipNameFor, EncodeOwnership, IsOwnerName;
    ParsedOwner(owner);
  }

  // ----- from intents to guards and edits --------------------------------------

  /** The compiled intents can be built into a message. */
  predicate CanSend(intents: seq<Intent>) {
    Buildable(Compile(intents).prereqs, Compile(intents).changes)
  }

  function Packed(intents: seq<Intent>): Message
    requires CanSend(intents)
  {
    MessageOf(Compile(intents).prereqs, Compile(intents).changes)
  }

  /** A prerequisite of an intent is a guard of the message. */
  lemma GuardOf(intents: seq<Intent>, it: Intent, p: Prereq)
    requires CanSend(intents) && it in intents && p in Ops(it).prereqs
    ensures PrereqGuard(p).Some? && PrereqGuard(p).value in Packed(intents).guards
  {
    hide Ops, PrereqGuard, ChangeEdit;
    CompiledExact(intents);
    var cs := Compile(intents);
    assert p in cs.prereqs;
    GuardOrigin(cs.prereqs, cs.changes, PrereqGuard(p).value);
  }

  /** A change of an intent is an edit of the message. */
  lemma EditOf(intents: seq<Intent>, it: Intent, c: Change)
    requires CanSend(intents) && it in intents && c in Ops(it).changes
    ensures ChangeEdit(c).Some? && ChangeEdit(c).value in Packed(intents).edits
  {
    hide Ops, PrereqGuard, ChangeEdit;
    CompiledExact(intents);
    var cs := Compile(intents);
    assert c in cs.changes;
    EditOrigin(cs.prereqs, cs.changes, ChangeEdit(c).value);
  }

  /** Every edit of the message is the change of some intent. */
  lemma OriginOfEdit(intents: seq<Intent>, e: Edit) returns (it: Intent, c: Change)
    requires CanSend(intents) && e in Packed(intents).edits
    ensures it in intents && c in Ops(it).changes && ChangeEdit(c) == Some(e)
  {
    hide Ops, PrereqGuard, ChangeEdit;
    CompiledExact(intents);
    var cs := Compile(intents);
    EditOrigin(cs.prereqs, cs.changes, e);
    c :| c in cs.changes && ChangeEdit(c) == Some(e);
    it :| it in intents && c in Ops(it).changes;
  }

  /** Every guard of the message is the prerequisite of some intent. */
  lemma OriginOfGuard(intents: seq<Intent>, g: Guard) returns (it: Intent, p: Prereq)
    requires CanSend(intents) && g in Packed(intents).guards
    ensures it in intents && p in Ops(it).prereqs && PrereqGuard(p) == Some(g)
  {
    hide Ops, PrereqGuard, ChangeEdit;
    CompiledExact(intents);
    var cs := Compile(intents);
    GuardOrigin(cs.prereqs, cs.changes, g);
    p :| p in cs.prereqs && PrereqGuard(p) == Some(g);
    it :| it in intents && p in Ops(it).prereqs;
  }

  lemma JoinAssoc(x: ChangeSet, y: ChangeSet, z: ChangeSet)
    ensures Join(Join(x, y), z) == Join(x, Join(y, z))
  {
  }

  lemma {:induction false} CompileConcat(a: seq<Intent>, b: seq<Intent>)
    ensures Compile(a + b) == Join(Compile(a), Compile(b))
  {
    hide Ops;
    if b == [] {
      assert a + b == a;
    } else {
      var n := |b| - 1;
      CompileConcat(a, b[..n]);
      assert a + b == (a + b[..n]) + [b[n]];
      CompileSnoc(a + b[..n], b[n]);
      JoinAssoc(Compile(a), Compile(b[..n]), Ops(b[n]));
    }
  }

  /** The edits of two groups of intents follow each other. */
  lemma EditsConcat(a: seq<Intent>, b: seq<Intent>)
    requires CanSend(a + b)
    ensures CanSend(a) && CanSend(b)
    ensures Packed(a + b).edits == Packed(a).edits + Packed(b).edits
  {
    hide Compile, PrereqGuard, ChangeEdit;
    CompileConcat(a, b);
    var ca, cb := Compile(a), Compile(b);
    assert forall i :: 0 <= i < |ca.prereqs| ==> Compile(a + b).prereqs[i] == ca.prereqs[i];
    assert forall i :: 0 <= i < |ca.changes| ==> Compile(a + b).changes[i] == ca.changes[i];
    assert forall i :: 0 <= i < |cb.prereqs| ==> Compile(a + b).prereqs[|ca.prereqs| + i] == cb.prereqs[i];
    assert forall i :: 0 <= i < |cb.changes| ==> Compile(a + b).changes[|ca.changes| + i] == cb.changes[i];
  }
}

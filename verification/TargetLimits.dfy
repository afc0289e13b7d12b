/** Targets that `canonicalRdata` lets through and the message builder does not: one of them
    costs the whole zone its UPDATE. */
module TargetLimits {
  import opened Text
  import opened Records
  import opened Ownership
  import opened Endpoints
  import opened Cache
  import opened Update
  import opened ChangeSets
  import opened Protocol
  import opened ReadBack

  /** An MX target keeps its canonical form as soon as it has two fields; it can be built exactly when
      the first is a 16-bit number and the second a host. */
  lemma MailTargetIff(target: string)
    ensures var ps := Fields(TrimSpace(target));
            && (CanonicalRdata(MX, target) != "" <==> |ps| == 2)
            && (ParseData(MX, CanonicalRdata(MX, target)).Some? <==>
                  |ps| == 2 && IsPreference(ps[0]) && IsHost(Fqdn(Lower(ps[1]))))
  {
    hide TrimSpace, Fields, IsPreference, IsHost, StripZeros, Wire, Fqdn;
    var s := TrimSpace(target);
    var ps := Fields(s);
    FieldsOfNothing();
    if |ps| == 2 {
      FieldsAreTokens(s);
      LowerToken(ps[1]);
      FieldsOfTwo(ps[0], Fqdn(Lower(ps[1])));
    }
  }

  /** The batch can be sent exactly when every part of every intent can be built. */
  lemma SentIff(cfg: Config, cached: seq<Record>, b: Batch)
    requires WellPaired(b)
    ensures Sent(cfg, cached, b).Some? <==>
              forall it :: it in Intents(cfg, cached, b) ==>
                && (forall p :: p in Ops(it).prereqs ==> PrereqGuard(p).Some?)
                && (forall c :: c in Ops(it).changes ==> RecordRR(c.rec).Some?)
  {
    hide Intents, Ops, PrereqGuard, RecordRR;
    var intents := Intents(cfg, cached, b);
    CompiledExact(intents);
    var cs := Compile(intents);
    if forall it :: it in intents ==>
         && (forall p :: p in Ops(it).prereqs ==> PrereqGuard(p).Some?)
         && (forall c :: c in Ops(it).changes ==> RecordRR(c.rec).Some?)
    {
      forall p | p in cs.prereqs ensures PrereqGuard(p).Some? {
        var it :| it in intents && p in Ops(it).prereqs;
      }
      forall c | c in cs.changes ensures ChangeEdit(c).Some? {
        var it :| it in intents && c in Ops(it).changes;
      }
    }
    if CanSend(intents) {
      forall it, p | it in intents && p in Ops(it).prereqs ensures PrereqGuard(p).Some? {
        GuardOf(intents, it, p);
      }
      forall it, c | it in intents && c in Ops(it).changes ensures RecordRR(c.rec).Some? {
        EditOf(intents, it, c);
      }
    }
  }

  /** The endpoint has a target with a canonical form that cannot be built. */
  predicate Poisoned(e: Endpoint) {
    && DataType(e.recordType).Some?
    && exists x :: x in e.targets && CanonicalRdata(DataType(e.recordType).value, x) != ""
                   && ParseData(DataType(e.recordType).value, CanonicalRdata(DataType(e.recordType).value, x)).None?
  }

  /** The endpoint takes part in the batch: it has an owner and, if it is a create, no collision. */
  ghost predicate TakesPart(cfg: Config, cached: seq<Record>, b: Batch, e: Endpoint)
    requires WellPaired(b)
  {
    || (e in b.creates && OwnerOf(e).Some?
        && forall r :: r in RecordsOf(cfg, e) ==> cfg.axfrEnabled ==> Collision(cached, r, OwnerOf(e).value) == Clear)
    || (e in b.dels && OwnerOf(e).Some?)
    || (exists i :: 0 <= i < |b.updOld| && OwnerOf(b.updOld[i]).Some? && (e == b.updOld[i] || e == b.updNew[i]))
  }

  /** One such endpoint anywhere in the batch, and nothing of the batch is sent. */
  lemma OnePoisonedSinksAll(cfg: Config, cached: seq<Record>, b: Batch, e: Endpoint)
    requires WellPaired(b) && Poisoned(e) && TakesPart(cfg, cached, b, e)
    ensures Sent(cfg, cached, b).None?
  {
    hide RecordsOf, OwnerOf, Intents, DataType, CanonicalRdata, Ops, PrereqGuard;
    var r := PoisonedRecord(cfg, e);
    var it, c := PartOf(cfg, cached, b, e, r);
    SentIff(cfg, cached, b);
  }

  lemma PoisonedRecord(cfg: Config, e: Endpoint) returns (r: Record)
    requires Poisoned(e)
    ensures r in RecordsOf(cfg, e) && RecordRR(r).None?
  {
    hide CanonicalRdata, ParseData, NormalizeName, ClampTTL, DataType;
    var t := DataType(e.recordType).value;
    var x :| x in e.targets && CanonicalRdata(t, x) != "" && ParseData(t, CanonicalRdata(t, x)).None?;
    r := Record(NormalizeName(e.dnsName), t, ClampTTL(cfg, e.recordTTL), CanonicalRdata(t, x));
    TargetRecordsExact(NormalizeName(e.dnsName), t, ClampTTL(cfg, e.recordTTL), e.targets, r);
  }

  /** A record of an endpoint that takes part is the record of some change. */
  lemma PartOf(cfg: Config, cached: seq<Record>, b: Batch, e: Endpoint, r: Record) returns (it: Intent, c: Change)
    requires WellPaired(b) && TakesPart(cfg, cached, b, e) && r in RecordsOf(cfg, e)
    ensures it in Intents(cfg, cached, b) && c in Ops(it).changes && c.rec == r
  {
    hide RecordsOf, OwnerOf, Collision, IsOrphan, OwnershipNameFor, AllCreates, AllReplaces, AllDrops,
         EncodeOwnership;
    if e in b.dels && OwnerOf(e).Some? {
      it, c := Drop(OwnerOf(e).value, r), Delete(r);
      DropPresent(cfg, cached, b, e, r);
    } else if i :| 0 <= i < |b.updOld| && OwnerOf(b.updOld[i]).Some? && (e == b.updOld[i] || e == b.updNew[i]) {
      it := Replace(OwnerOf(b.updOld[i]).value, RecordsOf(cfg, b.updOld[i]), RecordsOf(cfg, b.updNew[i]));
      AllReplacesExact(cfg, b.updOld, b.updNew, it);
      assert it in PairReplace(cfg, b.updOld[i], b.updNew[i]);
      c := if e == b.updOld[i] then Delete(r) else Add(r);
      ReplaceHas(it, r);
    } else {
      it, c := Create(OwnerOf(e).value, r, IsOrphan(cached, OwnershipNameFor(r.rtype, r.name))), Add(r);
      CreateIntentsExact(cfg, cached, OwnerOf(e).value, RecordsOf(cfg, e), it);
      AllCreatesExact(cfg, cached, b.creates, it);
    }
  }

  lemma ReplaceHas(it: Intent, r: Record)
    requires it.Replace?
    ensures r in it.olds ==> Delete(r) in Ops(it).changes
    ensures r in it.news ==> Add(r) in Ops(it).changes
  {
    hide OwnershipNameFor, EncodeOwnership;
    if r in it.olds {
      var i :| 0 <= i < |it.olds| && it.olds[i] == r;
      assert Deletes(it.olds)[i] == Delete(r);
    }
    if r in it.news {
      var i :| 0 <= i < |it.news| && it.news[i] == r;
      assert Adds(it.news)[i] == Add(r);
    }
  }

  /** "x mx.example.com" has a canonical form although its preference is no number, and deleting an
      endpoint with that target beside anything else sends nothing. */
  lemma WordForPreference(cfg: Config, cached: seq<Record>, b: Batch, e: Endpoint)
    requires e == Endpoint("example.com", ["x mx.example.com"], "MX", 300, map["owner" := "a"])
    requires WellPaired(b) && e in b.dels
    ensures CanonicalRdata(MX, "x mx.example.com") == "x mx.example.com."
    ensures Sent(cfg, cached, b).None?
  {
    hide CanonicalRdata, ParseData, DataType, Intents, RecordsOf;
    WordTarget();
    MailType();
    assert "x mx.example.com" in e.targets;
    OnePoisonedSinksAll(cfg, cached, b, e);
  }

  lemma WordTarget()
    ensures CanonicalRdata(MX, "x mx.example.com") == "x mx.example.com."
    ensures ParseData(MX, "x mx.example.com.").None?
  {
    hide TrimSpace, Fields, ParseData, IsHost, Lower;
    assert "x mx.example.com" == "x" + " " + "mx.example.com";
    assert "x mx.example.com." == "x" + " " + "mx.example.com.";
    TrimTwoTokens("x", "mx.example.com");
    FieldsOfTwo("x", "mx.example.com");
    MailTargetIff("x mx.example.com");
    assert Lower("mx.example.com") == "mx.example.com" by { LowerFixed("mx.example.com"); }
    assert Fqdn("mx.example.com") == "mx.example.com.";
    assert !IsPreference("x");
  }

  lemma MailType()
    ensures DataType("MX") == Some(MX)
  {
    assert Upper("MX") == "MX";
  }
}

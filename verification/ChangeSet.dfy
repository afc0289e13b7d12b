/** `buildZoneChangeSet`: operator intents become prerequisites and changes, with the
    ownership marker woven in. The loops are proved to compile a list of intents. */
module ChangeSets {
  import opened Records
  import opened Ownership
  import opened Endpoints
  import opened Cache
  import opened Update

  datatype ChangeSet = ChangeSet(prereqs: seq<Prereq>, changes: seq<Change>)

  const EMPTY_SET := ChangeSet([], [])

  function Join(a: ChangeSet, b: ChangeSet): ChangeSet {
    ChangeSet(a.prereqs + b.prereqs, a.changes + b.changes)
  }

  /** One unit of work for the zone.
      Create: add a record that must not exist yet. Replace: swap an endpoint's records.
      Drop: remove a record together with its marker. */
  datatype Intent =
    | Create(owner: string, rec: Record, orphan: bool)
    | Replace(owner: string, olds: seq<Record>, news: seq<Record>)
    | Drop(owner: string, rec: Record)

  /** A zone's share of a request; updates are paired by position. */
  datatype Batch = Batch(creates: seq<Endpoint>, updOld: seq<Endpoint>, updNew: seq<Endpoint>, dels: seq<Endpoint>)

  function MarkerRecord(owner: string, r: Record, ttl: int): Record {
    Record(OwnershipNameFor(r.rtype, r.name), TXT, ttl, EncodeOwnership(owner))
  }

  /** "This marker must say exactly this owner." */
  function OwnedGuard(owner: string, r: Record): Prereq {
    YxRRset(OwnershipNameFor(r.rtype, r.name), TXT, EncodeOwnership(owner))
  }

  function OwnedGuards(owner: string, recs: seq<Record>): seq<Prereq> {
    seq(|recs|, i requires 0 <= i < |recs| => OwnedGuard(owner, recs[i]))
  }

  function Deletes(recs: seq<Record>): seq<Change> {
    seq(|recs|, i requires 0 <= i < |recs| => Delete(recs[i]))
  }

  function Adds(recs: seq<Record>): seq<Change> {
    seq(|recs|, i requires 0 <= i < |recs| => Add(recs[i]))
  }

  function Ops(it: Intent): ChangeSet {
    match it
    case Create(owner, r, orphan) =>
      ChangeSet([NxRRset(r.name, r.rtype)] + (if orphan then [] else [NxRRset(OwnershipNameFor(r.rtype, r.name), TXT)]),
                [Add(r)] + (if orphan then [] else [Add(MarkerRecord(owner, r, r.ttl))]))
    case Replace(owner, olds, news) =>
      ChangeSet(OwnedGuards(owner, olds), Deletes(olds) + Adds(news))
    case Drop(owner, r) =>
      ChangeSet([OwnedGuard(owner, r)], [Delete(r), Delete(MarkerRecord(owner, r, 0))])
  }

  function Compile(intents: seq<Intent>): ChangeSet {
    if intents == [] then EMPTY_SET
    else Join(Compile(intents[..|intents| - 1]), Ops(intents[|intents| - 1]))
  }

  // ----- from a batch to intents -----------------------------------------------

  function CreateIntent(cfg: Config, cached: seq<Record>, owner: string, r: Record): seq<Intent> {
    if cfg.axfrEnabled && Collision(cached, r, owner) != Clear then []
    else [Create(owner, r, IsOrphan(cached, OwnershipNameFor(r.rtype, r.name)))]
  }

  function CreateIntents(cfg: Config, cached: seq<Record>, owner: string, recs: seq<Record>): seq<Intent> {
    if recs == [] then []
    else CreateIntents(cfg, cached, owner, recs[..|recs| - 1]) + CreateIntent(cfg, cached, owner, recs[|recs| - 1])
  }

  function EndpointCreates(cfg: Config, cached: seq<Record>, e: Endpoint): seq<Intent> {
    match OwnerOf(e)
    case None => []
    case Some(owner) => CreateIntents(cfg, cached, owner, RecordsOf(cfg, e))
  }

  function AllCreates(cfg: Config, cached: seq<Record>, es: seq<Endpoint>): seq<Intent> {
    if es == [] then []
    else AllCreates(cfg, cached, es[..|es| - 1]) + EndpointCreates(cfg, cached, es[|es| - 1])
  }

  function PairReplace(cfg: Config, old_: Endpoint, new_: Endpoint): seq<Intent> {
    match OwnerOf(old_)
    case None => []
    case Some(owner) => [Replace(owner, RecordsOf(cfg, old_), RecordsOf(cfg, new_))]
  }

  function AllReplaces(cfg: Config, olds: seq<Endpoint>, news: seq<Endpoint>): seq<Intent>
    requires |olds| == |news|
  {
    if olds == [] then []
    else
      var n := |olds| - 1;
      AllReplaces(cfg, olds[..n], news[..n]) + PairReplace(cfg, olds[n], news[n])
  }

  function DropIntents(owner: string, recs: seq<Record>): seq<Intent> {
    seq(|recs|, i requires 0 <= i < |recs| => Drop(owner, recs[i]))
  }

  function EndpointDrops(cfg: Config, e: Endpoint): seq<Intent> {
    match OwnerOf(e)
    case None => []
    case Some(owner) => DropIntents(owner, RecordsOf(cfg, e))
  }

  function AllDrops(cfg: Config, es: seq<Endpoint>): seq<Intent> {
    if es == [] then []
    else AllDrops(cfg, es[..|es| - 1]) + EndpointDrops(cfg, es[|es| - 1])
  }

  /** Old and new sides of the updates come in pairs. */
  predicate WellPaired(b: Batch) {
    |b.updOld| == |b.updNew|
  }

  function Intents(cfg: Config, cached: seq<Record>, b: Batch): seq<Intent>
    requires WellPaired(b)
  {
    AllCreates(cfg, cached, b.creates) + AllReplaces(cfg, b.updOld, b.updNew) + AllDrops(cfg, b.dels)
  }

  function Planned(cfg: Config, cached: seq<Record>, b: Batch): ChangeSet
    requires WellPaired(b)
  {
    Compile(Intents(cfg, cached, b))
  }

  lemma CompileSnoc(intents: seq<Intent>, it: Intent)
    ensures Compile(intents + [it]) == Join(Compile(intents), Ops(it))
  {
    assert (intents + [it])[..|intents|] == intents;
  }

  // ----- the imperative builder ------------------------------------------------

  /** `buildZoneChangeSet`, for the records cached for the zone. */
  method BuildZoneChangeSet(cfg: Config, cached: seq<Record>, b: Batch) returns (cs: ChangeSet)
    requires WellPaired(b)
    ensures cs == Planned(cfg, cached, b)
  {
    hide Compile, AllCreates, AllReplaces, AllDrops, IsOrphan, Indexes;
    var byName := IndexByName(cached);
    var orphans := OrphanOwnership(cached);
    cs := CreateLoop(cfg, cached, byName, orphans, b.creates);
    ghost var done := AllCreates(cfg, cached, b.creates);
    cs := ReplaceLoop(cfg, b.updOld, b.updNew, cs, done);
    done := done + AllReplaces(cfg, b.updOld, b.updNew);
    cs := DropLoop(cfg, b.dels, cs, done);
  }

  method CreateLoop(cfg: Config, cached: seq<Record>, byName: map<string, seq<Record>>, orphans: set<string>,
                    es: seq<Endpoint>) returns (cs: ChangeSet)
    requires Indexes(byName, cached) && (forall m :: m in orphans <==> IsOrphan(cached, m))
    ensures cs == Compile(AllCreates(cfg, cached, es))
  {
    hide IsOrphan, Indexes, EndpointCreates;
    cs := EMPTY_SET;
    for i := 0 to |es|
      invariant cs == Compile(AllCreates(cfg, cached, es[..i]))
    {
      hide Compile;
      assert es[..i + 1][..i] == es[..i];
      cs := CreateEndpoint(cfg, cached, byName, orphans, es[i], cs, AllCreates(cfg, cached, es[..i]));
    }
    assert es[..|es|] == es;
  }

  /** One endpoint of the create loop. */
  method CreateEndpoint(cfg: Config, cached: seq<Record>, byName: map<string, seq<Record>>, orphans: set<string>,
                        e: Endpoint, cs0: ChangeSet, ghost done: seq<Intent>) returns (cs: ChangeSet)
    requires Indexes(byName, cached) && (forall m :: m in orphans <==> IsOrphan(cached, m))
    requires cs0 == Compile(done)
    ensures cs == Compile(done + EndpointCreates(cfg, cached, e))
  {
    hide Compile, Collision, IsOrphan, Indexes, OwnershipNameFor, EncodeOwnership, RecordsOf, Ops;
    cs := cs0;
    ghost var more: seq<Intent> := [];
    assert done + more == done;
    var owner := OwnerOf(e);
    if owner.None? { return; }
    var recs := EndpointToRecords(cfg, e);
    for i := 0 to |recs|
      invariant more == CreateIntents(cfg, cached, owner.value, recs[..i]) && cs == Compile(done + more)
    {
      assert recs[..i + 1][..i] == recs[..i];
      if cfg.axfrEnabled {
        var reason := CollisionReason(byName, recs[i], owner.value, cached);
        if reason != Clear { continue; }
      }
      var isOrphan := OwnershipNameFor(recs[i].rtype, recs[i].name) in orphans;
      var ops := CreateRecord(owner.value, recs[i], isOrphan);
      cs := Join(cs, ops);
      ghost var it := Create(owner.value, recs[i], isOrphan);
      CompileSnoc(done + more, it);
      assert (done + more) + [it] == done + (more + [it]);
      more := more + [it];
    }
    assert recs[..|recs|] == recs;
  }

  method CreateRecord(owner: string, r: Record, isOrphan: bool) returns (ops: ChangeSet)
    ensures ops == Ops(Create(owner, r, isOrphan))
  {
    var ownershipName := OwnershipNameFor(r.rtype, r.name);
    ops := ChangeSet([NxRRset(r.name, r.rtype)], []);
    if !isOrphan {
      ops := ops.(prereqs := ops.prereqs + [NxRRset(ownershipName, TXT)]);
    }
    ops := ops.(changes := [Add(r)]);
    if !isOrphan {
      ops := ops.(changes := ops.changes + [Add(Record(ownershipName, TXT, r.ttl, EncodeOwnership(owner)))]);
    }
  }

  method ReplaceLoop(cfg: Config, updOld: seq<Endpoint>, updNew: seq<Endpoint>, cs0: ChangeSet, ghost done: seq<Intent>)
    returns (cs: ChangeSet)
    requires |updOld| == |updNew| && cs0 == Compile(done)
    ensures cs == Compile(done + AllReplaces(cfg, updOld, updNew))
  {
    hide Compile, Ops, RecordsOf;
    cs := cs0;
    ghost var more: seq<Intent> := [];
    assert done + more == done;
    for i := 0 to |updOld|
      invariant more == AllReplaces(cfg, updOld[..i], updNew[..i]) && cs == Compile(done + more)
    {
      assert updOld[..i + 1][..i] == updOld[..i] && updNew[..i + 1][..i] == updNew[..i];
      var owner := OwnerOf(updOld[i]);
      if owner.None? { continue; }
      var oldRecs := EndpointToRecords(cfg, updOld[i]);
      var newRecs := EndpointToRecords(cfg, updNew[i]);
      var ops := ReplaceRecords(owner.value, oldRecs, newRecs);
      cs := Join(cs, ops);
      ghost var it := Replace(owner.value, oldRecs, newRecs);
      CompileSnoc(done + more, it);
      assert (done + more) + [it] == done + (more + [it]);
      more := more + [it];
    }
    assert updOld[..|updOld|] == updOld && updNew[..|updOld|] == updNew;
  }

  method ReplaceRecords(owner: string, oldRecs: seq<Record>, newRecs: seq<Record>) returns (ops: ChangeSet)
    ensures ops == Ops(Replace(owner, oldRecs, newRecs))
  {
    hide OwnershipNameFor, EncodeOwnership;
    var prereqs: seq<Prereq>, changes: seq<Change> := [], [];
    for i := 0 to |oldRecs|
      invariant prereqs == OwnedGuards(owner, oldRecs[..i]) && changes == Deletes(oldRecs[..i])
    {
      prereqs := prereqs + [OwnedGuard(owner, oldRecs[i])];
      changes := changes + [Delete(oldRecs[i])];
    }
    assert oldRecs[..|oldRecs|] == oldRecs;
    for i := 0 to |newRecs|
      invariant changes == Deletes(oldRecs) + Adds(newRecs[..i])
    {
      changes := changes + [Add(newRecs[i])];
    }
    assert newRecs[..|newRecs|] == newRecs;
    ops := ChangeSet(prereqs, changes);
  }

  method DropLoop(cfg: Config, es: seq<Endpoint>, cs0: ChangeSet, ghost done: seq<Intent>) returns (cs: ChangeSet)
    requires cs0 == Compile(done)
    ensures cs == Compile(done + AllDrops(cfg, es))
  {
    hide Compile, EndpointDrops;
    cs := cs0;
    ghost var more: seq<Intent> := [];
    assert done + more == done;
    for i := 0 to |es|
      invariant more == AllDrops(cfg, es[..i]) && cs == Compile(done + more)
    {
      assert es[..i + 1][..i] == es[..i];
      cs := DropEndpoint(cfg, es[i], cs, done + more);
      assert (done + more) + EndpointDrops(cfg, es[i]) == done + (more + EndpointDrops(cfg, es[i]));
      more := more + EndpointDrops(cfg, es[i]);
    }
    assert es[..|es|] == es;
  }

  /** One endpoint of the delete loop. */
  method DropEndpoint(cfg: Config, e: Endpoint, cs0: ChangeSet, ghost done: seq<Intent>) returns (cs: ChangeSet)
    requires cs0 == Compile(done)
    ensures cs == Compile(done + EndpointDrops(cfg, e))
  {
    hide Compile, OwnershipNameFor, EncodeOwnership, RecordsOf;
    cs := cs0;
    ghost var more: seq<Intent> := [];
    assert done + more == done;
    var owner := OwnerOf(e);
    if owner.None? { return; }
    var recs := EndpointToRecords(cfg, e);
    for i := 0 to |recs|
      invariant more == DropIntents(owner.value, recs[..i]) && cs == Compile(done + more)
    {
      var r := recs[i];
      cs := Join(cs, ChangeSet([OwnedGuard(owner.value, r)], [Delete(r), Delete(MarkerRecord(owner.value, r, 0))]));
      CompileSnoc(done + more, Drop(owner.value, r));
      assert (done + more) + [Drop(owner.value, r)] == done + (more + [Drop(owner.value, r)]);
      more := more + [Drop(owner.value, r)];
    }
    assert recs[..|recs|] == recs;
  }

  // ----- where a prerequisite or a change comes from ---------------------------

  lemma {:induction false} CompiledExact(intents: seq<Intent>)
    ensures forall p :: p in Compile(intents).prereqs <==> exists it :: it in intents && p in Ops(it).prereqs
    ensures forall c :: c in Compile(intents).changes <==> exists it :: it in intents && c in Ops(it).changes
  {
    if intents != [] {
      var n := |intents| - 1;
      CompiledExact(intents[..n]);
      assert intents == intents[..n] + [intents[n]];
    }
  }

  /** The endpoint behind an intent. */
  ghost predicate Justified(cfg: Config, cached: seq<Record>, b: Batch, it: Intent)
    requires WellPaired(b)
  {
    match it
    case Create(owner, r, orphan) =>
      && (exists e :: e in b.creates && OwnerOf(e) == Some(owner) && r in RecordsOf(cfg, e))
      && orphan == IsOrphan(cached, OwnershipNameFor(r.rtype, r.name))
      && (cfg.axfrEnabled ==> Collision(cached, r, owner) == Clear)
    case Replace(owner, olds, news) =>
      exists i :: 0 <= i < |b.updOld| && OwnerOf(b.updOld[i]) == Some(owner)
                  && olds == RecordsOf(cfg, b.updOld[i]) && news == RecordsOf(cfg, b.updNew[i])
    case Drop(owner, r) =>
      exists e :: e in b.dels && OwnerOf(e) == Some(owner) && r in RecordsOf(cfg, e)
  }

  lemma {:induction false} CreateIntentsExact(cfg: Config, cached: seq<Record>, owner: string, recs: seq<Record>,
                                              it: Intent)
    ensures it in CreateIntents(cfg, cached, owner, recs)
            <==> it.Create? && it.owner == owner && it.rec in recs && it in CreateIntent(cfg, cached, owner, it.rec)
  {
    hide Collision, IsOrphan, OwnershipNameFor;
    if recs != [] {
      var n := |recs| - 1;
      CreateIntentsExact(cfg, cached, owner, recs[..n], it);
      assert recs == recs[..n] + [recs[n]];
    }
  }

  lemma {:induction false} AllCreatesExact(cfg: Config, cached: seq<Record>, es: seq<Endpoint>, it: Intent)
    ensures it in AllCreates(cfg, cached, es) <==> exists e :: e in es && it in EndpointCreates(cfg, cached, e)
  {
    hide EndpointCreates;
    if es != [] {
      var n := |es| - 1;
      AllCreatesExact(cfg, cached, es[..n], it);
      assert es == es[..n] + [es[n]];
    }
  }

  lemma {:induction false} AllReplacesExact(cfg: Config, olds: seq<Endpoint>, news: seq<Endpoint>, it: Intent)
    requires |olds| == |news|
    ensures it in AllReplaces(cfg, olds, news) <==> exists i :: 0 <= i < |olds| && it in PairReplace(cfg, olds[i],
            news[i])
  {
    hide PairReplace;
    if olds != [] {
      var n := |olds| - 1;
      AllReplacesExact(cfg, olds[..n], news[..n], it);
      if it in AllReplaces(cfg, olds[..n], news[..n]) {
        var i :| 0 <= i < n && it in PairReplace(cfg, olds[..n][i], news[..n][i]);
        assert it in PairReplace(cfg, olds[i], news[i]);
      }
      if i :| 0 <= i < |olds| && it in PairReplace(cfg, olds[i], news[i]) && i < n {
        assert it in PairReplace(cfg, olds[..n][i], news[..n][i]);
      }
    }
  }

  lemma {:induction false} AllDropsExact(cfg: Config, es: seq<Endpoint>, it: Intent)
    ensures it in AllDrops(cfg, es) <==> exists e :: e in es && it in EndpointDrops(cfg, e)
  {
    hide EndpointDrops;
    if es != [] {
      var n := |es| - 1;
      AllDropsExact(cfg, es[..n], it);
      assert es == es[..n] + [es[n]];
    }
  }

  /** Every intent goes back to an endpoint of the batch. */
  lemma IntentJustified(cfg: Config, cached: seq<Record>, b: Batch, it: Intent)
    requires WellPaired(b) && it in Intents(cfg, cached, b)
    ensures Justified(cfg, cached, b, it)
  {
    hide Collision, IsOrphan, OwnershipNameFor, RecordsOf, OwnerOf, AllCreates, AllReplaces, AllDrops;
    AllReplacesExact(cfg, b.updOld, b.updNew, it);
    AllDropsExact(cfg, b.dels, it);
    if it in AllCreates(cfg, cached, b.creates) {
      CreateJustified(cfg, cached, b, it);
    }
  }

  lemma CreateJustified(cfg: Config, cached: seq<Record>, b: Batch, it: Intent)
    requires WellPaired(b) && it in AllCreates(cfg, cached, b.creates)
    ensures it.Create? && Justified(cfg, cached, b, it)
  {
    hide Collision, IsOrphan, OwnershipNameFor, RecordsOf, OwnerOf, AllCreates;
    AllCreatesExact(cfg, cached, b.creates, it);
    var e :| e in b.creates && it in EndpointCreates(cfg, cached, e);
    CreateIntentsExact(cfg, cached, OwnerOf(e).value, RecordsOf(cfg, e), it);
  }

  /** A delete endpoint with an owner yields a drop for each of its records. */
  lemma DropPresent(cfg: Config, cached: seq<Record>, b: Batch, e: Endpoint, r: Record)
    requires WellPaired(b) && e in b.dels && OwnerOf(e).Some? && r in RecordsOf(cfg, e)
    ensures Drop(OwnerOf(e).value, r) in Intents(cfg, cached, b)
  {
    hide RecordsOf;
    var it := Drop(OwnerOf(e).value, r);
    var recs := RecordsOf(cfg, e);
    var i :| 0 <= i < |recs| && recs[i] == r;
    assert DropIntents(OwnerOf(e).value, recs)[i] == it;
    assert it in EndpointDrops(cfg, e);
    AllDropsExact(cfg, b.dels, it);
  }
}

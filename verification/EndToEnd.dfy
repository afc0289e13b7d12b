/** The pieces put together: what a whole request means for owners it does not name, and what
    a walk with ambiguous answers means for the zone. */
module EndToEnd {
  import opened Text
  import opened Records
  import opened Endpoints
  import opened DnsServer
  import opened Protocol
  import opened Isolation
  import opened Replay
  import opened Failover
  import opened Grouping

  /** The request acts for other owners only, and its update pairs keep name and type. */
  predicate ForeignRequest(cfg: Config, req: Request, owner: string) {
    && (forall e :: e in req.create && e.Some? ==> OwnerOf(e.value) != Some(owner))
    && (forall e :: e in req.delete && e.Some? ==> OwnerOf(e.value) != Some(owner))
    && (forall i :: 0 <= i < PairCount(req) && req.updateOld[i].Some? && req.updateNew[i].Some? ==>
          OwnerOf(req.updateOld[i].value) != Some(owner) && Guarded(cfg, req.updateOld[i].value,
            req.updateNew[i].value))
  }

  /** Every zone's batch of such a request is one that ownership isolation covers. */
  lemma RequestIsForeign(cfg: Config, sc: Scope, req: Request, owner: string, zone: string)
    requires ForeignRequest(cfg, req, owner)
    ensures Foreign(cfg, BatchOf(sc, req, zone), owner)
  {
    hide OwnerOf, Guarded, Goes, Share, Pairs;
    var b := BatchOf(sc, req, zone);
    forall e | e in b.creates ensures OwnerOf(e) != Some(owner) {
      ShareMembers(sc, req.create, zone, e);
      assert Some(e).Some?;
    }
    forall e | e in b.dels ensures OwnerOf(e) != Some(owner) {
      ShareMembers(sc, req.delete, zone, e);
      assert Some(e).Some?;
    }
    var pairs := PairsOf(sc, req, zone);
    forall i | 0 <= i < |pairs| ensures OwnerOf(b.updOld[i]) != Some(owner) && Guarded(cfg, b.updOld[i], b.updNew[i]) {
      var n := PairCount(req);
      PairsExact(sc, req.updateOld[..n], req.updateNew[..n], zone, pairs[i]);
      assert pairs[i] in pairs;
      var j :| 0 <= j < n && req.updateOld[..n][j] == Some(pairs[i].0) && req.updateNew[..n][j] == Some(pairs[i].1);
      assert req.updateOld[j] == Some(pairs[i].0) && req.updateNew[j] == Some(pairs[i].1);
    }
  }

  /** Whatever requests other owners make of any number of sidecars, what `owner` holds stays. */
  lemma RequestsIsolate(z: Zone, scopes: seq<Scope>, requests: seq<Request>, zone: string, steps: seq<Step>,
                        name: string, t: RType, owner: string)
    requires |scopes| == |requests| == |steps| && AllPaired(steps)
    requires forall i :: 0 <= i < |steps| ==> steps[i].batch == BatchOf(scopes[i], requests[i], zone)
    requires forall i :: 0 <= i < |steps| ==> ForeignRequest(steps[i].cfg, requests[i], owner)
    requires IsData(t) && IsOwnerName(Wire(name)) && Holds(z, name, t, owner)
    ensures Kept(z, Run(z, steps), name, t) && Holds(Run(z, steps), name, t, owner)
  {
    hide BatchOf, ForeignRequest, Foreign, Holds, Kept, Run, Wire;
    forall i | 0 <= i < |steps| ensures Foreign(steps[i].cfg, steps[i].batch, owner) {
      RequestIsForeign(steps[i].cfg, scopes[i], requests[i], owner, zone);
    }
    IsolationOverRuns(z, steps, name, t, owner);
  }

  /** The answers of a walk tell the truth about the attempts that reached a server: an OK was
      accepted there, a failed prerequisite was refused there. Other answers say nothing. */
  ghost predicate Truthful(z: Zone, m: Message, trace: seq<Attempt>, reached: seq<bool>) {
    && |reached| == |trace|
    && forall i :: 0 <= i < |trace| ==>
         && (trace[i].res.ok ==> reached[i] && Accepts(AfterSends(z, m, reached[..i]), m))
         && (trace[i].res.rcode.YXRRSET? || trace[i].res.rcode.NXRRSET? ==> !Accepts(AfterSends(z, m, reached[..i]), m))
  }

  /** A walk takes effect once or not at all, whatever got lost on the way. A walk that reports
      success has taken effect; one whose first answer is a failed prerequisite has not. */
  lemma WalkEffect(z: Zone, m: Message, trace: seq<Attempt>, order: seq<string>, replies: nat -> Reply,
                   outcome: Outcome,
                   reached: seq<bool>)
    requires Walks(trace, order, replies) && Ends(trace, order, replies, outcome) && Truthful(z, m, trace, reached)
    ensures AfterSends(z, m, reached) == if true in reached then Serve(z, m) else z
    ensures outcome.Applied? ==> Accepts(z, m) && AfterSends(z, m, reached) == Serve(z, m)
    ensures |trace| == 1 && (trace[0].res.rcode.YXRRSET? || trace[0].res.rcode.NXRRSET?) ==>
              !Accepts(z, m) && AfterSends(z, m, reached) == z
  {
    hide Accepts, AfterSends;
    AtMostOnce(z, m, reached);
    if outcome.Applied? {
      var n := |trace| - 1;
      assert trace[n].res.ok && reached[n];
      AtMostOnce(z, m, reached[..n]);
      RefusedStays(z, m);
    }
    if |trace| == 1 {
      AtMostOnce(z, m, reached[..0]);
      RefusedStays(z, m);
    }
  }

  lemma RefusedStays(z: Zone, m: Message)
    ensures !Accepts(z, m) ==> Serve(z, m) == z
  {
  }
}

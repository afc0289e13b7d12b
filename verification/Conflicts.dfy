/** What the collision check is for: creates do not put a CNAME beside other data. */
module Conflicts {
  import opened Text
  import opened Records
  import opened Ownership
  import opened Endpoints
  import opened Cache
  import opened DnsServer
  import opened Update
  import opened ChangeSets
  import opened Protocol
  import opened Axfr
  import opened PairingRuns

  /** The name has a CNAME and data of another type (section 3.6.2 of RFC 1034 forbids it). */
  ghost predicate Conflicted(z: Zone, w: string) {
    && (exists c: RData :: RR(w, c) in z && c.Alias?)
    && (exists d: RData :: RR(w, d) in z && IsData(TypeOf(d)) && !d.Alias?)
  }

  /** A batch of creates that names each name once. */
  predicate PlainCreates(b: Batch) {
    && b.updOld == [] && b.updNew == [] && b.dels == []
    && forall e, f :: e in b.creates && f in b.creates && ServerKey(e).0 == ServerKey(f).0 ==> e == f
  }

  /** From a cache equal to the zone, creates leave no name with a CNAME beside other data, unless it had
      both before. */
  lemma CreatesKeepApart(cfg: Config, cached: seq<Record>, b: Batch, z: Zone, w: string)
    requires cfg.axfrEnabled && Legal(z) && Snapshot(cached, z) && PlainCreates(b)
    requires Sent(cfg, cached, b).Some? && Conflicted(Serve(z, Sent(cfg, cached, b).value), w)
    ensures Conflicted(z, w)
  {
    hide Intents, CanSend, Packed, Accepts, Legal, Snapshot, Collision, Wire, NormalizeName, ServerKey, TypeOf,
         Serve;
    var z' := Serve(z, Sent(cfg, cached, b).value);
    var c: RData :| RR(w, c) in z' && c.Alias?;
    var d: RData :| RR(w, d) in z' && IsData(TypeOf(d)) && !d.Alias?;
    TypeOfMeans(c);
    TypeOfMeans(d);
    if RR(w, c) !in z {
      var e, r, o := NewAt(cfg, cached, b, z, w, c);
      if RR(w, d) in z {
        SeenAt(cached, z, w, d, r, o);
      } else {
        var f, s, p := NewAt(cfg, cached, b, z, w, d);
      }
    } else if RR(w, d) !in z {
      var e, r, o := NewAt(cfg, cached, b, z, w, d);
      SeenAt(cached, z, w, c, r, o);
    }
  }

  /** Data that a batch of creates brings in comes from an endpoint the check found clear. */
  lemma NewAt(cfg: Config, cached: seq<Record>, b: Batch, z: Zone, w: string, d: RData)
    returns (e: Endpoint, r: Record, owner: string)
    requires cfg.axfrEnabled && PlainCreates(b) && Sent(cfg, cached, b).Some? && IsData(TypeOf(d))
    requires RR(w, d) in Serve(z, Sent(cfg, cached, b).value) && RR(w, d) !in z
    ensures e in b.creates && ServerKey(e) == (w, Some(TypeOf(d)))
    ensures Wire(r.name) == w && r.rtype == TypeOf(d) && Collision(cached, r, owner) == Clear
  {
    hide Intents, CanSend, Packed, Accepts, Collision, Wire, NormalizeName, RecordsOf, OwnerOf, DataType, ParseData,
         IsOwnerName, OwnershipNameFor, EncodeOwnership, IsOrphan;
    var intents := Intents(cfg, cached, b);
    var edits := Packed(intents).edits;
    EditsDecide(z, edits, RR(w, d));
    VerdictKind(edits, RR(w, d));
    var ttl := Verdict(edits, RR(w, d)).value.value;
    var it, c := OriginOfEdit(intents, Put(RR(w, d), ttl));
    IntentJustified(cfg, cached, b, it);
    assert it.Create? && c.rec == it.rec;
    r, owner := it.rec, it.owner;
    e :| e in b.creates && OwnerOf(e) == Some(owner) && r in RecordsOf(cfg, e);
    RecordsShareKey(cfg, e, r);
  }

  /** Data of the zone at the same name, one of the two a CNAME and the other not, is a collision. */
  lemma SeenAt(cached: seq<Record>, z: Zone, w: string, d: RData, r: Record, owner: string)
    requires Legal(z) && Snapshot(cached, z) && RR(w, d) in z && IsData(TypeOf(d)) && Wire(r.name) == w
             && IsData(r.rtype)
    requires TypeOf(d) == CNAME <==> r.rtype != CNAME
    ensures Collision(cached, r, owner) != Clear
  {
    hide Collision, Wire, NormalizeName, OwnershipNameFor, DecodeOwnership, FirstMarkerAt, Snapshot, IsOwnerName,
         RrToRecord;
    var rr := RR(w, d);
    assert IsOwnerName(rr.name);
    var s := ShownRecord(rr, z[rr]);
    SnapshotExact(cached, z, s);
    SameName(w, r.name);
    ClearIff(cached, r, owner);
  }

  lemma ShownRecord(rr: RR, ttl: int) returns (s: Record)
    requires IsData(TypeOf(rr.data))
    ensures RrToRecord(rr, ttl) == Some(s) && s.rtype == TypeOf(rr.data) && s.name == TrimDot(Lower(rr.name))
  {
    s := RrToRecord(rr, ttl).value;
  }

  /** A transferred name normalises like any other spelling of it. */
  lemma SameName(w: string, name: string)
    requires IsOwnerName(w) && Wire(name) == w
    ensures NormalizeName(TrimDot(Lower(w))) == NormalizeName(name)
  {
    hide IsOwnerName, Wire, NormalizeName, Lower;
    OwnerNameDotted(w);
    LowerFixed(w);
    OwnerNameShape(w);
    var n := TrimDot(w);
    assert Wire(n) == w by { if w == "." { RootIsEmpty(); } }
    NormalizeIsWire(n);
    NormalizeIsWire(name);
  }

  lemma RootIsEmpty()
    ensures TrimDot(".") == "" && Wire("") == "."
  {
  }

  /** Every step is a batch of creates from a cache equal to the zone it meets. */
  ghost predicate CarefulRun(z: Zone, steps: seq<Step>) {
    && AllPaired(steps)
    && forall i :: 0 <= i < |steps| ==>
         && steps[i].cfg.axfrEnabled && PlainCreates(steps[i].batch)
         && Snapshot(steps[i].cached, Run(z, steps[..i]))
  }

  /** Over whole runs of careful creates no CNAME comes to stand beside other data. */
  lemma {:induction false} CarefulRunsKeepApart(z: Zone, steps: seq<Step>, w: string)
    requires Legal(z) && CarefulRun(z, steps) && Conflicted(Run(z, steps), w)
    ensures Conflicted(z, w)
  {
    hide Legal, Conflicted, Snapshot, PlainCreates, Sent, Serve, CarefulRun;
    if steps != [] {
      var n := |steps| - 1;
      CarefulParts(z, steps);
      var before, s := Run(z, steps[..n]), steps[n];
      CarefulLegal(z, steps[..n]);
      if s.delivered && Sent(s.cfg, s.cached, s.batch).Some? {
        CreatesKeepApart(s.cfg, s.cached, s.batch, before, w);
      }
      CarefulRunsKeepApart(z, steps[..n], w);
    }
  }

  lemma CarefulParts(z: Zone, steps: seq<Step>)
    requires CarefulRun(z, steps) && steps != []
    ensures var n := |steps| - 1;
            && CarefulRun(z, steps[..n]) && AllPaired(steps) && AllPaired(steps[..n])
            && steps[n].cfg.axfrEnabled && PlainCreates(steps[n].batch)
            && Snapshot(steps[n].cached, Run(z, steps[..n]))
  {
    hide Snapshot, PlainCreates, Run;
    var n := |steps| - 1;
    assert forall i :: 0 <= i < n ==> steps[..n][i] == steps[i] && steps[..n][..i] == steps[..i];
  }

  lemma {:induction false} CarefulLegal(z: Zone, steps: seq<Step>)
    requires Legal(z) && AllPaired(steps)
    ensures Legal(Run(z, steps))
  {
    hide Legal, After;
    if steps != [] {
      var n := |steps| - 1;
      CarefulLegal(z, steps[..n]);
      LegalKept(Run(z, steps[..n]), steps[n]);
    }
  }
}

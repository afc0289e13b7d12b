/** `internal/dnsop/axfr.go`: a transferred zone becomes a flat record list, or nothing. */
module Axfr {
  import opened Text
  import opened Records
  import opened Ownership
  import opened DnsServer

  /** A resource record as it arrives, with its TTL. */
  datatype Arrival = Arrival(rr: RR, ttl: int)

  datatype Envelope = Broken(message: string) | Chunk(arrivals: seq<Arrival>)

  datatype TransferResult = Transferred(records: seq<Record>) | Failed(message: string)

  function Concat(chunks: seq<string>): string {
    if chunks == [] then "" else chunks[0] + Concat(chunks[1..])
  }

  /** What the read path shows for record data of a supported type. */
  function Shown(d: RData): Option<(RType, string)> {
    match d
    case Address4(a) => Some((A, a))
    case Address6(a) => Some((AAAA, a))
    case Alias(h) => Some((CNAME, TrimDot(Lower(h))))
    case Mail(p, h) => Some((MX, p + " " + TrimDot(Lower(h))))
    case Server(h) => Some((NS, TrimDot(Lower(h))))
    case Text(chunks) => Some((TXT, "\"" + Concat(chunks) + "\""))
    case Authority => None
    case Unsupported(_) => None
  }

  /** `rrToRecord`. */
  function RrToRecord(rr: RR, ttl: int): (r: Option<Record>)
    ensures r.Some? ==> r.value.rtype == TypeOf(rr.data) && r.value.name == TrimDot(Lower(rr.name))
  {
    match Shown(rr.data)
    case None => None
    case Some((t, v)) => Some(Record(TrimDot(Lower(rr.name)), t, ttl, v))
  }

  /** The supported records of a stream, converted, in order. */
  function Convert(arrivals: seq<Arrival>): seq<Record> {
    if arrivals == [] then []
    else
      var n := |arrivals| - 1;
      var r := RrToRecord(arrivals[n].rr, arrivals[n].ttl);
      Convert(arrivals[..n]) + (if r.Some? then [r.value] else [])
  }

  function Whole(envelopes: seq<Envelope>): seq<Arrival> {
    if envelopes == [] then []
    else
      var n := |envelopes| - 1;
      Whole(envelopes[..n]) + (match envelopes[n] case Broken(_) => [] case Chunk(a) => a)
  }

  predicate AnyBroken(envelopes: seq<Envelope>) {
    exists e :: e in envelopes && e.Broken?
  }

  /** A complete answer is bracketed by the zone's SOA (section 2.2 of RFC 5936). */
  predicate Bracketed(arrivals: seq<Arrival>) {
    |arrivals| >= 2 && arrivals[0].rr.data.Authority? && arrivals[|arrivals| - 1].rr.data.Authority?
  }

  /** `ParseAXFRStream`: all or nothing. It succeeds exactly when no envelope failed and the whole
      stream is bracketed by SOAs, and then returns the whole stream's conversion. */
  method ParseAXFRStream(envelopes: seq<Envelope>) returns (res: TransferResult)
    ensures var whole := Whole(envelopes);
            res.Transferred? <==>
              && (forall e :: e in envelopes ==> e.Chunk?)
              && |whole| >= 2 && whole[0].rr.data.Authority? && whole[|whole| - 1].rr.data.Authority?
    ensures res.Transferred? ==> res.records == Convert(Whole(envelopes))
  {
    var all: seq<Arrival>, sawError: Option<string> := [], None;
    for i := 0 to |envelopes|
      invariant all == Whole(envelopes[..i])
      invariant sawError.Some? <==> AnyBroken(envelopes[..i])
    {
      assert envelopes[..i + 1] == envelopes[..i] + [envelopes[i]];
      match envelopes[i] {
        case Broken(message) => sawError := Some(message);
        case Chunk(a) => all := all + a;
      }
    }
    assert envelopes[..|envelopes|] == envelopes;
    if sawError.Some? { return Failed(sawError.value); }
    if |all| < 2 { return Failed("AXFR stream too short"); }
    if !(all[0].rr.data.Authority? && all[|all| - 1].rr.data.Authority?) {
      return Failed("AXFR stream did not terminate with SOA");
    }
    var out := ConvertAll(all);
    return Transferred(out);
  }

  /** The conversion loop: it skips the two bracketing SOAs and every unsupported record. */
  method ConvertAll(all: seq<Arrival>) returns (out: seq<Record>)
    ensures out == Convert(all)
  {
    out := [];
    for i := 0 to |all|
      invariant out == Convert(all[..i])
    {
      assert all[..i + 1][..i] == all[..i];
      if all[i].rr.data.Authority? && (i == 0 || i == |all| - 1) { continue; }
      var rec := RrToRecord(all[i].rr, all[i].ttl);
      if rec.Some? {
        out := out + [rec.value];
      }
    }
    assert all[..|all|] == all;
  }

  /** Cutting one chunk in two leaves the stream alone. */
  lemma {:induction false} SplitChunk(before: seq<Envelope>, x: seq<Arrival>, y: seq<Arrival>, after: seq<Envelope>)
    ensures Whole(before + [Chunk(x + y)] + after) == Whole(before + [Chunk(x), Chunk(y)] + after)
    ensures AnyBroken(before + [Chunk(x + y)] + after) <==> AnyBroken(before + [Chunk(x), Chunk(y)] + after)
  {
    if after == [] {
      assert before + [Chunk(x + y)] + after == before + [Chunk(x + y)];
      assert before + [Chunk(x), Chunk(y)] + after == before + [Chunk(x)] + [Chunk(y)];
      WholeSnoc(before, Chunk(x + y));
      WholeSnoc(before, Chunk(x));
      WholeSnoc(before + [Chunk(x)], Chunk(y));
    } else {
      var n := |after| - 1;
      SplitChunk(before, x, y, after[..n]);
      assert before + [Chunk(x + y)] + after == (before + [Chunk(x + y)] + after[..n]) + [after[n]];
      assert before + [Chunk(x), Chunk(y)] + after == (before + [Chunk(x), Chunk(y)] + after[..n]) + [after[n]];
      WholeSnoc(before + [Chunk(x + y)] + after[..n], after[n]);
      WholeSnoc(before + [Chunk(x), Chunk(y)] + after[..n], after[n]);
    }
  }

  lemma WholeSnoc(envelopes: seq<Envelope>, e: Envelope)
    ensures Whole(envelopes + [e]) == Whole(envelopes) + (match e case Broken(_) => [] case Chunk(a) => a)
    ensures AnyBroken(envelopes + [e]) <==> AnyBroken(envelopes) || e.Broken?
  {
    assert (envelopes + [e])[..|envelopes|] == envelopes;
    assert e in envelopes + [e];
  }

  /** Conversion keeps exactly the supported records. */
  lemma {:induction false} ConvertExact(arrivals: seq<Arrival>, r: Record)
    ensures r in Convert(arrivals)
            <==> exists i :: 0 <= i < |arrivals| && RrToRecord(arrivals[i].rr, arrivals[i].ttl) == Some(r)
  {
    hide RrToRecord;
    if arrivals != [] {
      var n := |arrivals| - 1;
      ConvertExact(arrivals[..n], r);
      if r in Convert(arrivals[..n]) {
        var i :| 0 <= i < n && RrToRecord(arrivals[..n][i].rr, arrivals[..n][i].ttl) == Some(r);
        assert RrToRecord(arrivals[i].rr, arrivals[i].ttl) == Some(r);
      }
      if i :| 0 <= i < n && RrToRecord(arrivals[i].rr, arrivals[i].ttl) == Some(r) {
        assert arrivals[..n][i] == arrivals[i];
      }
    }
  }

  lemma {:induction false} ConvertConcat(a: seq<Arrival>, b: seq<Arrival>)
    ensures Convert(a + b) == Convert(a) + Convert(b)
  {
    hide RrToRecord;
    if b == [] {
      assert a + b == a;
    } else {
      assert (a + b)[..|a + b| - 1] == a + b[..|b| - 1];
      ConvertConcat(a, b[..|b| - 1]);
    }
  }

  // ----- what a transfer says about a zone -------------------------------------

  /** The owner names of the zone are legal ones. */
  ghost predicate Legal(z: Zone) {
    forall rr :: rr in z ==> IsOwnerName(rr.name)
  }

  /** The arrivals enumerate the zone, each record once, in any order. */
  ghost predicate Enumerates(body: seq<Arrival>, z: Zone) {
    && (forall i :: 0 <= i < |body| ==> Look(z, body[i].rr) == Some(body[i].ttl))
    && (forall rr :: rr in z ==> exists i :: 0 <= i < |body| && body[i].rr == rr)
    && (forall i, j :: 0 <= i < j < |body| ==> body[i].rr != body[j].rr)
  }

  /** The record list is what a transfer of the zone yields. */
  ghost predicate Snapshot(recs: seq<Record>, z: Zone) {
    exists body :: Enumerates(body, z) && recs == Convert(body)
  }

  /** A successful transfer of a zone between its SOAs gives a snapshot of it. */
  lemma TransferIsSnapshot(z: Zone, body: seq<Arrival>, soa: Arrival)
    requires Enumerates(body, z) && soa.rr.data.Authority?
    ensures Bracketed([soa] + body + [soa])
    ensures Snapshot(Convert([soa] + body + [soa]), z)
  {
    ConvertConcat([soa] + body, [soa]);
    ConvertConcat([soa], body);
    assert Convert([soa]) == [];
    assert Convert([soa] + body + [soa]) == Convert(body);
  }

  /** A snapshot holds a record exactly when the zone holds a resource record shown that way. */
  lemma SnapshotExact(recs: seq<Record>, z: Zone, r: Record)
    requires Snapshot(recs, z)
    ensures r in recs <==> exists rr :: rr in z && RrToRecord(rr, z[rr]) == Some(r)
  {
    hide RrToRecord;
    var body: seq<Arrival> :| Enumerates(body, z) && recs == Convert(body);
    ConvertExact(body, r);
    if r in recs {
      var i :| 0 <= i < |body| && RrToRecord(body[i].rr, body[i].ttl) == Some(r);
      assert Look(z, body[i].rr) == Some(body[i].ttl);
    }
    if rr :| rr in z && RrToRecord(rr, z[rr]) == Some(r) {
      var i :| 0 <= i < |body| && body[i].rr == rr;
      assert Look(z, body[i].rr) == Some(body[i].ttl);
    }
  }

  /** Record data that reads back as an ownership marker. */
  predicate OwnedData(d: RData) {
    d.Text? && DecodeOwnership("\"" + Concat(d.chunks) + "\"").Some?
  }

  /** The name a record of a legal zone is listed under, and back. */
  lemma ListedName(rr: RR, name: string)
    requires IsOwnerName(rr.name) && name != ""
    ensures NormalizeName(TrimDot(Lower(rr.name))) == name <==> Settled(name) && Lowered(name) && rr.name == name + "."
  {
    LowerFixed(rr.name);
    OwnerNameShape(rr.name);
    if rr.name != "." {
      var n := TrimDot(rr.name);
      SettledWire(n);
      assert rr.name == n + ".";
      if rr.name == name + "." {
        assert (n + ".")[..|n|] == n && (name + ".")[..|name|] == name;
      }
    } else {
      assert NormalizeName("") == "";
      assert name + "." != "." by { assert |name + "."| > 1; }
    }
  }

  /** The same for the root too: a legal record is listed under the name whose wire form it has. */
  lemma ListedAt(rr: RR, name: string)
    requires IsOwnerName(rr.name)
    ensures NormalizeName(TrimDot(Lower(rr.name))) == name <==> Normal(name) && rr.name == Wire(name)
  {
    hide NormalizeName, IsOwnerName, Wire;
    if name == "" {
      RootListed(rr);
    } else {
      ListedName(rr, name);
      if Settled(name) && Lowered(name) {
        SettledWire(name);
      }
    }
  }

  lemma RootListed(rr: RR)
    requires IsOwnerName(rr.name)
    ensures NormalizeName(TrimDot(Lower(rr.name))) == "" <==> rr.name == Wire("")
  {
    LowerFixed(rr.name);
    OwnerNameShape(rr.name);
    assert Wire("") == ".";
    if rr.name != "." {
      SettledWire(TrimDot(rr.name));
    }
  }
}

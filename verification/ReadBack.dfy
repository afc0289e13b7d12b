/** What a transfer shows of a zone: read-back values turn into the stored data again, and
    the listing of a key is its record set. */
module ReadBack {
  import opened Text
  import opened Records
  import opened Endpoints
  import opened DnsServer
  import opened Update
  import opened Axfr
  import opened Listing

  /** Record data pointing at the root, whose name reads back as nothing. */
  predicate RootHost(d: RData) {
    match d
    case Alias(h) => h == "."
    case Server(h) => h == "."
    case Mail(_, h) => h == "."
    case _ => false
  }

  /** The text shown for record data. */
  function ValueOf(d: RData): string {
    match Shown(d)
    case None => ""
    case Some((_, v)) => v
  }

  // ----- canonical form, stored form, shown form -------------------------------

  /** A canonical host is its own wire form; unless it is the root, the name it is shown as has
      that same canonical form. */
  lemma CanonicalHost(x: string)
    requires IsToken(x) && IsHost(Fqdn(Lower(x)))
    ensures var v := Fqdn(Lower(x));
            && Wire(v) == v && Lowered(v) && IsOwnerName(v)
            && (v != "." ==> var h := TrimDot(v); IsToken(h) && Lower(h) == h && Fqdn(h) == v && TrimDot(Lower(v)) == h)
  {
    var v := Fqdn(Lower(x));
    FqdnWire(x);
    if v != "." {
      HostShown(v);
    }
  }

  lemma FqdnWire(x: string)
    ensures var v := Fqdn(Lower(x)); Wire(v) == v && Lowered(v) && EndsInDot(v)
  {
    var v := Fqdn(Lower(x));
    assert Lowered(v) && EndsInDot(v);
    LowerFixed(v);
  }

  lemma HostShown(v: string)
    requires IsOwnerName(v) && IsToken(v) && v != "."
    ensures var h := TrimDot(v); IsToken(h) && Lower(h) == h && Fqdn(h) == v && TrimDot(Lower(v)) == h
  {
    hide IsOwnerName, Wire;
    assert EndsInDot(v) && Lowered(v) by { OwnerNameDotted(v); }
    OwnerNameShape(v);
    LowerFixed(v);
    var h := TrimDot(v);
    LowerFixed(h);
    assert h + "." == v;
    assert IsToken(h);
  }

  lemma {:induction false} StripZerosNumber(p: string)
    requires IsPreference(p)
    ensures IsPreference(StripZeros(p)) && StripZeros(StripZeros(p)) == StripZeros(p) && IsToken(StripZeros(p))
  {
    hide NumberOf;
    if |p| > 1 && p[0] == '0' {
      LeadingZero(p);
      StripZerosNumber(p[1..]);
    }
  }

  lemma {:induction false} LeadingZero(p: string)
    requires p != "" && p[0] == '0'
    ensures NumberOf(p) == NumberOf(p[1..])
  {
    if |p| > 1 {
      var n := |p| - 1;
      LeadingZero(p[..n]);
      assert p[1..][..n - 1] == p[..n][1..];
    }
  }

  lemma LowerToken(x: string)
    requires IsToken(x)
    ensures IsToken(Lower(x)) && IsToken(Fqdn(Lower(x)))
  {
  }

  /** What is stored for a target: the address in lower case, or the qualified host in lower case. */
  lemma StoredData(t: RType, a: string, x: string, b: string, d: RData)
    requires IsBlank(a) && IsBlank(b) && x != "" && !IsSpace(x[0]) && !IsSpace(x[|x| - 1])
    requires ParseData(t, CanonicalRdata(t, a + x + b)) == Some(d)
    ensures t.A? ==> d == Address4(Lower(x))
    ensures t.AAAA? ==> d == Address6(Lower(x))
    ensures t.CNAME? ==> d == Alias(if x[|x| - 1] == '.' then Lower(x) else Lower(x) + ".")
    ensures t.NS? ==> d == Server(if x[|x| - 1] == '.' then Lower(x) else Lower(x) + ".")
  {
    hide CanonicalRdata, Wire, IsOwnerName, IsVerbatim, Fields;
    CanonicalMeans(t, a, x, b);
    FqdnWire(x);
    assert Lower(x)[|x| - 1] == '.' <==> x[|x| - 1] == '.';
    assert Fqdn(Lower(x)) == if x[|x| - 1] == '.' then Lower(x) else Lower(x) + ".";
  }

  /** For an MX target: its preference as a number without leading zeros, and its host. */
  lemma StoredMail(a: string, pref: string, gap: string, host: string, b: string, d: RData)
    requires IsBlank(a) && IsBlank(b) && IsBlank(gap) && gap != "" && IsToken(pref) && IsToken(host)
    requires ParseData(MX, CanonicalRdata(MX, a + (pref + gap + host) + b)) == Some(d)
    ensures d.Mail? && d.exchange == (if host[|host| - 1] == '.' then Lower(host) else Lower(host) + ".")
    ensures IsPreference(d.pref) && NumberOf(d.pref) == NumberOf(pref) && (d.pref[0] != '0' || d.pref == "0")
  {
    hide CanonicalRdata, Wire, IsOwnerName, IsVerbatim, Fields, NumberOf, Lower;
    var dotted := if host[|host| - 1] == '.' then Lower(host) else Lower(host) + ".";
    CanonicalMailMeans(a, pref, gap, host, b);
    assert dotted == Fqdn(Lower(host)) by { LowerEnd(host); }
    LowerToken(host);
    FieldsOfTwo(pref, dotted);
    FqdnWire(host);
    StripZerosNumber(pref);
    StripZerosSame(pref);
  }

  lemma LowerEnd(s: string)
    requires s != ""
    ensures |Lower(s)| == |s| && (Lower(s)[|s| - 1] == '.' <==> s[|s| - 1] == '.')
  {
  }

  lemma {:induction false} StripZerosSame(p: string)
    requires IsNumber(p)
    ensures NumberOf(StripZeros(p)) == NumberOf(p)
    ensures StripZeros(p) != "" && (StripZeros(p)[0] != '0' || StripZeros(p) == "0")
  {
    hide NumberOf;
    if |p| > 1 && p[0] == '0' {
      LeadingZero(p);
      StripZerosSame(p[1..]);
    }
  }

  /** What is shown for stored data: hosts in lower case without their dot, TXT chunks joined in quotes. */
  lemma ShownData(h: string, p: string, a: string, b: string)
    ensures h == "WWW.Test." ==> Shown(Alias(h)) == Some((CNAME, "www.test"))
    ensures h == "WWW.Test." ==> Shown(Server(h)) == Some((NS, "www.test"))
    ensures h == "WWW.Test." ==> Shown(Mail(p, h)) == Some((MX, p + " " + "www.test"))
    ensures Shown(Text([a, b])) == Some((TXT, "\"" + (a + b) + "\""))
    ensures Shown(Address4(a)) == Some((A, a)) && Shown(Address6(a)) == Some((AAAA, a))
  {
    if h == "WWW.Test." {
      assert Lower(h) == "www.test.";
      assert TrimDot("www.test.") == "www.test";
    }
    assert [a, b][1..] == [b] && [b][1..] == [];
    assert Concat([b]) == b + Concat([]) && b + "" == b;
    assert Concat([a, b]) == a + Concat([b]);
  }

  /** Canonicalising what the read path shows gives the stored data back, except for the root. */
  lemma Recanonical(t: RType, target: string, d: RData)
    requires IsData(t) && ParseData(t, CanonicalRdata(t, target)) == Some(d)
    ensures ParseData(t, CanonicalRdata(t, ValueOf(d))) == Some(d) <==> !RootHost(d)
  {
    match t {
      case A => RecanonicalAddress(target);
      case AAAA => RecanonicalAddress(target);
      case MX => RecanonicalMail(target, d);
      case _ => RecanonicalHost(t, target, d);
    }
  }

  lemma RecanonicalAddress(target: string)
    requires IsToken(Lower(TrimSpace(target)))
    ensures Lower(TrimSpace(Lower(TrimSpace(target)))) == Lower(TrimSpace(target))
  {
    hide TrimSpace;
    TrimToken(Lower(TrimSpace(target)));
    LowerFixed(TrimSpace(target));
    LowerFixed(Lower(TrimSpace(target)));
  }

  lemma FqdnToken(s: string)
    requires s != "" && IsToken(Fqdn(Lower(s)))
    ensures IsToken(s)
  {
    assert forall i :: 0 <= i < |s| ==> Fqdn(Lower(s))[i] == LowerChar(s[i]);
  }

  lemma RecanonicalHost(t: RType, target: string, d: RData)
    requires (t.CNAME? || t.NS?) && ParseData(t, CanonicalRdata(t, target)) == Some(d)
    ensures ParseData(t, CanonicalRdata(t, ValueOf(d))) == Some(d) <==> !RootHost(d)
  {
    hide TrimSpace, IsOwnerName, Wire, Fqdn;
    var s := TrimSpace(target);
    var v := Fqdn(Lower(s));
    assert !IsToken("");
    assert v == CanonicalRdata(t, target);
    assert IsToken(s) by { FqdnToken(s); }
    CanonicalHost(s);
    if v != "." {
      TrimToken(TrimDot(v));
    } else {
      assert Lower(v) == ".";
      assert TrimDot(Lower(v)) == "";
      assert TrimSpace("") == "" by { EmptyTrims(); }
    }
  }

  lemma EmptyTrims()
    ensures TrimSpace("") == ""
  {
  }

  lemma RecanonicalMail(target: string, d: RData)
    requires ParseData(MX, CanonicalRdata(MX, target)) == Some(d)
    ensures ParseData(MX, CanonicalRdata(MX, ValueOf(d))) == Some(d) <==> !RootHost(d)
  {
    hide TrimSpace, IsOwnerName, Fields, Fqdn, StripZeros, Wire;
    var s := TrimSpace(target);
    var parts := Fields(s);
    FieldsOfNothing();
    assert s != "" && |parts| == 2;
    FieldsAreTokens(s);
    LowerToken(parts[1]);
    var p, host := parts[0], Fqdn(Lower(parts[1]));
    FieldsOfTwo(p, host);
    CanonicalHost(parts[1]);
    StripZerosNumber(p);
    var q := StripZeros(p);
    assert d == Mail(q, host);
    if host != "." {
      var h := TrimDot(host);
      TrimTwoTokens(q, h);
      FieldsOfTwo(q, h);
      FieldsOfTwo(q, host);
      assert ValueOf(d) == q + " " + h && q + " " + h != "";
      assert CanonicalRdata(MX, ValueOf(d)) == q + " " + host;
    } else {
      RootMail(q);
    }
  }

  lemma RootMail(q: string)
    requires IsToken(q)
    ensures CanonicalRdata(MX, ValueOf(Mail(q, "."))) == "" && ParseData(MX, "") == None
  {
    hide Fqdn;
    assert Lower(".") == ".";
    var v := q + " " + "";
    assert ValueOf(Mail(q, ".")) == v;
    assert v[0] == q[0] && v[..|q|] == q && v[|q|] == ' ' && |v| == |q| + 1;
    assert TrimLeft(v) == v;
    TrimToken(q);
    assert TrimRight(v) == TrimRight(q) == q;
    FieldsOfToken(q);
  }

  // ----- a listing against the zone --------------------------------------------

  /** The data arriving for (name, type), in transfer order. */
  function Select(body: seq<Arrival>, name: string, t: RType): seq<RData> {
    if body == [] then []
    else
      var n := |body| - 1;
      Select(body[..n], name, t) + (if InSet(body[n].rr, name, t) then [body[n].rr.data] else [])
  }

  function ShowAll(ds: seq<RData>): seq<string> {
    seq(|ds|, i requires 0 <= i < |ds| => ValueOf(ds[i]))
  }

  lemma {:induction false} SelectShown(body: seq<Arrival>, name: string, t: RType)
    requires Normal(name) && IsData(t)
    requires forall i :: 0 <= i < |body| ==> IsOwnerName(body[i].rr.name)
    ensures ValuesAt(Convert(body), (name, t)) == ShowAll(Select(body, Wire(name), t))
  {
    hide NormalizeName, IsOwnerName, Normal, Wire, RrToRecord, ValuesAt, KeyOf, ValueOf, InSet;
    if body == [] {
      NoValues((name, t));
    } else {
      var n := |body| - 1;
      SelectShown(body[..n], name, t);
      var r := RrToRecord(body[n].rr, body[n].ttl);
      ArrivalKey(body[n].rr, body[n].ttl, name, t);
      var before := Convert(body[..n]);
      if r.Some? {
        PrefixSnoc(before, r.value);
      } else {
        assert before + [] == before;
      }
      assert Select(body, Wire(name), t) == Select(body[..n], Wire(name), t)
        + (if InSet(body[n].rr, Wire(name), t) then [body[n].rr.data] else []);
    }
  }

  lemma NoValues(k: Key)
    ensures ValuesAt([], k) == []
  {
  }

  /** An arrival is listed under a key exactly when it belongs to the key's record set. */
  lemma ArrivalKey(rr: RR, ttl: int, name: string, t: RType)
    requires Normal(name) && IsData(t) && IsOwnerName(rr.name)
    ensures var r := RrToRecord(rr, ttl);
            && (r.Some? && KeyOf(r.value) == (name, t) <==> InSet(rr, Wire(name), t))
            && (r.Some? ==> r.value.value == ValueOf(rr.data))
  {
    hide NormalizeName, IsOwnerName, Wire, Normal;
    ListedAt(rr, name);
  }

  lemma {:induction false} SelectExact(body: seq<Arrival>, name: string, t: RType, d: RData)
    ensures d in Select(body, name, t) <==> TypeOf(d) == t && exists i :: 0 <= i < |body| && body[i].rr == RR(name, d)
  {
    if body != [] {
      var n := |body| - 1;
      SelectExact(body[..n], name, t, d);
      if TypeOf(d) == t {
        if i :| 0 <= i < |body| && body[i].rr == RR(name, d) && i < n {
          assert body[..n][i].rr == RR(name, d);
        }
        if i :| 0 <= i < n && body[..n][i].rr == RR(name, d) {
          assert body[i].rr == RR(name, d);
        }
      }
    }
  }

  lemma {:induction false} SelectUnique(body: seq<Arrival>, name: string, t: RType)
    requires forall i, j :: 0 <= i < j < |body| ==> body[i].rr != body[j].rr
    ensures Unique(Select(body, name, t))
  {
    hide Unique;
    if body == [] {
      NoneUnique<RData>();
    } else {
      var n := |body| - 1;
      SelectUnique(body[..n], name, t);
      if InSet(body[n].rr, name, t) {
        SelectExact(body[..n], name, t, body[n].rr.data);
        assert body[n].rr == RR(name, body[n].rr.data);
        UniqueSnoc(Select(body[..n], name, t), body[n].rr.data);
      } else {
        assert Select(body, name, t) == Select(body[..n], name, t);
      }
    }
  }

  /** The listed targets of a key are its record set: each stored record once, as it is shown. */
  lemma TargetsAreRRset(recs: seq<Record>, z: Zone, name: string, t: RType) returns (ds: seq<RData>)
    requires Legal(z) && Snapshot(recs, z) && Normal(name) && IsData(t)
    ensures Unique(ds) && (forall d :: d in ds <==> d in RRset(z, Wire(name), t))
    ensures ValuesAt(recs, (name, t)) == ShowAll(ds)
  {
    hide IsOwnerName, Normal, Wire, ValuesAt, Convert;
    var body: seq<Arrival> :| Enumerates(body, z) && recs == Convert(body);
    ds := Select(body, Wire(name), t);
    forall i | 0 <= i < |body| ensures IsOwnerName(body[i].rr.name) {
      assert Look(z, body[i].rr).Some?;
    }
    SelectShown(body, name, t);
    SelectUnique(body, Wire(name), t);
    forall d ensures d in ds <==> d in RRset(z, Wire(name), t) {
      SelectExact(body, Wire(name), t, d);
      InRRset(z, Wire(name), t, d);
      if i :| 0 <= i < |body| && body[i].rr == RR(Wire(name), d) {
        assert Look(z, body[i].rr).Some?;
      }
    }
  }

  /** Transferred names survive being normalised twice, so orphan detection and listing agree. */
  lemma TransferredNames(recs: seq<Record>, z: Zone, r: Record)
    requires Legal(z) && Snapshot(recs, z) && r in recs
    ensures NormalizeName(NormalizeName(r.name)) == NormalizeName(r.name)
  {
    hide RrToRecord, IsOwnerName;
    SnapshotExact(recs, z, r);
    var rr :| rr in z && RrToRecord(rr, z[rr]) == Some(r);
    NameTwice(rr.name);
  }

  lemma NameTwice(w: string)
    requires IsOwnerName(w)
    ensures var n := TrimDot(Lower(w)); NormalizeName(NormalizeName(n)) == NormalizeName(n)
  {
    LowerFixed(w);
    OwnerNameShape(w);
    if w != "." {
      SettledWire(TrimDot(w));
    }
  }
}

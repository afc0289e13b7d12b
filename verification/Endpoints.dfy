/** Endpoints to flat records: `endpointToRecords`, `canonicalRdata`, `ownerFromEndpoint`. */
module Endpoints {
  import opened Text
  import opened Records

  /** The options the change-set builder reads. */
  datatype Config = Config(axfrEnabled: bool, defaultTTL: int, minTTL: int)

  /** `ownerFromEndpoint`: the owner label, unless missing or empty. */
  function OwnerOf(e: Endpoint): Option<string> {
    if "owner" in e.labels && e.labels["owner"] != "" then Some(e.labels["owner"]) else None
  }

  /** The managed type an endpoint's record type spells, in any case. */
  function DataType(recordType: string): (t: Option<RType>)
    ensures t.Some? ==> IsData(t.value)
  {
    var s := Upper(recordType);
    if s == "A" then Some(A)
    else if s == "AAAA" then Some(AAAA)
    else if s == "CNAME" then Some(CNAME)
    else if s == "NS" then Some(NS)
    else if s == "MX" then Some(MX)
    else None
  }

  /** `canonicalRdata`: a target in zone-file form, or "" when it has none. */
  function CanonicalRdata(t: RType, target: string): string {
    var s := TrimSpace(target);
    if s == "" then ""
    else match t
      case A | AAAA => Lower(s)
      case CNAME | NS => Fqdn(Lower(s))
      case MX =>
        var parts := Fields(s);
        if |parts| != 2 then "" else parts[0] + " " + Fqdn(Lower(parts[1]))
      case _ => ""
  }

  /** The TTL to use: never below the minimum, and a usable request is kept. */
  function ClampTTL(cfg: Config, ttl: int): (r: int)
    ensures r >= cfg.minTTL && (0 < ttl && cfg.minTTL <= ttl ==> r == ttl)
    ensures ttl <= 0 && cfg.minTTL <= cfg.defaultTTL ==> r == cfg.defaultTTL
    ensures (0 < ttl && ttl < cfg.minTTL) || (ttl <= 0 && cfg.defaultTTL < cfg.minTTL) ==> r == cfg.minTTL
  {
    var t := if ttl <= 0 then cfg.defaultTTL else ttl;
    if t < cfg.minTTL then cfg.minTTL else t
  }

  function TargetRecords(name: string, t: RType, ttl: int, targets: seq<string>): seq<Record> {
    if targets == [] then []
    else
      var n := |targets| - 1;
      var v := CanonicalRdata(t, targets[n]);
      TargetRecords(name, t, ttl, targets[..n]) + (if v == "" then [] else [Record(name, t, ttl, v)])
  }

  /** The records an endpoint stands for; none if its type is unsupported. */
  function RecordsOf(cfg: Config, e: Endpoint): seq<Record> {
    match DataType(e.recordType)
    case None => []
    case Some(t) => TargetRecords(NormalizeName(e.dnsName), t, ClampTTL(cfg, e.recordTTL), e.targets)
  }

  /** `endpointToRecords`. */
  method EndpointToRecords(cfg: Config, e: Endpoint) returns (out: seq<Record>)
    ensures out == RecordsOf(cfg, e)
  {
    if e.targets == [] { return []; }
    var t := DataType(e.recordType);
    if t.None? { return []; }
    var ttl := e.recordTTL;
    if ttl <= 0 { ttl := cfg.defaultTTL; }
    if ttl < cfg.minTTL { ttl := cfg.minTTL; }
    var name := NormalizeName(e.dnsName);
    out := [];
    for i := 0 to |e.targets|
      invariant out == TargetRecords(name, t.value, ttl, e.targets[..i])
    {
      assert e.targets[..i + 1][..i] == e.targets[..i];
      var v := CanonicalRdata(t.value, e.targets[i]);
      if v != "" {
        out := out + [Record(name, t.value, ttl, v)];
      }
    }
    assert e.targets[..|e.targets|] == e.targets;
  }

  lemma LastOrBefore(targets: seq<string>)
    requires targets != []
    ensures forall x :: x in targets <==> x in targets[..|targets| - 1] || x == targets[|targets| - 1]
  {
    assert targets == targets[..|targets| - 1] + [targets[|targets| - 1]];
  }

  /** The records are exactly the targets that have a canonical form, all under the endpoint's
      normalised name and type with one clamped TTL. */
  lemma {:induction false} TargetRecordsExact(name: string, t: RType, ttl: int, targets: seq<string>, r: Record)
    ensures r in TargetRecords(name, t, ttl, targets)
            <==> r.name == name && r.rtype == t && r.ttl == ttl && r.value != ""
                 && exists x :: x in targets && r.value == CanonicalRdata(t, x)
  {
    hide CanonicalRdata;
    if targets != [] {
      var n := |targets| - 1;
      TargetRecordsExact(name, t, ttl, targets[..n], r);
      LastOrBefore(targets);
      var v := CanonicalRdata(t, targets[n]);
      assert r in TargetRecords(name, t, ttl, targets) <==>
             r in TargetRecords(name, t, ttl, targets[..n]) || (v != "" && r == Record(name, t, ttl, v));
      if x :| x in targets && r.value == CanonicalRdata(t, x) && x != targets[n] {
        assert x in targets[..n];
      }
    }
  }

  /** All records of an endpoint share its normalised name, its type and its TTL. */
  lemma RecordsShareKey(cfg: Config, e: Endpoint, r: Record)
    requires r in RecordsOf(cfg, e)
    ensures DataType(e.recordType) == Some(r.rtype) && IsData(r.rtype)
    ensures r.name == NormalizeName(e.dnsName) && r.ttl == ClampTTL(cfg, e.recordTTL)
    ensures r.value != "" && exists x :: x in e.targets && r.value == CanonicalRdata(r.rtype, x)
  {
    TargetRecordsExact(NormalizeName(e.dnsName), DataType(e.recordType).value, ClampTTL(cfg, e.recordTTL), e.targets,
      r);
  }

  /** Which spellings, in any case, name which type. */
  lemma DataTypeMeans(spelling: string)
    ensures DataType(spelling) == Some(A) <==> Upper(spelling) == "A"
    ensures DataType(spelling) == Some(AAAA) <==> Upper(spelling) == "AAAA"
    ensures DataType(spelling) == Some(CNAME) <==> Upper(spelling) == "CNAME"
    ensures DataType(spelling) == Some(NS) <==> Upper(spelling) == "NS"
    ensures DataType(spelling) == Some(MX) <==> Upper(spelling) == "MX"
  {
    hide Upper;
    assert |"A"| == 1 && |"AAAA"| == 4 && |"CNAME"| == 5 && "NS"[0] != "MX"[0];
  }

  /** The owner is the label "owner", and an empty one is none. */
  lemma OwnerMeans(e: Endpoint, owner: string)
    ensures OwnerOf(e) == Some(owner) <==> "owner" in e.labels && e.labels["owner"] == owner && owner != ""
  {
  }

  /** White space around a target does not matter, and neither does its case: host names and addresses
      are lower-cased, and a host name ends in one dot that may be left out. */
  lemma CanonicalMeans(t: RType, a: string, x: string, b: string)
    requires IsBlank(a) && IsBlank(b) && x != "" && !IsSpace(x[0]) && !IsSpace(x[|x| - 1])
    ensures t.A? || t.AAAA? ==> CanonicalRdata(t, a + x + b) == Lower(x)
    ensures t.CNAME? || t.NS? ==>
              CanonicalRdata(t, a + x + b) == if x[|x| - 1] == '.' then Lower(x) else Lower(x) + "."
  {
    hide TrimSpace, Fields;
    TrimSpaceMeans(a, x, b);
    assert Lower(x)[|x| - 1] == '.' <==> x[|x| - 1] == '.';
  }

  /** An MX target is two words; the preference is kept as it is, the host treated like any other. */
  lemma CanonicalMailMeans(a: string, pref: string, gap: string, host: string, b: string)
    requires IsBlank(a) && IsBlank(b) && IsBlank(gap) && gap != "" && IsToken(pref) && IsToken(host)
    ensures CanonicalRdata(MX, a + (pref + gap + host) + b) ==
            pref + " " + (if host[|host| - 1] == '.' then Lower(host) else Lower(host) + ".")
  {
    hide TrimSpace, Fields;
    var x := pref + gap + host;
    assert x[0] == pref[0] && x[|x| - 1] == host[|host| - 1];
    TrimSpaceMeans(a, x, b);
    FieldsWord(pref, gap, host);
    FieldsWord(host, "", "");
    assert host + "" + "" == host;
    FieldsOfNothing();
    assert Lower(host)[|host| - 1] == '.' <==> host[|host| - 1] == '.';
  }
}

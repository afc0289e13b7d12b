/** The values the sidecar moves around: record types, flat records, endpoints,
    the resource records a server stores, and an option type. */
module Records {
  import opened Text

  datatype Option<+T> = None | Some(value: T)

  /** Record types. The flat record list only ever carries the first six;
      `OtherType` is whatever else a marker label may spell. */
  datatype RType = A | AAAA | CNAME | NS | MX | TXT | OtherType(spelling: string)

  /** The five types the sidecar manages. */
  predicate IsData(t: RType) {
    t.A? || t.AAAA? || t.CNAME? || t.NS? || t.MX?
  }

  /** The type's name in lower case, as it appears in a marker label. */
  function TypeLabel(t: RType): string {
    match t
    case A => "a"
    case AAAA => "aaaa"
    case CNAME => "cname"
    case NS => "ns"
    case MX => "mx"
    case TXT => "txt"
    case OtherType(s) => s
  }

  function TypeOfLabel(s: string): RType {
    if s == "a" then A
    else if s == "aaaa" then AAAA
    else if s == "cname" then CNAME
    else if s == "ns" then NS
    else if s == "mx" then MX
    else if s == "txt" then TXT
    else OtherType(s)
  }

  /** The type's name in upper case, as endpoints spell it. */
  function TypeName(t: RType): string {
    match t
    case A => "A"
    case AAAA => "AAAA"
    case CNAME => "CNAME"
    case NS => "NS"
    case MX => "MX"
    case TXT => "TXT"
    case OtherType(s) => s
  }

  /** `dnsop.Record`: the flat form shared by the read and the write path. */
  datatype Record = Record(name: string, rtype: RType, ttl: int, value: string)

  /** An external-dns endpoint; absent labels are an empty map. */
  datatype Endpoint = Endpoint(dnsName: string, targets: seq<string>, recordType: string,
                               recordTTL: int, labels: map<string, string>)

  /** Parsed record data, one constructor per Go type the code distinguishes. */
  datatype RData =
    | Address4(text: string)
    | Address6(text: string)
    | Alias(target: string)
    | Server(host: string)
    | Mail(pref: string, exchange: string)
    | Text(chunks: seq<string>)
    | Authority
    | Unsupported(kind: string)

  function TypeOf(d: RData): RType {
    match d
    case Address4(_) => A
    case Address6(_) => AAAA
    case Alias(_) => CNAME
    case Server(_) => NS
    case Mail(_, _) => MX
    case Text(_) => TXT
    case Authority => OtherType("soa")
    case Unsupported(k) => OtherType(k)
  }

  /** A resource record without its TTL: what a zone keys on. */
  datatype RR = RR(name: string, data: RData)

  /** Whether the record sits in the RRset (name, type). */
  predicate InSet(rr: RR, name: string, t: RType) {
    rr.name == name && TypeOf(rr.data) == t
  }

  /** No element occurs twice. */
  ghost predicate Unique<T>(s: seq<T>) {
    forall i, j :: 0 <= i < j < |s| ==> s[i] != s[j]
  }

  lemma LabelRoundTrip(t: RType)
    requires IsData(t) || t.TXT?
    ensures TypeOfLabel(TypeLabel(t)) == t
    ensures NoDots(TypeLabel(t)) && Lowered(TypeLabel(t))
  {
    assert "ns"[0] != "mx"[0];
    assert "aaaa"[0] == 'a';
  }

  /** The types' names as DNS spells them, and their marker labels. */
  lemma TypeSpelling(t: RType)
    ensures TypeName(A) == "A" && TypeName(AAAA) == "AAAA" && TypeName(CNAME) == "CNAME"
    ensures TypeName(NS) == "NS" && TypeName(MX) == "MX" && TypeName(TXT) == "TXT"
    ensures IsData(t) ==> TypeLabel(t) == Lower(TypeName(t))
  {
    assert Lower("A") == "a" && Lower("AAAA") == "aaaa" && Lower("CNAME") == "cname";
    assert Lower("NS") == "ns" && Lower("MX") == "mx";
  }

  /** Which record data belongs to which type. */
  lemma TypeOfMeans(d: RData)
    ensures TypeOf(d) == A <==> d.Address4?
    ensures TypeOf(d) == AAAA <==> d.Address6?
    ensures TypeOf(d) == CNAME <==> d.Alias?
    ensures TypeOf(d) == NS <==> d.Server?
    ensures TypeOf(d) == MX <==> d.Mail?
    ensures TypeOf(d) == TXT <==> d.Text?
  {
  }
}

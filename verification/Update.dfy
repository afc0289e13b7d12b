/** `internal/dnsop/update.go`: from prerequisites and changes to an UPDATE message.
    A record whose text `dns.NewRR` cannot parse makes the whole build fail. */
module Update {
  import opened Text
  import opened Records
  import opened DnsServer

  datatype Prereq = NxRRset(name: string, rtype: RType) | YxRRset(name: string, rtype: RType, value: string)

  datatype Change = Add(rec: Record) | Delete(rec: Record)

  predicate IsNumber(s: string) {
    s != "" && forall i :: 0 <= i < |s| ==> '0' <= s[i] <= '9'
  }

  function NumberOf(digits: string): int {
    if digits == "" then 0
    else 10 * NumberOf(digits[..|digits| - 1]) + (digits[|digits| - 1] as int - '0' as int)
  }

  /** An MX preference: decimal, in 16 bits. */
  predicate IsPreference(s: string) {
    IsNumber(s) && NumberOf(s) <= 0xFFFF
  }

  function StripZeros(s: string): string {
    if |s| > 1 && s[0] == '0' then StripZeros(s[1..]) else s
  }

  /** A host name as record data: one plain word, no empty label. */
  predicate IsHost(s: string) {
    IsVerbatim(s) && IsOwnerName(Wire(s))
  }

  /** Text between the quotes of a TXT value; quoting and escapes are outside the model. */
  predicate IsPlain(s: string) {
    forall i :: 0 <= i < |s| ==> s[i] != '\"' && s[i] != '\\'
  }

  /** The data part of `dns.NewRR`. */
  function ParseData(t: RType, value: string): (d: Option<RData>)
    ensures d.Some? ==> TypeOf(d.value) == t
  {
    match t
    case A => if IsVerbatim(value) then Some(Address4(value)) else None
    case AAAA => if IsVerbatim(value) then Some(Address6(value)) else None
    case CNAME => if IsHost(value) then Some(Alias(Wire(value))) else None
    case NS => if IsHost(value) then Some(Server(Wire(value))) else None
    case MX =>
      var parts := Fields(value);
      if |parts| == 2 && IsPreference(parts[0]) && IsHost(parts[1])
      then Some(Mail(StripZeros(parts[0]), Wire(parts[1])))
      else None
    case TXT =>
      if |value| >= 2 && value[0] == '\"' && value[|value| - 1] == '\"' && IsPlain(value[1..|value| - 1])
      then Some(Text([value[1..|value| - 1]]))
      else None
    case OtherType(_) => None
  }

  /** `recordToRR`, without the TTL. The name and the value are spliced into one zone-file line; a
      name that would not come back out of it as itself is not parsed here. */
  function ParseRR(name: string, t: RType, value: string): (rr: Option<RR>)
    ensures rr.Some? ==> InSet(rr.value, Wire(name), t) && IsOwnerName(rr.value.name)
  {
    if IsOwnerName(Wire(name)) && IsVerbatim(Wire(name)) && ParseData(t, value).Some?
    then Some(RR(Wire(name), ParseData(t, value).value))
    else None
  }

  function RecordRR(r: Record): Option<RR> {
    ParseRR(r.name, r.rtype, r.value)
  }

  /** `buildPrereqRR`. */
  function PrereqGuard(p: Prereq): Option<Guard> {
    match p
    case NxRRset(name, t) => if t.OtherType? then None else Some(Absent(Wire(name), t))
    case YxRRset(name, t, value) =>
      if value == "" || ParseRR(name, t, value).None? then None
      else Some(Present(ParseRR(name, t, value).value))
  }

  function ChangeEdit(c: Change): Option<Edit> {
    if RecordRR(c.rec).None? then None
    else match c
      case Add(r) => Some(Put(RecordRR(r).value, r.ttl))
      case Delete(r) => Some(Remove(RecordRR(r).value))
  }

  /** Every prerequisite and every change can be turned into a resource record. */
  predicate Buildable(prereqs: seq<Prereq>, changes: seq<Change>) {
    && (forall i :: 0 <= i < |prereqs| ==> PrereqGuard(prereqs[i]).Some?)
    && (forall i :: 0 <= i < |changes| ==> ChangeEdit(changes[i]).Some?)
  }

  /** The message for buildable input: one guard per prerequisite, one edit per change, in order. */
  function MessageOf(prereqs: seq<Prereq>, changes: seq<Change>): Message
    requires Buildable(prereqs, changes)
  {
    Message(seq(|prereqs|, i requires 0 <= i < |prereqs| => PrereqGuard(prereqs[i]).value),
            seq(|changes|, i requires 0 <= i < |changes| => ChangeEdit(changes[i]).value))
  }

  /** `BuildUpdateMsg`. */
  method BuildUpdateMsg(prereqs: seq<Prereq>, changes: seq<Change>) returns (m: Option<Message>)
    ensures m.Some? <==> Buildable(prereqs, changes)
    ensures m.Some? ==> m.value == MessageOf(prereqs, changes)
  {
    hide PrereqGuard, ChangeEdit;
    var answer := BuildGuards(prereqs);
    if answer.None? { return None; }
    var ns := BuildEdits(changes);
    if ns.None? { return None; }
    m := Some(Message(answer.value, ns.value));
  }

  /** The first loop of `BuildUpdateMsg`: the prerequisite section. */
  method BuildGuards(prereqs: seq<Prereq>) returns (answer: Option<seq<Guard>>)
    ensures answer.None? <==> exists i :: 0 <= i < |prereqs| && PrereqGuard(prereqs[i]).None?
    ensures answer.Some? ==> |answer.value| == |prereqs|
                             && forall i :: 0 <= i < |prereqs| ==> PrereqGuard(prereqs[i]) == Some(answer.value[i])
  {
    hide PrereqGuard;
    var out: seq<Guard> := [];
    for i := 0 to |prereqs|
      invariant |out| == i && forall j :: 0 <= j < i ==> PrereqGuard(prereqs[j]) == Some(out[j])
    {
      var g := PrereqGuard(prereqs[i]);
      if g.None? { return None; }
      out := out + [g.value];
    }
    return Some(out);
  }

  /** The second loop of `BuildUpdateMsg`: the update section. */
  method BuildEdits(changes: seq<Change>) returns (ns: Option<seq<Edit>>)
    ensures ns.None? <==> exists i :: 0 <= i < |changes| && ChangeEdit(changes[i]).None?
    ensures ns.Some? ==> |ns.value| == |changes|
    ensures ns.Some? ==> forall i :: 0 <= i < |changes| ==> ChangeEdit(changes[i]) == Some(ns.value[i])
  {
    hide ParseRR;
    var out: seq<Edit> := [];
    for i := 0 to |changes|
      invariant |out| == i && forall j :: 0 <= j < i ==> ChangeEdit(changes[j]) == Some(out[j])
    {
      var rr := RecordRR(changes[i].rec);
      if rr.None? { return None; }
      match changes[i] {
        case Add(r) => out := out + [Put(rr.value, r.ttl)];
        case Delete(_) => out := out + [Remove(rr.value)];
      }
    }
    return Some(out);
  }

  /** A guard is in the message exactly when some prerequisite produced it. */
  lemma GuardOrigin(prereqs: seq<Prereq>, changes: seq<Change>, g: Guard)
    requires Buildable(prereqs, changes)
    ensures g in MessageOf(prereqs, changes).guards <==> exists p :: p in prereqs && PrereqGuard(p) == Some(g)
  {
    var guards := MessageOf(prereqs, changes).guards;
    if g in guards {
      var i :| 0 <= i < |guards| && guards[i] == g;
      assert prereqs[i] in prereqs && PrereqGuard(prereqs[i]) == Some(g);
    }
    if p :| p in prereqs && PrereqGuard(p) == Some(g) {
      var i :| 0 <= i < |prereqs| && prereqs[i] == p;
      assert guards[i] == g;
    }
  }

  /** An edit is in the message exactly when some change produced it. */
  lemma EditOrigin(prereqs: seq<Prereq>, changes: seq<Change>, e: Edit)
    requires Buildable(prereqs, changes)
    ensures e in MessageOf(prereqs, changes).edits <==> exists c :: c in changes && ChangeEdit(c) == Some(e)
  {
    var edits := MessageOf(prereqs, changes).edits;
    if e in edits {
      var i :| 0 <= i < |edits| && edits[i] == e;
      assert changes[i] in changes && ChangeEdit(changes[i]) == Some(e);
    }
    if c :| c in changes && ChangeEdit(c) == Some(e) {
      var i :| 0 <= i < |changes| && changes[i] == c;
      assert edits[i] == e;
    }
  }

  /** What is refused because a zone-file line would not give it back: names, hosts and addresses with white
      space, a comment sign, quotes, parentheses or backslashes. */
  lemma SplicedRefused(name: string, t: RType, value: string, i: nat)
    requires i < |Wire(name)|
    requires var c := Wire(name)[i];
             c == ' ' || c == '\t' || c == '\n' || c == ';' || c == '\"' || c == '(' || c == ')' || c == '\\'
    ensures ParseRR(name, t, value) == None
  {
    hide Wire, IsOwnerName, ParseData;
  }

  /** Preferences are decimal numbers that fit 16 bits. */
  lemma PreferenceMeans(s: string, c: char)
    ensures NumberOf("") == 0 && NumberOf(s + [c]) == 10 * NumberOf(s) + (c as int - 48)
    ensures IsPreference(s) <==>
              s != "" && NumberOf(s) <= 65535 && forall i :: 0 <= i < |s| ==> 48 <= s[i] as int <= 57
  {
    assert (s + [c])[..|s|] == s;
  }
}

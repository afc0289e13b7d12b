/** `endpointsFromRecords`: the read path from a flat record list to managed endpoints. */
module Listing {
  import opened Text
  import opened Records
  import opened Ownership
  import opened Cache

  type Key = (string, RType)

  function KeyOf(r: Record): Key {
    (NormalizeName(r.name), r.rtype)
  }

  /** `matchesDomainFilter`, on a normalised name. */
  predicate Passes(filter: seq<string>, name: string) {
    filter == [] || exists s :: s in filter && (name == s || HasSuffix(name, "." + s))
  }

  /** The record is a marker for this key. */
  predicate Labels(r: Record, k: Key) {
    IsMarker(r) && DecodeOwnershipName(r.name) == Some(k)
  }

  /** The owner the last marker for the key spells. */
  function LabelOf(recs: seq<Record>, k: Key): Option<string> {
    if recs == [] then None
    else
      var n := |recs| - 1;
      if Labels(recs[n], k) then DecodeOwnership(recs[n].value) else LabelOf(recs[..n], k)
  }

  /** The values of the key's records, in list order. */
  function ValuesAt(recs: seq<Record>, k: Key): seq<string> {
    if recs == [] then []
    else
      var n := |recs| - 1;
      ValuesAt(recs[..n], k) + (if KeyOf(recs[n]) == k then [recs[n].value] else [])
  }

  /** The TTL of the key's first record. */
  function FirstTTL(recs: seq<Record>, k: Key): int {
    if recs == [] then 0
    else
      var n := |recs| - 1;
      if ValuesAt(recs[..n], k) == [] then recs[n].ttl else FirstTTL(recs[..n], k)
  }

  /** A data key whose name passes the filter and that has a marker. */
  predicate Managed(filter: seq<string>, recs: seq<Record>, k: Key) {
    !k.1.TXT? && Passes(filter, k.0) && LabelOf(recs, k).Some?
  }

  /** Managed keys of a prefix of the list, in order of first appearance. */
  function KeysIn(filter: seq<string>, recs: seq<Record>, prefix: seq<Record>): seq<Key> {
    if prefix == [] then []
    else
      var n := |prefix| - 1;
      var ks := KeysIn(filter, recs, prefix[..n]);
      var k := KeyOf(prefix[n]);
      if Managed(filter, recs, k) && k !in ks then ks + [k] else ks
  }

  function Keys(filter: seq<string>, recs: seq<Record>): seq<Key> {
    KeysIn(filter, recs, recs)
  }

  function Labelled(zone: string, owner: string): map<string, string> {
    map["owner" := owner, "resource" := "rfc2136/" + zone]
  }

  /** The endpoint for a managed key, from the records of a prefix. */
  function EndpointFor(zone: string, prefix: seq<Record>, k: Key, owner: string): Endpoint {
    Endpoint(k.0, ValuesAt(prefix, k), TypeName(k.1), FirstTTL(prefix, k), Labelled(zone, owner))
  }

  ghost predicate OwnersTable(owned: map<string, map<RType, string>>, recs: seq<Record>) {
    forall k: Key :: (if k.0 in owned && k.1 in owned[k.0] then Some(owned[k.0][k.1]) else None) == LabelOf(recs, k)
  }

  /** First pass: who owns which (name, type). */
  method OwnedTypes(recs: seq<Record>) returns (owned: map<string, map<RType, string>>)
    ensures OwnersTable(owned, recs)
  {
    hide DecodeOwnership, DecodeOwnershipName;
    owned := map[];
    for i := 0 to |recs|
      invariant OwnersTable(owned, recs[..i])
    {
      assert recs[..i + 1][..i] == recs[..i];
      if !recs[i].rtype.TXT? { continue; }
      var owner := DecodeOwnership(recs[i].value);
      if owner.None? { continue; }
      var target := DecodeOwnershipName(recs[i].name);
      if target.None? { continue; }
      var byType := if target.value.0 in owned then owned[target.value.0] else map[];
      owned := owned[target.value.0 := byType[target.value.1 := owner.value]];
    }
    assert recs[..|recs|] == recs;
  }

  /** `endpointsFromRecords`: one endpoint per managed key that has records, in order of first
      appearance, with the key's values in list order and its last marker's owner. */
  method EndpointsFromRecords(filter: seq<string>, zone: string, recs: seq<Record>) returns (out: seq<Endpoint>)
    ensures |out| == |Keys(filter, recs)|
    ensures forall i :: 0 <= i < |out| ==>
              var k := Keys(filter, recs)[i];
              LabelOf(recs, k).Some? && out[i] == EndpointFor(zone, recs, k, LabelOf(recs, k).value)
  {
    hide Filled;
    var owned := OwnedTypes(recs);
    var buckets: map<Key, Endpoint>, order: seq<Key> := map[], [];
    NothingFilled(filter, zone, recs);
    for i := 0 to |recs|
      invariant Filled(filter, zone, recs, recs[..i], buckets, order)
    {
      assert recs[..i + 1] == recs[..i] + [recs[i]];
      buckets, order := Place(filter, zone, recs, owned, recs[i], buckets, order, recs[..i]);
    }
    assert recs[..|recs|] == recs;
    AllFilled(filter, zone, recs, buckets, order);
    out := [];
    for i := 0 to |order|
      invariant |out| == i
      invariant forall j :: 0 <= j < i ==> out[j] == buckets[order[j]]
    {
      out := out + [buckets[order[i]]];
    }
  }

  /** After a prefix of the second pass: its managed keys in order, each with its endpoint so far. */
  ghost predicate Filled(filter: seq<string>, zone: string, recs: seq<Record>, prefix: seq<Record>,
                         buckets: map<Key, Endpoint>, order: seq<Key>) {
    && order == KeysIn(filter, recs, prefix)
    && (forall k :: k in buckets <==> k in order)
    && (forall k :: k in order ==> Managed(filter, recs, k) && ValuesAt(prefix, k) != [])
    && (forall k :: Managed(filter, recs, k) && k !in order ==> ValuesAt(prefix, k) == [])
    && (forall k :: k in order ==> buckets[k] == EndpointFor(zone, prefix, k, LabelOf(recs, k).value))
  }

  lemma NothingFilled(filter: seq<string>, zone: string, recs: seq<Record>)
    ensures Filled(filter, zone, recs, recs[..0], map[], [])
  {
  }

  lemma AllFilled(filter: seq<string>, zone: string, recs: seq<Record>, buckets: map<Key, Endpoint>, order: seq<Key>)
    requires Filled(filter, zone, recs, recs, buckets, order)
    ensures order == Keys(filter, recs)
    ensures forall i :: 0 <= i < |order| ==>
              order[i] in buckets && LabelOf(recs, order[i]).Some?
              && buckets[order[i]] == EndpointFor(zone, recs, order[i], LabelOf(recs, order[i]).value)
  {
    assert forall i :: 0 <= i < |order| ==> order[i] in order;
  }

  lemma PrefixSnoc(prefix: seq<Record>, r: Record)
    ensures forall x: Key :: x != KeyOf(r) ==> ValuesAt(prefix + [r], x) == ValuesAt(prefix, x)
    ensures ValuesAt(prefix + [r], KeyOf(r)) == ValuesAt(prefix, KeyOf(r)) + [r.value]
    ensures forall x: Key :: FirstTTL(prefix + [r], x) == if ValuesAt(prefix, x) == [] then r.ttl
            else FirstTTL(prefix, x)
  {
    hide NormalizeName;
    assert (prefix + [r])[..|prefix|] == prefix;
  }

  /** A record of a key that is not managed changes nothing. */
  lemma FilledSkip(filter: seq<string>, zone: string, recs: seq<Record>, prefix: seq<Record>,
                   buckets: map<Key, Endpoint>, order: seq<Key>, r: Record)
    requires Filled(filter, zone, recs, prefix, buckets, order) && !Managed(filter, recs, KeyOf(r))
    ensures Filled(filter, zone, recs, prefix + [r], buckets, order)
  {
    hide KeyOf, Managed, LabelOf, TypeName, ValuesAt, FirstTTL, Labelled;
    PrefixSnoc(prefix, r);
    assert (prefix + [r])[..|prefix|] == prefix;
  }

  /** A record of a managed key adds its value to the key's endpoint, which it opens if it is the first. */
  lemma FilledAdd(filter: seq<string>, zone: string, recs: seq<Record>, prefix: seq<Record>,
                  buckets: map<Key, Endpoint>, order: seq<Key>, r: Record, ep: Endpoint)
    requires Filled(filter, zone, recs, prefix, buckets, order) && Managed(filter, recs, KeyOf(r))
    requires ep == if KeyOf(r) in buckets then buckets[KeyOf(r)]
                   else Endpoint(KeyOf(r).0, [], TypeName(KeyOf(r).1), r.ttl,
                                 Labelled(zone, LabelOf(recs, KeyOf(r)).value))
    ensures Filled(filter, zone, recs, prefix + [r], buckets[KeyOf(r) := ep.(targets := ep.targets + [r.value])],
                   if KeyOf(r) in buckets then order else order + [KeyOf(r)])
  {
    hide KeyOf, LabelOf, TypeName, ValuesAt, FirstTTL, Labelled, Passes;
    PrefixSnoc(prefix, r);
    assert (prefix + [r])[..|prefix|] == prefix;
  }

  /** One record of the second pass. */
  method Place(filter: seq<string>, zone: string, ghost recs: seq<Record>, owned: map<string, map<RType, string>>,
               r: Record, buckets0: map<Key, Endpoint>, order0: seq<Key>, ghost prefix: seq<Record>)
    returns (buckets: map<Key, Endpoint>, order: seq<Key>)
    requires OwnersTable(owned, recs) && Filled(filter, zone, recs, prefix, buckets0, order0)
    ensures Filled(filter, zone, recs, prefix + [r], buckets, order)
  {
    hide NormalizeName, Passes, Labelled, LabelOf, TypeName, Filled;
    buckets, order := buckets0, order0;
    var k := KeyOf(r);
    var managed := !r.rtype.TXT? && Passes(filter, k.0) && k.0 in owned && r.rtype in owned[k.0];
    assert managed == Managed(filter, recs, k);
    if !managed {
      FilledSkip(filter, zone, recs, prefix, buckets, order, r);
      return;
    }
    ghost var first := Endpoint(k.0, [], TypeName(r.rtype), r.ttl, Labelled(zone, owned[k.0][r.rtype]));
    FilledAdd(filter, zone, recs, prefix, buckets, order, r, if k in buckets then buckets[k] else first);
    if k !in buckets {
      buckets := buckets[k := Endpoint(k.0, [], TypeName(r.rtype), r.ttl, Labelled(zone, owned[k.0][r.rtype]))];
      order := order + [k];
    }
    buckets := buckets[k := buckets[k].(targets := buckets[k].targets + [r.value])];
    assert buckets == buckets0[k := buckets[k]];
  }

  // ----- what the listing means ------------------------------------------------

  /** A name passes an empty filter, and otherwise the domains of the filter and the names below them. */
  lemma PassesIff(filter: seq<string>, name: string)
    ensures Passes(filter, name) <==>
              filter == [] || exists s :: s in filter && (name == s || exists p: string :: name == p + "." + s)
  {
    forall s ensures HasSuffix(name, "." + s) <==> exists p: string :: name == p + "." + s {
      DomainSuffix(name, s);
    }
  }

  /** Sound and complete: a key is listed exactly when its type is not TXT, its name is in the filter or
      there is none, some marker decodes to it and it has a record. */
  lemma ListedExactly(filter: seq<string>, recs: seq<Record>, k: Key)
    ensures k in Keys(filter, recs) <==>
              && !k.1.TXT?
              && (filter == [] || exists s :: s in filter && (k.0 == s || exists p: string :: k.0 == p + "." + s))
              && (exists m :: m in recs && Labels(m, k))
              && (exists r :: r in recs && KeyOf(r) == k)
  {
    hide KeysIn, Passes, LabelOf, Labels, KeyOf;
    ListedIfManaged(filter, recs, recs, k);
    PassesIff(filter, k.0);
    LabelExact(recs, k);
  }

  /** A key is listed exactly when it is managed and has a record. */
  lemma {:induction false} ListedIfManaged(filter: seq<string>, recs: seq<Record>, prefix: seq<Record>, k: Key)
    ensures k in KeysIn(filter, recs, prefix) <==> Managed(filter, recs, k) && exists r :: r in prefix && KeyOf(r) == k
  {
    hide Managed, NormalizeName;
    if prefix != [] {
      var n := |prefix| - 1;
      ListedIfManaged(filter, recs, prefix[..n], k);
      assert prefix == prefix[..n] + [prefix[n]];
    }
  }

  lemma UniqueSnoc<T>(s: seq<T>, x: T)
    requires Unique(s) && x !in s
    ensures Unique(s + [x])
  {
    var r := s + [x];
    forall i, j | 0 <= i < j < |r| ensures r[i] != r[j] {
      assert r[i] == s[i] && s[i] in s;
    }
  }

  /** Non-duplicating: no key is listed twice. */
  lemma {:induction false} ListedOnce(filter: seq<string>, recs: seq<Record>, prefix: seq<Record>)
    ensures Unique(KeysIn(filter, recs, prefix))
  {
    hide Managed, NormalizeName, Unique;
    if prefix == [] {
      NoneUnique<Key>();
    } else {
      var n := |prefix| - 1;
      ListedOnce(filter, recs, prefix[..n]);
      var ks, k := KeysIn(filter, recs, prefix[..n]), KeyOf(prefix[n]);
      if Managed(filter, recs, k) && k !in ks {
        UniqueSnoc(ks, k);
      }
    }
  }

  lemma NoneUnique<T>()
    ensures Unique<T>([])
  {
  }

  /** Keys are listed in the order of their first records: more records only add keys at the end. */
  lemma {:induction false} KeysGrow(filter: seq<string>, recs: seq<Record>, a: seq<Record>, b: seq<Record>)
    ensures KeysIn(filter, recs, a) <= KeysIn(filter, recs, a + b)
  {
    hide Managed, NormalizeName;
    if b == [] {
      assert a + b == a;
    } else {
      assert (a + b)[..|a + b| - 1] == a + b[..|b| - 1];
      KeysGrow(filter, recs, a, b[..|b| - 1]);
    }
  }

  /** The targets come in the order of the records. */
  lemma {:induction false} ValuesConcat(a: seq<Record>, b: seq<Record>, k: Key)
    ensures ValuesAt(a + b, k) == ValuesAt(a, k) + ValuesAt(b, k)
  {
    hide ValuesAt, KeyOf;
    ValuesOfFew(k);
    if b == [] {
      assert a + b == a;
    } else {
      var n := |b| - 1;
      ValuesConcat(a, b[..n], k);
      PrefixSnoc(a + b[..n], b[n]);
      PrefixSnoc(b[..n], b[n]);
      assert a + b == (a + b[..n]) + [b[n]] && b == b[..n] + [b[n]];
    }
  }

  /** One record has one target under its own key and none under others. */
  lemma ValuesOfFew(k: Key)
    ensures ValuesAt([], k) == []
    ensures forall r :: ValuesAt([r], k) == if KeyOf(r) == k then [r.value] else []
  {
    hide KeyOf;
    forall r ensures ValuesAt([r], k) == if KeyOf(r) == k then [r.value] else [] {
      assert [r][..0] == [];
    }
  }

  /** The TTL is that of the key's first record. */
  lemma {:induction false} FirstTTLExact(recs: seq<Record>, k: Key, i: nat)
    requires i < |recs| && KeyOf(recs[i]) == k && forall j :: 0 <= j < i ==> KeyOf(recs[j]) != k
    ensures FirstTTL(recs, k) == recs[i].ttl
  {
    hide KeyOf;
    var n := |recs| - 1;
    if i < n {
      FirstTTLExact(recs[..n], k, i);
      ValuesExact(recs[..n], k, recs[i].value);
      assert recs[..n][i] in recs[..n];
    } else if ValuesAt(recs[..n], k) != [] {
      ValuesExact(recs[..n], k, ValuesAt(recs[..n], k)[0]);
    }
  }

  /** The owner shown is that of the key's last marker. */
  lemma {:induction false} LastLabelExact(recs: seq<Record>, k: Key, i: nat)
    requires i < |recs| && Labels(recs[i], k) && forall j :: i < j < |recs| ==> !Labels(recs[j], k)
    ensures LabelOf(recs, k) == DecodeOwnership(recs[i].value)
  {
    hide Labels, DecodeOwnership;
    var n := |recs| - 1;
    if i < n {
      LastLabelExact(recs[..n], k, i);
    }
  }

  /** The targets are exactly the values of the key's records. */
  lemma {:induction false} ValuesExact(recs: seq<Record>, k: Key, v: string)
    ensures v in ValuesAt(recs, k) <==> exists r :: r in recs && KeyOf(r) == k && r.value == v
  {
    hide NormalizeName;
    if recs != [] {
      var n := |recs| - 1;
      ValuesExact(recs[..n], k, v);
      assert recs == recs[..n] + [recs[n]];
    }
  }

  /** The owner shown is one a marker spells; there is one exactly when there is a marker. */
  lemma {:induction false} LabelExact(recs: seq<Record>, k: Key)
    ensures LabelOf(recs, k).Some? <==> exists r :: r in recs && Labels(r, k)
    ensures LabelOf(recs, k).Some? ==>
              exists r :: r in recs && Labels(r, k) && DecodeOwnership(r.value) == LabelOf(recs, k)
  {
    hide DecodeOwnership, DecodeOwnershipName;
    if recs != [] {
      var n := |recs| - 1;
      LabelExact(recs[..n], k);
      assert recs == recs[..n] + [recs[n]];
    }
  }

  /** With no filter, every marker for a data type is either reported as an orphan or its record
      set is listed, never both. The marker's name must survive being normalised twice, which
      every transferred name does. */
  lemma OrphanOrListed(recs: seq<Record>, r: Record, k: Key)
    requires r in recs && IsMarker(r) && !k.1.TXT?
    requires NormalizeName(NormalizeName(r.name)) == NormalizeName(r.name)
    requires DecodeOwnershipName(r.name) == Some(k)
    ensures IsOrphan(recs, NormalizeName(r.name)) <==> k !in Keys([], recs)
  {
    var m := NormalizeName(r.name);
    DecodeNormal(r.name);
    ListedIfManaged([], recs, recs, k);
    LabelExact(recs, k);
    assert Labels(r, k);
    assert Exists(recs, k.0, k.1) <==> exists s :: s in recs && KeyOf(s) == k by {
      if s :| s in recs && KeyOf(s) == k { assert At(s, k.0, k.1); }
      if s :| s in recs && At(s, k.0, k.1) { assert KeyOf(s) == k; }
    }
  }

  lemma DecodeNormal(name: string)
    requires NormalizeName(NormalizeName(name)) == NormalizeName(name)
    ensures DecodeOwnershipName(NormalizeName(name)) == DecodeOwnershipName(name)
  {
    hide NormalizeName, FirstDot, HasSuffix, TypeOfLabel;
  }
}

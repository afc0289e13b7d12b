/** Listings of two record lists compared: records that say nothing about a key do not change
    its endpoint, and records that arrive in the same order list their keys in the same order. */
module ListingOrder {
  import opened Records
  import opened Ownership
  import opened Listing

  /** The record is data of the key or a marker for it. */
  predicate Concerns(r: Record, k: Key) {
    KeyOf(r) == k || Labels(r, k)
  }

  function Concerning(recs: seq<Record>, k: Key): seq<Record> {
    if recs == [] then []
    else
      var n := |recs| - 1;
      var before := Concerning(recs[..n], k);
      if Concerns(recs[n], k) then before + [recs[n]] else before
  }

  /** The records that the other list has too, in order. */
  function Common(recs: seq<Record>, other: seq<Record>): seq<Record> {
    if recs == [] then []
    else
      var n := |recs| - 1;
      var before := Common(recs[..n], other);
      if recs[n] in other then before + [recs[n]] else before
  }

  /** What two lists share arrives in the same order. */
  predicate SameOrder(recs: seq<Record>, other: seq<Record>) {
    Common(recs, other) == Common(other, recs)
  }

  /** The endpoint of a key, if it is listed. */
  function ListedEndpoint(filter: seq<string>, zone: string, recs: seq<Record>, k: Key): Option<Endpoint> {
    if k in Keys(filter, recs) && LabelOf(recs, k).Some?
    then Some(EndpointFor(zone, recs, k, LabelOf(recs, k).value))
    else None
  }

  /** Only the records concerning a key decide its owner, its values and its TTL. */
  lemma {:induction false} ConcerningDecides(recs: seq<Record>, k: Key)
    ensures LabelOf(Concerning(recs, k), k) == LabelOf(recs, k)
    ensures ValuesAt(Concerning(recs, k), k) == ValuesAt(recs, k)
    ensures ValuesAt(recs, k) != [] ==> FirstTTL(Concerning(recs, k), k) == FirstTTL(recs, k)
  {
    hide KeyOf, Labels, DecodeOwnership, LabelOf, ValuesAt, FirstTTL;
    if recs == [] {
    } else {
      var n := |recs| - 1;
      var before, r := recs[..n], recs[n];
      ConcerningDecides(before, k);
      assert recs == before + [r];
      PrefixSnoc(before, r);
      PrefixSnoc(Concerning(before, k), r);
      LabelSnoc(before, r, k);
      LabelSnoc(Concerning(before, k), r, k);
    }
  }

  lemma LabelSnoc(prefix: seq<Record>, r: Record, k: Key)
    ensures LabelOf(prefix + [r], k) == if Labels(r, k) then DecodeOwnership(r.value) else LabelOf(prefix, k)
  {
    hide Labels, DecodeOwnership;
    assert (prefix + [r])[..|prefix|] == prefix;
  }

  /** If all records concerning a key are common, they can be taken from the common ones. */
  lemma {:induction false} ConcerningCommon(recs: seq<Record>, other: seq<Record>, k: Key)
    requires forall r :: r in recs && Concerns(r, k) ==> r in other
    ensures Concerning(Common(recs, other), k) == Concerning(recs, k)
  {
    hide Concerns;
    if recs != [] {
      var n := |recs| - 1;
      ConcerningCommon(recs[..n], other, k);
      if recs[n] in other {
        var c := Common(recs[..n], other);
        assert (c + [recs[n]])[..|c|] == c;
      }
    }
  }

  /** A key whose records are the same in both lists, and arrive in the same order, has the same
      endpoint in both listings. */
  lemma SameEndpoint(filter: seq<string>, zone: string, recs: seq<Record>, base: seq<Record>, k: Key)
    requires SameOrder(recs, base) && forall r :: Concerns(r, k) ==> (r in recs <==> r in base)
    ensures ListedEndpoint(filter, zone, recs, k) == ListedEndpoint(filter, zone, base, k)
    ensures k in Keys(filter, recs) <==> k in Keys(filter, base)
  {
    hide Concerns, LabelOf, ValuesAt, FirstTTL, KeysIn;
    ConcerningCommon(recs, base, k);
    ConcerningCommon(base, recs, k);
    ConcerningDecides(recs, k);
    ConcerningDecides(base, k);
    ListedByValues(filter, recs, k);
    ListedByValues(filter, base, k);
  }

  /** A key is listed exactly when it is managed and has values. */
  lemma ListedByValues(filter: seq<string>, recs: seq<Record>, k: Key)
    ensures k in Keys(filter, recs) <==> Managed(filter, recs, k) && ValuesAt(recs, k) != []
    ensures k in Keys(filter, recs) ==> LabelOf(recs, k).Some?
  {
    hide KeysIn, ValuesAt, KeyOf;
    ListedIfManaged(filter, recs, recs, k);
    if ValuesAt(recs, k) != [] {
      ValuesExact(recs, k, ValuesAt(recs, k)[0]);
    }
    if r :| r in recs && KeyOf(r) == k {
      ValuesExact(recs, k, r.value);
    }
  }

  /** If all records of a key have one TTL, the listed one is that. */
  lemma {:induction false} CommonTTL(recs: seq<Record>, k: Key, ttl: int)
    requires ValuesAt(recs, k) != [] && forall r :: r in recs && KeyOf(r) == k ==> r.ttl == ttl
    ensures FirstTTL(recs, k) == ttl
  {
    hide KeyOf;
    var n := |recs| - 1;
    if ValuesAt(recs[..n], k) != [] {
      CommonTTL(recs[..n], k, ttl);
    } else {
      assert recs[n] in recs;
    }
  }

  // ----- the order of the keys -------------------------------------------------

  /** The keys outside a set, in order. */
  function Outside(ks: seq<Key>, named: set<Key>): seq<Key> {
    if ks == [] then []
    else
      var n := |ks| - 1;
      var before := Outside(ks[..n], named);
      if ks[n] in named then before else before + [ks[n]]
  }

  lemma OutsideSnoc(ks: seq<Key>, k: Key, named: set<Key>)
    ensures Outside(ks + [k], named) == if k in named then Outside(ks, named) else Outside(ks, named) + [k]
  {
    assert (ks + [k])[..|ks|] == ks;
  }

  lemma {:induction false} OutsideExact(ks: seq<Key>, k: Key, named: set<Key>)
    ensures k in Outside(ks, named) <==> k in ks && k !in named
  {
    if ks != [] {
      var n := |ks| - 1;
      OutsideExact(ks[..n], k, named);
      assert ks == ks[..n] + [ks[n]];
    }
  }

  /** Leaving out records of named keys, and TXT records, leaves the other keys in place. */
  lemma {:induction false} KeysOfCommon(filter: seq<string>, recs: seq<Record>, base: seq<Record>, prefix: seq<Record>,
                                        other: seq<Record>, named: set<Key>)
    requires forall k: Key :: k !in named ==> (Managed(filter, recs, k) <==> Managed(filter, base, k))
    requires forall r :: r in prefix && r !in other ==> KeyOf(r) in named || r.rtype.TXT?
    ensures Outside(KeysIn(filter, recs, prefix), named) == Outside(KeysIn(filter, base, Common(prefix, other)), named)
  {
    hide Managed, KeyOf, Outside, KeysIn, Common;
    if prefix == [] {
      NothingCommon(filter, recs, base, other);
    } else {
      var n := |prefix| - 1;
      var front, r := prefix[..n], prefix[n];
      assert prefix == front + [r];
      KeysOfCommon(filter, recs, base, front, other, named);
      var k, ks, bs := KeyOf(r), KeysIn(filter, recs, front), KeysIn(filter, base, Common(front, other));
      CommonSnoc(front, r, other);
      KeysSnoc(filter, recs, front, r);
      KeysSnoc(filter, base, Common(front, other), r);
      OutsideSnoc(ks, k, named);
      OutsideSnoc(bs, k, named);
      OutsideExact(ks, k, named);
      OutsideExact(bs, k, named);
      TxtUnmanaged(filter, recs, r);
    }
  }

  lemma NothingCommon(filter: seq<string>, recs: seq<Record>, base: seq<Record>, other: seq<Record>)
    ensures KeysIn(filter, recs, []) == KeysIn(filter, base, Common([], other))
  {
  }

  lemma CommonSnoc(front: seq<Record>, r: Record, other: seq<Record>)
    ensures Common(front + [r], other) == if r in other then Common(front, other) + [r] else Common(front, other)
  {
    assert (front + [r])[..|front|] == front;
  }

  lemma KeysSnoc(filter: seq<string>, recs: seq<Record>, front: seq<Record>, r: Record)
    ensures var ks := KeysIn(filter, recs, front);
            KeysIn(filter, recs, front + [r]) ==
            if Managed(filter, recs, KeyOf(r)) && KeyOf(r) !in ks then ks + [KeyOf(r)] else ks
  {
    hide Managed, KeyOf;
    assert (front + [r])[..|front|] == front;
  }

  lemma TxtUnmanaged(filter: seq<string>, recs: seq<Record>, r: Record)
    ensures r.rtype.TXT? ==> !Managed(filter, recs, KeyOf(r))
  {
  }

  /** Outside the named keys the two listings have the same keys in the same order. */
  lemma SameKeys(filter: seq<string>, recs: seq<Record>, base: seq<Record>, named: set<Key>)
    requires SameOrder(recs, base)
    requires forall r, k: Key :: k !in named && !k.1.TXT? && Concerns(r, k) ==> (r in recs <==> r in base)
    ensures Outside(Keys(filter, recs), named) == Outside(Keys(filter, base), named)
  {
    hide KeysIn, Labels, KeyOf, LabelOf, Outside;
    forall k: Key | k !in named ensures Managed(filter, recs, k) <==> Managed(filter, base, k) {
      if !k.1.TXT? {
        LabelExact(recs, k);
        LabelExact(base, k);
      }
    }
    assert forall r :: KeyOf(r) !in named && !r.rtype.TXT? ==> (r in recs <==> r in base) by {
      forall r | KeyOf(r) !in named && !r.rtype.TXT? ensures r in recs <==> r in base {
        KeyType(r);
        assert Concerns(r, KeyOf(r));
      }
    }
    KeysOfCommon(filter, recs, base, recs, base, named);
    KeysOfCommon(filter, base, base, base, recs, named);
  }

  lemma KeyType(r: Record)
    ensures KeyOf(r).1 == r.rtype
  {
  }
}

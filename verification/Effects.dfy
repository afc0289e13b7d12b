/** What an accepted batch does to one key of the listing: nothing to a key it does not name, and
    exactly its own records to a key it names once. */
module Effects {
  import opened Text
  import opened Records
  import opened Ownership
  import opened Endpoints
  import opened Cache
  import opened DnsServer
  import opened Update
  import opened ChangeSets
  import opened Protocol
  import opened Axfr
  import opened Listing
  import opened ListingOrder
  import opened Pairing
  import opened PairingRuns
  import opened ReadBack
  import opened Marks

  /** The record belongs to the key's record set or stands as a marker for the key. */
  predicate About(rr: RR, k: Key) {
    InSet(rr, Wire(k.0), k.1) || MarksKey(rr, k)
  }

  function EndpointsOf(b: Batch): seq<Endpoint> {
    b.creates + b.updOld + b.updNew + b.dels
  }

  /** The key that the record set an endpoint writes to on the server is listed under. It is the
      name and type the endpoint spells, unless that name ends in a dot after normalising. */
  function ListedUnder(e: Endpoint): Key
    requires DataType(e.recordType).Some?
  {
    (TrimDot(Wire(NormalizeName(e.dnsName))), DataType(e.recordType).value)
  }

  /** The keys a batch names. */
  function NamedBy(b: Batch): set<Key> {
    set e | e in EndpointsOf(b) && DataType(e.recordType).Some? :: ListedUnder(e)
  }

  lemma NamedByKey(b: Batch, e: Endpoint, k: Key)
    requires e in EndpointsOf(b) && ServerKey(e) == (Wire(k.0), Some(k.1)) && Normal(k.0)
    ensures k in NamedBy(b)
  {
    hide DataType, NormalizeName;
    NormalWireTrims(k.0);
    assert ListedUnder(e) == k;
  }

  lemma NormalWireTrims(name: string)
    requires Normal(name)
    ensures TrimDot(Wire(name)) == name && Wire(name) == name + "." && NormalizeName(name) == name
  {
    hide Wire, NormalizeName, Lower;
    if name != "" {
      SettledWire(name);
    } else {
      RootWire();
    }
  }

  lemma RootWire()
    ensures Wire("") == "." && TrimDot(".") == "" && NormalizeName("") == ""
  {
  }

  // ----- where an edit about a key comes from ----------------------------------

  /** The marker of a legal record stands for that record's key alone. */
  lemma MarkerMarks(t: RType, name: string, owner: string, k: Key)
    requires IsData(t) && IsOwnerName(Wire(name)) && IsOwnerName(MarkerWire(t, name))
    requires MarksKey(RR(MarkerWire(t, name), OwnerText(owner)), k)
    ensures k.1 == t && Wire(k.0) == Wire(name)
  {
    hide DecodeOwnership, DecodeOwnershipName, OwnershipNameFor, IsOwnerName, Wire, NormalizeName;
    var m, w := OwnershipNameFor(t, name), MarkerWire(t, name);
    assert w == Wire(m);
    LowerFixed(w);
    OwnerNameDotted(w);
    OwnerNameShape(w);
    assert w != "." by { MarkerLong(t, name); }
    assert Wire(TrimDot(w)) == w;
    DecodeByWire(TrimDot(w), m);
    DecodeLegalMarker(t, name);
    RootOrSettled(name);
    NormalWireName(name);
  }

  lemma MarkerLong(t: RType, name: string)
    ensures |MarkerWire(t, name)| > 1
  {
    hide NormalizeName;
  }

  lemma NormalWireName(name: string)
    requires NormalizeName(name) == "" || Settled(NormalizeName(name))
    ensures Wire(NormalizeName(name)) == NormalizeName(name) + "."
  {
    assert Lowered(NormalizeName(name));
    NormalWireTrims(NormalizeName(name));
  }

  /** An edit about a key comes from an endpoint of the batch with that key. */
  lemma AboutOrigin(cfg: Config, cached: seq<Record>, b: Batch, x: Edit, k: Key)
    returns (it: Intent, c: Change, e: Endpoint)
    requires WellPaired(b) && CanSend(Intents(cfg, cached, b)) && x in Packed(Intents(cfg, cached, b)).edits
    requires About(x.rr, k) && !k.1.TXT?
    ensures it in Intents(cfg, cached, b) && c in Ops(it).changes && ChangeEdit(c) == Some(x)
    ensures Names(cfg, b, it, e, k) && (it.Replace? ==> !MarksKey(x.rr, k))
  {
    hide CanSend, Packed, Intents, Names, About, MarksKey, Ops, ChangeEdit;
    it, c := OriginOfEdit(Intents(cfg, cached, b), x);
    e := AboutIntent(cfg, cached, b, it, c, x, k);
  }

  /** The intent goes back to this endpoint of the batch, whose key is the given one. */
  ghost predicate Names(cfg: Config, b: Batch, it: Intent, e: Endpoint, k: Key)
    requires WellPaired(b)
  {
    && e in EndpointsOf(b) && ServerKey(e) == (Wire(k.0), Some(k.1))
    && (it.Create? ==> e in b.creates && OwnerOf(e) == Some(it.owner) && it.rec in RecordsOf(cfg, e))
    && (it.Drop? ==> e in b.dels && OwnerOf(e) == Some(it.owner) && it.rec in RecordsOf(cfg, e))
    && (it.Replace? ==> FromPair(cfg, b, it, e))
  }

  lemma AboutIntent(cfg: Config, cached: seq<Record>, b: Batch, it: Intent, c: Change, x: Edit,
                    k: Key) returns (e: Endpoint)
    requires WellPaired(b) && CanSend(Intents(cfg, cached, b)) && it in Intents(cfg, cached, b)
    requires c in Ops(it).changes && ChangeEdit(c) == Some(x) && About(x.rr, k) && !k.1.TXT?
    ensures Names(cfg, b, it, e, k) && (it.Replace? ==> !MarksKey(x.rr, k))
  {
    hide Wire, OwnershipNameFor, EncodeOwnership, IsOwnerName, CanSend, Packed, ParseData, Intents, RecordsOf,
         OwnerOf, MarksKey, NormalizeName, DataType, OwnerText, Collision, IsOrphan, MarkerWire, FromPair;
    var intents := Intents(cfg, cached, b);
    IntentJustified(cfg, cached, b, it);
    if it.Replace? {
      e := PairOrigin(cfg, b, it, c);
      DataMarksNothing(x.rr, k);
    } else {
      e :| e in (if it.Create? then b.creates else b.dels) && OwnerOf(e) == Some(it.owner)
        && it.rec in RecordsOf(cfg, e);
      RecordsShareKey(cfg, e, it.rec);
      if c.rec == it.rec {
        DataMarksNothing(x.rr, k);
      } else {
        var first := if it.Create? then Add(it.rec) else Delete(it.rec);
        EditOf(intents, it, first);
        MarkerChange(it, c, x);
        assert MarksKey(x.rr, k) by { OwnerTextIsTxt(it.owner); }
        MarkerMarks(it.rec.rtype, it.rec.name, it.owner, k);
      }
    }
  }

  /** The pair of the batch that the intent stands for has this endpoint on one of its sides. */
  ghost predicate FromPair(cfg: Config, b: Batch, it: Intent, e: Endpoint)
    requires WellPaired(b)
  {
    exists i :: 0 <= i < |b.updOld| && OwnerOf(b.updOld[i]).Some? && (e == b.updOld[i] || e == b.updNew[i])
                && it == Replace(OwnerOf(b.updOld[i]).value, RecordsOf(cfg, b.updOld[i]), RecordsOf(cfg, b.updNew[i]))
  }

  lemma PairOrigin(cfg: Config, b: Batch, it: Intent, c: Change) returns (e: Endpoint)
    requires WellPaired(b) && it.Replace? && Justified(cfg, [], b, it) && c in Ops(it).changes
    ensures e in EndpointsOf(b) && FromPair(cfg, b, it, e)
    ensures DataType(e.recordType) == Some(c.rec.rtype) && IsData(c.rec.rtype) && c.rec.name == NormalizeName(e.dnsName)
  {
    hide RecordsOf, OwnerOf, NormalizeName, DataType, Ops;
    var i :| 0 <= i < |b.updOld| && OwnerOf(b.updOld[i]) == Some(it.owner)
             && it.olds == RecordsOf(cfg, b.updOld[i]) && it.news == RecordsOf(cfg, b.updNew[i]);
    ReplaceChange(it, c);
    e := if c.rec in it.olds then b.updOld[i] else b.updNew[i];
    RecordsShareKey(cfg, e, c.rec);
    assert b.updOld[i] in b.updOld && b.updNew[i] in b.updNew;
  }

  lemma DataMarksNothing(rr: RR, k: Key)
    ensures IsData(TypeOf(rr.data)) ==> !MarksKey(rr, k)
  {
    hide DecodeOwnershipName;
  }

  /** The second change of a create or a drop is its marker. */
  lemma MarkerChange(it: Intent, c: Change, x: Edit)
    requires !it.Replace? && c in Ops(it).changes && c.rec != it.rec && ChangeEdit(c) == Some(x)
    ensures x.rr == RR(MarkerWire(it.rec.rtype, it.rec.name), OwnerText(it.owner)) && IsOwnerName(x.rr.name)
  {
    hide Wire, OwnershipNameFor, EncodeOwnership, IsOwnerName, ParseData, OwnerText;
    if it.Create? {
      MarkerRecordBuilt(it.owner, it.rec, it.rec.ttl);
    } else {
      MarkerRecordBuilt(it.owner, it.rec, 0);
    }
  }

  // ----- keys the batch does not name ------------------------------------------

  /** Nothing about a key changes that the batch does not name. */
  lemma UnnamedUntouched(cfg: Config, cached: seq<Record>, b: Batch, z: Zone, k: Key, rr: RR)
    requires WellPaired(b) && Sent(cfg, cached, b).Some? && k !in NamedBy(b) && Normal(k.0) && !k.1.TXT? && About(rr, k)
    ensures Look(Serve(z, Sent(cfg, cached, b).value), rr) == Look(z, rr)
  {
    hide Intents, Packed, CanSend, About, NamedBy, Accepts, Normal;
    var m := Sent(cfg, cached, b).value;
    if Accepts(z, m) {
      forall x | x in m.edits ensures x.rr != rr {
        if x.rr == rr {
          var it, c, e := AboutOrigin(cfg, cached, b, x, k);
          NamedByKey(b, e, k);
        }
      }
      Untouched(m.edits, rr);
      EditsDecide(z, m.edits, rr);
    }
  }

  /** A record that concerns a key is shown for a resource record about it. */
  lemma ConcernsAbout(rr: RR, ttl: int, r: Record, k: Key)
    requires IsOwnerName(rr.name) && RrToRecord(rr, ttl) == Some(r)
    ensures Concerns(r, k) ==> About(rr, k) && Normal(k.0)
  {
    hide NormalizeName, IsOwnerName, Wire, DecodeOwnership, DecodeOwnershipName, Normal, Concat;
    if KeyOf(r) == k {
      ListedAt(rr, k.0);
    } else if Labels(r, k) {
      MarkedNormal(rr.name, k);
    }
  }

  /** A marker at a legal name stands for a normal name. */
  lemma MarkedNormal(w: string, k: Key)
    requires IsOwnerName(w) && DecodeOwnershipName(TrimDot(Lower(w))) == Some(k)
    ensures Normal(k.0)
  {
    hide IsOwnerName, Wire, NormalizeName, Lower, Lowered, Settled, DecodeOwnershipName, FirstDot, TypeOfLabel,
         Normal;
    OwnerNameDotted(w);
    LowerFixed(w);
    OwnerNameShape(w);
    assert w != "." by { RootMarksNothing(); }
    var n := TrimDot(w);
    SettledWire(n);
    DecodeParts(n, k);
    TailNormal(n, FirstDot(n));
  }

  /** What follows a dot in a settled name is normal, and so is a wildcard of it. */
  lemma TailNormal(n: string, dot: nat)
    requires Settled(n) && Lowered(n) && dot < |n| && n[dot] == '.'
    ensures Normal(n[dot + 1..]) && Normal("*." + n[dot + 1..])
  {
    var rest := n[dot + 1..];
    assert dot < |n| - 1 && rest[|rest| - 1] == n[|n| - 1];
    assert Lowered(rest) && Lowered("*." + rest);
  }

  /** Zones that agree on everything about a key have the same records concerning it. */
  lemma SameConcerns(z: Zone, z': Zone, base: seq<Record>, recs: seq<Record>, k: Key)
    requires Legal(z) && Legal(z') && Snapshot(base, z) && Snapshot(recs, z')
    requires forall rr :: About(rr, k) ==> Look(z', rr) == Look(z, rr)
    ensures forall r :: Concerns(r, k) ==> (r in recs <==> r in base)
  {
    hide About, Concerns, Snapshot, RrToRecord, IsOwnerName;
    forall r | Concerns(r, k) ensures r in recs <==> r in base {
      SnapshotExact(recs, z', r);
      SnapshotExact(base, z, r);
      if r in recs {
        var rr :| rr in z' && RrToRecord(rr, z'[rr]) == Some(r);
        ConcernsAbout(rr, z'[rr], r, k);
        assert Look(z', rr) == Look(z, rr);
      }
      if r in base {
        var rr :| rr in z && RrToRecord(rr, z[rr]) == Some(r);
        ConcernsAbout(rr, z[rr], r, k);
        assert Look(z', rr) == Look(z, rr);
      }
    }
  }

  /** Every endpoint a batch does not name is unchanged in the next listing: the same records,
      with their TTLs, are behind it, its targets are the same with their multiplicity, and its
      possible owners are the same. */
  lemma OthersUnchanged(cfg: Config, cached: seq<Record>, b: Batch, z: Zone, filter: seq<string>, base: seq<Record>,
                        recs: seq<Record>, k: Key)
    requires Legal(z) && WellPaired(b) && Sent(cfg, cached, b).Some?
    requires Snapshot(base, z) && Snapshot(recs, Serve(z, Sent(cfg, cached, b).value))
    requires k !in NamedBy(b) && !k.1.TXT?
    ensures forall r :: Concerns(r, k) ==> (r in recs <==> r in base)
    ensures k in Keys(filter, recs) <==> k in Keys(filter, base)
    ensures multiset(ValuesAt(recs, k)) == multiset(ValuesAt(base, k))
    ensures forall o :: (exists r :: r in recs && Labels(r, k) && DecodeOwnership(r.value) == Some(o))
                   <==> (exists r :: r in base && Labels(r, k) && DecodeOwnership(r.value) == Some(o))
  {
    hide Intents, Packed, CanSend, About, NamedBy, Accepts, Normal, Legal, Snapshot, KeyOf, Labels, KeysIn, ValuesAt,
         LabelOf, DecodeOwnership;
    var z' := Serve(z, Sent(cfg, cached, b).value);
    AfterLegal(cfg, cached, b, z);
    SameByKey(cfg, cached, b, z, base, recs, k);
    ListedIfManaged(filter, recs, recs, k);
    ListedIfManaged(filter, base, base, k);
    LabelExact(recs, k);
    LabelExact(base, k);
    if Normal(k.0) && IsData(k.1) {
      var ds := TargetsAreRRset(recs, z', k.0, k.1);
      var cs := TargetsAreRRset(base, z, k.0, k.1);
      forall rr | InSet(rr, Wire(k.0), k.1) ensures Look(z', rr) == Look(z, rr) {
        assert About(rr, k) by { SetIsAbout(rr, k); }
        UnnamedUntouched(cfg, cached, b, z, k, rr);
      }
      SameTargets(z, z', k, ds, cs);
    } else {
      NoTargets(base, z, k);
      NoTargets(recs, z', k);
    }
  }

  /** If the records both transfers have arrive in the same order, the two listings agree endpoint by
      endpoint on every key the batch does not name, and list those keys in the same order. */
  lemma OthersListedAlike(cfg: Config, cached: seq<Record>, b: Batch, z: Zone, filter: seq<string>, zone: string,
                          base: seq<Record>, recs: seq<Record>)
    requires Legal(z) && WellPaired(b) && Sent(cfg, cached, b).Some?
    requires Snapshot(base, z) && Snapshot(recs, Serve(z, Sent(cfg, cached, b).value)) && SameOrder(recs, base)
    ensures Outside(Keys(filter, recs), NamedBy(b)) == Outside(Keys(filter, base), NamedBy(b))
    ensures forall k :: k !in NamedBy(b) ==>
              ListedEndpoint(filter, zone, recs, k) == ListedEndpoint(filter, zone, base, k)
  {
    hide Intents, Packed, CanSend, NamedBy, Accepts, Legal, Snapshot, Concerns, KeysIn, Outside, LabelOf, SameOrder,
         ListedEndpoint;
    forall r, k: Key | k !in NamedBy(b) && !k.1.TXT? && Concerns(r, k) ensures r in recs <==> r in base {
      SameByKey(cfg, cached, b, z, base, recs, k);
    }
    SameKeys(filter, recs, base, NamedBy(b));
    forall k: Key | k !in NamedBy(b)
      ensures ListedEndpoint(filter, zone, recs, k) == ListedEndpoint(filter, zone, base, k)
    {
      if k.1.TXT? {
        TxtNotListed(filter, zone, recs, k);
        TxtNotListed(filter, zone, base, k);
      } else {
        SameEndpoint(filter, zone, recs, base, k);
      }
    }
  }

  lemma TxtNotListed(filter: seq<string>, zone: string, recs: seq<Record>, k: Key)
    requires k.1.TXT?
    ensures ListedEndpoint(filter, zone, recs, k) == None
  {
    hide KeysIn;
    ListedIfManaged(filter, recs, recs, k);
  }

  lemma SetIsAbout(rr: RR, k: Key)
    requires InSet(rr, Wire(k.0), k.1)
    ensures About(rr, k)
  {
  }

  lemma AfterLegal(cfg: Config, cached: seq<Record>, b: Batch, z: Zone)
    requires Legal(z) && WellPaired(b) && Sent(cfg, cached, b).Some?
    ensures Legal(Serve(z, Sent(cfg, cached, b).value))
  {
    hide Legal, Accepts, Intents, CanSend, Packed;
    LegalKept(z, Step(cfg, cached, b, true));
  }

  lemma SameByKey(cfg: Config, cached: seq<Record>, b: Batch, z: Zone, base: seq<Record>, recs: seq<Record>, k: Key)
    requires Legal(z) && WellPaired(b) && Sent(cfg, cached, b).Some?
    requires Snapshot(base, z) && Snapshot(recs, Serve(z, Sent(cfg, cached, b).value))
    requires k !in NamedBy(b) && !k.1.TXT?
    ensures forall r :: Concerns(r, k) ==> (r in recs <==> r in base)
  {
    hide Intents, Packed, CanSend, About, NamedBy, Accepts, Normal, Legal, Snapshot, Concerns;
    var z' := Serve(z, Sent(cfg, cached, b).value);
    AfterLegal(cfg, cached, b, z);
    if Normal(k.0) {
      forall rr | About(rr, k) ensures Look(z', rr) == Look(z, rr) {
        UnnamedUntouched(cfg, cached, b, z, k, rr);
      }
      SameConcerns(z, z', base, recs, k);
    } else {
      forall r | Concerns(r, k) ensures r !in recs && r !in base {
        NothingConcerns(base, z, k, r);
        NothingConcerns(recs, z', k, r);
      }
    }
  }

  lemma NothingConcerns(recs: seq<Record>, z: Zone, k: Key, r: Record)
    requires Legal(z) && Snapshot(recs, z) && !Normal(k.0) && Concerns(r, k)
    ensures r !in recs
  {
    hide About, Concerns, Snapshot, RrToRecord, IsOwnerName, Normal;
    SnapshotExact(recs, z, r);
    if r in recs {
      var rr :| rr in z && RrToRecord(rr, z[rr]) == Some(r);
      ConcernsAbout(rr, z[rr], r, k);
    }
  }

  lemma ShownType(rr: RR, ttl: int)
    requires RrToRecord(rr, ttl).Some?
    ensures var t := RrToRecord(rr, ttl).value.rtype; t.TXT? || IsData(t)
  {
  }

  /** Only normal names of data types have targets. */
  lemma NoTargets(recs: seq<Record>, z: Zone, k: Key)
    requires Legal(z) && Snapshot(recs, z) && !k.1.TXT? && !(Normal(k.0) && IsData(k.1))
    ensures ValuesAt(recs, k) == []
  {
    hide Snapshot, IsOwnerName, Normal, ValuesAt, KeyOf, Labels, About, RrToRecord, IsData;
    if ValuesAt(recs, k) != [] {
      ValuesExact(recs, k, ValuesAt(recs, k)[0]);
      var r :| r in recs && KeyOf(r) == k;
      SnapshotExact(recs, z, r);
      var rr :| rr in z && RrToRecord(rr, z[rr]) == Some(r);
      ConcernsAbout(rr, z[rr], r, k);
      KeyType(r);
      ShownType(rr, z[rr]);
    }
  }

  /** Record sets that agree show the same targets, in whatever order they arrive. */
  lemma SameTargets(z: Zone, z': Zone, k: Key, ds: seq<RData>, cs: seq<RData>)
    requires forall rr :: InSet(rr, Wire(k.0), k.1) ==> Look(z', rr) == Look(z, rr)
    requires Unique(ds) && forall d :: d in ds <==> d in RRset(z', Wire(k.0), k.1)
    requires Unique(cs) && forall d :: d in cs <==> d in RRset(z, Wire(k.0), k.1)
    ensures multiset(ShowAll(ds)) == multiset(ShowAll(cs))
  {
    hide Wire, ShowAll, RRset, Unique;
    SameRRsetSameData(z, z', Wire(k.0), k.1);
    ShowAllSame(ds, cs);
  }

  lemma ShowAllSame(ds: seq<RData>, cs: seq<RData>)
    requires Unique(ds) && Unique(cs) && forall d :: d in ds <==> d in cs
    ensures multiset(ShowAll(ds)) == multiset(ShowAll(cs))
  {
    hide ShowAll, Unique;
    UniqueCounts(ds);
    UniqueCounts(cs);
    assert multiset(ds) == multiset(cs);
    ShowAllPermuted(ds, cs);
  }

  lemma {:induction false} UniqueCounts(ds: seq<RData>)
    requires Unique(ds)
    ensures forall d :: multiset(ds)[d] == if d in ds then 1 else 0
  {
    if ds != [] {
      var n := |ds| - 1;
      UniqueCounts(ds[..n]);
      assert ds == ds[..n] + [ds[n]];
      assert ds[n] !in ds[..n];
    }
  }

  /** Permuting the data permutes what is shown. */
  lemma {:induction false} ShowAllPermuted(ds: seq<RData>, cs: seq<RData>)
    requires multiset(ds) == multiset(cs)
    ensures multiset(ShowAll(ds)) == multiset(ShowAll(cs))
    decreases |ds|
  {
    hide ShowAll, ValueOf;
    if ds == [] {
      assert |multiset(cs)| == 0;
    } else {
      var d := ds[0];
      assert d in multiset(cs);
      var j :| 0 <= j < |cs| && cs[j] == d;
      var front, rest := ds[..0] + ds[1..], cs[..j] + cs[j + 1..];
      ShowAllWithout(ds, 0);
      ShowAllWithout(cs, j);
      CancelOne(multiset(front), multiset(rest), d);
      ShowAllPermuted(front, rest);
    }
  }

  lemma CancelOne(x: multiset<RData>, y: multiset<RData>, d: RData)
    requires x + multiset{d} == y + multiset{d}
    ensures x == y
  {
    assert (x + multiset{d}) - multiset{d} == x && (y + multiset{d}) - multiset{d} == y;
  }

  lemma ShowAllWithout(s: seq<RData>, j: nat)
    requires j < |s|
    ensures var rest := s[..j] + s[j + 1..];
            && multiset(s) == multiset(rest) + multiset{s[j]}
            && multiset(ShowAll(s)) == multiset(ShowAll(rest)) + multiset{ValueOf(s[j])}
  {
    hide ValueOf;
    assert s == s[..j] + [s[j]] + s[j + 1..];
    assert ShowAll(s) == ShowAll(s[..j]) + [ValueOf(s[j])] + ShowAll(s[j + 1..]);
    assert ShowAll(s[..j] + s[j + 1..]) == ShowAll(s[..j]) + ShowAll(s[j + 1..]);
  }
}

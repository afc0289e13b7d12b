/** Concrete inputs: for every promise the code does not keep, one request and one zone where it
    breaks, and one plain create to which the round-trip theorems apply. */
module Examples {
  import opened Text
  import opened Records
  import opened Ownership
  import opened Endpoints
  import opened Cache
  import opened DnsServer
  import opened Update
  import opened ChangeSets
  import opened Protocol
  import opened Isolation
  import opened IsolationLimits
  import opened Axfr
  import opened Listing
  import opened ListingOrder
  import opened Pairing
  import opened PairingRuns
  import opened Marks
  import opened Effects
  import opened RoundTrip
  import opened UpdateTrip
  import opened Lifecycle
  import opened PairingLimits
  import opened Conflicts
  import opened Failover
  import opened Routing
  import Refresh

  const CFG := Config(true, 60, 60)

  function Host(name: string, address: string, owner: string): Endpoint {
    Endpoint(name, [address], "A", 60, map["owner" := owner])
  }

  function AddressRecord(name: string, address: string): Record {
    Record(name, A, 60, address)
  }

  function AddressOf(name: string, address: string): RR {
    RR(name + ".", Address4(address))
  }

  function MarkerOf(name: string, owner: string): RR {
    RR("ddo-a." + name + ".", OwnerText(owner))
  }

  // ----- plain names -----------------------------------------------------------

  predicate PlainChar(c: char) {
    'a' <= c <= 'z' || '0' <= c <= '9' || c == '-' || c == '.'
  }

  /** Lower-case letters, digits and hyphens, in labels that are not empty. Addresses qualify too. */
  predicate Plain(s: string) {
    && s != "" && s[0] != '.' && s[|s| - 1] != '.'
    && (forall i :: 0 <= i < |s| ==> PlainChar(s[i]))
    && (forall i :: 0 <= i < |s| - 1 ==> !(s[i] == '.' && s[i + 1] == '.'))
  }

  lemma PlainName(s: string)
    requires Plain(s)
    ensures Lowered(s) && Settled(s) && IsVerbatim(s) && IsToken(s) && !("*." <= s)
    ensures NormalizeName(s) == s && Wire(s) == s + "." && IsOwnerName(s + ".") && IsVerbatim(s + ".")
  {
    hide Wire, NormalizeName;
    assert Lowered(s);
    SettledWire(s);
    assert PlainChar(s[0]) && s[0] != '*';
  }

  lemma PlainMarker(s: string)
    requires Plain(s)
    ensures OwnershipNameFor(A, s) == "ddo-a." + s && MarkerWire(A, s) == "ddo-a." + s + "."
    ensures IsOwnerName(MarkerWire(A, s)) && IsVerbatim(MarkerWire(A, s))
  {
    hide Wire, NormalizeName, IsOwnerName, IsVerbatim;
    PlainName(s);
    PlainWithHead(s);
    assert "ddo-" + "a" + "." + s == "ddo-a." + s;
    PlainName("ddo-a." + s);
  }

  lemma PlainWithHead(s: string)
    requires Plain(s)
    ensures Plain("ddo-a." + s)
  {
    var h := "ddo-a.";
    var m := h + s;
    assert forall i :: 0 <= i < |m| ==> m[i] == (if i < 6 then h[i] else s[i - 6]);
  }

  lemma Names()
    ensures Plain("x.test") && Plain("y.test") && Plain("192.0.2.1") && Plain("192.0.2.2")
  {
  }

  // ----- plain requests --------------------------------------------------------

  lemma HostRecords(name: string, address: string, owner: string)
    requires Plain(name) && Plain(address) && owner != ""
    ensures var e := Host(name, address, owner);
            && OwnerOf(e) == Some(owner) && DataType(e.recordType) == Some(A) && KeyFor(e) == (name, A)
            && RecordsOf(CFG, e) == [AddressRecord(name, address)]
            && ServerKey(e) == (name + ".", Some(A))
    ensures RecordRR(AddressRecord(name, address)) == Some(AddressOf(name, address))
  {
    hide Plain, Wire, NormalizeName, IsOwnerName, IsVerbatim, RecordsOf, RecordRR, DataType, OwnerOf;
    PlainName(name);
    RecordsByName(name, address, owner);
  }

  /** The same for any name that the server takes as it stands. */
  lemma RecordsByName(name: string, address: string, owner: string)
    requires NormalizeName(name) == name && Wire(name) == name + "." && IsOwnerName(name + ".")
             && IsVerbatim(name + ".")
    requires Plain(address) && owner != ""
    ensures var e := Host(name, address, owner);
            && OwnerOf(e) == Some(owner) && DataType(e.recordType) == Some(A) && KeyFor(e) == (name, A)
            && RecordsOf(CFG, e) == [AddressRecord(name, address)]
            && ServerKey(e) == (name + ".", Some(A))
    ensures RecordRR(AddressRecord(name, address)) == Some(AddressOf(name, address))
  {
    hide Wire, NormalizeName, TrimSpace, IsOwnerName, IsVerbatim;
    PlainName(address);
    assert DataType("A") == Some(A) by { AddressType(); }
    assert CanonicalRdata(A, address) == address by {
      TrimToken(address);
      LowerFixed(address);
    }
    assert [address][..0] == [];
    assert TargetRecords(name, A, 60, []) == [];
  }

  lemma AddressType()
    ensures DataType("A") == Some(A)
  {
    assert Upper("A") == "A";
  }

  /** A marker and the demand for it can be built for every owner without quotes and backslashes. */
  lemma MarkerBuilt(name: string, address: string, owner: string, ttl: int)
    requires Plain(name) && IsPlain(owner)
    ensures RecordRR(MarkerRecord(owner, AddressRecord(name, address), ttl)) == Some(MarkerOf(name, owner))
    ensures PrereqGuard(OwnedGuard(owner, AddressRecord(name, address))) == Some(Present(MarkerOf(name, owner)))
  {
    hide OwnershipNameFor, IsOwnerName, IsVerbatim, Wire, MarkerWire;
    PlainMarker(name);
    assert Wire(OwnershipNameFor(A, name)) == MarkerWire(A, name) by { UnfoldMarker(A, name); }
    OwnerTextParses(owner);
  }

  lemma OwnerTextParses(owner: string)
    requires IsPlain(owner)
    ensures EncodeOwnership(owner) != "" && ParseData(TXT, EncodeOwnership(owner)) == Some(OwnerText(owner))
  {
    var v := EncodeOwnership(owner);
    assert v[1..|v| - 1] == OWNED_PREFIX + owner;
    assert IsPlain(OWNED_PREFIX + owner);
  }

  /** The message for one intent, part by part. */
  lemma PackedAs(it: Intent, m: Message)
    requires |Ops(it).prereqs| == |m.guards| && |Ops(it).changes| == |m.edits|
    requires forall i :: 0 <= i < |m.guards| ==> PrereqGuard(Ops(it).prereqs[i]) == Some(m.guards[i])
    requires forall i :: 0 <= i < |m.edits| ==> ChangeEdit(Ops(it).changes[i]) == Some(m.edits[i])
    ensures CanSend([it]) && Packed([it]) == m
  {
    hide Ops, PrereqGuard, ChangeEdit, Compile;
    SoloOps(it);
  }

  function CreateMessage(name: string, address: string, owner: string, orphan: bool): Message {
    Message([Absent(name + ".", A)] + (if orphan then [] else [Absent("ddo-a." + name + ".", TXT)]),
            [Put(AddressOf(name, address), 60)] + (if orphan then [] else [Put(MarkerOf(name, owner), 60)]))
  }

  /** What a create of one address sends when nothing is cached at the name. */
  lemma CreateSends(cached: seq<Record>, name: string, address: string, owner: string)
    requires Plain(name) && Plain(address) && owner != "" && IsPlain(owner)
    requires forall r :: r in cached ==> NormalizeName(r.name) != name
    ensures var e := Host(name, address, owner);
            && EndpointCreates(CFG, cached, e) != []
            && Sent(CFG, cached, Creating(e)) == Some(CreateMessage(name, address, owner,
              IsOrphan(cached, "ddo-a." + name)))
  {
    hide OwnerOf, RecordsOf, DataType, IsOrphan, OwnershipNameFor, Wire, NormalizeName, EncodeOwnership, ParseRR,
         FirstOwner;
    var e, r := Host(name, address, owner), AddressRecord(name, address);
    HostRecords(name, address, owner);
    PlainName(name);
    PlainMarker(name);
    var it := Create(owner, r, IsOrphan(cached, "ddo-a." + name));
    assert Collision(cached, r, owner) == Clear;
    assert [r][..0] == [] && [e][..0] == [];
    assert CreateIntents(CFG, cached, owner, [r]) == [] + CreateIntent(CFG, cached, owner, r);
    assert AllCreates(CFG, cached, [e]) == [] + EndpointCreates(CFG, cached, e);
    assert Intents(CFG, cached, Creating(e)) == [it];
    MarkerBuilt(name, address, owner, 60);
    CreatePacks(it, name, address, owner);
  }

  lemma CreatePacks(it: Intent, name: string, address: string, owner: string)
    requires it.Create? && it == Create(owner, AddressRecord(name, address), it.orphan)
    requires RecordRR(it.rec) == Some(AddressOf(name, address)) && Wire(name) == name + "."
    requires OwnershipNameFor(A, name) == "ddo-a." + name && Wire("ddo-a." + name) == "ddo-a." + name + "."
    requires RecordRR(MarkerRecord(owner, it.rec, 60)) == Some(MarkerOf(name, owner))
    ensures CanSend([it]) && Packed([it]) == CreateMessage(name, address, owner, it.orphan)
  {
    hide OwnershipNameFor, Wire, EncodeOwnership, ParseRR;
    PackedAs(it, CreateMessage(name, address, owner, it.orphan));
  }

  /** What a delete of one address sends. */
  lemma DeleteSends(cached: seq<Record>, name: string, address: string, owner: string)
    requires Plain(name) && Plain(address) && owner != "" && IsPlain(owner)
    ensures Sent(CFG, cached, Deleting(Host(name, address, owner))) ==
            Some(Message([Present(MarkerOf(name, owner))], [Remove(AddressOf(name, address)),
              Remove(MarkerOf(name, owner))]))
  {
    hide OwnerOf, RecordsOf, MarkerRecord, OwnedGuard, ParseRR, CanSend, Packed, DataType, PrereqGuard, ServerKey,
         Plain, IsPlain;
    var e, r := Host(name, address, owner), AddressRecord(name, address);
    HostRecords(name, address, owner);
    assert [e][..0] == [];
    assert AllDrops(CFG, [e]) == [] + EndpointDrops(CFG, e);
    assert Intents(CFG, cached, Deleting(e)) == [Drop(owner, r)];
    MarkerBuilt(name, address, owner, 0);
    DropPacks(Drop(owner, r), name, address, owner);
  }

  lemma DropPacks(it: Intent, name: string, address: string, owner: string)
    requires it == Drop(owner, AddressRecord(name, address)) && RecordRR(it.rec) == Some(AddressOf(name, address))
    requires RecordRR(MarkerRecord(owner, it.rec, 0)) == Some(MarkerOf(name, owner))
    requires PrereqGuard(OwnedGuard(owner, it.rec)) == Some(Present(MarkerOf(name, owner)))
    ensures CanSend([it])
    ensures Packed([it]) == Message([Present(MarkerOf(name, owner))],
                                    [Remove(AddressOf(name, address)), Remove(MarkerOf(name, owner))])
  {
    hide MarkerRecord, OwnedGuard, ParseRR, CanSend, Packed, PrereqGuard, MarkerOf, AddressOf;
    var r, mr := it.rec, MarkerRecord(owner, it.rec, 0);
    OneAndTwo(it, OwnedGuard(owner, r), Delete(r), Delete(mr),
              Present(MarkerOf(name, owner)), Remove(AddressOf(name, address)), Remove(MarkerOf(name, owner)));
  }

  /** The message for an intent with one prerequisite and two changes. */
  lemma OneAndTwo(it: Intent, p: Prereq, c1: Change, c2: Change, g: Guard, e1: Edit, e2: Edit)
    requires Ops(it).prereqs == [p] && Ops(it).changes == [c1, c2]
    requires PrereqGuard(p) == Some(g) && ChangeEdit(c1) == Some(e1) && ChangeEdit(c2) == Some(e2)
    ensures CanSend([it]) && Packed([it]) == Message([g], [e1, e2])
  {
    hide Ops, PrereqGuard, ChangeEdit, CanSend, Packed;
    PackedAs(it, Message([g], [e1, e2]));
  }

  /** What updating one address sends. */
  lemma UpdateSends(cached: seq<Record>, name: string, newName: string, address: string, newAddress: string,
                    owner: string)
    requires Plain(name) && Plain(newName) && Plain(address) && Plain(newAddress) && owner != "" && IsPlain(owner)
    ensures Sent(CFG, cached, Updating(Host(name, address, owner), Host(newName, newAddress, owner))) ==
            Some(Message([Present(MarkerOf(name, owner))], [Remove(AddressOf(name, address)),
              Put(AddressOf(newName, newAddress), 60)]))
  {
    hide OwnerOf, RecordsOf, MarkerRecord, OwnedGuard, ParseRR, Intents, CanSend, Packed, DataType, PrereqGuard,
         ServerKey, Plain, IsPlain;
    var old_, new_ := Host(name, address, owner), Host(newName, newAddress, owner);
    HostRecords(name, address, owner);
    HostRecords(newName, newAddress, owner);
    OnlyPair(CFG, cached, old_, new_);
    var it := Replace(owner, [AddressRecord(name, address)], [AddressRecord(newName, newAddress)]);
    MarkerBuilt(name, address, owner, 0);
    UpdatePacks(it, name, newName, address, newAddress, owner);
  }

  lemma UpdatePacks(it: Intent, name: string, newName: string, address: string, newAddress: string, owner: string)
    requires it == Replace(owner, [AddressRecord(name, address)], [AddressRecord(newName, newAddress)])
    requires RecordRR(AddressRecord(name, address)) == Some(AddressOf(name, address))
    requires RecordRR(AddressRecord(newName, newAddress)) == Some(AddressOf(newName, newAddress))
    requires PrereqGuard(OwnedGuard(owner, AddressRecord(name, address))) == Some(Present(MarkerOf(name, owner)))
    ensures CanSend([it])
    ensures Packed([it]) == Message([Present(MarkerOf(name, owner))],
                                    [Remove(AddressOf(name, address)), Put(AddressOf(newName, newAddress), 60)])
  {
    hide OwnedGuard, ParseRR, CanSend, Packed, PrereqGuard, MarkerOf, AddressOf;
    var r, n := AddressRecord(name, address), AddressRecord(newName, newAddress);
    assert Ops(it).prereqs == [OwnedGuard(owner, r)] && Ops(it).changes == [Delete(r), Add(n)];
    OneAndTwo(it, OwnedGuard(owner, r), Delete(r), Add(n),
              Present(MarkerOf(name, owner)), Remove(AddressOf(name, address)), Put(AddressOf(newName, newAddress),
                60));
  }

  // ----- serving small messages ------------------------------------------------

  lemma TwoEdits(z: Zone, a: Edit, b: Edit)
    ensures ApplyEdits(z, [a, b]) == ApplyEdit(ApplyEdit(z, a), b)
    ensures ApplyEdits(z, [a]) == ApplyEdit(z, a)
  {
    assert [a, b][..1] == [a] && [a][..0] == [];
    assert ApplyEdits(z, []) == z;
    assert ApplyEdits(z, [a]) == ApplyEdit(ApplyEdits(z, [a][..0]), a);
  }

  /** A single demand is met by a zone with just that record in its set. */
  lemma DemandMet(z: Zone, m: Message, rr: RR)
    requires m.guards == [Present(rr)] && rr in z
    requires forall x :: x in z && InSet(x, rr.name, TypeOf(rr.data)) ==> x == rr
    ensures Accepts(z, m)
  {
    forall d ensures d in RRset(z, rr.name, TypeOf(rr.data)) <==> d == rr.data {
      InRRset(z, rr.name, TypeOf(rr.data), d);
      assert rr == RR(rr.name, rr.data);
      assert RR(rr.name, d) in z && TypeOf(d) == TypeOf(rr.data) ==> InSet(RR(rr.name, d), rr.name, TypeOf(rr.data));
    }
    OneGuardAccepted(z, m, rr);
  }

  // ----- isolation -------------------------------------------------------------

  /** "a" holds y.test; "b" has the marker of x.test. */
  const SHARED: Zone := map[AddressOf("y.test", "192.0.2.2") := 300, MarkerOf("y.test", "a") := 300,
                            MarkerOf("x.test", "b") := 300]

  /** "b" renames x.test to y.test, and the zone adds an address to the record set that "a" holds. */
  lemma RenamedOntoAnother()
    ensures var old_, new_ := Host("x.test", "192.0.2.1", "b"), Host("y.test", "192.0.2.1", "b");
            && OwnerOf(old_) == Some("b") && Holds(SHARED, "y.test", A, "a")
            && Sent(CFG, [], Updating(old_, new_)).Some? && Accepts(SHARED, Sent(CFG, [], Updating(old_, new_)).value)
            && AddressOf("y.test", "192.0.2.1") !in SHARED
            && AddressOf("y.test", "192.0.2.1") in Serve(SHARED, Sent(CFG, [], Updating(old_, new_)).value)
            && !Kept(SHARED, Serve(SHARED, Sent(CFG, [], Updating(old_, new_)).value), "y.test", A)
  {
    hide Plain, Sent, OwnerOf, Wire, MarkerWire, OwnerText, Accepts, Serve, Holds, Kept;
    Names();
    HostRecords("x.test", "192.0.2.1", "b");
    UpdateSends([], "x.test", "y.test", "192.0.2.1", "192.0.2.1", "b");
    HeldThere();
    SharedServed();
    PlainName("y.test");
    Changed(SHARED, Serve(SHARED, RENAME_MESSAGE), AddressOf("y.test", "192.0.2.1"),
      AddressRecord("y.test", "192.0.2.1"));
  }

  const RENAME_MESSAGE := Message([Present(MarkerOf("x.test", "b"))],
                                 [Remove(AddressOf("x.test", "192.0.2.1")), Put(AddressOf("y.test", "192.0.2.1"), 60)])

  lemma SharedServed()
    ensures Accepts(SHARED, RENAME_MESSAGE)
    ensures AddressOf("y.test", "192.0.2.1") !in SHARED && AddressOf("y.test", "192.0.2.1") in Serve(SHARED,
            RENAME_MESSAGE)
  {
    hide OwnerText, Accepts, Serve;
    DifferentNames();
    OwnerTextIsTxt("a");
    OwnerTextIsTxt("b");
    DemandMet(SHARED, RENAME_MESSAGE, MarkerOf("x.test", "b"));
    TwoEdits(SHARED, RENAME_MESSAGE.edits[0], RENAME_MESSAGE.edits[1]);
    AcceptedIsApplied(SHARED, RENAME_MESSAGE);
  }

  lemma AcceptedIsApplied(z: Zone, m: Message)
    requires Accepts(z, m)
    ensures Serve(z, m) == ApplyEdits(z, m.edits)
  {
  }

  lemma DifferentNames()
    ensures "x.test" + "." != "y.test" + "." && "ddo-a." + "x.test" + "." != "ddo-a." + "y.test" + "."
    ensures "192.0.2.1" != "192.0.2.2" && "a" != "b"
    ensures forall n: string :: "x.test" + "." != "ddo-a." + n && "y.test" + "." != "ddo-a." + n
  {
    assert ("x.test" + ".")[0] == 'x' && ("y.test" + ".")[0] == 'y';
    assert ("ddo-a." + "x.test" + ".")[6] == 'x' && ("ddo-a." + "y.test" + ".")[6] == 'y';
    assert "192.0.2.1"[8] == '1' && "192.0.2.2"[8] == '2' && "a"[0] != "b"[0];
    assert forall n: string :: ("ddo-a." + n)[0] == 'd';
  }

  lemma HeldThere()
    ensures Holds(SHARED, "y.test", A, "a")
  {
    hide Plain, Wire, MarkerWire, OwnerText;
    Names();
    DifferentNames();
    OwnerTextIsTxt("a");
    OwnerTextIsTxt("b");
    PlainName("y.test");
    PlainMarker("y.test");
    var mk := MarkerWire(A, "y.test");
    forall d ensures d in RRset(SHARED, mk, TXT) <==> d == OwnerText("a") {
      InRRset(SHARED, mk, TXT, d);
    }
    InRRset(SHARED, Wire("y.test"), A, Address4("192.0.2.2"));
  }

  // ----- creates ---------------------------------------------------------------

  /** The zone and a cache that hold nothing but a marker of "a" for x.test. */
  const ORPHAN: Zone := map[MarkerOf("x.test", "a") := 60]

  const ORPHAN_CACHE := [Record("ddo-a.x.test", TXT, 60, EncodeOwnership("a"))]

  lemma OrphanIsCached()
    ensures IsOrphan(ORPHAN_CACHE, "ddo-a." + "x.test") && NormalizeName("ddo-a.x.test") == "ddo-a.x.test"
    ensures forall r :: r in ORPHAN_CACHE ==> NormalizeName(r.name) != "x.test"
  {
    hide Plain, NormalizeName, DecodeOwnershipName, DecodeOwnership, EncodeOwnership, Settled, OwnershipNameFor;
    Names();
    PlainName("x.test");
    PlainMarker("x.test");
    assert "ddo-a." + "x.test" == "ddo-a.x.test";
    PlainWithHead("x.test");
    PlainName("ddo-a.x.test");
    MarkerRoundTrip(A, "x.test");
    OwnershipRoundTrip("a");
    assert "ddo-a.x.test"[0] == 'd' && "x.test"[0] == 'x';
    assert IsMarker(ORPHAN_CACHE[0]);
  }

  /** A plain create is accepted and adds its records. */
  lemma CreateServed(cached: seq<Record>, z: Zone, owner: string)
    requires owner != "" && IsPlain(owner) && forall r :: r in cached ==> NormalizeName(r.name) != "x.test"
    requires forall rr :: rr in z && rr.name == "x.test." ==> !rr.data.Address4?
    requires !IsOrphan(cached, "ddo-a." + "x.test") ==> forall rr :: rr in z ==> rr.name != "ddo-a." + "x.test" + "."
    ensures var e := Host("x.test", "192.0.2.1", owner);
            && Created(CFG, cached, Creating(e), e, z)
            && AfterBatch(CFG, cached, Creating(e), z) ==
               if IsOrphan(cached, "ddo-a." + "x.test") then z[AddressOf("x.test", "192.0.2.1") := 60]
               else z[AddressOf("x.test", "192.0.2.1") := 60][MarkerOf("x.test", owner) := 60]
  {
    hide Plain, Sent, OwnerOf, DataType, EndpointCreates, OwnerText, IsOrphan, Accepts, RRset, NormalizeName;
    var e, orphan := Host("x.test", "192.0.2.1", owner), IsOrphan(cached, "ddo-a." + "x.test");
    Names();
    HostRecords("x.test", "192.0.2.1", owner);
    CreateSends(cached, "x.test", "192.0.2.1", owner);
    assert "x.test" + "." == "x.test.";
    var m := CreateMessage("x.test", "192.0.2.1", owner, orphan);
    assert Accepts(z, m) by { CreateAccepted(z, owner, orphan); }
    TwoEdits(z, Put(AddressOf("x.test", "192.0.2.1"), 60), Put(MarkerOf("x.test", owner), 60));
    assert m.edits == if orphan then [Put(AddressOf("x.test", "192.0.2.1"), 60)]
                      else [Put(AddressOf("x.test", "192.0.2.1"), 60), Put(MarkerOf("x.test", owner), 60)];
    AcceptedIsApplied(z, m);
  }

  lemma CreateAccepted(z: Zone, owner: string, orphan: bool)
    requires forall rr :: rr in z && rr.name == "x.test" + "." ==> !rr.data.Address4?
    requires !orphan ==> forall rr :: rr in z ==> rr.name != "ddo-a." + "x.test" + "."
    ensures Accepts(z, CreateMessage("x.test", "192.0.2.1", owner, orphan))
  {
    hide OwnerText;
  }

  /** The theorems about creates apply: a plain create into an empty zone meets all they ask for. */
  lemma PlainCreate()
    ensures var e := Host("x.test", "192.0.2.1", "a");
            && Created(CFG, [], Creating(e), e, map[]) && !RidesOrphan([], e)
            && Legal(map[]) && Snapshot([], map[]) && Settled(NormalizeName(e.dnsName))
              && LabelledBy(map[], KeyFor(e), "a")
            && GoodStep(map[], Step(CFG, [], Creating(e), true))
            && AfterBatch(CFG, [], Creating(e), map[])
               == map[AddressOf("x.test", "192.0.2.1") := 60, MarkerOf("x.test", "a") := 60]
  {
    hide Plain, OwnerOf, DataType, OwnerText, NormalizeName, Created, AfterBatch, LabelledBy, MarksKey, GoodStep,
         Legal, Snapshot, IsOrphan, OwnershipNameFor;
    var e := Host("x.test", "192.0.2.1", "a");
    Names();
    HostRecords("x.test", "192.0.2.1", "a");
    PlainName("x.test");
    EmptyZone(KeyFor(e));
    assert forall m :: !IsOrphan([], m) by { NoOrphans(); }
    assert GoodStep(map[], Step(CFG, [], Creating(e), true)) by { LoneCreateGood(e); }
    CreateServed([], map[], "a");
  }

  lemma EmptyZone(k: Key)
    ensures Legal(map[]) && Snapshot([], map[]) && LabelledBy(map[], k, "a")
  {
    assert Enumerates([], map[]) && Convert([]) == [];
  }

  lemma NoOrphans()
    ensures forall m :: !IsOrphan([], m)
  {
    hide Orphaned;
  }

  lemma LoneCreateGood(e: Endpoint)
    ensures GoodStep(map[], Step(CFG, [], Creating(e), true))
  {
  }

  /** "b" creates x.test over an orphan marker of "a": every listing then shows it as owned by "a". */
  lemma ListedForAnother()
    ensures var e := Host("x.test", "192.0.2.1", "b");
            && Legal(ORPHAN) && Snapshot(ORPHAN_CACHE, ORPHAN) && Created(CFG, ORPHAN_CACHE, Creating(e), e, ORPHAN)
            && OwnerOf(e) == Some("b")
            && forall recs :: Snapshot(recs, AfterBatch(CFG, ORPHAN_CACHE, Creating(e), ORPHAN)) ==>
                 ("x.test", A) in Keys([], recs) && LabelOf(recs, ("x.test", A)) == Some("a")
  {
    hide Plain, OwnerOf, DataType, OwnerText, NormalizeName, Created, AfterBatch, MarksKey, OwnerIn, Snapshot, Legal,
         KeysIn, LabelOf, IsOrphan, EncodeOwnership, Settled, Lowered, RRset, Wire;
    var e := Host("x.test", "192.0.2.1", "b");
    Names();
    HostRecords("x.test", "192.0.2.1", "b");
    OrphanIsCached();
    OrphanSnapshot();
    DifferentNames();
    assert "x.test" + "." == "x.test.";
    CreateServed(ORPHAN_CACHE, ORPHAN, "b");
    var z' := AfterBatch(CFG, ORPHAN_CACHE, Creating(e), ORPHAN);
    assert z' == ORPHAN[AddressOf("x.test", "192.0.2.1") := 60];
    OrphanLabels(z');
    forall recs | Snapshot(recs, z')
      ensures ("x.test", A) in Keys([], recs) && LabelOf(recs, ("x.test", A)) == Some("a")
    {
      var ds := ListedFromZone([], recs, z', ("x.test", A));
      LabelFromZone(recs, z', ("x.test", A), "a");
      PlainName("x.test");
      InRRset(z', Wire("x.test"), A, Address4("192.0.2.1"));
    }
  }

  lemma OrphanSnapshot()
    ensures Legal(ORPHAN) && Snapshot(ORPHAN_CACHE, ORPHAN)
  {
    hide Plain, Wire, MarkerWire, IsOwnerName, DecodeOwnership;
    Names();
    PlainMarker("x.test");
    PlainWithHead("x.test");
    PlainName("ddo-a." + "x.test");
    var rr := MarkerOf("x.test", "a");
    var body := [Arrival(rr, 60)];
    assert Enumerates(body, ORPHAN) by { assert body[0].rr == rr; }
    assert "ddo-a." + "x.test" == "ddo-a.x.test";
    LowerFixed("ddo-a.x.test" + ".");
    assert Concat([OWNED_PREFIX + "a"]) == OWNED_PREFIX + "a" by {
      assert Concat([OWNED_PREFIX + "a"]) == (OWNED_PREFIX + "a") + Concat([]);
    }
    assert "\"" + (OWNED_PREFIX + "a") + "\"" == EncodeOwnership("a");
    assert RrToRecord(rr, 60) == Some(ORPHAN_CACHE[0]);
    assert body[..0] == [] && Convert([]) == [];
    assert Convert(body) == [] + [ORPHAN_CACHE[0]];
  }

  lemma OrphanLabels(z: Zone)
    requires z == ORPHAN[AddressOf("x.test", "192.0.2.1") := 60]
    ensures Legal(z) && Normal("x.test") && LabelledBy(z, ("x.test", A), "a") && exists rr :: rr in z
                                                                                  && MarksKey(rr, ("x.test", A))
  {
    hide Plain, OwnerText, NormalizeName, MarksKey, OwnerIn, Wire, MarkerWire, IsOwnerName;
    Names();
    PlainName("x.test");
    PlainMarker("x.test");
    OwnMarkMarks(("x.test", A), "a");
    OwnerTextReads("a");
    DataMarksNothing(AddressOf("x.test", "192.0.2.1"), ("x.test", A));
    assert MarkerOf("x.test", "a") in z;
  }

  /** A stale cache promises an orphan marker that is gone: the create leaves unmarked data. */
  lemma CreatedUnmarked()
    ensures var e := Host("x.test", "192.0.2.1", "b");
            && Created(CFG, ORPHAN_CACHE, Creating(e), e, map[])
            && AfterBatch(CFG, ORPHAN_CACHE, Creating(e), map[]) == map[AddressOf("x.test", "192.0.2.1") := 60]
            && HasData(AfterBatch(CFG, ORPHAN_CACHE, Creating(e), map[]), "x.test", A)
            && !Marked(AfterBatch(CFG, ORPHAN_CACHE, Creating(e), map[]), "x.test", A)
  {
    hide Plain, OwnerText, NormalizeName, Created, AfterBatch, IsOrphan, EncodeOwnership, Wire, MarkerWire,
         OwnedData;
    Names();
    OrphanIsCached();
    CreateServed(ORPHAN_CACHE, map[], "b");
    var z: Zone := map[AddressOf("x.test", "192.0.2.1") := 60];
    PlainName("x.test");
    InRRset(z, Wire("x.test"), A, Address4("192.0.2.1"));
    forall d ensures d !in RRset(z, MarkerWire(A, "x.test"), TXT) {
      InRRset(z, MarkerWire(A, "x.test"), TXT, d);
    }
  }

  /** x.test is an alias of y.test. */
  const ALIASED: Zone := map[RR("x.test.", Alias("y.test.")) := 60]

  /** The collision check sees only the cache: from an empty one an address is put beside the alias. */
  lemma AddressBesideAlias()
    ensures var e := Host("x.test", "192.0.2.1", "a");
            && Created(CFG, [], Creating(e), e, ALIASED)
            && !Conflicted(ALIASED, "x.test.") && Conflicted(AfterBatch(CFG, [], Creating(e), ALIASED), "x.test.")
  {
    hide Plain, OwnerText, NormalizeName, Created, AfterBatch, IsOrphan;
    assert forall m :: !IsOrphan([], m) by { NoOrphans(); }
    assert "x.test."[0] == 'x' && ("ddo-a." + "x.test" + ".")[0] == 'd';
    CreateServed([], ALIASED, "a");
    var z' := ALIASED[AddressOf("x.test", "192.0.2.1") := 60][MarkerOf("x.test", "a") := 60];
    assert "x.test" + "." == "x.test.";
    assert RR("x.test.", Alias("y.test.")) in z' && RR("x.test.", Address4("192.0.2.1")) in z';
  }

  /** The same zone's cache, as a transfer shows it, and a CNAME create beside an address: refused. */
  lemma AliasBesideAddressRefused(owner: string)
    ensures Collision([AddressRecord("x.test", "192.0.2.1")], Record("x.test", CNAME, 60, "y.test."), owner)
            == CnameBesideOthers
    ensures Collision([Record("x.test", CNAME, 60, "y.test")], AddressRecord("x.test", "192.0.2.1"), owner)
            == OthersBesideCname
  {
    hide NormalizeName, OwnershipNameFor, FirstOwner;
    var a, c := AddressRecord("x.test", "192.0.2.1"), Record("x.test", CNAME, 60, "y.test");
    assert a in [a] && c in [c] && At(c, NormalizeName("x.test"), CNAME);
  }

  // ----- deletes and updates ---------------------------------------------------

  /** "a" has two addresses at x.test. */
  const PAIR: Zone := map[AddressOf("x.test", "192.0.2.1") := 60, AddressOf("x.test", "192.0.2.2") := 60,
    MarkerOf("x.test", "a") := 60]

  /** A delete that lists one of two addresses takes the marker and leaves the other address. */
  lemma HalfDeleted()
    ensures var e := Host("x.test", "192.0.2.1", "a");
            && DeletedIn(CFG, [], Deleting(e), e, PAIR)
            && Serve(PAIR, Sent(CFG, [], Deleting(e)).value) == map[AddressOf("x.test", "192.0.2.2") := 60]
            && HasData(Serve(PAIR, Sent(CFG, [], Deleting(e)).value), "x.test", A)
            && !Marked(Serve(PAIR, Sent(CFG, [], Deleting(e)).value), "x.test", A)
  {
    hide Plain, Sent, OwnerOf, RecordsOf, OwnerText, Wire, MarkerWire, OwnedData, Accepts, Serve, HasData, Marked,
         DataType, NormalizeName;
    var e := Host("x.test", "192.0.2.1", "a");
    Names();
    HostRecords("x.test", "192.0.2.1", "a");
    DeleteSends([], "x.test", "192.0.2.1", "a");
    PairServed();
    LeftApart();
  }

  lemma PairServed()
    ensures var m := Message([Present(MarkerOf("x.test", "a"))],
                             [Remove(AddressOf("x.test", "192.0.2.1")), Remove(MarkerOf("x.test", "a"))]);
            Accepts(PAIR, m) && Serve(PAIR, m) == map[AddressOf("x.test", "192.0.2.2") := 60]
  {
    hide OwnerText, Accepts, Serve;
    var m := Message([Present(MarkerOf("x.test", "a"))],
                     [Remove(AddressOf("x.test", "192.0.2.1")), Remove(MarkerOf("x.test", "a"))]);
    DifferentNames();
    OwnerTextIsTxt("a");
    DemandMet(PAIR, m, MarkerOf("x.test", "a"));
    TwoEdits(PAIR, m.edits[0], m.edits[1]);
    AcceptedIsApplied(PAIR, m);
  }

  lemma LeftApart()
    ensures HasData(map[AddressOf("x.test", "192.0.2.2") := 60], "x.test", A)
    ensures !Marked(map[AddressOf("x.test", "192.0.2.2") := 60], "x.test", A)
  {
    hide Plain, Wire, MarkerWire, OwnedData;
    var z: Zone := map[AddressOf("x.test", "192.0.2.2") := 60];
    Names();
    PlainName("x.test");
    InRRset(z, Wire("x.test"), A, Address4("192.0.2.2"));
    forall d ensures d !in RRset(z, MarkerWire(A, "x.test"), TXT) {
      InRRset(z, MarkerWire(A, "x.test"), TXT, d);
    }
  }

  /** "b" has one address at x.test. */
  const SINGLE: Zone := map[AddressOf("x.test", "192.0.2.1") := 60, MarkerOf("x.test", "b") := 60]

  /** Renaming it leaves an orphan marker behind and unmarked data at the new name. */
  lemma RenamedApart()
    ensures var old_, new_ := Host("x.test", "192.0.2.1", "b"), Host("y.test", "192.0.2.1", "b");
            && Sent(CFG, [], Updating(old_, new_)).Some? && Accepts(SINGLE, Sent(CFG, [], Updating(old_, new_)).value)
            && Serve(SINGLE, Sent(CFG, [], Updating(old_, new_)).value)
               == map[AddressOf("y.test", "192.0.2.1") := 60, MarkerOf("x.test", "b") := 60]
            && !NoWorse(SINGLE, Serve(SINGLE, Sent(CFG, [], Updating(old_, new_)).value))
  {
    hide Plain, Sent, OwnerOf, RecordsOf, OwnerText, Wire, MarkerWire, Accepts, Serve, NoWorse, KeepsOldSide,
         KnowsNewSide, DataType, NormalizeName, Marked, OwnedData;
    var old_, new_ := Host("x.test", "192.0.2.1", "b"), Host("y.test", "192.0.2.1", "b");
    Names();
    DifferentNames();
    HostRecords("x.test", "192.0.2.1", "b");
    HostRecords("y.test", "192.0.2.1", "b");
    UpdateSends([], "x.test", "y.test", "192.0.2.1", "192.0.2.1", "b");
    OwnerTextIsTxt("b");
    DemandMet(SINGLE, RENAME_MESSAGE, MarkerOf("x.test", "b"));
    TwoEdits(SINGLE, RENAME_MESSAGE.edits[0], RENAME_MESSAGE.edits[1]);
    AcceptedIsApplied(SINGLE, RENAME_MESSAGE);
    UpdatePairsIff(CFG, [], old_, new_, SINGLE);
    NothingAtY();
  }

  lemma NothingAtY()
    ensures !KnowsNewSide(CFG, SINGLE, Host("y.test", "192.0.2.1", "b"))
  {
    hide Plain, OwnerOf, RecordsOf, OwnerText, Wire, MarkerWire, DataType, NormalizeName, OwnedData;
    Names();
    DifferentNames();
    HostRecords("y.test", "192.0.2.1", "b");
    PlainName("y.test");
    PlainMarker("y.test");
    OwnerTextIsTxt("b");
    forall d ensures d !in RRset(SINGLE, Wire("y.test"), A) && d !in RRset(SINGLE, MarkerWire(A, "y.test"), TXT) {
      InRRset(SINGLE, Wire("y.test"), A, d);
      InRRset(SINGLE, MarkerWire(A, "y.test"), TXT, d);
    }
  }

  /** The theorems about updates and deletes apply: "b" moves x.test to another address or deletes it,
      and neither concerns what "a" holds. */
  lemma PlainUpdate()
    ensures var old_, new_ := Host("x.test", "192.0.2.1", "b"), Host("x.test", "192.0.2.2", "b");
            && Updated(CFG, [], Updating(old_, new_), 0, SINGLE) && ListsAll(CFG, SINGLE, old_)
            && DeletedIn(CFG, [], Deleting(old_), old_, SINGLE)
            && Legal(SINGLE) && Settled(NormalizeName("x.test")) && !("*." <= NormalizeName("x.test"))
            && Foreign(CFG, Updating(old_, new_), "a") && Foreign(CFG, Deleting(old_), "a")
  {
    hide Plain, Sent, OwnerOf, RecordsOf, OwnerText, Wire, MarkerWire, Accepts, DataType, NormalizeName, IsOwnerName,
         IsVerbatim, ListsAll, Guarded, ServerKey, Legal;
    var old_, new_ := Host("x.test", "192.0.2.1", "b"), Host("x.test", "192.0.2.2", "b");
    Names();
    DifferentNames();
    HostRecords("x.test", "192.0.2.1", "b");
    HostRecords("x.test", "192.0.2.2", "b");
    PlainName("x.test");
    UpdateSends([], "x.test", "x.test", "192.0.2.1", "192.0.2.2", "b");
    DeleteSends([], "x.test", "192.0.2.1", "b");
    OwnerTextIsTxt("b");
    DemandMet(SINGLE, Sent(CFG, [], Updating(old_, new_)).value, MarkerOf("x.test", "b"));
    DemandMet(SINGLE, Sent(CFG, [], Deleting(old_)).value, MarkerOf("x.test", "b"));
    SingleIsLegal();
    SingleIsListed();
    assert Guarded(CFG, old_, new_) by { SameNameGuarded("x.test", "192.0.2.1", "192.0.2.2", "b"); }
  }

  lemma SameNameGuarded(name: string, address: string, newAddress: string, owner: string)
    requires Plain(name) && Plain(address) && owner != ""
    ensures Guarded(CFG, Host(name, address, owner), Host(name, newAddress, owner))
  {
    hide Plain, OwnerOf, RecordsOf, Wire, NormalizeName, DataType;
    HostRecords(name, address, owner);
  }

  lemma SingleIsLegal()
    ensures Legal(SINGLE)
  {
    hide Plain, OwnerText, Wire, MarkerWire, IsOwnerName;
    Names();
    PlainName("x.test");
    PlainMarker("x.test");
  }

  lemma SingleIsListed()
    ensures ListsAll(CFG, SINGLE, Host("x.test", "192.0.2.1", "b"))
  {
    hide Plain, OwnerText, Wire, NormalizeName, DataType, RecordsOf, RecordRR, OwnerOf;
    Names();
    OwnerTextIsTxt("b");
    PlainName("x.test");
    HostRecords("x.test", "192.0.2.1", "b");
    forall d | d in RRset(SINGLE, Wire("x.test"), A) ensures d == Address4("192.0.2.1") {
      InRRset(SINGLE, Wire("x.test"), A, d);
    }
    assert AddressRecord("x.test", "192.0.2.1") in [AddressRecord("x.test", "192.0.2.1")];
  }

  // ----- wildcards -------------------------------------------------------------

  /** The marker of *.test as it is written now, and as earlier releases wrote it. */
  const MARKER: RR := RR("ddo-a-wildcard.test.", OwnerText("a"))

  const LEGACY_MARKER: RR := RR("ddo-a.*.test.", OwnerText("a"))

  const WILD: Zone := map[AddressOf("*.test", "192.0.2.1") := 60, AddressOf("*.test", "192.0.2.2") := 60,
                          MARKER := 60, LEGACY_MARKER := 60]

  const LEGACY: Zone := map[AddressOf("*.test", "192.0.2.1") := 60, LEGACY_MARKER := 60]

  lemma WildName()
    ensures NormalizeName("*.test") == "*.test" && Wire("*.test") == "*.test" + "."
    ensures IsOwnerName("*.test" + ".") && IsVerbatim("*.test" + ".") && Settled("*.test") && Normal("*.test")
  {
    hide Wire, NormalizeName;
    assert Lowered("*.test");
    SettledWire("*.test");
  }

  lemma WildMarker()
    ensures OwnershipNameFor(A, "*.test") == "ddo-a-wildcard.test" && Wire("ddo-a-wildcard.test") == MARKER.name
    ensures MarkerWire(A, "*.test") == MARKER.name && IsOwnerName(MARKER.name) && IsVerbatim(MARKER.name)
  {
    hide Wire, NormalizeName, Plain, IsOwnerName, IsVerbatim, OwnerText;
    WildName();
    assert "*.test"[..2] == "*." && "*.test"[2..] == "test";
    assert "ddo-" + "a" + "-wildcard" + "." + "test" == "ddo-a-wildcard.test";
    assert Plain("ddo-a-wildcard.test") by { PlainWildMarker(); }
    PlainName("ddo-a-wildcard.test");
    assert "ddo-a-wildcard.test" + "." == MARKER.name;
  }

  lemma PlainWildMarker()
    ensures Plain("ddo-a-wildcard.test")
  {
  }

  /** The legacy marker still decodes to the wildcard. */
  lemma LegacyMarks()
    ensures MarksKey(LEGACY_MARKER, ("*.test", A)) && IsOwnerName(LEGACY_MARKER.name)
    ensures LEGACY_MARKER.name != MARKER.name && OwnerIn(LEGACY_MARKER.data) == Some("a")
  {
    hide DecodeOwnershipName, OwnedData, OwnerIn, NormalizeName, OwnerText, IsOwnerName;
    OwnerTextOwned("a");
    OwnerTextReads("a");
    LegacyName();
    LegacyDecodes();
  }

  lemma LegacyName()
    ensures IsOwnerName("ddo-a.*.test.") && "ddo-a.*.test."[5] != "ddo-a-wildcard.test."[5]
    ensures TrimDot(Lower("ddo-a.*.test.")) == "ddo-a.*.test" && NormalizeName("ddo-a.*.test") == "ddo-a.*.test"
  {
    assert Lowered("ddo-a.*.test.") && Lowered("ddo-a.*.test");
    LowerFixed("ddo-a.*.test.");
    LowerFixed("ddo-a.*.test");
  }

  lemma LegacyDecodes()
    requires NormalizeName("ddo-a.*.test") == "ddo-a.*.test"
    ensures DecodeOwnershipName("ddo-a.*.test") == Some(("*.test", A))
  {
    hide NormalizeName;
    var n := "ddo-a.*.test";
    assert n == "ddo-a" + "." + "*.test";
    SplitAtFirstDot("ddo-a", "*.test");
    assert n[..4] == "ddo-" && n[4..5] == "a";
  }

  /** The zone's records have legal names, and its marker set for *.test is the current marker. */
  lemma WildZone()
    ensures Legal(WILD) && Legal(LEGACY)
    ensures RRset(WILD, MarkerWire(A, "*.test"), TXT) == {OwnerText("a")} && RRset(LEGACY, MarkerWire(A, "*.test"),
            TXT) == {}
  {
    hide OwnerText, IsOwnerName, MarkerWire, IsVerbatim, Wire, NormalizeName, MarksKey, OwnerIn, OwnershipNameFor;
    WildName();
    WildMarker();
    LegacyMarks();
    OwnerTextIsTxt("a");
    var mk := MarkerWire(A, "*.test");
    forall d ensures d in RRset(WILD, mk, TXT) <==> d == OwnerText("a") {
      InRRset(WILD, mk, TXT, d);
    }
    forall d ensures d !in RRset(LEGACY, mk, TXT) {
      InRRset(LEGACY, mk, TXT, d);
    }
  }

  /** Deleting one of two wildcard addresses is accepted, and *.test is still listed because the
      marker of an earlier release stays behind. */
  lemma WildcardStillListed()
    ensures var e := Host("*.test", "192.0.2.1", "a");
            && Legal(WILD) && DeletedIn(CFG, [], Deleting(e), e, WILD)
            && forall recs :: Snapshot(recs, AfterBatch(CFG, [], Deleting(e), WILD)) ==> ("*.test", A) in Keys([], recs)
  {
    hide Plain, OwnerOf, RecordsOf, DataType, OwnerText, MarkerWire, Wire, NormalizeName, IsOwnerName, IsVerbatim,
         Legal, DeletedIn, AfterBatch, Snapshot, KeysIn, MarksKey, RRset, NewData, Settled, Deletable, CanBuild,
         OwnerIn, Normal, OwnershipNameFor;
    var e, k := Host("*.test", "192.0.2.1", "a"), ("*.test", A);
    Names();
    WildName();
    WildMarker();
    WildZone();
    LegacyMarks();
    RecordsByName("*.test", "192.0.2.1", "a");
    WildBuilds();
    BuildableDeletes(CFG, [], e, WILD);
    DeletableMeans(CFG, [], e, WILD);
    OtherWildAddress();
    forall recs | Snapshot(recs, AfterBatch(CFG, [], Deleting(e), WILD)) ensures k in Keys([], recs) {
      DeleteThenList(CFG, [], Deleting(e), e, WILD, [], recs);
      assert LEGACY_MARKER in WILD;
    }
  }

  lemma WildBuilds()
    ensures OwnerOf(Host("*.test", "192.0.2.1", "a")).Some? && CanBuild(CFG, Host("*.test", "192.0.2.1", "a"))
  {
    hide Plain, OwnerOf, RecordsOf, DataType, Wire, NormalizeName, IsOwnerName, IsVerbatim, OwnerText, MarkerWire,
         OwnershipNameFor, EncodeOwnership;
    Names();
    WildName();
    WildMarker();
    RecordsByName("*.test", "192.0.2.1", "a");
    OwnerTextParses("a");
  }

  lemma OtherWildAddress()
    ensures var w := Wire("*.test");
            && Address4("192.0.2.2") in RRset(WILD, w, A)
            && !NewData(CFG, Host("*.test", "192.0.2.1", "a"), RR(w, Address4("192.0.2.2")))
  {
    hide Plain, OwnerOf, RecordsOf, DataType, Wire, NormalizeName, IsOwnerName, IsVerbatim, OwnerText, RRset,
         RecordRR;
    Names();
    WildName();
    DifferentNames();
    RecordsByName("*.test", "192.0.2.1", "a");
    InRRset(WILD, Wire("*.test"), A, Address4("192.0.2.2"));
  }

  /** With only the marker of an earlier release, every listing shows *.test as owned by "a", and the
      delete of what it shows is refused whoever sends it. */
  lemma LegacyRefused(cfg: Config, cached: seq<Record>, zone: string, recs: seq<Record>)
    requires Snapshot(recs, LEGACY)
    ensures ListedEndpoint([], zone, recs, ("*.test", A)).Some? && LabelOf(recs, ("*.test", A)) == Some("a")
    ensures !Deletable(cfg, cached, ListedEndpoint([], zone, recs, ("*.test", A)).value, LEGACY)
  {
    hide Plain, OwnerOf, RecordsOf, DataType, OwnerText, MarkerWire, Wire, NormalizeName, IsOwnerName, IsVerbatim,
         Legal, Snapshot, KeysIn, MarksKey, RRset, LabelOf, ValuesAt, FirstTTL, TypeName, Normal, OwnerIn, Deletable,
         CanBuild, Unique, NewData, AfterBatch, OwnershipNameFor;
    var k := ("*.test", A);
    WildName();
    WildZone();
    LegacyMarks();
    assert LEGACY_MARKER in LEGACY;
    var ds := ListedFromZone([], recs, LEGACY, k);
    assert Address4("192.0.2.1") in ds by { InRRset(LEGACY, Wire("*.test"), A, Address4("192.0.2.1")); }
    OnlyLegacyLabels();
    LabelFromZone(recs, LEGACY, k, "a");
    var ep := ListedEndpoint([], zone, recs, k).value;
    ListedKey([], zone, recs, LEGACY, k, ep);
    assert OwnerOf(ep) == Some("a") by { ShownFor(zone, recs, k); }
    var i :| 0 <= i < |ds| && ds[i] == Address4("192.0.2.1");
    assert ep.targets[i] == "192.0.2.1" && ep.targets[i] in ep.targets;
    AddressGivesRecord(cfg, ep);
    DeleteListedIff(cfg, cached, [], zone, LEGACY, recs, k, ep);
  }

  lemma ShownFor(zone: string, recs: seq<Record>, k: Key)
    requires LabelOf(recs, k) == Some("a")
    ensures OwnerOf(EndpointFor(zone, recs, k, "a")) == Some("a")
  {
    hide LabelOf, ValuesAt, FirstTTL, TypeName;
  }

  lemma OnlyLegacyLabels()
    ensures LabelledBy(LEGACY, ("*.test", A), "a")
  {
    hide OwnerText, MarksKey, OwnerIn, IsOwnerName;
    LegacyMarks();
    DataMarksNothing(AddressOf("*.test", "192.0.2.1"), ("*.test", A));
  }

  lemma AddressGivesRecord(cfg: Config, ep: Endpoint)
    requires DataType(ep.recordType) == Some(A) && "192.0.2.1" in ep.targets
    ensures RecordsOf(cfg, ep) != []
  {
    hide Plain, DataType, NormalizeName, ClampTTL, RecordsOf, TrimSpace, Lower;
    Names();
    PlainName("192.0.2.1");
    assert CanonicalRdata(A, "192.0.2.1") == "192.0.2.1" by {
      TrimToken("192.0.2.1");
      LowerFixed("192.0.2.1");
    }
    var r := Record(NormalizeName(ep.dnsName), A, ClampTTL(cfg, ep.recordTTL), "192.0.2.1");
    InRecordsOf(cfg, ep, A, r, "192.0.2.1");
  }

  // ----- a listing -------------------------------------------------------------

  /** Two addresses of x.test, then its marker. */
  const LISTED := [Record("x.test", A, 60, "192.0.2.1"), Record("x.test", A, 120, "192.0.2.2"),
                   Record("ddo-a.x.test", TXT, 60, EncodeOwnership("a"))]

  /** What is listed for them. */
  lemma ListedAs()
    ensures ListedEndpoint(["test"], "test", LISTED, ("x.test", A)) ==
            Some(Endpoint("x.test", ["192.0.2.1", "192.0.2.2"], "A", 60,
                          map["owner" := "a", "resource" := "rfc2136/test"]))
  {
    hide NormalizeName, DecodeOwnership, DecodeOwnershipName, EncodeOwnership, KeysIn, ValuesAt, LabelOf, FirstTTL,
         Passes, IsOrphan;
    var k: Key := ("x.test", A);
    var r0, r1, m := LISTED[0], LISTED[1], LISTED[2];
    ListedNames();
    LastLabelExact(LISTED, k, 2);
    FirstTTLExact(LISTED, k, 0);
    assert LISTED == [r0] + [r1] + [m];
    ValuesConcat([r0] + [r1], [m], k);
    ValuesConcat([r0], [r1], k);
    ValuesOfFew(k);
    assert Passes(["test"], "x.test") by { PassesIff(["test"], "x.test"); BelowTest(); }
    ListedByValues(["test"], LISTED, k);
    assert ValuesAt(LISTED, k) == ["192.0.2.1", "192.0.2.2"];
    assert FirstTTL(LISTED, k) == 60;
    assert LabelOf(LISTED, k) == Some("a");
    assert k in Keys(["test"], LISTED);
    assert "rfc2136/" + "test" == "rfc2136/test";
  }

  lemma BelowTest()
    ensures "test" in ["test"] && exists p: string :: "x.test" == p + "." + "test"
  {
    assert "x.test" == "x" + "." + "test";
  }

  lemma ListedNames()
    ensures NormalizeName("x.test") == "x.test" && Labels(LISTED[2], ("x.test", A))
    ensures DecodeOwnership(LISTED[2].value) == Some("a") && KeyOf(LISTED[2]) != ("x.test", A)
  {
    hide Plain, NormalizeName, DecodeOwnership, DecodeOwnershipName, EncodeOwnership, Settled, OwnershipNameFor;
    Names();
    PlainName("x.test");
    PlainMarker("x.test");
    assert "ddo-a." + "x.test" == "ddo-a.x.test";
    MarkerRoundTrip(A, "x.test");
    OwnershipRoundTrip("a");
  }

  // ----- the rest --------------------------------------------------------------

  /** A name that normalises to one with a trailing dot is decoded without it. */
  lemma DotLost()
    ensures NormalizeName("host..") == "host." && OwnershipNameFor(A, "host..") == "ddo-a.host."
    ensures DecodeOwnershipName("ddo-a.host.") == Some(("host", A))
  {
    hide DecodeOwnershipName, Plain, Settled, Wire;
    HostDots();
    assert "host."[0] != '*';
    assert OwnershipNameFor(A, "host..") == "ddo-" + "a" + "." + "host.";
    assert Plain("host") by { PlainHost(); }
    PlainMarker("host");
    PlainName("host");
    MarkerRoundTrip(A, "host");
    assert "ddo-a." + "host" == "ddo-a.host";
    assert "ddo-a.host" + "." == "ddo-a.host.";
    SameWire("ddo-a.host");
    DecodeByWire("ddo-a.host.", "ddo-a.host");
  }

  lemma HostDots()
    ensures NormalizeName("host..") == "host."
  {
    assert TrimDot("host..") == "host.";
    LowerFixed("host.");
  }

  lemma PlainHost()
    ensures Plain("host")
  {
  }

  /** One trailing dot makes no difference on the server. */
  lemma SameWire(name: string)
    requires !EndsInDot(name)
    ensures Wire(name + ".") == Wire(name)
  {
  }

  /** A CNAME target of "." is stored as the root and read back as nothing. */
  lemma RootReadBack()
    ensures ParseData(CNAME, CanonicalRdata(CNAME, ".")) == Some(Alias("."))
    ensures Shown(Alias(".")) == Some((CNAME, "")) && CanonicalRdata(CNAME, "") == ""
  {
    assert IsToken(".");
    TrimToken(".");
    assert Lower(".") == "." && Wire(".") == ".";
  }

  /** Where a marker's own name is a zone, the marker is sent to another zone than its record. */
  lemma MarkerRoutedApart()
    ensures var zones := ["test", "ddo-a.x.test"];
            && IsRoute(zones, NormalizeName("x.test"), "test")
            && IsRoute(zones, NormalizeName(OwnershipNameFor(A, "x.test")), "ddo-a.x.test")
  {
    hide NormalizeName, OwnershipNameFor, Plain, InZone, Settled, Lowered, IsVerbatim, IsOwnerName, Wire;
    Names();
    PlainName("x.test");
    PlainMarker("x.test");
    assert "ddo-a." + "x.test" == "ddo-a.x.test";
    PlainWithHead("x.test");
    PlainName("ddo-a.x.test");
    InTest();
  }

  lemma InTest()
    ensures InZone("x.test", "test") && !InZone("x.test", "ddo-a.x.test") && InZone("ddo-a.x.test", "ddo-a.x.test")
    ensures ["test", "ddo-a.x.test"][1] in ["test", "ddo-a.x.test"] && ["test", "ddo-a.x.test"][0] in ["test",
            "ddo-a.x.test"]
  {
    assert "x.test"[1..] == ".test" && "." + "test" == ".test";
  }

  /** A pin that is not first is visited twice. */
  lemma PinVisitedTwice()
    ensures WalkOrder(Some("dc2"), ["dc1", "dc2"]) == ["dc2", "dc1", "dc2"]
  {
    assert "dc1"[2] != "dc2"[2];
    assert ["dc1", "dc2"][1] == "dc2";
  }

  /** A host configured twice is visited twice, pin or no pin. */
  lemma HostVisitedTwice()
    ensures WalkOrder(None, ["dc1", "dc2", "dc2"]) == ["dc1", "dc2", "dc2"]
  {
    assert "dc1"[2] != "dc2"[2];
  }

  /** A start-up ticket of six hours lapses before the first refresh of the default schedule. */
  lemma FirstTicketLapses()
    ensures Refresh.At(0, 0, []) >= Refresh.Expiry(6 * 3600 * Refresh.SECOND, [])
    ensures !Refresh.Withstands(0, 0, 6 * 3600 * Refresh.SECOND, [], 0)
  {
    var outs: seq<Refresh.Kinit> := [];
    assert Refresh.Streak(outs[..0]) == 0;
    assert Refresh.Patient(outs, 0);
    Refresh.WithstandsIff(0, 0, 6 * 3600 * Refresh.SECOND, outs, 0);
  }
}

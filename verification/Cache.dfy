/** What the builder learns from a cached transfer: the name index, the orphan markers
    and the collision check. Each index-based method is proved against a definition over
    the flat record list. */
module Cache {
  import opened Text
  import opened Records
  import opened Ownership

  predicate At(r: Record, name: string, t: RType) {
    NormalizeName(r.name) == name && r.rtype == t
  }

  /** Some record of the list sits at (name, type). */
  predicate Exists(recs: seq<Record>, name: string, t: RType) {
    exists r :: r in recs && At(r, name, t)
  }

  predicate IsMarker(r: Record) {
    r.rtype.TXT? && DecodeOwnership(r.value).Some?
  }

  function Named(recs: seq<Record>, name: string): seq<Record> {
    if recs == [] then []
    else
      var n := |recs| - 1;
      Named(recs[..n], name) + (if NormalizeName(recs[n].name) == name then [recs[n]] else [])
  }

  ghost predicate Indexes(index: map<string, seq<Record>>, recs: seq<Record>) {
    forall name :: (if name in index then index[name] else []) == Named(recs, name)
  }

  /** `indexByName`: every name maps to its records, in list order. */
  method IndexByName(recs: seq<Record>) returns (index: map<string, seq<Record>>)
    ensures Indexes(index, recs)
  {
    index := map[];
    for i := 0 to |recs|
      invariant Indexes(index, recs[..i])
    {
      assert recs[..i + 1][..i] == recs[..i];
      var k := NormalizeName(recs[i].name);
      index := index[k := (if k in index then index[k] else []) + [recs[i]]];
    }
    assert recs[..|recs|] == recs;
  }

  lemma {:induction false} NamedExact(recs: seq<Record>, name: string, r: Record)
    ensures r in Named(recs, name) <==> r in recs && NormalizeName(r.name) == name
  {
    if recs != [] {
      var n := |recs| - 1;
      NamedExact(recs[..n], name, r);
      assert recs == recs[..n] + [recs[n]];
    }
  }

  // ----- orphans ---------------------------------------------------------------

  /** A marker whose data record is missing from the list. */
  predicate Orphaned(recs: seq<Record>, marker: string) {
    var target := DecodeOwnershipName(marker);
    target.Some? && !Exists(recs, target.value.0, target.value.1)
  }

  /** The list holds an orphaned marker under this (normalised) name. */
  predicate IsOrphan(recs: seq<Record>, marker: string) {
    Orphaned(recs, marker) && exists r :: r in recs && IsMarker(r) && NormalizeName(r.name) == marker
  }

  /** `orphanOwnership`: exactly the names of the orphaned markers. */
  method OrphanOwnership(recs: seq<Record>) returns (orphans: set<string>)
    ensures forall m :: m in orphans <==> IsOrphan(recs, m)
  {
    hide DecodeOwnershipName, DecodeOwnership, NormalizeName;
    var byName := IndexByName(recs);
    orphans := {};
    for i := 0 to |recs|
      invariant forall m :: m in orphans <==>
        Orphaned(recs, m) && exists j :: 0 <= j < i && IsMarker(recs[j]) && NormalizeName(recs[j].name) == m
    {
      var r := recs[i];
      if !IsMarker(r) { continue; }
      var nm := NormalizeName(r.name);
      var target := DecodeOwnershipName(nm);
      if target.None? { continue; }
      var siblings := if target.value.0 in byName then byName[target.value.0] else [];
      var hasSibling := HasType(siblings, target.value.1);
      assert hasSibling == Exists(recs, target.value.0, target.value.1) by {
        forall s ensures s in siblings <==> s in recs && NormalizeName(s.name) == target.value.0 {
          NamedExact(recs, target.value.0, s);
        }
      }
      if !hasSibling {
        orphans := orphans + {nm};
      }
    }
  }

  method HasType(recs: seq<Record>, t: RType) returns (found: bool)
    ensures found <==> exists s :: s in recs && s.rtype == t
  {
    found := false;
    for i := 0 to |recs|
      invariant found ==> exists s :: s in recs && s.rtype == t
      invariant !found ==> forall j :: 0 <= j < i ==> recs[j].rtype != t
    {
      if recs[i].rtype == t {
        assert recs[i] in recs;
        found := true;
        break;
      }
    }
  }

  // ----- collisions ------------------------------------------------------------

  datatype Reason = Clear | CnameBesideOthers | OthersBesideCname | Unmanaged | OwnedBy(owner: string)

  /** The first owner a marker of this name spells, in list order. */
  function FirstOwner(recs: seq<Record>, marker: string): Option<string> {
    if recs == [] then None
    else if NormalizeName(recs[0].name) == marker && IsMarker(recs[0]) then DecodeOwnership(recs[0].value)
    else FirstOwner(recs[1..], marker)
  }

  /** The rule over the flat list: CNAME exclusion (section 3.6.2 of RFC 1034, TXT ignored), then
      an existing record of the same type must belong to the requester. */
  function Collision(recs: seq<Record>, r: Record, owner: string): Reason {
    var name := NormalizeName(r.name);
    if r.rtype.CNAME? && exists s :: s in recs && NormalizeName(s.name) == name && !s.rtype.CNAME? && !s.rtype.TXT?
    then CnameBesideOthers
    else if !r.rtype.CNAME? && Exists(recs, name, CNAME) then OthersBesideCname
    else if !Exists(recs, name, r.rtype) then Clear
    else match FirstOwner(recs, OwnershipNameFor(r.rtype, r.name))
      case None => Unmanaged
      case Some(o) => if o == "" then Unmanaged else if o != owner then OwnedBy(o) else Clear
  }

  /** `collisionReason`: the index-based scan computes the flat rule. */
  method CollisionReason(byName: map<string, seq<Record>>, r: Record, owner: string, ghost recs: seq<Record>)
    returns (reason: Reason)
    requires Indexes(byName, recs)
    ensures reason == Collision(recs, r, owner)
  {
    hide OwnershipNameFor, DecodeOwnership, NormalizeName, FirstOwner;
    var name := NormalizeName(r.name);
    var sameName := if name in byName then byName[name] else [];
    forall s ensures s in sameName <==> s in recs && NormalizeName(s.name) == name {
      NamedExact(recs, name, s);
    }
    var hasCname, hasNonCname, existing := ScanTypes(sameName, r.rtype);
    assert existing == Exists(recs, name, r.rtype);
    assert hasCname == Exists(recs, name, CNAME);
    if r.rtype.CNAME? && hasNonCname { return CnameBesideOthers; }
    if !r.rtype.CNAME? && hasCname { return OthersBesideCname; }
    if !existing { return Clear; }
    var marker := OwnershipNameFor(r.rtype, r.name);
    var markers := if marker in byName then byName[marker] else [];
    FirstOwnerOfNamed(recs, marker);
    forall s | s in markers ensures NormalizeName(s.name) == marker {
      NamedExact(recs, marker, s);
    }
    var found := ScanOwner(markers, marker);
    if found == None || found == Some("") { return Unmanaged; }
    if found.value != owner { return OwnedBy(found.value); }
    return Clear;
  }

  method ScanTypes(sameName: seq<Record>, t: RType) returns (hasCname: bool, hasNonCname: bool, existing: bool)
    ensures hasCname <==> exists s :: s in sameName && s.rtype.CNAME?
    ensures hasNonCname <==> exists s :: s in sameName && !s.rtype.CNAME? && !s.rtype.TXT?
    ensures existing <==> exists s :: s in sameName && s.rtype == t
  {
    hasCname, hasNonCname, existing := false, false, false;
    for i := 0 to |sameName|
      invariant hasCname <==> exists j :: 0 <= j < i && sameName[j].rtype.CNAME?
      invariant hasNonCname <==> exists j :: 0 <= j < i && !sameName[j].rtype.CNAME? && !sameName[j].rtype.TXT?
      invariant existing <==> exists j :: 0 <= j < i && sameName[j].rtype == t
    {
      if sameName[i].rtype.CNAME? {
        hasCname := true;
      } else if !sameName[i].rtype.TXT? {
        hasNonCname := true;
      }
      if sameName[i].rtype == t { existing := true; }
    }
  }

  method ScanOwner(markers: seq<Record>, marker: string) returns (o: Option<string>)
    requires forall i :: 0 <= i < |markers| ==> NormalizeName(markers[i].name) == marker
    ensures o == FirstOwner(markers, marker)
  {
    for i := 0 to |markers|
      invariant FirstOwner(markers, marker) == FirstOwner(markers[i..], marker)
    {
      if IsMarker(markers[i]) { return DecodeOwnership(markers[i].value); }
    }
    return None;
  }

  /** Restricting the list to one name does not change who comes first under that name. */
  lemma {:induction false} FirstOwnerOfNamed(recs: seq<Record>, marker: string)
    ensures FirstOwner(Named(recs, marker), marker) == FirstOwner(recs, marker)
  {
    hide DecodeOwnership, NormalizeName;
    if recs != [] {
      var n := |recs| - 1;
      FirstOwnerOfNamed(recs[..n], marker);
      FirstOwnerSnoc(recs[..n], recs[n], marker);
      assert recs == recs[..n] + [recs[n]];
      var before := Named(recs[..n], marker);
      FirstOwnerSnoc(before, recs[n], marker);
      assert before + [] == before;
    }
  }

  lemma {:induction false} FirstOwnerSnoc(recs: seq<Record>, r: Record, marker: string)
    ensures FirstOwner(recs + [r], marker) ==
            if FirstOwner(recs, marker).Some? then FirstOwner(recs, marker)
            else if NormalizeName(r.name) == marker && IsMarker(r) then DecodeOwnership(r.value) else None
  {
    if recs == [] {
      assert recs + [r] == [r];
    } else {
      assert (recs + [r])[1..] == recs[1..] + [r];
      FirstOwnerSnoc(recs[1..], r, marker);
    }
  }

  /** The record at this position is the first marker of its name that can be decoded. */
  predicate FirstMarkerAt(recs: seq<Record>, i: nat, marker: string)
    requires i < |recs|
  {
    && IsMarker(recs[i]) && NormalizeName(recs[i].name) == marker
    && forall j :: 0 <= j < i ==> !(IsMarker(recs[j]) && NormalizeName(recs[j].name) == marker)
  }

  /** The first owner is what the first decodable marker says. */
  lemma {:induction false} FirstOwnerIff(recs: seq<Record>, marker: string, owner: string)
    ensures FirstOwner(recs, marker) == Some(owner) <==>
              exists i :: 0 <= i < |recs| && FirstMarkerAt(recs, i, marker) && DecodeOwnership(recs[i].value)
                == Some(owner)
  {
    hide DecodeOwnership, NormalizeName;
    if recs != [] {
      var rest := recs[1..];
      FirstOwnerIff(rest, marker, owner);
      if IsMarker(recs[0]) && NormalizeName(recs[0].name) == marker {
        assert FirstMarkerAt(recs, 0, marker);
      } else {
        if i :| 0 <= i < |rest| && FirstMarkerAt(rest, i, marker) && DecodeOwnership(rest[i].value) == Some(owner) {
          assert forall j :: 0 < j <= i ==> recs[j] == rest[j - 1];
          assert FirstMarkerAt(recs, i + 1, marker);
        }
        if i :| 0 <= i < |recs| && FirstMarkerAt(recs, i, marker) && DecodeOwnership(recs[i].value) == Some(owner) {
          assert forall j :: 0 <= j < i ==> rest[j] == recs[j + 1];
          assert FirstMarkerAt(rest, i - 1, marker);
        }
      }
    }
  }

  /** A record is free to be created exactly when the list has no CNAME conflict at its name (section
      3.6.2 of RFC 1034: a CNAME stands alone, TXT aside) and either has nothing of its type there or the
      first decodable marker for it names the requester. */
  lemma ClearIff(recs: seq<Record>, r: Record, owner: string)
    ensures var name, marker := NormalizeName(r.name), OwnershipNameFor(r.rtype, r.name);
            Collision(recs, r, owner) == Clear <==>
              && (r.rtype.CNAME? ==>
                    forall s :: s in recs && NormalizeName(s.name) == name ==> s.rtype.CNAME? || s.rtype.TXT?)
              && (!r.rtype.CNAME? ==>
                    forall s :: s in recs && NormalizeName(s.name) == name ==> !s.rtype.CNAME?)
              && ((forall s :: s in recs && NormalizeName(s.name) == name ==> s.rtype != r.rtype)
                  || (owner != "" && exists i :: 0 <= i < |recs| && FirstMarkerAt(recs, i, marker)
                                                 && DecodeOwnership(recs[i].value) == Some(owner)))
  {
    hide NormalizeName, OwnershipNameFor, DecodeOwnership, FirstOwner, FirstMarkerAt, Exists;
    FirstOwnerIff(recs, OwnershipNameFor(r.rtype, r.name), owner);
    ExistsMeans(recs, NormalizeName(r.name), r.rtype);
    ExistsMeans(recs, NormalizeName(r.name), CNAME);
  }

  lemma ExistsMeans(recs: seq<Record>, name: string, t: RType)
    ensures Exists(recs, name, t) <==> exists s :: s in recs && NormalizeName(s.name) == name && s.rtype == t
  {
    hide NormalizeName;
    if s :| s in recs && NormalizeName(s.name) == name && s.rtype == t {
      assert At(s, name, t);
    }
    if s :| s in recs && At(s, name, t) {
      assert NormalizeName(s.name) == name && s.rtype == t;
    }
  }
}

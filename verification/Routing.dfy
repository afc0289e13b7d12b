/** `zoneFor`: which configured zone a name belongs to, and that a record and its ownership
    marker belong to the same one. */
module Routing {
  import opened Text
  import opened Records
  import opened Ownership

  /** The (normalised) name lies in the zone. */
  predicate InZone(name: string, zone: string) {
    name == zone || HasSuffix(name, "." + zone)
  }

  /** A name lies in a zone if it is the zone or ends in a dot and the zone. */
  lemma InZoneMeans(name: string, zone: string)
    ensures InZone(name, zone) <==> name == zone || exists p: string :: name == p + "." + zone
  {
    DomainSuffix(name, zone);
  }

  /** The zone is a longest configured zone the name lies in. */
  predicate IsRoute(zones: seq<string>, name: string, zone: string) {
    zone in zones && InZone(name, zone) && forall y :: y in zones && InZone(name, y) ==> |y| <= |zone|
  }

  predicate Descending(s: seq<string>) {
    forall i, j :: 0 <= i < j < |s| ==> |s[i]| >= |s[j]|
  }

  /** Sorting by length, longest first; nothing is promised about the order of equal lengths. */
  method SortByLength(matches: seq<string>) returns (sorted: seq<string>)
    ensures multiset(sorted) == multiset(matches) && Descending(sorted)
  {
    sorted := [];
    for i := 0 to |matches|
      invariant multiset(sorted) == multiset(matches[..i]) && Descending(sorted)
    {
      assert matches[..i + 1] == matches[..i] + [matches[i]];
      sorted := Insert(sorted, matches[i]);
    }
    assert matches[..|matches|] == matches;
  }

  method Insert(sorted: seq<string>, x: string) returns (r: seq<string>)
    requires Descending(sorted)
    ensures multiset(r) == multiset(sorted) + multiset{x} && Descending(r)
  {
    var k := 0;
    while k < |sorted| && |sorted[k]| > |x|
      invariant 0 <= k <= |sorted|
      invariant forall j :: 0 <= j < k ==> |sorted[j]| > |x|
    {
      k := k + 1;
    }
    r := sorted[..k] + [x] + sorted[k..];
    InsertCounts(sorted, x, k);
    InsertOrders(sorted, x, k);
  }

  lemma InsertCounts(sorted: seq<string>, x: string, k: nat)
    requires k <= |sorted|
    ensures multiset(sorted[..k] + [x] + sorted[k..]) == multiset(sorted) + multiset{x}
  {
    assert sorted == sorted[..k] + sorted[k..];
  }

  lemma InsertOrders(sorted: seq<string>, x: string, k: nat)
    requires Descending(sorted) && k <= |sorted|
    requires (forall j :: 0 <= j < k ==> |sorted[j]| > |x|) && (k < |sorted| ==> |sorted[k]| <= |x|)
    ensures Descending(sorted[..k] + [x] + sorted[k..])
  {
    var r := sorted[..k] + [x] + sorted[k..];
    forall i, j | 0 <= i < j < |r| ensures |r[i]| >= |r[j]| {
      assert r[i] == (if i < k then sorted[i] else if i == k then x else sorted[i - 1]);
      assert r[j] == (if j < k then sorted[j] else if j == k then x else sorted[j - 1]);
      assert k < |sorted| && k < j - 1 ==> |sorted[k]| >= |sorted[j - 1]|;
    }
  }

  /** `zoneFor`: the route of the name, or "" when it has none. */
  method ZoneFor(zones: seq<string>, fqdn: string) returns (zone: string)
    ensures (exists y :: y in zones && InZone(NormalizeName(fqdn), y)) ==> IsRoute(zones, NormalizeName(fqdn), zone)
    ensures !(exists y :: y in zones && InZone(NormalizeName(fqdn), y)) ==> zone == ""
  {
    hide NormalizeName;
    var name := NormalizeName(fqdn);
    var matches: seq<string> := [];
    for i := 0 to |zones|
      invariant forall y :: y in matches <==> y in zones[..i] && InZone(name, y)
    {
      assert zones[..i + 1] == zones[..i] + [zones[i]];
      if InZone(name, zones[i]) {
        matches := matches + [zones[i]];
      }
    }
    assert zones[..|zones|] == zones;
    if matches == [] {
      return "";
    }
    assert matches[0] in matches;
    var sorted := SortByLength(matches);
    forall y ensures y in sorted <==> y in matches {
      assert y in multiset(sorted) <==> y in multiset(matches);
    }
    zone := sorted[0];
    assert zone in sorted;
    forall y | y in zones && InZone(name, y) ensures |y| <= |zone| {
      assert y in sorted;
      var j :| 0 <= j < |sorted| && sorted[j] == y;
    }
  }

  /** The route is unique: neither the configured order nor an unstable sort can matter. */
  lemma RouteUnique(zones: seq<string>, other: seq<string>, name: string, a: string, b: string)
    requires multiset(zones) == multiset(other)
    requires IsRoute(zones, name, a) && IsRoute(other, name, b)
    ensures a == b
  {
    assert b in multiset(zones) && a in multiset(other);
    assert name[|name| - |a|..] == a by { SuffixOf(name, a); }
    assert name[|name| - |b|..] == b by { SuffixOf(name, b); }
  }

  lemma SuffixOf(name: string, zone: string)
    requires InZone(name, zone)
    ensures |zone| <= |name| && name[|name| - |zone|..] == zone
  {
    if name != zone {
      assert name[|name| - |zone|..] == name[|name| - |"." + zone|..][1..];
      assert ("." + zone)[1..] == zone;
    }
  }

  // ----- markers ---------------------------------------------------------------

  /** After a first label without dots, only what follows it decides about proper suffixes. */
  lemma SuffixAfterHead(head: string, rest: string, y: string)
    requires NoDots(head)
    ensures HasSuffix(head + "." + rest, "." + y) <==> InZone(rest, y)
  {
    var s := head + "." + rest;
    var dy := "." + y;
    if |y| > |rest| {
      if |dy| <= |s| {
        var k := |s| - |dy|;
        assert s[k] == head[k] && s[k..][0] == s[k];
      }
    } else if |y| == |rest| {
      assert s[|s| - |dy|..] == "." + rest;
      if HasSuffix(s, dy) {
        assert ("." + rest)[1..] == rest && dy[1..] == y;
      }
    } else {
      assert s[|s| - |dy|..] == rest[|rest| - |dy|..];
    }
  }

  /** A marker lies in the zones of its record, and in the zone of its own name if there is one;
      a wildcard zone is the record's alone. */
  lemma MarkerZones(t: RType, name: string, y: string)
    requires IsData(t)
    ensures var nm, m := NormalizeName(name), OwnershipNameFor(t, name);
            InZone(m, y) <==> y == m || (InZone(nm, y) && !("*." <= nm && y == nm))
  {
    var nm, m := NormalizeName(name), OwnershipNameFor(t, name);
    var wild := "*." <= nm;
    MarkerShape(t, name);
    HeadHasNoDots(t, wild);
    SuffixAfterHead(MarkerHead(t, wild), MarkerRest(name), y);
    if wild {
      assert nm == "*" + "." + MarkerRest(name);
      SuffixAfterHead("*", MarkerRest(name), y);
    } else if y == m {
    } else {
      assert MarkerRest(name) == nm;
    }
  }

  /** The configuration's zones: never empty, no trailing dot. */
  predicate Configured(zones: seq<string>) {
    forall y :: y in zones ==> Settled(y)
  }

  /** A record that is routed has a settled name. */
  lemma RoutedIsSettled(zones: seq<string>, name: string, zone: string)
    requires Configured(zones) && IsRoute(zones, NormalizeName(name), zone)
    ensures Settled(NormalizeName(name)) && NormalizeName(NormalizeName(name)) == NormalizeName(name)
  {
    hide InZone;
    var nm := NormalizeName(name);
    assert Lowered(nm);
    LastCharacter(nm, zone);
    SettledWire(nm);
  }

  lemma LastCharacter(name: string, zone: string)
    requires InZone(name, zone) && Settled(zone)
    ensures Settled(name)
  {
    SuffixOf(name, zone);
    assert name[|name| - |zone|..][|zone| - 1] == name[|name| - 1];
  }

  /** A record's marker routes to the record's zone exactly when the marker's name is not itself a
      zone and the record is not the apex of a wildcard-named zone. */
  lemma MarkerRoutesTogether(zones: seq<string>, t: RType, name: string, zone: string)
    requires IsData(t) && Configured(zones) && IsRoute(zones, NormalizeName(name), zone)
    ensures var nm, m := NormalizeName(name), OwnershipNameFor(t, name);
            IsRoute(zones, NormalizeName(m), zone) <==> m !in zones && !("*." <= nm && nm in zones)
  {
    hide NormalizeName, Settled;
    var nm, m := NormalizeName(name), OwnershipNameFor(t, name);
    RoutedIsSettled(zones, name, zone);
    MarkerByWire(t, name, nm) by { NormalizeIsWire(name); NormalWire(name); }
    MarkerSettled(t, nm);
    SettledWire(m);
    MarkerLonger(t, name);
    SuffixOf(nm, zone);
    forall y ensures InZone(m, y) <==> y == m || (InZone(nm, y) && !("*." <= nm && y == nm)) {
      MarkerZones(t, name, y);
    }
    if m in zones {
      assert InZone(m, m) && |m| > |zone|;
    } else if "*." <= nm && nm in zones {
      assert InZone(nm, nm);
      assert |zone| == |nm|;
      assert zone == nm;
      assert !InZone(m, zone);
    }
  }

  lemma NormalWire(name: string)
    requires Settled(NormalizeName(name))
    ensures Wire(NormalizeName(name)) == Wire(name)
  {
    NormalizeIsWire(name);
    assert Lowered(NormalizeName(name));
    SettledWire(NormalizeName(name));
    assert Wire(name) == Wire(name)[..|Wire(name)| - 1] + ".";
  }

  lemma MarkerLonger(t: RType, name: string)
    ensures |OwnershipNameFor(t, name)| > |NormalizeName(name)|
  {
    MarkerShape(t, name);
  }
}

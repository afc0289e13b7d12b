/** The first half of `ApplyChanges`: a request is split into one batch per zone. */
module Grouping {
  import opened Text
  import opened Records
  import opened Listing
  import opened ChangeSets
  import opened Routing

  /** A webhook request; any endpoint may be missing. */
  datatype Request = Request(create: seq<Option<Endpoint>>, updateOld: seq<Option<Endpoint>>,
                             updateNew: seq<Option<Endpoint>>, delete: seq<Option<Endpoint>>)

  datatype Scope = Scope(zones: seq<string>, filter: seq<string>)

  const NO_WORK := Batch([], [], [], [])

  /** The endpoint passes the domain filter and is routed to this zone. */
  predicate Goes(sc: Scope, e: Option<Endpoint>, zone: string) {
    && e.Some? && Passes(sc.filter, NormalizeName(e.value.dnsName))
    && zone != "" && IsRoute(sc.zones, NormalizeName(e.value.dnsName), zone)
  }

  /** The endpoints of a list that go to a zone, in order. */
  function Share(sc: Scope, es: seq<Option<Endpoint>>, zone: string): seq<Endpoint> {
    if es == [] then []
    else
      var n := |es| - 1;
      var before := Share(sc, es[..n], zone);
      if Goes(sc, es[n], zone) then before + [es[n].value] else before
  }

  /** The update pairs that go to a zone: both sides present, and the new side decides. */
  function Pairs(sc: Scope, olds: seq<Option<Endpoint>>, news: seq<Option<Endpoint>>, zone: string): seq<(Endpoint,
                 Endpoint)>
    requires |olds| == |news|
  {
    if olds == [] then []
    else
      var n := |olds| - 1;
      var before := Pairs(sc, olds[..n], news[..n], zone);
      if olds[n].Some? && Goes(sc, news[n], zone) then before + [(olds[n].value, news[n].value)] else before
  }

  function Olds(pairs: seq<(Endpoint, Endpoint)>): seq<Endpoint> {
    seq(|pairs|, i requires 0 <= i < |pairs| => pairs[i].0)
  }

  function News(pairs: seq<(Endpoint, Endpoint)>): seq<Endpoint> {
    seq(|pairs|, i requires 0 <= i < |pairs| => pairs[i].1)
  }

  /** How many update pairs a request has: surplus old or new sides are ignored. */
  function PairCount(req: Request): (n: nat)
    ensures n <= |req.updateOld| && n <= |req.updateNew| && (n == |req.updateOld| || n == |req.updateNew|)
  {
    if |req.updateOld| > |req.updateNew| then |req.updateNew| else |req.updateOld|
  }

  function PairsOf(sc: Scope, req: Request, zone: string): seq<(Endpoint, Endpoint)> {
    Pairs(sc, req.updateOld[..PairCount(req)], req.updateNew[..PairCount(req)], zone)
  }

  /** A zone's batch of a request. */
  function BatchOf(sc: Scope, req: Request, zone: string): (b: Batch)
    ensures WellPaired(b)
  {
    var pairs := PairsOf(sc, req, zone);
    Batch(Share(sc, req.create, zone), Olds(pairs), News(pairs), Share(sc, req.delete, zone))
  }

  function Bucket(byZone: map<string, Batch>, zone: string): Batch {
    if zone in byZone then byZone[zone] else NO_WORK
  }

  predicate NoneEmpty(byZone: map<string, Batch>) {
    forall z :: z in byZone ==> byZone[z] != NO_WORK
  }

  /** The filter and zone tests shared by the three kinds of change; "" means skip. */
  method Route(sc: Scope, e: Endpoint) returns (zone: string)
    ensures forall z :: Goes(sc, Some(e), z) <==> z == zone && zone != ""
  {
    hide NormalizeName, Passes, InZone;
    if !Passes(sc.filter, NormalizeName(e.dnsName)) { return ""; }
    zone := ZoneFor(sc.zones, e.dnsName);
    forall z | Goes(sc, Some(e), z) ensures z == zone {
      RouteUnique(sc.zones, sc.zones, NormalizeName(e.dnsName), z, zone);
    }
  }

  method AddCreates(sc: Scope, es: seq<Option<Endpoint>>) returns (byZone: map<string, Batch>)
    ensures NoneEmpty(byZone) && forall z :: Bucket(byZone, z) == Batch(Share(sc, es, z), [], [], [])
  {
    hide Goes;
    byZone := map[];
    for i := 0 to |es|
      invariant NoneEmpty(byZone) && forall z :: Bucket(byZone, z) == Batch(Share(sc, es[..i], z), [], [], [])
    {
      assert es[..i + 1][..i] == es[..i];
      Nobody(sc);
      if es[i].None? { continue; }
      var zone := Route(sc, es[i].value);
      if zone == "" { continue; }
      var b := Bucket(byZone, zone);
      byZone := byZone[zone := b.(creates := b.creates + [es[i].value])];
    }
    assert es[..|es|] == es;
  }

  method AddDeletes(sc: Scope, es: seq<Option<Endpoint>>, byZone0: map<string, Batch>) returns (byZone: map<string,
                    Batch>)
    requires NoneEmpty(byZone0) && forall z :: Bucket(byZone0, z).dels == []
    ensures NoneEmpty(byZone) && forall z :: Bucket(byZone, z) == Bucket(byZone0, z).(dels := Share(sc, es, z))
  {
    hide Goes;
    byZone := byZone0;
    for i := 0 to |es|
      invariant NoneEmpty(byZone) && forall z :: Bucket(byZone, z) == Bucket(byZone0, z).(dels := Share(sc, es[..i], z))
    {
      assert es[..i + 1][..i] == es[..i];
      Nobody(sc);
      if es[i].None? { continue; }
      var zone := Route(sc, es[i].value);
      if zone == "" { continue; }
      var b := Bucket(byZone, zone);
      byZone := byZone[zone := b.(dels := b.dels + [es[i].value])];
    }
    assert es[..|es|] == es;
  }

  lemma OnePairMore(pairs: seq<(Endpoint, Endpoint)>, p: (Endpoint, Endpoint))
    ensures Olds(pairs + [p]) == Olds(pairs) + [p.0] && News(pairs + [p]) == News(pairs) + [p.1]
  {
  }

  method AddUpdates(sc: Scope, olds: seq<Option<Endpoint>>, news: seq<Option<Endpoint>>, byZone0: map<string, Batch>)
    returns (byZone: map<string, Batch>)
    requires |olds| == |news|
    requires NoneEmpty(byZone0) && forall z :: Bucket(byZone0, z).updOld == [] && Bucket(byZone0, z).updNew == []
    ensures NoneEmpty(byZone)
    ensures forall z :: Bucket(byZone, z) ==
              Bucket(byZone0, z).(updOld := Olds(Pairs(sc, olds, news, z)), updNew := News(Pairs(sc, olds, news, z)))
  {
    hide Goes, Olds, News;
    NoPairs();
    byZone := byZone0;
    for i := 0 to |olds|
      invariant NoneEmpty(byZone)
      invariant forall z :: Bucket(byZone, z) ==
                  Bucket(byZone0, z).(updOld := Olds(Pairs(sc, olds[..i], news[..i], z)),
                    updNew := News(Pairs(sc, olds[..i], news[..i], z)))
    {
      assert olds[..i + 1][..i] == olds[..i] && news[..i + 1][..i] == news[..i];
      Nobody(sc);
      if olds[i].None? || news[i].None? { continue; }
      var zone := Route(sc, news[i].value);
      if zone == "" { continue; }
      var b := Bucket(byZone, zone);
      OnePairMore(Pairs(sc, olds[..i], news[..i], zone), (olds[i].value, news[i].value));
      byZone := byZone[zone := b.(updOld := b.updOld + [olds[i].value], updNew := b.updNew + [news[i].value])];
    }
    assert olds[..|olds|] == olds && news[..|news|] == news;
  }

  lemma NoPairs()
    ensures Olds([]) == [] && News([]) == []
  {
  }

  lemma Nobody(sc: Scope)
    ensures forall z :: !Goes(sc, None, z)
  {
  }

  /** The grouping: exactly the zones with work, each with its share in request order. */
  method Group(sc: Scope, req: Request) returns (byZone: map<string, Batch>)
    ensures forall z :: z in byZone <==> BatchOf(sc, req, z) != NO_WORK
    ensures forall z :: z in byZone ==> byZone[z] == BatchOf(sc, req, z)
  {
    hide Share, Pairs, Goes, Olds, News;
    byZone := AddCreates(sc, req.create);
    byZone := AddDeletes(sc, req.delete, byZone);
    var n := PairCount(req);
    byZone := AddUpdates(sc, req.updateOld[..n], req.updateNew[..n], byZone);
    assert forall z :: Bucket(byZone, z) == BatchOf(sc, req, z);
  }

  // ----- what the split means --------------------------------------------------

  /** The name is the domain or lies below it. */
  ghost predicate Below(name: string, domain: string) {
    name == domain || exists p: string :: name == p + "." + domain
  }

  /** Where an endpoint goes: to the longest configured zone its normalised name is in, if that name is in
      the filter or there is none. */
  lemma GoesIff(sc: Scope, e: Endpoint, zone: string)
    ensures var name := NormalizeName(e.dnsName);
            Goes(sc, Some(e), zone) <==>
              && (sc.filter == [] || exists s :: s in sc.filter && Below(name, s))
              && zone != "" && zone in sc.zones && Below(name, zone)
              && forall y :: y in sc.zones && Below(name, y) ==> |y| <= |zone|
  {
    hide NormalizeName, Passes, InZone;
    var name := NormalizeName(e.dnsName);
    PassesIff(sc.filter, name);
    forall y ensures InZone(name, y) <==> Below(name, y) {
      InZoneMeans(name, y);
    }
  }

  /** A zone's share has exactly the endpoints that are present and go there. */
  lemma ShareExact(sc: Scope, es: seq<Option<Endpoint>>, zone: string, e: Endpoint)
    ensures var name := NormalizeName(e.dnsName);
            e in Share(sc, es, zone) <==>
              && Some(e) in es
              && (sc.filter == [] || exists s :: s in sc.filter && Below(name, s))
              && zone != "" && zone in sc.zones && Below(name, zone)
              && forall y :: y in sc.zones && Below(name, y) ==> |y| <= |zone|
  {
    hide NormalizeName, Goes, Below, Share;
    ShareMembers(sc, es, zone, e);
    GoesIff(sc, e, zone);
  }

  lemma {:induction false} ShareMembers(sc: Scope, es: seq<Option<Endpoint>>, zone: string, e: Endpoint)
    ensures e in Share(sc, es, zone) <==> Some(e) in es && Goes(sc, Some(e), zone)
  {
    hide NormalizeName, Passes, IsRoute;
    if es != [] {
      var n := |es| - 1;
      ShareMembers(sc, es[..n], zone, e);
      assert es == es[..n] + [es[n]];
    }
  }

  /** Shares keep the order of the request. */
  lemma {:induction false} ShareConcat(sc: Scope, a: seq<Option<Endpoint>>, b: seq<Option<Endpoint>>, zone: string)
    ensures Share(sc, a + b, zone) == Share(sc, a, zone) + Share(sc, b, zone)
  {
    hide NormalizeName, Passes, IsRoute;
    if b == [] {
      assert a + b == a;
    } else {
      assert (a + b)[..|a + b| - 1] == a + b[..|b| - 1];
      ShareConcat(sc, a, b[..|b| - 1], zone);
    }
  }

  /** And so do the update pairs. */
  lemma {:induction false} PairsConcat(sc: Scope, a: seq<Option<Endpoint>>, a': seq<Option<Endpoint>>,
                                       b: seq<Option<Endpoint>>, b': seq<Option<Endpoint>>, zone: string)
    requires |a| == |a'| && |b| == |b'|
    ensures Pairs(sc, a + b, a' + b', zone) == Pairs(sc, a, a', zone) + Pairs(sc, b, b', zone)
  {
    hide NormalizeName, Passes, IsRoute;
    if b == [] {
      assert a + b == a && a' + b' == a';
    } else {
      assert (a + b)[..|a + b| - 1] == a + b[..|b| - 1] && (a' + b')[..|a' + b'| - 1] == a' + b'[..|b'| - 1];
      PairsConcat(sc, a, a', b[..|b| - 1], b'[..|b'| - 1], zone);
    }
  }

  lemma {:induction false} PairsExact(sc: Scope, olds: seq<Option<Endpoint>>, news: seq<Option<Endpoint>>,
                                      zone: string, p: (Endpoint, Endpoint))
    requires |olds| == |news|
    ensures p in Pairs(sc, olds, news, zone)
            <==> Goes(sc, Some(p.1), zone)
                 && exists i :: 0 <= i < |olds| && olds[i] == Some(p.0) && news[i] == Some(p.1)
  {
    hide NormalizeName, Passes, IsRoute;
    if olds != [] {
      var n := |olds| - 1;
      PairsExact(sc, olds[..n], news[..n], zone, p);
      assert forall i :: 0 <= i < n ==> olds[..n][i] == olds[i] && news[..n][i] == news[i];
    }
  }

  /** What is in a zone's batch: its creates are creates of the request, its deletes deletes, and its
      updates pair the old and the new side at one position of the request, up to the shorter list. */
  lemma BatchExact(sc: Scope, req: Request, zone: string, e: Endpoint)
    ensures e in BatchOf(sc, req, zone).creates <==> Some(e) in req.create && Goes(sc, Some(e), zone)
    ensures e in BatchOf(sc, req, zone).dels <==> Some(e) in req.delete && Goes(sc, Some(e), zone)
    ensures var b := BatchOf(sc, req, zone);
            forall i :: 0 <= i < |b.updOld| ==>
              && Goes(sc, Some(b.updNew[i]), zone)
              && exists j :: 0 <= j < |req.updateOld| && j < |req.updateNew|
                             && req.updateOld[j] == Some(b.updOld[i]) && req.updateNew[j] == Some(b.updNew[i])
    ensures var b := BatchOf(sc, req, zone);
            forall j :: 0 <= j < |req.updateOld| && j < |req.updateNew| && req.updateOld[j].Some?
                        && req.updateNew[j].Some? && Goes(sc, req.updateNew[j], zone) ==>
              exists i :: 0 <= i < |b.updOld| && b.updOld[i] == req.updateOld[j].value
                          && b.updNew[i] == req.updateNew[j].value
  {
    hide Goes, Share, Pairs;
    Nobody(sc);
    ShareMembers(sc, req.create, zone, e);
    ShareMembers(sc, req.delete, zone, e);
    var b, n, pairs := BatchOf(sc, req, zone), PairCount(req), PairsOf(sc, req, zone);
    forall i | 0 <= i < |b.updOld|
      ensures Goes(sc, Some(b.updNew[i]), zone)
      ensures exists j :: 0 <= j < |req.updateOld| && j < |req.updateNew|
                          && req.updateOld[j] == Some(b.updOld[i]) && req.updateNew[j] == Some(b.updNew[i])
    {
      PairsExact(sc, req.updateOld[..n], req.updateNew[..n], zone, pairs[i]);
      assert pairs[i] in pairs;
      var j :| 0 <= j < n && req.updateOld[..n][j] == Some(pairs[i].0) && req.updateNew[..n][j] == Some(pairs[i].1);
      assert req.updateOld[j] == Some(b.updOld[i]) && req.updateNew[j] == Some(b.updNew[i]);
    }
    forall j | 0 <= j < |req.updateOld| && j < |req.updateNew| && req.updateOld[j].Some?
               && req.updateNew[j].Some? && Goes(sc, req.updateNew[j], zone)
      ensures exists i :: 0 <= i < |b.updOld| && b.updOld[i] == req.updateOld[j].value
                          && b.updNew[i] == req.updateNew[j].value
    {
      var p := (req.updateOld[j].value, req.updateNew[j].value);
      assert req.updateOld[..n][j] == Some(p.0) && req.updateNew[..n][j] == Some(p.1);
      PairsExact(sc, req.updateOld[..n], req.updateNew[..n], zone, p);
      var i :| 0 <= i < |pairs| && pairs[i] == p;
      assert b.updOld[i] == p.0 && b.updNew[i] == p.1;
    }
  }
}

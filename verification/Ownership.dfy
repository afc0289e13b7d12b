/** The ownership marker: a TXT record beside every data record that names its owner.
    Two codecs, one for the TXT value and one for the marker's own name. */
module Ownership {
  import opened Text
  import opened Records

  const OWNED_PREFIX := "owned-by="

  /** `encodeOwnership`: the zone-file form of the marker's value. */
  function EncodeOwnership(owner: string): string {
    "\"" + OWNED_PREFIX + owner + "\""
  }

  /** `decodeOwnership`: the owner inside a marker value, if it is one. */
  function DecodeOwnership(value: string): Option<string> {
    var prefix := "\"" + OWNED_PREFIX;
    if !(prefix <= value) || !HasSuffix(value, "\"") then None
    else
      assert |value| > |prefix| by { assert value[|value| - 1] == '\"' && prefix[9] == '='; }
      Some(value[|prefix|..|value| - 1])
  }

  const WildcardSentinel := "-wildcard"

  /** `ownershipNameFor`: the name of the marker for a data record. */
  function OwnershipNameFor(t: RType, name: string): string {
    var nm := NormalizeName(name);
    if "*." <= nm
    then "ddo-" + TypeLabel(t) + WildcardSentinel + "." + nm[2..]
    else "ddo-" + TypeLabel(t) + "." + nm
  }

  /** `decodeOwnershipName`: the data name and type a marker name stands for. */
  function DecodeOwnershipName(marker: string): Option<(string, RType)> {
    var nm := NormalizeName(marker);
    if !("ddo-" <= nm) then None
    else
      var dot := FirstDot(nm);
      if dot == |nm| then None
      else
        assert dot >= 4 by { assert forall i :: 0 <= i < 4 ==> nm[i] == "ddo-"[i]; }
        var typeLabel := nm[4..dot];
        var rest := nm[dot + 1..];
        if HasSuffix(typeLabel, WildcardSentinel)
        then Some(("*." + rest, TypeOfLabel(typeLabel[..|typeLabel| - |WildcardSentinel|])))
        else Some((rest, TypeOfLabel(typeLabel)))
  }

  /** The marker's server-side key. */
  function MarkerWire(t: RType, name: string): string {
    Wire(OwnershipNameFor(t, name))
  }

  // ----- the value codec -------------------------------------------------------

  /** Encoding then decoding gives the owner back, whatever the owner is. */
  lemma OwnershipRoundTrip(owner: string)
    ensures DecodeOwnership(EncodeOwnership(owner)) == Some(owner)
  {
    var v := EncodeOwnership(owner);
    var prefix := "\"" + OWNED_PREFIX;
    assert v == prefix + owner + "\"";
    assert v[..|prefix|] == prefix;
    assert v[|v| - 1..] == "\"";
    assert v[|prefix|..|v| - 1] == owner;
  }

  /** What the marker of an owner says, quotes included. */
  lemma EncodedText(owner: string)
    ensures EncodeOwnership(owner) == "\"owned-by=" + owner + "\""
  {
    assert "\"" + "owned-by=" == "\"owned-by=";
  }

  /** A marker's name spells the type in lower case before the normalised name; a wildcard's asterisk
      becomes a suffix of the type. */
  lemma MarkerSpelling(t: RType, name: string)
    requires IsData(t)
    ensures var nm := NormalizeName(name);
            && (!("*." <= nm) ==> OwnershipNameFor(t, name) == "ddo-" + Lower(TypeName(t)) + "." + nm)
            && ("*." <= nm ==> OwnershipNameFor(t, name) == "ddo-" + Lower(TypeName(t)) + "-wildcard." + nm[2..])
  {
    hide NormalizeName, TypeLabel, TypeName;
    TypeSpelling(t);
    assert "-wildcard" + "." == "-wildcard.";
  }

  /** Decoding accepts exactly the encodings: nothing else is ever taken for a marker. */
  lemma DecodeIsInverse(value: string, owner: string)
    ensures DecodeOwnership(value) == Some(owner) <==> value == EncodeOwnership(owner)
  {
    OwnershipRoundTrip(owner);
    var prefix := "\"" + OWNED_PREFIX;
    if DecodeOwnership(value) == Some(owner) {
      assert value[|value| - 1..] == "\"";
      assert |value| > |prefix| by { assert value[|value| - 1] == '\"' && prefix[9] == '='; }
      assert value == value[..|prefix|] + value[|prefix|..|value| - 1] + value[|value| - 1..];
    }
  }

  // ----- the name codec --------------------------------------------------------

  /** First label of a marker and what follows it. */
  function MarkerHead(t: RType, wildcard: bool): string {
    "ddo-" + TypeLabel(t) + (if wildcard then WildcardSentinel else "")
  }

  function MarkerRest(name: string): string {
    var nm := NormalizeName(name);
    if "*." <= nm then nm[2..] else nm
  }

  lemma MarkerShape(t: RType, name: string)
    ensures OwnershipNameFor(t, name) == MarkerHead(t, "*." <= NormalizeName(name)) + "." + MarkerRest(name)
  {
    assert "ddo-" + TypeLabel(t) + "" == "ddo-" + TypeLabel(t);
  }

  lemma HeadHasNoDots(t: RType, wildcard: bool)
    requires IsData(t)
    ensures NoDots(MarkerHead(t, wildcard)) && Lowered(MarkerHead(t, wildcard))
  {
    LabelRoundTrip(t);
  }

  /** The ten marker heads are pairwise different. */
  lemma HeadInjective(t1: RType, w1: bool, t2: RType, w2: bool)
    requires IsData(t1) && IsData(t2)
    requires MarkerHead(t1, w1) == MarkerHead(t2, w2)
    ensures t1 == t2 && w1 == w2
  {
    var h1, h2 := MarkerHead(t1, w1), MarkerHead(t2, w2);
    assert |h1| == 4 + |TypeLabel(t1)| + (if w1 then 9 else 0);
    assert |h2| == 4 + |TypeLabel(t2)| + (if w2 then 9 else 0);
    assert h1[4] == TypeLabel(t1)[0] && h2[4] == TypeLabel(t2)[0];
  }

  /** Distinct (type, normalised name) pairs never share a marker, wildcard or not. */
  lemma MarkerInjective(t1: RType, n1: string, t2: RType, n2: string)
    requires IsData(t1) && IsData(t2)
    requires OwnershipNameFor(t1, n1) == OwnershipNameFor(t2, n2)
    ensures t1 == t2 && NormalizeName(n1) == NormalizeName(n2)
  {
    var w1, w2 := "*." <= NormalizeName(n1), "*." <= NormalizeName(n2);
    MarkerShape(t1, n1);
    MarkerShape(t2, n2);
    HeadHasNoDots(t1, w1);
    HeadHasNoDots(t2, w2);
    SplitAtFirstDot(MarkerHead(t1, w1), MarkerRest(n1));
    SplitAtFirstDot(MarkerHead(t2, w2), MarkerRest(n2));
    HeadInjective(t1, w1, t2, w2);
    if w1 {
      assert NormalizeName(n1) == "*." + MarkerRest(n1) && NormalizeName(n2) == "*." + MarkerRest(n2);
    }
  }

  /** Decoding a marker gives back the type and the normalised name exactly when that name
      is non-empty and does not end in a dot: the decoder normalises a second time. */
  lemma MarkerRoundTrip(t: RType, name: string)
    requires IsData(t)
    ensures DecodeOwnershipName(OwnershipNameFor(t, name)) == Some((NormalizeName(name), t))
            <==> Settled(NormalizeName(name))
  {
    hide MarkerHead, DecodeOwnershipName, OwnershipNameFor;
    var nm := NormalizeName(name);
    var head, rest := MarkerHead(t, "*." <= nm), MarkerRest(name);
    MarkerShape(t, name);
    HeadHasNoDots(t, "*." <= nm);
    var m := OwnershipNameFor(t, name);
    assert Lowered(nm);
    assert Lowered(m) by { assert Lowered(rest); }
    LowerFixed(m);
    assert "*." <= nm ==> nm == "*." + rest;
    if Settled(nm) {
      assert rest != "" && rest[|rest| - 1] == nm[|nm| - 1] by {
        if "*." <= nm { assert |nm| > 2 by { assert nm[1] == '.'; } }
      }
      assert m[|m| - 1] == rest[|rest| - 1];
      assert NormalizeName(m) == m;
      DecodeSettled(t, "*." <= nm, rest);
    } else {
      assert EndsInDot(m) by { assert rest == "" || rest[|rest| - 1] == nm[|nm| - 1]; }
      LowerFixed(TrimDot(m));
      assert NormalizeName(m) == TrimDot(m);
      DecodeShortened(t, "*." <= nm, rest);
    }
  }

  /** Decoding `head.rest` when `rest` keeps its last character. */
  lemma DecodeSettled(t: RType, wildcard: bool, rest: string)
    requires IsData(t) && NormalizeName(MarkerHead(t, wildcard) + "." + rest) == MarkerHead(t, wildcard) + "." + rest
    ensures DecodeOwnershipName(MarkerHead(t, wildcard) + "." + rest)
            == Some(((if wildcard then "*." + rest else rest), t))
  {
    var head := MarkerHead(t, wildcard);
    var nm := head + "." + rest;
    HeadHasNoDots(t, wildcard);
    SplitAtFirstDot(head, rest);
    LabelRoundTrip(t);
    assert nm[..4] == "ddo-";
    assert nm[4..|head|] == head[4..];
    HeadSuffix(t, wildcard);
  }

  /** The sentinel can be told apart from every type label. */
  lemma HeadSuffix(t: RType, wildcard: bool)
    requires IsData(t)
    ensures HasSuffix(MarkerHead(t, wildcard)[4..], WildcardSentinel) <==> wildcard
    ensures wildcard ==> MarkerHead(t, wildcard)[4..][..|TypeLabel(t)|] == TypeLabel(t)
    ensures !wildcard ==> MarkerHead(t, wildcard)[4..] == TypeLabel(t)
  {
    var tail := MarkerHead(t, wildcard)[4..];
    if wildcard {
      assert tail == TypeLabel(t) + WildcardSentinel;
    } else {
      assert tail == TypeLabel(t);
    }
  }

  /** Decoding a marker that ends in a dot loses the name's last character or fails. */
  lemma DecodeShortened(t: RType, wildcard: bool, rest: string)
    requires IsData(t)
    requires rest == "" || rest[|rest| - 1] == '.'
    requires var m := MarkerHead(t, wildcard) + "." + rest; NormalizeName(m) == TrimDot(m)
    ensures DecodeOwnershipName(MarkerHead(t, wildcard) + "." + rest)
            != Some(((if wildcard then "*." + rest else rest), t))
  {
    var head := MarkerHead(t, wildcard);
    var m := head + "." + rest;
    HeadHasNoDots(t, wildcard);
    if rest == "" {
      assert TrimDot(m) == head;
    } else {
      var shorter := rest[..|rest| - 1];
      assert TrimDot(m) == head + "." + shorter;
      SplitAtFirstDot(head, shorter);
      assert |shorter| < |rest|;
    }
  }

  /** What a decodable name looks like, and what it decodes to. */
  lemma DecodeParts(n: string, k: (string, RType))
    requires NormalizeName(n) == n && DecodeOwnershipName(n) == Some(k)
    ensures 4 <= FirstDot(n) < |n|
    ensures var spelling, rest := n[4..FirstDot(n)], n[FirstDot(n) + 1..];
            && n == "ddo-" + spelling + "." + rest
            && (k.0 == "*." + rest || (k.0 == rest && k.1 == TypeOfLabel(spelling)))
            && (!("*." <= k.0) ==> k.0 == rest && k.1 == TypeOfLabel(spelling))
  {
    hide NormalizeName, TypeOfLabel, HasSuffix, FirstDot;
    var dot := FirstDot(n);
    assert "ddo-" <= n && dot < |n|;
    Reassemble(n, dot);
    assert ("*." + n[dot + 1..])[..2] == "*.";
  }

  lemma Reassemble(n: string, dot: nat)
    requires "ddo-" <= n && dot < |n| && n[dot] == '.' && forall i :: 0 <= i < dot ==> n[i] != '.'
    ensures 4 <= dot && n == "ddo-" + n[4..dot] + "." + n[dot + 1..]
  {
    assert forall i :: 0 <= i < 4 ==> n[i] == "ddo-"[i];
    assert n == n[..4] + n[4..dot] + [n[dot]] + n[dot + 1..];
  }

  lemma NormalLowered(name: string)
    ensures Lowered(NormalizeName(name))
  {
  }

  /** The marker of a settled name is settled. */
  lemma MarkerSettled(t: RType, nm: string)
    requires IsData(t) && Settled(nm) && NormalizeName(nm) == nm
    ensures Settled(OwnershipNameFor(t, nm)) && Lowered(OwnershipNameFor(t, nm))
  {
    hide MarkerHead, OwnershipNameFor, NormalizeName;
    MarkerShape(t, nm);
    HeadHasNoDots(t, "*." <= nm);
    assert Lowered(nm) by { NormalLowered(nm); }
    var rest := MarkerRest(nm);
    assert Lowered(rest);
    if "*." <= nm { assert |nm| > 2 by { assert nm[1] == '.'; } }
    assert rest != "" && rest[|rest| - 1] == nm[|nm| - 1];
  }

  // ----- on the server ---------------------------------------------------------

  /** A record's marker depends only on the record's server-side key. */
  lemma MarkerByWire(t: RType, n1: string, n2: string)
    requires Wire(n1) == Wire(n2)
    ensures OwnershipNameFor(t, n1) == OwnershipNameFor(t, n2)
  {
    NormalizeIsWire(n1);
    NormalizeIsWire(n2);
  }

  /** Two legal data records share a server-side marker only if they share their RRset. */
  lemma MarkerWireInjective(t1: RType, n1: string, t2: RType, n2: string)
    requires IsData(t1) && IsData(t2)
    requires IsOwnerName(Wire(n1)) && IsOwnerName(Wire(n2))
    requires MarkerWire(t1, n1) == MarkerWire(t2, n2)
    ensures t1 == t2 && Wire(n1) == Wire(n2)
  {
    DecodeByWire(OwnershipNameFor(t1, n1), OwnershipNameFor(t2, n2));
    DecodeLegalMarker(t1, n1);
    DecodeLegalMarker(t2, n2);
    if NormalizeName(n1) == "" && NormalizeName(n2) == "" {
      HeadInjective(t1, false, t2, false);
    }
  }

  lemma DecodeByWire(m1: string, m2: string)
    requires Wire(m1) == Wire(m2)
    ensures NormalizeName(m1) == NormalizeName(m2)
    ensures DecodeOwnershipName(m1) == DecodeOwnershipName(m2)
  {
    NormalizeIsWire(m1);
    NormalizeIsWire(m2);
  }

  /** On legal owner names the marker codec fails for the root alone. */
  lemma DecodeLegalMarker(t: RType, name: string)
    requires IsData(t) && IsOwnerName(Wire(name))
    ensures Wire(name) == NormalizeName(name) + "."
    ensures var m := OwnershipNameFor(t, name);
            if NormalizeName(name) == ""
            then DecodeOwnershipName(m) == None && NormalizeName(m) == MarkerHead(t, false)
            else DecodeOwnershipName(m) == Some((NormalizeName(name), t))
  {
    RootOrSettled(name);
    MarkerRoundTrip(t, name);
    if NormalizeName(name) == "" {
      RootMarker(t, name);
      HeadHasNoDots(t, false);
    }
  }

  lemma RootOrSettled(name: string)
    requires IsOwnerName(Wire(name))
    ensures NormalizeName(name) == "" || Settled(NormalizeName(name))
    ensures Wire(name) == NormalizeName(name) + "."
  {
    NormalizeIsWire(name);
    OwnerNameShape(Wire(name));
  }

  lemma RootMarker(t: RType, name: string)
    requires IsData(t) && NormalizeName(name) == ""
    ensures NormalizeName(OwnershipNameFor(t, name)) == MarkerHead(t, false)
  {
    HeadHasNoDots(t, false);
    MarkerShape(t, name);
    assert TrimDot(OwnershipNameFor(t, name)) == MarkerHead(t, false);
    LowerFixed(MarkerHead(t, false));
  }
}

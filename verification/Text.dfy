/** ASCII string helpers: the pieces of Go's `strings` package and of `dns.Fqdn`
    that the sidecar's name handling is built from. */
module Text {

  function LowerChar(c: char): char {
    if 'A' <= c <= 'Z' then (c as int + 32) as char else c
  }

  function UpperChar(c: char): char {
    if 'a' <= c <= 'z' then (c as int - 32) as char else c
  }

  function Lower(s: string): string {
    seq(|s|, i requires 0 <= i < |s| => LowerChar(s[i]))
  }

  function Upper(s: string): string {
    seq(|s|, i requires 0 <= i < |s| => UpperChar(s[i]))
  }

  predicate Lowered(s: string) {
    forall i :: 0 <= i < |s| ==> LowerChar(s[i]) == s[i]
  }

  predicate HasSuffix(s: string, suffix: string) {
    |suffix| <= |s| && s[|s| - |suffix|..] == suffix
  }

  predicate EndsInDot(s: string) {
    s != "" && s[|s| - 1] == '.'
  }

  function TrimDot(s: string): string {
    if EndsInDot(s) then s[..|s| - 1] else s
  }

  function Fqdn(s: string): string {
    if EndsInDot(s) then s else s + "."
  }

  /** `normalizeName`: lower case, one trailing dot dropped. */
  function NormalizeName(fqdn: string): string {
    Lower(TrimDot(fqdn))
  }

  /** The name as the server keys it: fully qualified, compared without case. */
  function Wire(name: string): string {
    Lower(Fqdn(name))
  }

  /** A normalised name that normalising again leaves alone and that names a real node. */
  predicate Settled(name: string) {
    name != "" && name[|name| - 1] != '.'
  }

  /** A name as normalising leaves it: the root or a settled lower-case name. */
  predicate Normal(name: string) {
    Lowered(name) && (name == "" || Settled(name))
  }

  /** An owner name in wire form: lower case, qualified, no empty label. */
  predicate IsOwnerName(w: string) {
    && EndsInDot(w) && Lowered(w)
    && (w == "." || (w[0] != '.' && forall i :: 0 <= i < |w| - 1 ==> !(w[i] == '.' && w[i + 1] == '.')))
  }

  predicate IsSpace(c: char) {
    c == ' ' || 9 <= c as int <= 13
  }

  /** A non-empty word without white space. */
  predicate IsToken(s: string) {
    s != "" && forall i :: 0 <= i < |s| ==> !IsSpace(s[i])
  }

  /** A character that means something else than itself in a zone-file line. */
  predicate IsSpecial(c: char) {
    IsSpace(c) || c == ';' || c == '\"' || c == '(' || c == ')' || c == '\\'
  }

  /** A word that a zone-file line takes as it stands. */
  predicate IsVerbatim(s: string) {
    s != "" && forall i :: 0 <= i < |s| ==> !IsSpecial(s[i])
  }

  function TrimLeft(s: string): string {
    if s != "" && IsSpace(s[0]) then TrimLeft(s[1..]) else s
  }

  function TrimRight(s: string): string {
    if s != "" && IsSpace(s[|s| - 1]) then TrimRight(s[..|s| - 1]) else s
  }

  function TrimSpace(s: string): string {
    TrimRight(TrimLeft(s))
  }

  function TokenLen(s: string): (n: nat)
    ensures n <= |s|
    ensures forall i :: 0 <= i < n ==> !IsSpace(s[i])
    ensures n < |s| ==> IsSpace(s[n])
  {
    if s == "" || IsSpace(s[0]) then 0 else 1 + TokenLen(s[1..])
  }

  /** `strings.Fields`: the maximal white-space-free words, in order. */
  function Fields(s: string): seq<string>
    decreases |s|
  {
    if s == "" then []
    else if IsSpace(s[0]) then Fields(s[1..])
    else [s[..TokenLen(s)]] + Fields(s[TokenLen(s)..])
  }

  /** Position of the first dot, or |s| when there is none. */
  function FirstDot(s: string): (d: nat)
    ensures d <= |s|
    ensures forall i :: 0 <= i < d ==> s[i] != '.'
    ensures d < |s| ==> s[d] == '.'
  {
    if s == "" || s[0] == '.' then 0 else 1 + FirstDot(s[1..])
  }

  predicate NoDots(s: string) {
    forall i :: 0 <= i < |s| ==> s[i] != '.'
  }

  /** Splitting at the first dot is unambiguous. */
  lemma SplitAtFirstDot(head: string, rest: string)
    requires NoDots(head)
    ensures FirstDot(head + "." + rest) == |head|
    ensures (head + "." + rest)[..|head|] == head
    ensures (head + "." + rest)[|head| + 1..] == rest
  {
    var s := head + "." + rest;
    assert s[|head|] == '.';
    assert forall i :: 0 <= i < |head| ==> s[i] == head[i];
  }

  /** Lower-casing a lower-case string changes nothing. */
  lemma LowerFixed(s: string)
    ensures Lowered(Lower(s))
    ensures Lowered(s) ==> Lower(s) == s
  {
  }

  /** `normalizeName` is the wire name without its final dot, so it depends on nothing else. */
  lemma NormalizeIsWire(name: string)
    ensures EndsInDot(Wire(name)) && Lowered(Wire(name))
    ensures NormalizeName(name) == Wire(name)[..|Wire(name)| - 1]
  {
    hide Lower, Lowered;
    var f := Fqdn(name);
    assert TrimDot(name) == f[..|f| - 1];
    LowerFixed(f);
    LowerPrefix(f);
  }

  lemma LowerPrefix(s: string)
    requires s != ""
    ensures |Lower(s)| == |s| && Lower(s[..|s| - 1]) == Lower(s)[..|s| - 1]
    ensures EndsInDot(Lower(s)) <==> EndsInDot(s)
  {
  }

  /** A settled lower-case name survives the trip to wire form and back. */
  lemma SettledWire(name: string)
    requires Settled(name) && Lowered(name)
    ensures Wire(name) == name + "." && NormalizeName(name) == name
    ensures TrimDot(Wire(name)) == name
    ensures NormalizeName(Wire(name)) == name
  {
    LowerFixed(name);
    LowerFixed(name + ".");
    assert Lowered(name + ".");
    assert (name + ".")[..|name|] == name;
  }

  lemma OwnerNameDotted(w: string)
    requires IsOwnerName(w)
    ensures EndsInDot(w) && Lowered(w)
  {
  }

  /** A legal owner name is its own wire form, and the name inside it is settled unless it is the root. */
  lemma OwnerNameShape(w: string)
    requires IsOwnerName(w)
    ensures Wire(w) == w
    ensures w != "." ==> Settled(TrimDot(w)) && Lowered(TrimDot(w)) && Wire(TrimDot(w)) == w
  {
    LowerFixed(w);
    if w != "." {
      var n := TrimDot(w);
      assert |w| > 1;
      assert n[|n| - 1] == w[|w| - 2] && w[|w| - 2 + 1] == '.';
      assert n + "." == w;
      SettledWire(n);
    }
  }

  /** A word has no white space to trim. */
  lemma TrimToken(s: string)
    requires IsToken(s)
    ensures TrimSpace(s) == s
  {
  }

  lemma TrimTwoTokens(a: string, b: string)
    requires IsToken(a) && IsToken(b)
    ensures TrimSpace(a + " " + b) == a + " " + b
  {
    var s := a + " " + b;
    assert s[0] == a[0] && s[|s| - 1] == b[|b| - 1];
  }

  lemma FieldsOfToken(s: string)
    requires IsToken(s)
    ensures Fields(s) == [s]
  {
    assert s[..TokenLen(s)] == s;
  }

  /** Two words joined by a blank split back into the two words. */
  lemma FieldsOfTwo(a: string, b: string)
    requires IsToken(a) && IsToken(b)
    ensures Fields(a + " " + b) == [a, b]
  {
    var s := a + " " + b;
    assert s[|a|] == ' ' && forall i :: 0 <= i < |a| ==> s[i] == a[i];
    assert TokenLen(s) == |a|;
    assert s[..|a|] == a;
    var r := s[|a|..];
    assert r[0] == ' ' && r[1..] == b;
    FieldsOfToken(b);
    assert Fields(r) == Fields(b);
  }

  /** Every word `Fields` returns is a word. */
  lemma {:induction false} FieldsAreTokens(s: string)
    ensures forall i :: 0 <= i < |Fields(s)| ==> IsToken(Fields(s)[i])
    decreases |s|
  {
    if s != "" {
      if IsSpace(s[0]) {
        FieldsAreTokens(s[1..]);
      } else {
        FieldsAreTokens(s[TokenLen(s)..]);
      }
    }
  }

  // ----- what the helpers mean -------------------------------------------------

  /** Lower-casing keeps everything but capital letters, and each of those becomes its small letter. */
  lemma LowerMeans(s: string)
    ensures |Lower(s)| == |s|
    ensures forall i :: 0 <= i < |s| ==> !('A' <= Lower(s)[i] <= 'Z')
    ensures forall i :: 0 <= i < |s| ==>
              Lower(s)[i] == s[i] || ('A' <= s[i] <= 'Z' && Lower(s)[i] as int - 'a' as int == s[i] as int - 'A' as int)
    ensures Lower("ABCXYZ.09-") == "abcxyz.09-"
  {
  }

  /** Upper-casing does the opposite, so that the two forget exactly the case. */
  lemma UpperMeans(s: string)
    ensures Upper(Lower(s)) == Upper(s) && Lower(Upper(s)) == Lower(s)
    ensures forall i :: 0 <= i < |s| ==> !('a' <= Upper(s)[i] <= 'z')
  {
  }

  /** The ASCII white space that `strings.TrimSpace` and `strings.Fields` know. */
  lemma SpaceMeans(c: char)
    ensures IsSpace(c) <==> c == ' ' || c == '\t' || c == '\n' || c == '\U{0B}' || c == '\U{0C}' || c == '\r'
  {
  }

  predicate IsBlank(s: string) {
    forall i :: 0 <= i < |s| ==> IsSpace(s[i])
  }

  /** Trimming takes the white space around a text and nothing of the text. */
  lemma {:induction false} TrimSpaceMeans(a: string, s: string, b: string)
    requires IsBlank(a) && IsBlank(b) && (s == "" || (!IsSpace(s[0]) && !IsSpace(s[|s| - 1])))
    ensures TrimSpace(a + s + b) == s
  {
    if a != "" {
      assert a + s + b == [a[0]] + (a[1..] + s + b);
      TrimSpaceMeans(a[1..], s, b);
    } else if s == "" {
      assert a + s + b == b;
      BlankTrims(b);
    } else {
      assert a + s + b == s + b;
      assert TrimLeft(s + b) == s + b;
      TrimRightMeans(s, b);
    }
  }

  lemma {:induction false} TrimRightMeans(s: string, b: string)
    requires IsBlank(b) && s != "" && !IsSpace(s[|s| - 1])
    ensures TrimRight(s + b) == s
  {
    if b == "" {
      assert s + b == s;
    } else {
      assert (s + b)[..|s + b| - 1] == s + b[..|b| - 1];
      TrimRightMeans(s, b[..|b| - 1]);
    }
  }

  lemma {:induction false} BlankTrims(b: string)
    requires IsBlank(b)
    ensures TrimSpace(b) == ""
  {
    if b != "" {
      BlankTrims(b[1..]);
    }
  }

  lemma FieldsOfNothing()
    ensures Fields("") == []
  {
  }

  /** White space before a text adds no field. */
  lemma {:induction false} FieldsSkip(a: string, s: string)
    requires IsBlank(a)
    ensures Fields(a + s) == Fields(s)
  {
    if a == "" {
      assert a + s == s;
    } else {
      assert a + s == [a[0]] + (a[1..] + s);
      FieldsSkip(a[1..], s);
    }
  }

  /** A word followed by white space, or by nothing, is the first field. */
  lemma FieldsWord(word: string, a: string, s: string)
    requires IsToken(word) && IsBlank(a) && (a == "" ==> s == "")
    ensures Fields(word + a + s) == [word] + Fields(s)
  {
    var text := word + a + s;
    WordLength(word, a + s);
    assert word + a + s == word + (a + s);
    assert text[..|word|] == word && text[|word|..] == a + s;
    FieldsSkip(a, s);
  }

  lemma {:induction false} WordLength(word: string, rest: string)
    requires IsToken(word) && (rest == "" || IsSpace(rest[0]))
    ensures TokenLen(word + rest) == |word|
  {
    var text := word + rest;
    assert text[0] == word[0];
    if |word| > 1 {
      assert text[1..] == word[1..] + rest;
      WordLength(word[1..], rest);
    } else {
      assert text[1..] == rest;
    }
  }

  /** A suffix is what follows some prefix. */
  lemma SuffixMeans(s: string, suffix: string)
    ensures HasSuffix(s, suffix) <==> exists p: string :: s == p + suffix
  {
    if HasSuffix(s, suffix) {
      assert s == s[..|s| - |suffix|] + suffix;
    }
    if p: string :| s == p + suffix {
      assert s[|p|..] == suffix;
    }
  }

  /** The same for a domain: the name ends in a dot and the domain. */
  lemma DomainSuffix(name: string, domain: string)
    ensures HasSuffix(name, "." + domain) <==> exists p: string :: name == p + "." + domain
  {
    SuffixMeans(name, "." + domain);
    if p: string :| name == p + ("." + domain) {
      assert name == p + "." + domain;
    }
    if p: string :| name == p + "." + domain {
      assert name == p + ("." + domain);
    }
  }
}

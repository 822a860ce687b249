/** Exactly which texts are release versions. */
module Versions {
  import opened Common
  import opened Formats

  predicate Number(s: string) { s != "" && forall i :: 0 <= i < |s| ==> Digit(s[i]) }

  predicate LabelChar(c: char) { Alnum(c) || c == '.' || c == '-' }

  predicate Label(s: string) { s != "" && Alnum(s[0]) && forall i :: 0 <= i < |s| ==> LabelChar(s[i]) }

  /** Three numbers, an optional pre-release label and an optional build label, with or without a leading v. */
  datatype Parts = Parts(v: bool, major: string, minor: string, patch: string, pre: Option<string>, build: Option<string>)

  predicate WellFormed(p: Parts) {
    && Number(p.major) && Number(p.minor) && Number(p.patch)
    && (p.pre.Some? ==> Label(p.pre.value)) && (p.build.Some? ==> Label(p.build.value))
  }

  function Optional(mark: char, tag: Option<string>): string { if tag.Some? then [mark] + tag.value else "" }

  function Core(p: Parts): string { (if p.v then "v" else "") + p.major + "." + p.minor + "." + p.patch }

  function Suffix(p: Parts): string { Optional('-', p.pre) + Optional('+', p.build) }

  function Text(p: Parts): string { Core(p) + Suffix(p) }

  // ---------------------------------------------------------------- runs of characters

  lemma {:induction false} DigitsRun(s: string, i: nat, j: nat)
    requires i <= j <= |s| && (forall k :: i <= k < j ==> Digit(s[k])) && (j == |s| || !Digit(s[j]))
    ensures DigitsEnd(s, i) == j
    decreases j - i
  {
    if i < j { DigitsRun(s, i + 1, j); }
  }

  lemma {:induction false} LabelRun(s: string, i: nat, j: nat)
    requires i <= j <= |s| && (forall k :: i <= k < j ==> LabelChar(s[k])) && (j == |s| || !LabelChar(s[j]))
    ensures LabelEnd(s, i) == j
    decreases j - i
  {
    if i < j { LabelRun(s, i + 1, j); }
  }

  lemma {:induction false} DigitsEndIsRun(s: string, i: nat)
    requires i <= |s|
    ensures forall k :: i <= k < DigitsEnd(s, i) ==> Digit(s[k])
    decreases |s| - i
  {
    if i < |s| && Digit(s[i]) { DigitsEndIsRun(s, i + 1); }
  }

  lemma {:induction false} LabelEndIsRun(s: string, i: nat)
    requires i <= |s|
    ensures forall k :: i <= k < LabelEnd(s, i) ==> LabelChar(s[k])
    decreases |s| - i
  {
    if i < |s| && LabelChar(s[i]) { LabelEndIsRun(s, i + 1); }
  }

  // ---------------------------------------------------------------- the suffix

  /** A label that begins at i and ends at j. */
  lemma LabelAt(s: string, i: nat, tag: string)
    requires Label(tag) && i + |tag| <= |s| && s[i..i + |tag|] == tag
    requires i + |tag| == |s| || s[i + |tag|] == '+'
    ensures Alnum(s[i]) && LabelEnd(s, i) == i + |tag|
  {
    assert forall k :: i <= k < i + |tag| ==> s[k] == tag[k - i];
    LabelRun(s, i, i + |tag|);
  }

  /** An optional marked label between two texts. */
  lemma OptionalAt(left: string, mark: char, tag: Option<string>, right: string)
    requires tag.Some? ==> Label(tag.value)
    requires right == "" || right[0] == '+'
    ensures var s, i := left + Optional(mark, tag) + right, |left|;
            tag.Some? ==> i + 1 < |s| && s[i] == mark && Alnum(s[i + 1]) && LabelEnd(s, i + 1) == i + 1 + |tag.value|
  {
    if tag.Some? {
      var s, i := left + Optional(mark, tag) + right, |left| + 1;
      assert s[i..i + |tag.value|] == tag.value;
      assert right != "" ==> s[i + |tag.value|] == right[0];
      LabelAt(s, i, tag.value);
    }
  }

  lemma SuffixAccepted(core: string, p: Parts)
    requires WellFormed(p)
    ensures VersionSuffix(core + Suffix(p), |core|)
  {
    var s, pre, build := core + Suffix(p), Optional('-', p.pre), Optional('+', p.build);
    assert s == core + pre + build && s == (core + pre) + build + "";
    OptionalAt(core, '-', p.pre, build);
    OptionalAt(core + pre, '+', p.build, "");
    assert |s| == |core| + |pre| + |build|;
  }

  lemma LabelFrom(s: string, i: nat, j: nat)
    requires i < j <= |s| && Alnum(s[i]) && LabelEnd(s, i) == j
    ensures Label(s[i..j])
  {
    LabelEndIsRun(s, i);
  }

  /** A mark at i, and a label from there up to j. */
  lemma MarkedLabel(s: string, i: nat, j: nat, mark: char)
    requires i + 1 < j <= |s| && s[i] == mark && Alnum(s[i + 1]) && LabelEnd(s, i + 1) == j
    ensures Label(s[i + 1..j]) && s[i..j] == Optional(mark, Some(s[i + 1..j]))
  {
    LabelFrom(s, i + 1, j);
  }

  /** A marked label stands at i and ends at j. */
  ghost predicate Marked(s: string, i: nat, j: nat, mark: char) {
    i + 1 < j <= |s| && s[i] == mark && Alnum(s[i + 1]) && LabelEnd(s, i + 1) == j
  }

  /** Where the pre-release label ends and the build label begins. */
  lemma SuffixCut(s: string, n: nat) returns (j: nat)
    requires n <= |s| && VersionSuffix(s, n)
    ensures n <= j <= |s| && (j == n || Marked(s, n, j, '-')) && (j == |s| || Marked(s, j, |s|, '+'))
  {
    j := if n < |s| && s[n] == '-' then LabelEnd(s, n + 1) else n;
  }

  lemma OptionalPart(s: string, i: nat, j: nat, mark: char) returns (tag: Option<string>)
    requires i <= j <= |s| && (i == j || Marked(s, i, j, mark))
    ensures (tag.Some? ==> Label(tag.value)) && s[i..j] == Optional(mark, tag)
  {
    tag := None;
    if i < j {
      MarkedLabel(s, i, j, mark);
      tag := Some(s[i + 1..j]);
    }
  }

  lemma SuffixParts(s: string, n: nat) returns (pre: Option<string>, build: Option<string>)
    requires n <= |s| && VersionSuffix(s, n)
    ensures (pre.Some? ==> Label(pre.value)) && (build.Some? ==> Label(build.value))
    ensures s[n..] == Optional('-', pre) + Optional('+', build)
  {
    var j := SuffixCut(s, n);
    pre := OptionalPart(s, n, j, '-');
    build := OptionalPart(s, j, |s|, '+');
    assert s[n..] == s[n..j] + s[j..|s|];
  }

  // ---------------------------------------------------------------- the numbers

  lemma NumberAt(s: string, i: nat, number: string)
    requires Number(number) && i + |number| <= |s| && s[i..i + |number|] == number
    requires i + |number| == |s| || !Digit(s[i + |number|])
    ensures DigitsEnd(s, i) == i + |number|
  {
    assert forall k :: i <= k < i + |number| ==> s[k] == number[k - i];
    DigitsRun(s, i, i + |number|);
  }

  /** Where the parts of a version stand in a text. */
  ghost predicate Placed(s: string, p: Parts, a: nat, b: nat, c: nat, d: nat) {
    && a == (if p.v then 1 else 0) && b == a + |p.major| && c == b + 1 + |p.minor| && d == c + 1 + |p.patch| && d <= |s|
    && (p.v ==> s[0] == 'v')
    && s[a..b] == p.major && s[b] == '.' && s[b + 1..c] == p.minor && s[c] == '.' && s[c + 1..d] == p.patch
    && (d == |s| || s[d] == '-' || s[d] == '+') && VersionSuffix(s, d)
  }

  lemma TextPlaced(p: Parts) returns (a: nat, b: nat, c: nat, d: nat)
    requires WellFormed(p)
    ensures Placed(Text(p), p, a, b, c, d)
  {
    a := if p.v then 1 else 0;
    b := a + |p.major|;
    c := b + 1 + |p.minor|;
    d := c + 1 + |p.patch|;
    var s := Text(p);
    assert s == (if p.v then "v" else "") + p.major + "." + p.minor + "." + p.patch + Suffix(p);
    SuffixAccepted(Core(p), p);
  }

  lemma ValidFrom(s: string, a: nat, b: nat, c: nat, d: nat)
    requires a == (if s != "" && s[0] == 'v' then 1 else 0) && a < b && b + 1 < c && c + 1 < d <= |s| && s[b] == '.' && s[c] == '.'
    requires DigitsEnd(s, a) == b && DigitsEnd(s, b + 1) == c && DigitsEnd(s, c + 1) == d && VersionSuffix(s, d)
    ensures ValidVersion(s)
  {
  }

  lemma PlacedIsValid(s: string, p: Parts, a: nat, b: nat, c: nat, d: nat)
    requires WellFormed(p) && Placed(s, p, a, b, c, d)
    ensures ValidVersion(s)
  {
    NumberAt(s, a, p.major);
    NumberAt(s, b + 1, p.minor);
    NumberAt(s, c + 1, p.patch);
    assert s[a..b][0] == s[a];
    ValidFrom(s, a, b, c, d);
  }

  /** Every version built from its parts is accepted. */
  lemma VersionIsValid(p: Parts)
    requires WellFormed(p)
    ensures ValidVersion(Text(p))
  {
    var a, b, c, d := TextPlaced(p);
    PlacedIsValid(Text(p), p, a, b, c, d);
  }

  lemma NumberFrom(s: string, i: nat)
    requires i < |s| && i < DigitsEnd(s, i)
    ensures Number(s[i..DigitsEnd(s, i)])
  {
    DigitsEndIsRun(s, i);
  }

  lemma Cut(s: string, a: nat, b: nat, c: nat, d: nat)
    requires a <= b < c < d <= |s| && s[b] == '.' && s[c] == '.'
    ensures s == s[..a] + s[a..b] + "." + s[b + 1..c] + "." + s[c + 1..d] + s[d..]
  {
    assert s[a..] == s[a..b] + "." + s[b + 1..];
    assert s[b + 1..] == s[b + 1..c] + "." + s[c + 1..];
    assert s[c + 1..] == s[c + 1..d] + s[d..];
  }

  /** Where an accepted text is cut. */
  lemma ValidCuts(s: string) returns (a: nat, b: nat, c: nat, d: nat)
    requires ValidVersion(s)
    ensures a < b < c < d <= |s| && b + 1 < c && c + 1 < d && s[b] == '.' && s[c] == '.'
    ensures s[..a] == "v" || s[..a] == ""
    ensures Number(s[a..b]) && Number(s[b + 1..c]) && Number(s[c + 1..d]) && VersionSuffix(s, d)
  {
    a := if s != "" && s[0] == 'v' then 1 else 0;
    b := DigitsEnd(s, a);
    c := DigitsEnd(s, b + 1);
    d := DigitsEnd(s, c + 1);
    NumberFrom(s, a);
    NumberFrom(s, b + 1);
    NumberFrom(s, c + 1);
  }

  /** Nothing but a version built from its parts is accepted. */
  lemma ValidIsVersion(s: string) returns (p: Parts)
    requires ValidVersion(s)
    ensures WellFormed(p) && s == Text(p)
  {
    var a, b, c, d := ValidCuts(s);
    var pre, build := SuffixParts(s, d);
    p := Parts(s[..a] == "v", s[a..b], s[b + 1..c], s[c + 1..d], pre, build);
    Cut(s, a, b, c, d);
  }
}

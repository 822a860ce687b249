/** Exactly which texts stand for a UUID: white space, the URN prefix, braces, dashes and letter case are all that may vary. */
module ServerSpellings {
  import opened Common
  import opened Formats
  import opened ServerIds

  predicate AllSpace(s: string) { forall i :: 0 <= i < |s| ==> Space(s[i]) }

  /** The texts differ at most in letter case; the second is in lower case. */
  predicate SameLetters(s: string, lower: string) {
    |s| == |lower| && forall i :: 0 <= i < |s| ==> LowerChar(s[i]) == lower[i]
  }

  /** The hexadecimal digits of the UUID, in either case and with dashes anywhere. */
  predicate Digits(s: string, b: seq<Byte>) { SameLetters(WithoutDashes(s), Hex(b)) }

  predicate Prefix(s: string) { s == "" || SameLetters(s, "urn:uuid:") }

  function Wrapped(core: string, braced: bool): string { if braced then "{" + core + "}" else core }

  /** The parts of a spelling of the UUID. */
  datatype Parts = Parts(left: string, prefix: string, braced: bool, core: string, right: string)

  function Text(p: Parts): string { p.left + (p.prefix + Wrapped(p.core, p.braced)) + p.right }

  predicate Spells(p: Parts, b: seq<Byte>) {
    AllSpace(p.left) && Prefix(p.prefix) && Digits(p.core, b) && AllSpace(p.right)
  }

  // ---------------------------------------------------------------- letter case

  lemma CaseOfDigit(c: char)
    requires LowerHex(LowerChar(c))
    ensures HexChar(c) && HexValue(c) == HexValue(LowerChar(c)) && c != '-' && !Space(c)
  {
  }

  lemma {:induction false} DecodeAnyCase(s: string, b: seq<Byte>)
    requires SameLetters(s, Hex(b))
    ensures DecodeHex(s) == Some(b)
    decreases |b|
  {
    HexIsLowerHex(b);
    if b != [] {
      CaseOfDigit(s[0]);
      CaseOfDigit(s[1]);
      assert Hex(b)[2..] == Hex(b[1..]);
      assert forall i :: 0 <= i < |s[2..]| ==> s[2..][i] == s[i + 2] && Hex(b)[2..][i] == Hex(b)[i + 2];
      DecodeAnyCase(s[2..], b[1..]);
      assert [b[0]] + b[1..] == b;
    }
  }

  lemma CaseOfHex(c: char)
    requires HexChar(c)
    ensures LowerChar(c) == HexDigit(HexValue(c))
  {
  }

  /** Only the digits of the bytes, in either case, decode to them. */
  lemma {:induction false} DecodedLetters(s: string, b: seq<Byte>)
    requires DecodeHex(s) == Some(b)
    ensures SameLetters(s, Hex(b))
    decreases |s|
  {
    if s != "" {
      var rest := DecodeHex(s[2..]).value;
      DecodedLetters(s[2..], rest);
      CaseOfHex(s[0]);
      CaseOfHex(s[1]);
      assert b[1..] == rest;
      assert b[0] / 16 == HexValue(s[0]) && b[0] % 16 == HexValue(s[1]);
      var h := Hex(b);
      assert h == [HexDigit(HexValue(s[0])), HexDigit(HexValue(s[1]))] + Hex(rest);
      forall i | 0 <= i < |s| ensures LowerChar(s[i]) == h[i] {
        if i >= 2 { assert s[i] == s[2..][i - 2] && h[i] == Hex(rest)[i - 2]; }
      }
    }
  }

  // ---------------------------------------------------------------- what is stripped

  lemma {:induction false} TrimLeftPad(left: string, x: string)
    requires AllSpace(left) && (x == "" || !Space(x[0]))
    ensures TrimLeft(left + x) == x
    decreases |left|
  {
    if left == "" { assert left + x == x; }
    else {
      assert (left + x)[1..] == left[1..] + x;
      TrimLeftPad(left[1..], x);
    }
  }

  lemma {:induction false} TrimRightPad(x: string, right: string)
    requires AllSpace(right) && x != "" && !Space(x[|x| - 1])
    ensures TrimRight(x + right) == x
    decreases |right|
  {
    if right == "" { assert x + right == x; }
    else {
      var n := |right| - 1;
      assert (x + right)[..|x + right| - 1] == x + right[..n];
      TrimRightPad(x, right[..n]);
    }
  }

  lemma TrimPad(left: string, x: string, right: string)
    requires AllSpace(left) && AllSpace(right) && x != "" && !Space(x[0]) && !Space(x[|x| - 1])
    ensures TrimSpace(left + x + right) == x
  {
    assert left + x + right == left + (x + right);
    TrimLeftPad(left, x + right);
    TrimRightPad(x, right);
  }

  lemma {:induction false} TrimLeftParts(s: string) returns (left: string)
    ensures AllSpace(left) && s == left + TrimLeft(s)
    decreases |s|
  {
    left := "";
    if s != "" && Space(s[0]) {
      var rest := TrimLeftParts(s[1..]);
      left := [s[0]] + rest;
    }
  }

  lemma {:induction false} TrimRightParts(s: string) returns (right: string)
    ensures AllSpace(right) && s == TrimRight(s) + right
    decreases |s|
  {
    right := "";
    if s != "" && Space(s[|s| - 1]) {
      var n := |s| - 1;
      var rest := TrimRightParts(s[..n]);
      right := rest + [s[n]];
    }
  }

  // ---------------------------------------------------------------- the core

  lemma {:induction false} DashOrDigit(s: string, i: nat)
    requires i < |s|
    ensures s[i] == '-' || s[i] in WithoutDashes(s)
    decreases |s|
  {
    if i > 0 {
      assert s[1..][i - 1] == s[i];
      DashOrDigit(s[1..], i - 1);
    }
  }

  /** A character of the core is neither white space nor the start of a prefix or of braces. */
  predicate CoreChar(c: char) { !Space(c) && c != '{' && LowerChar(c) != 'u' }

  lemma CoreChars(s: string, b: seq<Byte>, i: nat)
    requires Digits(s, b) && i < |s|
    ensures CoreChar(s[i])
  {
    DashOrDigit(s, i);
    HexIsLowerHex(b);
    if s[i] != '-' {
      var d := WithoutDashes(s);
      var k :| 0 <= k < |d| && d[k] == s[i];
      assert LowerHex(LowerChar(s[i]));
      CaseOfDigit(s[i]);
    }
  }

  lemma CoreEnds(s: string, b: seq<Byte>)
    requires Digits(s, b) && |b| == 16
    ensures s != "" && CoreChar(s[0]) && CoreChar(s[|s| - 1])
  {
    HexIsLowerHex(b);
    assert s != "";
    CoreChars(s, b, 0);
    CoreChars(s, b, |s| - 1);
  }

  lemma StripWrapped(prefix: string, braced: bool, core: string)
    requires Prefix(prefix) && core != "" && CoreChar(core[0])
    ensures StripBraces(StripUrn(prefix + Wrapped(core, braced))) == core
  {
    var w := Wrapped(core, braced);
    assert LowerChar(w[0]) != 'u';
    if prefix == "" { assert prefix + w == w; }
    else {
      var s := prefix + w;
      assert forall i :: 0 <= i < |URN| ==> s[i] == prefix[i];
      assert s[|URN|..] == w;
    }
    if braced { assert w[1..|w| - 1] == core; }
  }

  /** Every spelling of a UUID stands for it. */
  lemma SpellingStandsFor(p: Parts, b: seq<Byte>)
    requires |b| == 16 && Spells(p, b)
    ensures Identity(Text(p)) == Ok(b)
  {
    CoreEnds(p.core, b);
    var value := p.prefix + Wrapped(p.core, p.braced);
    assert value[|value| - 1] == (if p.braced then '}' else p.core[|p.core| - 1]);
    assert value[0] == (if p.prefix != "" then p.prefix[0] else Wrapped(p.core, p.braced)[0]);
    TrimPad(p.left, value, p.right);
    StripWrapped(p.prefix, p.braced, p.core);
    HexIsLowerHex(b);
    DecodeAnyCase(WithoutDashes(p.core), b);
  }

  lemma UrnParts(s: string) returns (prefix: string)
    ensures Prefix(prefix) && s == prefix + StripUrn(s)
  {
    prefix := if HasUrn(s) then s[..|URN|] else "";
  }

  lemma BraceParts(s: string) returns (braced: bool)
    ensures s == Wrapped(StripBraces(s), braced)
  {
    braced := |s| >= 2 && s[0] == '{' && s[|s| - 1] == '}';
  }

  lemma SpaceParts(s: string) returns (left: string, right: string)
    ensures AllSpace(left) && AllSpace(right) && s == left + TrimSpace(s) + right
  {
    left := TrimLeftParts(s);
    right := TrimRightParts(TrimLeft(s));
  }

  lemma IdentityDigits(raw: string, b: seq<Byte>)
    requires Identity(raw) == Ok(b)
    ensures Digits(StripBraces(StripUrn(TrimSpace(raw))), b)
  {
    DecodedLetters(WithoutDashes(StripBraces(StripUrn(TrimSpace(raw)))), b);
  }

  /** Nothing but a spelling of a UUID stands for it. */
  lemma OnlySpellings(raw: string, b: seq<Byte>) returns (p: Parts)
    requires Identity(raw) == Ok(b)
    ensures Spells(p, b) && raw == Text(p)
  {
    IdentityDigits(raw, b);
    var left, right := SpaceParts(raw);
    var value := TrimSpace(raw);
    var prefix := UrnParts(value);
    var braced := BraceParts(StripUrn(value));
    p := Parts(left, prefix, braced, StripBraces(StripUrn(value)), right);
  }
}

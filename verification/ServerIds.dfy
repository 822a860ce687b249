/**
  Server identities: the UUID spellings that the Manager accepts, their canonical text, and the fact that
  the canonical text stands for the UUID in equality and in order.
 */
module ServerIds {
  import opened Common
  import opened Formats

  type Byte = b: int | 0 <= b < 256

  /** Unicode white space. */
  predicate Space(c: char) {
    var u := c as int;
    || 0x09 <= u <= 0x0d || u == 0x20 || u == 0x85 || u == 0xa0 || u == 0x1680 || 0x2000 <= u <= 0x200a
    || u == 0x2028 || u == 0x2029 || u == 0x202f || u == 0x205f || u == 0x3000
  }

  function TrimLeft(s: string): string
    decreases |s|
  {
    if s != "" && Space(s[0]) then TrimLeft(s[1..]) else s
  }

  function TrimRight(s: string): string
    decreases |s|
  {
    if s != "" && Space(s[|s| - 1]) then TrimRight(s[..|s| - 1]) else s
  }

  function TrimSpace(s: string): string { TrimRight(TrimLeft(s)) }

  function LowerChar(c: char): char { if 'A' <= c <= 'Z' then c - 'A' + 'a' else c }

  const URN := "urn:uuid:"

  predicate HasUrn(s: string) {
    |s| >= |URN| && forall i :: 0 <= i < |URN| ==> LowerChar(s[i]) == URN[i]
  }

  function StripUrn(s: string): string { if HasUrn(s) then s[|URN|..] else s }

  function StripBraces(s: string): string {
    if |s| >= 2 && s[0] == '{' && s[|s| - 1] == '}' then s[1..|s| - 1] else s
  }

  function WithoutDashes(s: string): string
    decreases |s|
  {
    if s == "" then "" else (if s[0] == '-' then "" else [s[0]]) + WithoutDashes(s[1..])
  }

  predicate HexChar(c: char) { Digit(c) || 'a' <= c <= 'f' || 'A' <= c <= 'F' }

  function HexValue(c: char): (v: int)
    requires HexChar(c)
    ensures 0 <= v < 16
  {
    if Digit(c) then c as int - '0' as int
    else if 'a' <= c <= 'f' then c as int - 'a' as int + 10
    else c as int - 'A' as int + 10
  }

  function HexDigit(v: int): (c: char)
    requires 0 <= v < 16
    ensures LowerHex(c) && HexValue(c) == v
  {
    if v < 10 then '0' + v as char else 'a' + (v - 10) as char
  }

  /** Pairs of hexadecimal digits as bytes. */
  function DecodeHex(s: string): Option<seq<Byte>>
    decreases |s|
  {
    if s == "" then Some([])
    else if |s| == 1 || !HexChar(s[0]) || !HexChar(s[1]) then None
    else
      match DecodeHex(s[2..])
      case None => None
      case Some(rest) => Some([16 * HexValue(s[0]) + HexValue(s[1])] + rest)
  }

  function Hex(b: seq<Byte>): string
    decreases |b|
  {
    if b == [] then "" else [HexDigit(b[0] / 16), HexDigit(b[0] % 16)] + Hex(b[1..])
  }

  /** Groups of two bytes, n of them, each followed by a dash, and then the rest. */
  function Groups(b: seq<Byte>, n: nat): string
    requires 2 * n <= |b|
    decreases n
  {
    if n == 0 then Hex(b) else Hex(b[..2]) + ("-" + Groups(b[2..], n - 1))
  }

  /** The 8-4-4-4-12 spelling of sixteen bytes. */
  function Format(b: seq<Byte>): string
    requires |b| == 16
  {
    Hex(b[..4]) + ("-" + Groups(b[4..], 3))
  }

  /** The UUID that a spelling stands for. */
  function Identity(raw: string): Result<seq<Byte>>
    ensures Identity(raw).Ok? ==> |Identity(raw).value| == 16
  {
    var value := TrimSpace(raw);
    if value == "" then Err("candidate server id is required")
    else
      var compact := WithoutDashes(StripBraces(StripUrn(value)));
      if |compact| != 32 then Err("candidate server id must be a UUID")
      else match DecodeHex(compact)
        case None => Err("candidate server id must be a UUID")
        case Some(b) => if |b| == 16 then Ok(b) else Err("candidate server id must be a UUID")
  }

  function Canonical(raw: string): Result<string> {
    match Identity(raw)
    case Err(e) => Err(e)
    case Ok(b) => Ok(Format(b))
  }

  // ---------------------------------------------------------------- round trips

  lemma {:induction false} HexIsLowerHex(b: seq<Byte>)
    ensures |Hex(b)| == 2 * |b| && forall i :: 0 <= i < |Hex(b)| ==> LowerHex(Hex(b)[i])
    decreases |b|
  {
    if b != [] { HexIsLowerHex(b[1..]); }
  }

  lemma {:induction false} HexRoundTrip(b: seq<Byte>)
    ensures DecodeHex(Hex(b)) == Some(b)
    decreases |b|
  {
    if b != [] {
      HexRoundTrip(b[1..]);
      assert Hex(b)[2..] == Hex(b[1..]);
      assert [b[0]] + b[1..] == b;
    }
  }

  lemma {:induction false} HexConcat(a: seq<Byte>, b: seq<Byte>)
    ensures Hex(a + b) == Hex(a) + Hex(b)
    decreases |a|
  {
    if a == [] { assert a + b == b; }
    else {
      assert (a + b)[1..] == a[1..] + b;
      HexConcat(a[1..], b);
    }
  }

  lemma {:induction false} WithoutDashesConcat(a: string, b: string)
    ensures WithoutDashes(a + b) == WithoutDashes(a) + WithoutDashes(b)
    decreases |a|
  {
    if a == "" { assert a + b == b; }
    else {
      assert (a + b)[1..] == a[1..] + b;
      WithoutDashesConcat(a[1..], b);
    }
  }

  lemma {:induction false} WithoutDashesId(s: string)
    requires forall i :: 0 <= i < |s| ==> s[i] != '-'
    ensures WithoutDashes(s) == s
    decreases |s|
  {
    if s != "" { WithoutDashesId(s[1..]); }
  }

  lemma DashThen(s: string)
    ensures WithoutDashes("-" + s) == WithoutDashes(s)
  {
    assert ("-" + s)[1..] == s;
  }

  lemma DashlessHex(b: seq<Byte>, rest: string)
    ensures WithoutDashes(Hex(b) + rest) == Hex(b) + WithoutDashes(rest)
  {
    HexIsLowerHex(b);
    WithoutDashesId(Hex(b));
    WithoutDashesConcat(Hex(b), rest);
  }

  /** A group, a dash and a text: without dashes, the digits in a row. */
  lemma GroupCompact(b: seq<Byte>, k: nat, rest: string)
    requires k <= |b| && WithoutDashes(rest) == Hex(b[k..])
    ensures WithoutDashes(Hex(b[..k]) + ("-" + rest)) == Hex(b)
  {
    DashlessHex(b[..k], "-" + rest);
    DashThen(rest);
    HexConcat(b[..k], b[k..]);
    assert b[..k] + b[k..] == b;
  }

  lemma {:induction false} GroupsCompact(b: seq<Byte>, n: nat)
    requires 2 * n <= |b|
    ensures WithoutDashes(Groups(b, n)) == Hex(b)
    decreases n
  {
    if n == 0 {
      HexIsLowerHex(b);
      WithoutDashesId(Hex(b));
    } else {
      GroupsCompact(b[2..], n - 1);
      GroupCompact(b, 2, Groups(b[2..], n - 1));
    }
  }

  /** The canonical text without its dashes is the plain hexadecimal text. */
  lemma FormatCompact(b: seq<Byte>)
    requires |b| == 16
    ensures WithoutDashes(Format(b)) == Hex(b)
  {
    GroupsCompact(b[4..], 3);
    GroupCompact(b, 4, Groups(b[4..], 3));
  }

  lemma {:induction false} GroupsEnd(b: seq<Byte>, n: nat)
    requires 2 * n < |b|
    ensures |Groups(b, n)| == 2 * |b| + n && LowerHex(Groups(b, n)[|Groups(b, n)| - 1])
    decreases n
  {
    if n == 0 { HexIsLowerHex(b); }
    else {
      GroupsEnd(b[2..], n - 1);
      HexIsLowerHex(b[..2]);
    }
  }

  /** The canonical text begins and ends with a lower-case hexadecimal digit. */
  lemma FormatEnds(b: seq<Byte>)
    requires |b| == 16
    ensures |Format(b)| == 36 && LowerHex(Format(b)[0]) && LowerHex(Format(b)[35])
  {
    HexIsLowerHex(b[..4]);
    GroupsEnd(b[4..], 3);
    assert Format(b)[0] == Hex(b[..4])[0];
  }

  /** A text that begins and ends with a lower-case hexadecimal digit has nothing to strip. */
  lemma NothingToStrip(s: string)
    requires s != "" && LowerHex(s[0]) && LowerHex(s[|s| - 1])
    ensures TrimSpace(s) == s && StripUrn(s) == s && StripBraces(s) == s
  {
    assert LowerChar(s[0]) != URN[0];
  }

  /** The canonical text of a UUID stands for that UUID. */
  lemma FormatIdentity(b: seq<Byte>)
    requires |b| == 16
    ensures Identity(Format(b)) == Ok(b)
  {
    FormatEnds(b);
    NothingToStrip(Format(b));
    FormatCompact(b);
    HexIsLowerHex(b);
    HexRoundTrip(b);
  }

  /** Canonicalization is idempotent. */
  lemma CanonicalIdempotent(raw: string)
    requires Canonical(raw).Ok?
    ensures Canonical(Canonical(raw).value) == Canonical(raw)
  {
    FormatIdentity(Identity(raw).value);
  }

  /** Two spellings have the same canonical text exactly if they stand for the same UUID. */
  lemma CanonicalIdentifies(a: string, b: string)
    requires Canonical(a).Ok? && Canonical(b).Ok?
    ensures Canonical(a) == Canonical(b) <==> Identity(a) == Identity(b)
  {
    FormatIdentity(Identity(a).value);
    FormatIdentity(Identity(b).value);
  }

  // ---------------------------------------------------------------- order

  /** Byte-wise order of text, as sort.Strings has it. */
  predicate TextLess(s: string, t: string)
    decreases |s|
  {
    t != "" && (s == "" || s[0] < t[0] || (s[0] == t[0] && TextLess(s[1..], t[1..])))
  }

  /** Order of UUIDs, as the database has it. */
  predicate UuidLess(a: seq<Byte>, b: seq<Byte>)
    decreases |a|
  {
    b != [] && (a == [] || a[0] < b[0] || (a[0] == b[0] && UuidLess(a[1..], b[1..])))
  }

  lemma {:induction false} TextLessConcat(p: string, q: string, s: string, t: string)
    requires |p| == |q|
    ensures TextLess(p + s, q + t) <==> TextLess(p, q) || (p == q && TextLess(s, t))
    decreases |p|
  {
    if p == "" { assert p + s == s && q + t == t; }
    else {
      assert (p + s)[1..] == p[1..] + s && (q + t)[1..] == q[1..] + t;
      TextLessConcat(p[1..], q[1..], s, t);
      assert p == q <==> p[0] == q[0] && p[1..] == q[1..] by { assert p == [p[0]] + p[1..] && q == [q[0]] + q[1..]; }
    }
  }

  lemma {:induction false} UuidLessConcat(p: seq<Byte>, q: seq<Byte>, s: seq<Byte>, t: seq<Byte>)
    requires |p| == |q|
    ensures UuidLess(p + s, q + t) <==> UuidLess(p, q) || (p == q && UuidLess(s, t))
    decreases |p|
  {
    if p == [] { assert p + s == s && q + t == t; }
    else {
      assert (p + s)[1..] == p[1..] + s && (q + t)[1..] == q[1..] + t;
      UuidLessConcat(p[1..], q[1..], s, t);
      assert p == q <==> p[0] == q[0] && p[1..] == q[1..] by { assert p == [p[0]] + p[1..] && q == [q[0]] + q[1..]; }
    }
  }

  lemma PairOrder(x: Byte, y: Byte)
    ensures var p, q := [HexDigit(x / 16), HexDigit(x % 16)], [HexDigit(y / 16), HexDigit(y % 16)];
            (TextLess(p, q) <==> x < y) && (p == q <==> x == y)
  {
    var p, q := [HexDigit(x / 16), HexDigit(x % 16)], [HexDigit(y / 16), HexDigit(y % 16)];
    assert p[1..] == [HexDigit(x % 16)] && q[1..] == [HexDigit(y % 16)];
    assert TextLess(p[1..], q[1..]) <==> HexDigit(x % 16) < HexDigit(y % 16);
    assert p == q <==> p[0] == q[0] && p[1] == q[1];
  }

  lemma {:induction false} HexOrder(a: seq<Byte>, b: seq<Byte>)
    requires |a| == |b|
    ensures TextLess(Hex(a), Hex(b)) <==> UuidLess(a, b)
    ensures Hex(a) == Hex(b) <==> a == b
    decreases |a|
  {
    HexRoundTrip(a);
    HexRoundTrip(b);
    if a != [] {
      var p, q := [HexDigit(a[0] / 16), HexDigit(a[0] % 16)], [HexDigit(b[0] / 16), HexDigit(b[0] % 16)];
      TextLessConcat(p, q, Hex(a[1..]), Hex(b[1..]));
      PairOrder(a[0], b[0]);
      HexOrder(a[1..], b[1..]);
    }
  }

  /** One more group of digits in front of texts that are already in the right order. */
  lemma GroupOrder(a: seq<Byte>, b: seq<Byte>, s: string, t: string, x: seq<Byte>, y: seq<Byte>)
    requires |a| == |b|
    requires TextLess(s, t) <==> UuidLess(x, y)
    ensures TextLess(Hex(a) + ("-" + s), Hex(b) + ("-" + t)) <==> UuidLess(a + x, b + y)
  {
    HexOrder(a, b);
    HexIsLowerHex(a);
    HexIsLowerHex(b);
    TextLessConcat(Hex(a), Hex(b), "-" + s, "-" + t);
    TextLessConcat("-", "-", s, t);
    UuidLessConcat(a, b, x, y);
  }

  lemma {:induction false} GroupsOrder(a: seq<Byte>, b: seq<Byte>, n: nat)
    requires |a| == |b| && 2 * n <= |a|
    ensures TextLess(Groups(a, n), Groups(b, n)) <==> UuidLess(a, b)
    decreases n
  {
    if n == 0 { HexOrder(a, b); }
    else {
      GroupsOrder(a[2..], b[2..], n - 1);
      GroupOrder(a[..2], b[..2], Groups(a[2..], n - 1), Groups(b[2..], n - 1), a[2..], b[2..]);
      assert a[..2] + a[2..] == a && b[..2] + b[2..] == b;
    }
  }

  /** The order in which canonical ids are sorted as text is the order of the UUIDs that the database enforces. */
  lemma CanonicalOrder(a: seq<Byte>, b: seq<Byte>)
    requires |a| == 16 && |b| == 16
    ensures TextLess(Format(a), Format(b)) <==> UuidLess(a, b)
  {
    GroupsOrder(a[4..], b[4..], 3);
    GroupOrder(a[..4], b[..4], Groups(a[4..], 3), Groups(b[4..], 3), a[4..], b[4..]);
    assert a[..4] + a[4..] == a && b[..4] + b[4..] == b;
  }
}

/**
  Password hashing: the PBKDF2 loops proved against section 5.2 of RFC 8018 for an arbitrary pseudorandom
  function with 32-byte results, and the stored text that wraps the derived key.
 */
module Password {
  import opened Common
  import opened Formats

  type Bytes = seq<bv8>

  type Prf = (Bytes, Bytes) -> Bytes

  const H_LEN := 32

  ghost predicate IsPrf(prf: Prf) { forall key: Bytes, text: Bytes :: |prf(key, text)| == H_LEN }

  // ---------------------------------------------------------------- section 5.2 of RFC 8018

  /** INT (i): four octets, most significant first. */
  function Int4(i: bv32): Bytes {
    [((i >> 24) & 0xff) as bv8, ((i >> 16) & 0xff) as bv8, ((i >> 8) & 0xff) as bv8, (i & 0xff) as bv8]
  }

  /** The four octets hold the whole number, in the order of their weight. */
  lemma Int4Weights(i: bv32)
    ensures var o := Int4(i);
            |o| == 4 && i == ((o[0] as bv32) << 24) | ((o[1] as bv32) << 16) | ((o[2] as bv32) << 8) | (o[3] as bv32)
  {
  }

  function Xor(a: Bytes, b: Bytes): (r: Bytes)
    requires |a| == |b|
    ensures |r| == |a|
  {
    seq(|a|, i requires 0 <= i < |a| => a[i] ^ b[i])
  }

  /** U_j of block i. */
  function U(prf: Prf, password: Bytes, salt: Bytes, i: bv32, j: nat): Bytes
    requires 1 <= j
  {
    if j == 1 then prf(password, salt + Int4(i)) else prf(password, U(prf, password, salt, i, j - 1))
  }

  /** F: the exclusive-or of U_1 up to U_c. */
  ghost function F(prf: Prf, password: Bytes, salt: Bytes, c: nat, i: bv32): (t: Bytes)
    requires 1 <= c && IsPrf(prf)
    ensures |t| == H_LEN
    decreases c
  {
    if c == 1 then U(prf, password, salt, i, 1)
    else Xor(F(prf, password, salt, c - 1, i), U(prf, password, salt, i, c))
  }

  /** The concatenation of T_1 up to T_n. */
  ghost function T(prf: Prf, password: Bytes, salt: Bytes, c: nat, n: nat): (t: Bytes)
    requires 1 <= c && IsPrf(prf) && n < 0x1_0000_0000
    ensures |t| == n * H_LEN
    decreases n
  {
    if n == 0 then [] else T(prf, password, salt, c, n - 1) + F(prf, password, salt, c, n as bv32)
  }

  /** The number of blocks of a key: its length divided by the block length, rounded up. */
  function BlockCount(keyLen: nat): nat { (keyLen + H_LEN - 1) / H_LEN }

  /** The longest key the standard allows. */
  const MAX_KEY := 0xffff_ffff * H_LEN

  /** DK: all blocks but the last in full, and the first r octets of the last. */
  ghost function DerivedKey(prf: Prf, password: Bytes, salt: Bytes, c: nat, keyLen: nat): Bytes
    requires 1 <= c && IsPrf(prf) && keyLen <= MAX_KEY
  {
    if keyLen == 0 then []
    else
      var l := BlockCount(keyLen);
      var r := keyLen - (l - 1) * H_LEN;
      T(prf, password, salt, c, l - 1) + F(prf, password, salt, c, l as bv32)[..r]
  }

  /** A derived key is a prefix of the concatenated blocks, however many of them are computed. */
  lemma {:induction false} BlocksPrefix(prf: Prf, password: Bytes, salt: Bytes, c: nat, m: nat, n: nat)
    requires 1 <= c && IsPrf(prf) && m <= n < 0x1_0000_0000
    ensures T(prf, password, salt, c, m) == T(prf, password, salt, c, n)[..m * H_LEN]
    decreases n
  {
    if m < n {
      BlocksPrefix(prf, password, salt, c, m, n - 1);
      assert m * H_LEN <= (n - 1) * H_LEN;
      PrefixOfPrefix(T(prf, password, salt, c, n - 1), F(prf, password, salt, c, n as bv32), m * H_LEN);
    }
  }

  lemma PrefixOfPrefix(a: Bytes, b: Bytes, k: nat)
    requires k <= |a|
    ensures (a + b)[..k] == a[..k]
  {
  }

  lemma BlockBounds(keyLen: nat)
    requires 0 < keyLen <= MAX_KEY
    ensures var l := BlockCount(keyLen); 1 <= l < 0x1_0000_0000 && l * H_LEN - H_LEN < keyLen <= l * H_LEN
  {
  }

  lemma DerivedKeyIsPrefix(prf: Prf, password: Bytes, salt: Bytes, c: nat, keyLen: nat)
    requires 1 <= c && IsPrf(prf) && keyLen <= MAX_KEY
    ensures BlockCount(keyLen) < 0x1_0000_0000 && keyLen <= BlockCount(keyLen) * H_LEN
    ensures DerivedKey(prf, password, salt, c, keyLen) == T(prf, password, salt, c, BlockCount(keyLen))[..keyLen]
  {
    if keyLen > 0 {
      BlockBounds(keyLen);
      var l := BlockCount(keyLen);
      NextBlock(prf, password, salt, c, l);
      LastBlockCut(prf, password, salt, c, keyLen);
      Cut(T(prf, password, salt, c, l - 1), F(prf, password, salt, c, l as bv32), keyLen);
    }
  }

  lemma LastBlockCut(prf: Prf, password: Bytes, salt: Bytes, c: nat, keyLen: nat)
    requires 1 <= c && IsPrf(prf) && 0 < keyLen <= MAX_KEY
    ensures var l := BlockCount(keyLen);
            && 1 <= l < 0x1_0000_0000
            && var init, last := T(prf, password, salt, c, l - 1), F(prf, password, salt, c, l as bv32);
               |init| <= keyLen <= |init| + |last| && DerivedKey(prf, password, salt, c, keyLen) == init + last[..keyLen - |init|]
  {
    BlockBounds(keyLen);
  }

  lemma NextBlock(prf: Prf, password: Bytes, salt: Bytes, c: nat, n: nat)
    requires 1 <= c && IsPrf(prf) && 0 < n < 0x1_0000_0000
    ensures T(prf, password, salt, c, n) == T(prf, password, salt, c, n - 1) + F(prf, password, salt, c, n as bv32)
  {
  }

  lemma Cut(a: Bytes, b: Bytes, k: nat)
    requires |a| <= k <= |a| + |b|
    ensures (a + b)[..k] == a + b[..k - |a|]
  {
  }

  /** A shorter key is a prefix of a longer one. */
  lemma ShorterIsPrefix(prf: Prf, password: Bytes, salt: Bytes, c: nat, short: nat, long: nat)
    requires 1 <= c && IsPrf(prf) && short <= long <= MAX_KEY
    ensures short <= |DerivedKey(prf, password, salt, c, long)|
    ensures DerivedKey(prf, password, salt, c, short) == DerivedKey(prf, password, salt, c, long)[..short]
  {
    DerivedKeyIsPrefix(prf, password, salt, c, short);
    DerivedKeyIsPrefix(prf, password, salt, c, long);
    var m, n := BlockCount(short), BlockCount(long);
    BlocksPrefix(prf, password, salt, c, m, n);
    var all := T(prf, password, salt, c, n);
    assert all[..m * H_LEN][..short] == all[..short];
    assert all[..long][..short] == all[..short];
  }

  // ---------------------------------------------------------------- the loops

  /** Exclusive-or of u into t, in place. */
  method XorInto(t: array<bv8>, u: Bytes)
    requires t.Length == |u|
    modifies t
    ensures t[..] == Xor(old(t[..]), u)
  {
    ghost var before := t[..];
    for j := 0 to t.Length
      invariant forall k :: 0 <= k < j ==> t[k] == before[k] ^ u[k]
      invariant forall k :: j <= k < t.Length ==> t[k] == before[k]
    {
      t[j] := t[j] ^ u[j];
    }
    assert t[..] == Xor(before, u);
  }

  /** The first value is always computed, so a count below one means one. */
  function Rounds(iterations: int): nat { if iterations < 1 then 1 else iterations }

  /** One block: the first value and the iterations folded into it. */
  method Block(prf: Prf, password: Bytes, salt: Bytes, iterations: int, block: bv32) returns (t: array<bv8>)
    requires IsPrf(prf)
    ensures fresh(t) && t[..] == F(prf, password, salt, Rounds(iterations), block)
  {
    var u := prf(password, salt + Int4(block));
    t := new bv8[|u|](i requires 0 <= i < |u| => u[i]);
    assert t[..] == u;
    var i := 1;
    while i < iterations
      invariant 1 <= i <= Rounds(iterations)
      invariant u == U(prf, password, salt, block, i)
      invariant t.Length == H_LEN && t[..] == F(prf, password, salt, i, block)
      invariant fresh(t)
    {
      u := prf(password, u);
      XorInto(t, u);
      i := i + 1;
    }
  }

  /** The key derivation, block by block and cut to length. */
  method Pbkdf2(prf: Prf, password: Bytes, salt: Bytes, iterations: int, keyLen: nat) returns (key: Bytes)
    requires IsPrf(prf) && keyLen <= MAX_KEY
    ensures key == DerivedKey(prf, password, salt, Rounds(iterations), keyLen)
  {
    DerivedKeyIsPrefix(prf, password, salt, Rounds(iterations), keyLen);
    var blocks := BlockCount(keyLen);
    var out: Bytes := [];
    for block := 0 to blocks
      invariant out == T(prf, password, salt, Rounds(iterations), block)
    {
      var t := Block(prf, password, salt, iterations, (block + 1) as bv32);
      out := out + t[..];
    }
    return out[..keyLen];
  }

  // ---------------------------------------------------------------- the stored text

  const ALGORITHM := "pbkdf2-sha256"
  const ITERATIONS := 210_000
  const SALT_BYTES := 16
  const KEY_BYTES := 32

  /** An encoding of bytes as text without the separator. */
  datatype Codec = Codec(encode: Bytes -> string, decode: string -> Option<Bytes>)

  ghost predicate Lawful(c: Codec) {
    forall b: Bytes :: c.decode(c.encode(b)) == Some(b) && '$' !in c.encode(b)
  }

  /** The fields between the separators. */
  function Split(s: string): (parts: seq<string>)
    ensures parts != []
    decreases |s|
  {
    if s == "" then [""]
    else
      var rest := Split(s[1..]);
      if s[0] == '$' then [""] + rest else [[s[0]] + rest[0]] + rest[1..]
  }

  function Decimal(n: nat): string {
    if n < 10 then [DigitOf(n)] else Decimal(n / 10) + [DigitOf(n % 10)]
  }

  function DigitOf(d: nat): (c: char)
    requires d < 10
    ensures Digit(c)
  {
    '0' + d as char
  }

  /** Unsigned digits as a number. */
  function Digits(s: string): Option<nat>
    decreases |s|
  {
    if s == "" then None
    else
      var n := |s| - 1;
      if !Digit(s[n]) then None
      else
        var low := s[n] as int - '0' as int;
        if n == 0 then Some(low)
        else match Digits(s[..n])
          case None => None
          case Some(high) => Some(10 * high + low)
  }

  const MAX_INT := 0x7fff_ffff_ffff_ffff

  /** A decimal number with an optional sign that fits a 64-bit integer. */
  function Atoi(s: string): Option<int> {
    var negative := s != "" && s[0] == '-';
    var body := if s != "" && (s[0] == '-' || s[0] == '+') then s[1..] else s;
    match Digits(body)
    case None => None
    case Some(n) =>
      var value: int := if negative then 0 - (n as int) else n;
      if -MAX_INT - 1 <= value <= MAX_INT then Some(value) else None
  }

  lemma {:induction false} DecimalDigits(n: nat)
    ensures Digits(Decimal(n)) == Some(n) && Decimal(n) != "" && Digit(Decimal(n)[0]) && '$' !in Decimal(n)
  {
    if n >= 10 {
      DecimalDigits(n / 10);
      var d := Decimal(n / 10);
      assert (d + [DigitOf(n % 10)])[..|d|] == d;
    }
  }

  function Bounded(n: int): Option<int> { if -0x8000_0000_0000_0000 <= n <= 0x7fff_ffff_ffff_ffff then Some(n) else None }

  lemma AtoiPlain(s: string, n: nat)
    requires s != "" && Digit(s[0]) && Digits(s) == Some(n)
    ensures Atoi(s) == Bounded(n)
  {
  }

  lemma AtoiWithSign(sign: char, s: string, n: nat)
    requires Digits(s) == Some(n) && (sign == '+' || sign == '-')
    ensures Atoi([sign] + s) == Bounded(if sign == '-' then 0 - (n as int) else n)
  {
    assert ([sign] + s)[1..] == s;
  }

  /** A sign in front of the digits is understood, and a number beyond 64 bits is not. */
  lemma AtoiSigned(n: nat)
    ensures Atoi(Decimal(n)) == Bounded(n) && Atoi(['+'] + Decimal(n)) == Bounded(n) && Atoi(['-'] + Decimal(n)) == Bounded(0 - (n as int))
  {
    DecimalDigits(n);
    var s := Decimal(n);
    AtoiPlain(s, n);
    AtoiWithSign('+', s, n);
    AtoiWithSign('-', s, n);
  }

  lemma {:induction false} SplitField(field: string, rest: string)
    requires '$' !in field
    ensures Split(field + "$" + rest) == [field] + Split(rest)
    decreases |field|
  {
    var s := field + "$" + rest;
    if field == "" {
      assert s[1..] == rest;
    } else {
      assert s[1..] == field[1..] + "$" + rest;
      SplitField(field[1..], rest);
      assert [field[0]] + field[1..] == field;
    }
  }

  lemma {:induction false} SplitLast(field: string)
    requires '$' !in field
    ensures Split(field) == [field]
    decreases |field|
  {
    if field != "" {
      SplitLast(field[1..]);
      assert [field[0]] + field[1..] == field;
    }
  }

  lemma SplitFour(a: string, b: string, c: string, d: string)
    requires '$' !in a && '$' !in b && '$' !in c && '$' !in d
    ensures Split(a + "$" + (b + "$" + (c + "$" + d))) == [a, b, c, d]
  {
    var two := c + "$" + d;
    var three := b + "$" + two;
    SplitLast(d);
    SplitField(c, d);
    SplitField(b, two);
    SplitField(a, three);
  }

  lemma AlgorithmIsField()
    ensures '$' !in ALGORITHM
  {
  }

  function Stored(c: Codec, iterations: nat, salt: Bytes, key: Bytes): string {
    ALGORITHM + "$" + (Decimal(iterations) + "$" + (c.encode(salt) + "$" + c.encode(key)))
  }

  /** The stored text gives back the four fields it was made of. */
  lemma StoredFields(c: Codec, iterations: nat, salt: Bytes, key: Bytes)
    requires Lawful(c) && iterations <= MAX_INT
    ensures Split(Stored(c, iterations, salt, key)) == [ALGORITHM, Decimal(iterations), c.encode(salt), c.encode(key)]
    ensures Atoi(Decimal(iterations)) == Some(iterations)
  {
    DecimalDigits(iterations);
    AlgorithmIsField();
    SplitFour(ALGORITHM, Decimal(iterations), c.encode(salt), c.encode(key));
  }

  method HashPassword(prf: Prf, c: Codec, password: Bytes, salt: Bytes) returns (hash: string)
    requires IsPrf(prf) && |salt| == SALT_BYTES
    ensures hash == Stored(c, ITERATIONS, salt, DerivedKey(prf, password, salt, ITERATIONS, KEY_BYTES))
  {
    var key := Pbkdf2(prf, password, salt, ITERATIONS, KEY_BYTES);
    return Stored(c, ITERATIONS, salt, key);
  }

  /** The stored text names the algorithm, a positive count, a salt, and the key that the password derives. */
  ghost predicate Accepts(prf: Prf, c: Codec, hash: string, password: Bytes)
    requires IsPrf(prf)
  {
    var parts := Split(hash);
    && |parts| == 4 && parts[0] == ALGORITHM
    && var iterations, salt, key := Atoi(parts[1]), c.decode(parts[2]), c.decode(parts[3]);
       && iterations.Some? && iterations.value > 0 && salt.Some? && key.Some? && |key.value| <= MAX_KEY
       && DerivedKey(prf, password, salt.value, iterations.value, |key.value|) == key.value
  }

  method VerifyPassword(prf: Prf, c: Codec, hash: string, password: Bytes) returns (ok: bool)
    requires IsPrf(prf)
    requires forall s, b :: c.decode(s) == Some(b) ==> |b| <= MAX_KEY
    ensures ok <==> Accepts(prf, c, hash, password)
  {
    var parts := Split(hash);
    if |parts| != 4 || parts[0] != ALGORITHM { return false; }
    var iterations := Atoi(parts[1]);
    if iterations.None? || iterations.value <= 0 { return false; }
    var salt := c.decode(parts[2]);
    if salt.None? { return false; }
    var expected := c.decode(parts[3]);
    if expected.None? { return false; }
    var actual := Pbkdf2(prf, password, salt.value, iterations.value, |expected.value|);
    return actual == expected.value;
  }

  /** A stored hash accepts a password exactly if it derives the same key as the one that was hashed. */
  lemma VerifyInvertsHash(prf: Prf, c: Codec, salt: Bytes, hashed: Bytes, presented: Bytes)
    requires IsPrf(prf) && Lawful(c) && |salt| == SALT_BYTES
    ensures var key := DerivedKey(prf, hashed, salt, ITERATIONS, KEY_BYTES);
            Accepts(prf, c, Stored(c, ITERATIONS, salt, key), presented) <==>
            DerivedKey(prf, presented, salt, ITERATIONS, KEY_BYTES) == key
  {
    var key := DerivedKey(prf, hashed, salt, ITERATIONS, KEY_BYTES);
    StoredFields(c, ITERATIONS, salt, key);
    assert |key| == KEY_BYTES;
  }
}

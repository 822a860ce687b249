/** The bounded textual formats that Agent and Manager both check. */
module Formats {

  predicate Digit(c: char) { '0' <= c <= '9' }

  predicate Alnum(c: char) { Digit(c) || 'a' <= c <= 'z' || 'A' <= c <= 'Z' }

  predicate LowerHex(c: char) { Digit(c) || 'a' <= c <= 'f' }

  /** Lower-case UUIDv4 in its 8-4-4-4-12 spelling. */
  predicate CanonicalTaskId(s: string) {
    && |s| == 36
    && s[8] == s[13] == s[18] == s[23] == '-'
    && s[14] == '4' && s[19] in "89ab"
    && forall i | 0 <= i < 36 && i !in {8, 13, 18, 23} :: LowerHex(s[i])
  }

  /** The first position at or after i that does not hold a digit. */
  function DigitsEnd(s: string, i: nat): (j: nat)
    requires i <= |s|
    ensures i <= j <= |s|
    decreases |s| - i
  {
    if i < |s| && Digit(s[i]) then DigitsEnd(s, i + 1) else i
  }

  /** The first position at or after i that holds neither a letter, a digit, a dot nor a hyphen. */
  function LabelEnd(s: string, i: nat): (j: nat)
    requires i <= |s|
    ensures i <= j <= |s|
    decreases |s| - i
  {
    if i < |s| && (Alnum(s[i]) || s[i] in ".-") then LabelEnd(s, i + 1) else i
  }

  /** A suffix that is empty, a build label, or a pre-release label with an optional build label. */
  predicate VersionSuffix(s: string, i: nat)
    requires i <= |s|
  {
    || i == |s|
    || (i + 1 < |s| && s[i] == '+' && Alnum(s[i + 1]) && LabelEnd(s, i + 1) == |s|)
    || (i + 1 < |s| && s[i] == '-' && Alnum(s[i + 1]) &&
        var j := LabelEnd(s, i + 1);
        j == |s| || (j + 1 < |s| && s[j] == '+' && Alnum(s[j + 1]) && LabelEnd(s, j + 1) == |s|))
  }

  /** A release version: an optional leading v, three dotted numbers and optional labels. */
  predicate ValidVersion(s: string) {
    var a := if s != "" && s[0] == 'v' then 1 else 0;
    var b := DigitsEnd(s, a);
    a < b < |s| && s[b] == '.' &&
    var c := DigitsEnd(s, b + 1);
    b + 1 < c < |s| && s[c] == '.' &&
    var d := DigitsEnd(s, c + 1);
    c + 1 < d && VersionSuffix(s, d)
  }

  predicate CodeChar(c: char) { Digit(c) || 'a' <= c <= 'z' || c == '_' }

  /** What the Agent accepts as the code of a terminal receipt. */
  predicate ReceiptCode(code: string) {
    0 < |code| <= 64 && forall i | 0 <= i < |code| :: CodeChar(code[i])
  }

  /** What the Manager accepts as the code of failed evidence: it may not start with an underscore. */
  predicate EvidenceCode(code: string) {
    ReceiptCode(code) && code[0] != '_'
  }
}

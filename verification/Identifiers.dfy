/** Which strings are identifiers. */
module Identifiers {

  const MAX_IDENTIFIER_LEN: nat := 256

  /** The White_Space property of Unicode, which `trim` strips. */
  predicate IsWhitespace(c: char) {
    var n := c as int;
    || 0x09 <= n <= 0x0D || n == 0x20 || n == 0x85 || n == 0xA0 || n == 0x1680
    || 0x2000 <= n <= 0x200A || n == 0x2028 || n == 0x2029 || n == 0x202F || n == 0x205F || n == 0x3000
  }

  predicate IsControl(c: char) {
    var n := c as int;
    n <= 0x1F || 0x7F <= n <= 0x9F
  }

  predicate Blank(s: string) {
    forall i | 0 <= i < |s| :: IsWhitespace(s[i])
  }

  function CharLength(c: char): nat {
    var n := c as int;
    if n < 0x80 then 1 else if n < 0x800 then 2 else if n < 0x1_0000 then 3 else 4
  }

  /** Length in UTF-8 bytes. */
  function ByteLength(s: string): nat {
    if s == [] then 0 else ByteLength(s[..|s| - 1]) + CharLength(s[|s| - 1])
  }

  predicate Clean(s: string) {
    forall i | 0 <= i < |s| :: !IsWhitespace(s[i]) && !IsControl(s[i])
  }

  /** `validate_identifier` accepts the string. */
  predicate ValidId(s: string) {
    ByteLength(s) <= MAX_IDENTIFIER_LEN && !Blank(s) && Clean(s)
  }

  lemma {:induction false} ByteLengthConcat(a: string, b: string)
    ensures ByteLength(a + b) == ByteLength(a) + ByteLength(b)
  {
    if b == [] {
      assert a + b == a;
    } else {
      ByteLengthConcat(a, b[..|b| - 1]);
      assert (a + b)[..|a + b| - 1] == a + b[..|b| - 1];
    }
  }

  predicate Ascii(s: string) {
    forall i | 0 <= i < |s| :: s[i] < '\U{80}'
  }

  lemma {:induction false} AsciiLength(s: string)
    requires Ascii(s)
    ensures ByteLength(s) == |s|
  {
    if s != [] {
      AsciiLength(s[..|s| - 1]);
    }
  }

  lemma CleanConcat(a: string, b: string)
    ensures Clean(a + b) <==> Clean(a) && Clean(b)
  {
    if Clean(a + b) {
      assert forall i | 0 <= i < |a| :: a[i] == (a + b)[i];
      assert forall i | 0 <= i < |b| :: b[i] == (a + b)[|a| + i];
    }
  }

  /** A clean string is an identifier iff it is not empty and not too long. */
  lemma CleanIsValid(s: string)
    requires Clean(s) && s != []
    ensures ValidId(s) <==> ByteLength(s) <= MAX_IDENTIFIER_LEN
  {
    assert !IsWhitespace(s[0]);
  }

  /** Nothing empty, too long, or with whitespace or control characters in it is an identifier. */
  lemma NotIdentifiers(s: string, i: nat)
    ensures s == "" ==> !ValidId(s)
    ensures i < |s| && (IsWhitespace(s[i]) || IsControl(s[i])) ==> !ValidId(s)
    ensures Ascii(s) && |s| > MAX_IDENTIFIER_LEN ==> !ValidId(s)
  {
    if Ascii(s) {
      AsciiLength(s);
    }
  }
}

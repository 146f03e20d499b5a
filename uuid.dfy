/** The textual form of a UUID as the service renders it: the 36-character
    hyphenated form of RFC 4122 (section 3), hex groups of 8-4-4-4-12 digits.
    `Uuid::to_string` renders lower-case digits, while the pattern that the
    next-level query builds accepts either case, so both shapes are kept. */
module Uuids {

  /** Positions of the four hyphens in the 8-4-4-4-12 layout. */
  predicate IsHyphenPosition(i: int) {
    i == 8 || i == 13 || i == 18 || i == 23
  }

  /** The character class `[0-9a-fA-F]`. */
  predicate IsHexDigit(c: char) {
    ('0' <= c <= '9') || ('a' <= c <= 'f') || ('A' <= c <= 'F')
  }

  predicate IsLowerHexDigit(c: char) {
    ('0' <= c <= '9') || ('a' <= c <= 'f')
  }

  /** Position `i` of `s` holds what the id pattern expects there. */
  predicate ShapedAt(s: string, i: nat)
    requires i < |s|
  {
    if IsHyphenPosition(i) then s[i] == '-' else IsHexDigit(s[i])
  }

  /** Position `i` of `s` holds what `Uuid::to_string` writes there. */
  predicate CanonicalAt(s: string, i: nat)
    requires i < |s|
  {
    if IsHyphenPosition(i) then s[i] == '-' else IsLowerHexDigit(s[i])
  }

  /** What `[0-9a-fA-F]{8}-[0-9a-fA-F]{4}-[0-9a-fA-F]{4}-[0-9a-fA-F]{4}-[0-9a-fA-F]{12}`
      matches as a whole string. */
  predicate UuidShaped(s: string) {
    |s| == 36 && forall i: nat | i < 36 :: ShapedAt(s, i)
  }

  /** The text `Uuid::to_string` produces. */
  predicate IsCanonical(s: string) {
    |s| == 36 && forall i: nat | i < 36 :: CanonicalAt(s, i)
  }

  /** A UUID, identified with its canonical text. */
  type Uuid = s: string | IsCanonical(s) witness "00000000-0000-0000-0000-000000000000"

  /** Every rendered id matches the id pattern, has fixed width and holds no `>`. */
  lemma CanonicalIsShaped(u: Uuid)
    ensures UuidShaped(u)
    ensures |u| == 36
    ensures '>' !in u
  {
    forall i: nat | i < 36 ensures ShapedAt(u, i) && u[i] != '>' {
      assert CanonicalAt(u, i);
    }
  }
}

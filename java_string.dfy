/**
 * String.length() as Java computes it: the number of UTF-16 code units, so a
 * character outside the Basic Multilingual Plane counts twice.
 */
module JavaString {

  /** Whether the character needs a surrogate pair in UTF-16. */
  predicate IsSupplementary(c: char)
  {
    c as int >= 0x10000
  }

  /** String.length(): one unit per character, two for a supplementary one. */
  function Utf16Length(s: string): (n: nat)
    ensures |s| <= n <= 2 * |s|
  {
    if s == [] then 0 else (if IsSupplementary(s[0]) then 2 else 1) + Utf16Length(s[1..])
  }

  /** Without supplementary characters, Java's length is the number of characters. */
  lemma {:induction false} Utf16LengthOfBmp(s: string)
    requires forall i :: 0 <= i < |s| ==> !IsSupplementary(s[i])
    ensures Utf16Length(s) == |s|
  {
    if s != [] {
      Utf16LengthOfBmp(s[1..]);
    }
  }

  /** Two emoji are four code units: Java counts them as a string of length four. */
  lemma TwoEmojiAreFourUnits()
    ensures Utf16Length("\U{1F600}\U{1F600}") == 4
    ensures |"\U{1F600}\U{1F600}"| == 2
  {
    var s := "\U{1F600}\U{1F600}";
    assert s[1..][1..] == [];
  }
}

/**
 * The hex rendering step of BankAccount.hashPin: every byte of the digest
 * becomes two lower-case hexadecimal digits.  The digest algorithm itself
 * (SHA-256) is not modelled; accounts receive it as an opaque function value.
 */
module PinDigest {

  /** A digest byte, read as Java's (0xff & b): an unsigned value in 0..255. */
  newtype Byte = x: int | 0 <= x < 256

  predicate IsHexDigit(c: char)
  {
    '0' <= c <= '9' || 'a' <= c <= 'f'
  }

  function HexDigit(d: int): (c: char)
    requires 0 <= d < 16
    ensures IsHexDigit(c)
  {
    if d < 10 then ('0' as int + d) as char else ('a' as int + d - 10) as char
  }

  function HexValue(c: char): (d: int)
    requires IsHexDigit(c)
    ensures 0 <= d < 16 && HexDigit(d) == c
  {
    if c <= '9' then c as int - '0' as int else c as int - 'a' as int + 10
  }

  /** Integer.toHexString(v) for 0 <= v < 256: lower case, no leading zeros. */
  function ToHexString(v: int): (s: string)
    requires 0 <= v < 256
    ensures 1 <= |s| <= 2 && forall i :: 0 <= i < |s| ==> IsHexDigit(s[i])
    ensures |s| == 1 <==> v < 16
    ensures |s| == 1 ==> HexValue(s[0]) == v
    ensures |s| == 2 ==> s[0] != '0' && 16 * HexValue(s[0]) + HexValue(s[1]) == v
  {
    if v < 16 then [HexDigit(v)] else [HexDigit(v / 16), HexDigit(v % 16)]
  }

  /** One loop iteration: a single-digit toHexString result gets a '0' in front. */
  function ByteHex(b: Byte): string
  {
    var hex := ToHexString(b as int);
    if |hex| == 1 then ['0'] + hex else hex
  }

  /** What the StringBuilder holds after the loop has visited every byte. */
  function HexOf(bytes: seq<Byte>): (s: string)
    ensures |s| == 2 * |bytes|
    ensures forall i :: 0 <= i < |s| ==> IsHexDigit(s[i])
  {
    if bytes == [] then [] else HexOf(bytes[..|bytes| - 1]) + ByteHex(bytes[|bytes| - 1])
  }

  /** Reads a string of hex digit pairs back into bytes (the inverse rendering). */
  function Unhex(s: string): seq<Byte>
    requires |s| % 2 == 0
    requires forall i :: 0 <= i < |s| ==> IsHexDigit(s[i])
  {
    if s == [] then []
    else Unhex(s[..|s| - 2]) + [(16 * HexValue(s[|s| - 2]) + HexValue(s[|s| - 1])) as Byte]
  }

  /** The hex loop of hashPin (ATMInterface.java lines 111-115). */
  method HexEncode(bytes: seq<Byte>) returns (hex: string)
    ensures hex == HexOf(bytes)
  {
    hex := [];
    var i := 0;
    while i < |bytes|
      invariant 0 <= i <= |bytes|
      invariant hex == HexOf(bytes[..i])
    {
      var digits := ToHexString(bytes[i] as int);
      if |digits| == 1 {
        hex := hex + ['0'];
      }
      hex := hex + digits;
      assert bytes[..i + 1][..i] == bytes[..i];
      i := i + 1;
    }
    assert bytes[..i] == bytes;
  }

  lemma ByteHexRoundTrip(b: Byte)
    ensures |ByteHex(b)| == 2
    ensures 16 * HexValue(ByteHex(b)[0]) + HexValue(ByteHex(b)[1]) == b as int
  {
  }

  /** Every digest is recovered from its rendering. */
  lemma {:induction false} UnhexHexOf(bytes: seq<Byte>)
    ensures Unhex(HexOf(bytes)) == bytes
  {
    if bytes != [] {
      var init, last := bytes[..|bytes| - 1], bytes[|bytes| - 1];
      var pair := ByteHex(last);
      ByteHexRoundTrip(last);
      var b := (16 * HexValue(pair[0]) + HexValue(pair[1])) as Byte;
      assert b == last;
      calc {
        Unhex(HexOf(bytes));
        Unhex(HexOf(init) + pair);
        { UnhexSnoc(HexOf(init), pair); }
        Unhex(HexOf(init)) + [b];
        { UnhexHexOf(init); }
        init + [last];
        bytes;
      }
    }
  }

  /** Reading back one more pair of digits appends one byte. */
  lemma UnhexSnoc(s: string, pair: string)
    requires |s| % 2 == 0 && forall i :: 0 <= i < |s| ==> IsHexDigit(s[i])
    requires |pair| == 2 && IsHexDigit(pair[0]) && IsHexDigit(pair[1])
    ensures Unhex(s + pair) == Unhex(s) + [(16 * HexValue(pair[0]) + HexValue(pair[1])) as Byte]
  {
    var t := s + pair;
    assert t[..|t| - 2] == s;
  }

  /** A rendering equals another exactly when the digests are equal. */
  lemma HexOfInjectiveAll(a: seq<Byte>)
    ensures forall b {:trigger HexOf(b)} :: HexOf(a) == HexOf(b) <==> a == b
  {
    forall b
      ensures HexOf(a) == HexOf(b) <==> a == b
    {
      HexOfInjective(a, b);
    }
  }

  /** Comparing renderings is the same as comparing digests. */
  lemma HexOfInjective(a: seq<Byte>, b: seq<Byte>)
    ensures HexOf(a) == HexOf(b) <==> a == b
  {
    if HexOf(a) == HexOf(b) {
      UnhexHexOf(a);
      UnhexHexOf(b);
    }
  }
}

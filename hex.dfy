/**
 * Base16 as Node's `Buffer` writes and reads it: `toString("hex")` produces lowercase
 * digit pairs (the alphabet of section 8 of RFC 4648, lower case), and
 * `Buffer.from(s, "hex")` decodes leading digit pairs of either case and stops at
 * the first pair that is not one, dropping an odd final character.
 */
module Hex {
  import opened Wrappers

  type Byte = x: int | 0 <= x < 256

  const LowerDigits: string := "0123456789abcdef"

  predicate IsLowerHexDigit(c: char)
  {
    '0' <= c <= '9' || 'a' <= c <= 'f'
  }

  /** The value of a hexadecimal digit of either case. */
  function NibbleValue(c: char): (v: Option<int>)
    ensures v.Some? ==> 0 <= v.value < 16
    ensures IsLowerHexDigit(c) ==> v.Some?
  {
    if '0' <= c <= '9' then Some(c as int - '0' as int)
    else if 'a' <= c <= 'f' then Some(c as int - 'a' as int + 10)
    else if 'A' <= c <= 'F' then Some(c as int - 'A' as int + 10)
    else None
  }

  function LowerDigit(n: int): (c: char)
    requires 0 <= n < 16
    ensures IsLowerHexDigit(c) && NibbleValue(c) == Some(n)
  {
    LowerDigits[n]
  }

  /** `Buffer.toString("hex")`: two lowercase digits per byte, high nibble first. */
  function Encode(bytes: seq<Byte>): (s: string)
    ensures |s| == 2 * |bytes|
    ensures forall i :: 0 <= i < |s| ==> IsLowerHexDigit(s[i])
  {
    if bytes == [] then ""
    else [LowerDigit(bytes[0] / 16), LowerDigit(bytes[0] % 16)] + Encode(bytes[1..])
  }

  /** `Buffer.from(s, "hex")`: decode digit pairs until the first pair that is not one. */
  function Decode(s: string): (bytes: seq<Byte>)
    ensures |bytes| <= |s| / 2
  {
    if |s| < 2 then []
    else match (NibbleValue(s[0]), NibbleValue(s[1]))
      case (Some(hi), Some(lo)) => [hi * 16 + lo] + Decode(s[2..])
      case _ => []
  }

  /** Decoding what was encoded gives back the bytes. */
  lemma {:induction false} DecodeEncode(bytes: seq<Byte>)
    ensures Decode(Encode(bytes)) == bytes
  {
    if bytes != [] {
      var s := Encode(bytes);
      assert s[2..] == Encode(bytes[1..]);
      DecodeEncode(bytes[1..]);
      assert [bytes[0]] + bytes[1..] == bytes;
    }
  }

  /** An encoding never contains a character outside the lowercase hexadecimal alphabet, a '.' in particular. */
  lemma EncodeHasNoDot(bytes: seq<Byte>)
    ensures '.' !in Encode(bytes)
  {
  }

  /** Distinct byte strings have distinct encodings. */
  lemma EncodeInjective(a: seq<Byte>, b: seq<Byte>)
    requires Encode(a) == Encode(b)
    ensures a == b
  {
    DecodeEncode(a);
    DecodeEncode(b);
  }
}

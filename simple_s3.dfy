/**
 * The random object name of src/services/simple_s3.ts: sixteen random bytes written as lower-case
 * base 16 (section 8 of RFC 4648), two characters per byte. The random bytes are an input; the
 * presigned-URL request is left out.
 */
module SimpleS3 {
  import opened JsStrings

  newtype Byte = x: int | 0 <= x < 256

  /** The lower-case base 16 alphabet. */
  predicate IsLowerHex(c: char) {
    ('0' <= c <= '9') || ('a' <= c <= 'f')
  }

  function HexDigit(d: nat): (c: char)
    requires d < 16
    ensures IsLowerHex(c)
  {
    if d < 10 then ('0' as int + d) as char else ('a' as int + d - 10) as char
  }

  /** The value of a lower-case base 16 digit. */
  function HexValue(c: char): (d: nat)
    requires IsLowerHex(c)
    ensures d < 16 && HexDigit(d) == c
  {
    if c <= '9' then c as int - '0' as int else c as int - 'a' as int + 10
  }

  lemma HexValueOfDigit(d: nat)
    requires d < 16
    ensures HexValue(HexDigit(d)) == d
  {
  }

  /** `byte.toString(16)`: the shortest base 16 form, lower case. */
  function ByteToString16(b: Byte): (s: string)
    ensures 1 <= |s| <= 2
    ensures forall i :: 0 <= i < |s| ==> IsLowerHex(s[i])
  {
    if b < 16 then [HexDigit(b as nat)] else [HexDigit((b / 16) as nat), HexDigit((b % 16) as nat)]
  }

  /** `byte.toString(16).padStart(2, "0")`: exactly the high and the low base 16 digit of the byte. */
  function ByteToHex(b: Byte): (s: string)
    ensures |s| == 2 && s[0] == HexDigit((b / 16) as nat) && s[1] == HexDigit((b % 16) as nat)
    ensures b < 16 ==> s[0] == '0'
  {
    PadStart(ByteToString16(b), 2, '0')
  }

  /** `Array.from(bytes, ByteToHex).join("")`. */
  function ObjectName(bytes: seq<Byte>): (name: string)
    ensures |name| == 2 * |bytes|
    ensures forall i :: 0 <= i < |name| ==> IsLowerHex(name[i])
  {
    if bytes == [] then "" else ByteToHex(bytes[0]) + ObjectName(bytes[1..])
  }

  /** Reading a base 16 name two characters at a time. */
  function DecodeName(name: string): seq<Byte>
    requires |name| % 2 == 0 && forall i :: 0 <= i < |name| ==> IsLowerHex(name[i])
  {
    if name == [] then []
    else [(HexValue(name[0]) * 16 + HexValue(name[1])) as Byte] + DecodeName(name[2..])
  }

  /** A byte is its high digit times sixteen plus its low digit. */
  lemma ByteDigits(b: Byte)
    ensures ((b / 16) as int) * 16 + (b % 16) as int == b as int
  {
  }

  /** The first two characters of a name decode to the byte they were written from. */
  lemma DecodeHexPair(b: Byte, rest: string, name: string)
    requires name == ByteToHex(b) + rest
    requires |name| % 2 == 0 && forall i :: 0 <= i < |name| ==> IsLowerHex(name[i])
    requires |rest| % 2 == 0 && forall i :: 0 <= i < |rest| ==> IsLowerHex(rest[i])
    ensures DecodeName(name) == [b] + DecodeName(rest)
  {
    var pair := ByteToHex(b);
    assert name[0] == pair[0] && name[1] == pair[1] && name[2..] == rest;
    var hi, lo := (b / 16) as nat, (b % 16) as nat;
    HexValueOfDigit(hi);
    HexValueOfDigit(lo);
    ByteDigits(b);
    assert (HexValue(name[0]) * 16 + HexValue(name[1])) as Byte == b;
  }

  /** Decoding the name gives back the bytes, in order. */
  lemma {:induction false} DecodeObjectName(bytes: seq<Byte>)
    ensures DecodeName(ObjectName(bytes)) == bytes
  {
    if bytes != [] {
      DecodeHexPair(bytes[0], ObjectName(bytes[1..]), ObjectName(bytes));
      DecodeObjectName(bytes[1..]);
      assert bytes == [bytes[0]] + bytes[1..];
    }
  }

  /** Different random bytes never give the same name. */
  lemma ObjectNameInjective(a: seq<Byte>, b: seq<Byte>)
    requires ObjectName(a) == ObjectName(b)
    ensures a == b
  {
    DecodeObjectName(a);
    DecodeObjectName(b);
  }

  /** Sixteen bytes give a 32-character name over 0-9a-f. */
  lemma SixteenByteName(bytes: seq<Byte>)
    requires |bytes| == 16
    ensures |ObjectName(bytes)| == 32
    ensures forall i :: 0 <= i < 32 ==> IsLowerHex(ObjectName(bytes)[i])
  {
  }
}

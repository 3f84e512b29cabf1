/**
 * MongoDB object identifiers and their hexadecimal form. SignUp derives a
 * user's external `userId` from the freshly generated identifier with
 * `ObjectID.Hex`, which writes each of the 12 bytes as two lower-case
 * hexadecimal digits.
 */
module ObjectIds {
  import opened Wrappers

  newtype byte = x: int | 0 <= x < 256

  /** A 12-byte MongoDB ObjectID. */
  type ObjectId = s: seq<byte> | |s| == 12 witness [0, 0, 0, 0, 0, 0, 0, 0, 0, 0, 0, 0]

  predicate IsHexDigit(c: char)
  {
    '0' <= c <= '9' || 'a' <= c <= 'f'
  }

  /** The lower-case hexadecimal digit for a value below 16. */
  function HexDigit(d: int): (c: char)
    requires 0 <= d < 16
    ensures IsHexDigit(c)
  {
    if d < 10 then ('0' as int + d) as char else ('a' as int + d - 10) as char
  }

  /** The value of a lower-case hexadecimal digit; None for any other character. */
  function DigitValue(c: char): (r: Option<int>)
    ensures r.Some? <==> IsHexDigit(c)
    ensures r.Some? ==> 0 <= r.value < 16 && HexDigit(r.value) == c
  {
    if '0' <= c <= '9' then Some(c as int - '0' as int)
    else if 'a' <= c <= 'f' then Some(c as int - 'a' as int + 10)
    else None
  }

  /** Two digits per byte, high nibble first. */
  function EncodeHex(bs: seq<byte>): (s: string)
    ensures |s| == 2 * |bs|
    ensures forall i :: 0 <= i < |s| ==> IsHexDigit(s[i])
  {
    if bs == [] then []
    else [HexDigit(bs[0] as int / 16), HexDigit(bs[0] as int % 16)] + EncodeHex(bs[1..])
  }

  /** Reads back a string of hexadecimal digit pairs; None for odd length or a non-digit. */
  function DecodeHex(s: string): (r: Option<seq<byte>>)
    ensures r.Some? ==> 2 * |r.value| == |s|
  {
    if s == [] then Some([])
    else if |s| < 2 then None
    else
      match (DigitValue(s[0]), DigitValue(s[1]), DecodeHex(s[2..]))
      case (Some(hi), Some(lo), Some(rest)) => Some([(hi * 16 + lo) as byte] + rest)
      case _ => None
  }

  /** `ObjectID.Hex`: the 24-character external form of an identifier. */
  function Hex(id: ObjectId): (s: string)
    ensures |s| == 24
    ensures forall i :: 0 <= i < |s| ==> IsHexDigit(s[i])
  {
    EncodeHex(id)
  }

  /** Decoding undoes encoding, so no two byte strings share a hexadecimal form. */
  lemma {:induction false} DecodeEncode(bs: seq<byte>)
    ensures DecodeHex(EncodeHex(bs)) == Some(bs)
  {
    if bs != [] {
      var s := EncodeHex(bs);
      var b := bs[0] as int;
      assert s[2..] == EncodeHex(bs[1..]);
      DecodeEncode(bs[1..]);
      assert DigitValue(s[0]) == Some(b / 16);
      assert DigitValue(s[1]) == Some(b % 16);
      assert [bs[0]] + bs[1..] == bs;
    }
  }

  /** Encoding undoes decoding: every decodable string is the hexadecimal form of what it decodes to. */
  lemma {:induction false} EncodeDecode(s: string)
    requires DecodeHex(s).Some?
    ensures EncodeHex(DecodeHex(s).value) == s
  {
    if s != [] {
      var hi := DigitValue(s[0]).value;
      var lo := DigitValue(s[1]).value;
      var rest := DecodeHex(s[2..]).value;
      EncodeDecode(s[2..]);
      var b := (hi * 16 + lo) as byte;
      assert b as int / 16 == hi && b as int % 16 == lo;
      assert DecodeHex(s).value == [b] + rest;
      assert s == [s[0], s[1]] + s[2..];
    }
  }

  /** Distinct identifiers have distinct external forms. */
  lemma HexInjective(a: ObjectId, b: ObjectId)
    ensures Hex(a) == Hex(b) <==> a == b
  {
    DecodeEncode(a);
    DecodeEncode(b);
  }
}

/** Decoding of the hexadecimal data argument: parse_hex, parse_data and the
    byte-alignment check that main performs before them (irtx.c). */
module HexInput {
  import opened CTypes
  import opened Wrappers

  predicate IsHexDigit(c: char)
  {
    ('0' <= c <= '9') || ('a' <= c <= 'f') || ('A' <= c <= 'F')
  }

  /** parse_hex: the value of one hexadecimal digit of either case, or -1. */
  function ParseHex(c: char): (r: int)
    ensures -1 <= r < 16
    ensures r >= 0 <==> IsHexDigit(c)
  {
    if '0' <= c <= '9' then c as int - '0' as int
    else if 'a' <= c <= 'f' then c as int - 'a' as int + 10
    else if 'A' <= c <= 'F' then c as int - 'A' as int + 10
    else -1
  }

  /** The digit that writes v, in lower or upper case. */
  function HexChar(v: int, upper: bool): char
    requires 0 <= v < 16
  {
    if v < 10 then ('0' as int + v) as char
    else if upper then ('A' as int + v - 10) as char
    else ('a' as int + v - 10) as char
  }

  /** Every digit of either case decodes to the value it writes. */
  lemma ParseHexChar(v: int, upper: bool)
    requires 0 <= v < 16
    ensures ParseHex(HexChar(v, upper)) == v
  {
  }

  /** Conversely, every accepted character is the digit of its value. */
  lemma ParseHexOnlyDigits(c: char)
    requires ParseHex(c) >= 0
    ensures c == HexChar(ParseHex(c), 'A' <= c <= 'F')
  {
  }

  /** The first n characters of s are hexadecimal digits. */
  predicate HexPrefix(s: string, n: nat)
    requires n <= |s|
  {
    forall j :: 0 <= j < n ==> IsHexDigit(s[j])
  }

  /** The byte written by a pair of digits, high nibble first. */
  function PairValue(hi: char, lo: char): (b: uint8)
    requires IsHexDigit(hi) && IsHexDigit(lo)
    ensures b as int / 16 == ParseHex(hi) && b as int % 16 == ParseHex(lo)
  {
    (16 * ParseHex(hi) + ParseHex(lo)) as uint8
  }

  /** The bytes written by an even-length string of digits. */
  function DecodePairs(s: string): (bytes: seq<uint8>)
    requires |s| % 2 == 0 && HexPrefix(s, |s|)
    ensures |bytes| == |s| / 2
  {
    seq(|s| / 2, i requires 0 <= i < |s| / 2 => PairValue(s[2 * i], s[2 * i + 1]))
  }

  datatype DataError =
    | Misaligned  // an odd number of digits: "data must be aligned with bytes"
    | NotHex      // a character that is not a digit: "data must be in hex"

  /** What main makes of its data argument: the bytes, or the reason it exits. */
  function DecodeHexString(s: string): (r: Result<seq<uint8>, DataError>)
    ensures r == Failure(Misaligned) <==> |s| % 2 != 0
    ensures r == Failure(NotHex) <==> |s| % 2 == 0 && exists j :: 0 <= j < |s| && !IsHexDigit(s[j])
    ensures r.Success? ==>
              |r.value| == |s| / 2 &&
              forall i :: 0 <= i < |r.value| ==> r.value[i] as int == 16 * ParseHex(s[2 * i]) + ParseHex(s[2 * i + 1])
  {
    if |s| % 2 != 0 then Failure(Misaligned)
    else if !HexPrefix(s, |s|) then Failure(NotHex)
    else Success(DecodePairs(s))
  }

  /** The reference encoder: two digits per byte, high nibble first. */
  function EncodeHex(bytes: seq<uint8>, upper: bool): (s: string)
    ensures |s| == 2 * |bytes|
  {
    seq(2 * |bytes|, j requires 0 <= j < 2 * |bytes| =>
      HexChar(if j % 2 == 0 then bytes[j / 2] as int / 16 else bytes[j / 2] as int % 16, upper))
  }

  /** Decoding an encoded byte string, in either case, gives the bytes back. */
  lemma DecodeEncode(bytes: seq<uint8>, upper: bool)
    ensures DecodeHexString(EncodeHex(bytes, upper)) == Success(bytes)
  {
    var s := EncodeHex(bytes, upper);
    forall j | 0 <= j < |s|
      ensures IsHexDigit(s[j]) && ParseHex(s[j]) == if j % 2 == 0 then bytes[j / 2] as int / 16 else bytes[j / 2] as int % 16
    {
      ParseHexChar(if j % 2 == 0 then bytes[j / 2] as int / 16 else bytes[j / 2] as int % 16, upper);
    }
    forall i | 0 <= i < |bytes|
      ensures DecodePairs(s)[i] == bytes[i]
    {
      assert ParseHex(s[2 * i]) == bytes[i] as int / 16;
      assert ParseHex(s[2 * i + 1]) == bytes[i] as int % 16;
    }
    assert HexPrefix(s, |s|);
    assert DecodePairs(s) == bytes;
  }

  /** A string main accepts is the encoding of the bytes it decodes to,
      once its upper-case digits are written in lower case. */
  lemma EncodeDecode(s: string)
    requires DecodeHexString(s).Success?
    ensures EncodeHex(DecodeHexString(s).value, false) == LowerCase(s)
  {
    var bytes := DecodeHexString(s).value;
    forall j | 0 <= j < |s|
      ensures EncodeHex(bytes, false)[j] == LowerCase(s)[j]
    {
      var v := ParseHex(s[j]);
      assert bytes[j / 2] as int == 16 * ParseHex(s[j / 2 * 2]) + ParseHex(s[j / 2 * 2 + 1]);
      assert v == if j % 2 == 0 then bytes[j / 2] as int / 16 else bytes[j / 2] as int % 16;
      ParseHexOnlyDigits(s[j]);
    }
  }

  function LowerCase(s: string): (t: string)
    ensures |t| == |s|
  {
    seq(|s|, j requires 0 <= j < |s| => if 'A' <= s[j] <= 'Z' then (s[j] as int - 'A' as int + 'a' as int) as char else s[j])
  }

  /** parse_data: decodes len bytes from the first 2 * len characters of hex
      into data, stopping at the first character that is not a digit.  On
      failure the pairs before the bad one are decoded, a pair whose second
      digit is bad holds its high nibble, and nothing else is written. */
  method ParseData(hex: string, data: array<uint8>, len: nat) returns (r: int)
    requires 2 * len <= |hex|
    requires len <= data.Length
    modifies data
    ensures r == if HexPrefix(hex, 2 * len) then len else -1
    ensures forall k :: 0 <= k < len && HexPrefix(hex, 2 * k + 2) ==>
              data[k] == PairValue(hex[2 * k], hex[2 * k + 1])
    ensures forall k :: 0 <= k < len && HexPrefix(hex, 2 * k + 1) && !IsHexDigit(hex[2 * k + 1]) ==>
              data[k] as int == 16 * ParseHex(hex[2 * k])
    ensures forall k :: 0 <= k < len && !HexPrefix(hex, 2 * k + 1) ==> data[k] == old(data[k])
    ensures forall k :: len <= k < data.Length ==> data[k] == old(data[k])
  {
    var i := 0;
    while i < len
      invariant 0 <= i <= len
      invariant HexPrefix(hex, 2 * i)
      invariant forall k :: 0 <= k < i ==> data[k] == PairValue(hex[2 * k], hex[2 * k + 1])
      invariant forall k :: i <= k < data.Length ==> data[k] == old(data[k])
    {
      var tmp := ParseHex(hex[2 * i]);
      if tmp < 0 {
        assert !HexPrefix(hex, 2 * len) && !HexPrefix(hex, 2 * i + 1);
        return -1;
      }
      data[i] := (tmp * 16) as uint8;
      tmp := ParseHex(hex[2 * i + 1]);
      if tmp < 0 {
        assert !HexPrefix(hex, 2 * len) && !HexPrefix(hex, 2 * i + 2);
        return -1;
      }
      data[i] := data[i] + tmp as uint8;
      i := i + 1;
    }
    return i;
  }

  /** main's handling of the data argument: reject an odd length, then
      decode strlen(hex) / 2 bytes with parse_data. */
  method LoadData(hex: string) returns (res: Result<seq<uint8>, DataError>)
    ensures res == DecodeHexString(hex)
  {
    var len := |hex|;
    if len % 2 != 0 {
      return Failure(Misaligned);
    }
    len := len / 2;
    var data := new uint8[len];
    var r := ParseData(hex, data, len);
    if r < 0 {
      return Failure(NotHex);
    }
    assert data[..] == DecodePairs(hex);
    return Success(data[..]);
  }
}

/**
 * Base16 as Go's `encoding/hex` and the `%x` verb implement it (section 8 of
 * RFC 4648): encoding writes lower-case digits, decoding accepts either case.
 */
module Hex {
  import opened Wrappers
  import opened Bytes
  import Unicode

  predicate IsHexDigit(c: char) { '0' <= c <= '9' || 'a' <= c <= 'f' || 'A' <= c <= 'F' }

  predicate IsLowerHexDigit(c: char) { '0' <= c <= '9' || 'a' <= c <= 'f' }

  predicate AllHex(s: string) { forall i :: 0 <= i < |s| ==> IsHexDigit(s[i]) }

  predicate IsLowerHex(s: string) { forall i :: 0 <= i < |s| ==> IsLowerHexDigit(s[i]) }

  function HexValue(c: char): (v: nat)
    requires IsHexDigit(c)
    ensures v < 16
  {
    if c <= '9' then c as int - '0' as int
    else if 'a' <= c then c as int - 'a' as int + 10
    else c as int - 'A' as int + 10
  }

  function LowerDigit(v: nat): (c: char)
    requires v < 16
    ensures IsLowerHexDigit(c) && HexValue(c) == v
  {
    if v < 10 then ('0' as int + v) as char else ('a' as int + v - 10) as char
  }

  /** `hex.EncodeToString(b)`, equally `fmt.Sprintf("%x", b)`: two lower-case digits per byte. */
  function Encode(b: seq<byte>): (s: string)
    ensures |s| == 2 * |b| && IsLowerHex(s)
    decreases |b|
  {
    if |b| == 0 then "" else [LowerDigit(b[0] / 16), LowerDigit(b[0] % 16)] + Encode(b[1..])
  }

  /**
   * The two error values of `hex.DecodeString`: `InvalidByteError`, carrying
   * the offending byte of the Go string, and `ErrLength`.
   */
  datatype HexError = InvalidByte(b: byte) | OddLength

  /** `b` is the lead byte of the first character of `s` that is not a hex digit. */
  predicate FirstNonDigit(s: string, b: byte)
  {
    exists k :: 0 <= k < |s| && b == LeadByte(s[k]) && !IsHexDigit(s[k]) && AllHex(s[..k])
  }

  /** The first byte of a character in a Go (UTF-8) string. */
  function LeadByte(c: char): (b: byte)
  {
    var v := c as int;
    if v < 0x80 then v
    else if v < 0x800 then 0xC0 + v / 0x40
    else if v < 0x1_0000 then 0xE0 + v / 0x1000
    else 0xF0 + v / 0x4_0000
  }

  /**
   * `hex.DecodeString(s)`. Pairs are decoded left to right and the first digit
   * of a pair is checked before the second, so the byte reported is the lead
   * byte of the first non-digit of `s`; an odd length is reported only when
   * every character is a digit. A non-ASCII character is never a digit, so
   * working on characters instead of the string's bytes reports the same
   * error.
   */
  function Decode(s: string): (r: Result<seq<byte>, HexError>)
    ensures r.Success? <==> |s| % 2 == 0 && AllHex(s)
    ensures r.Success? ==> |r.value| == |s| / 2
    ensures r.Failure? && r.error.OddLength? ==> |s| % 2 == 1 && AllHex(s)
    ensures r.Failure? && r.error.InvalidByte? ==> FirstNonDigit(s, r.error.b)
    decreases |s|
  {
    if |s| == 0 then Success([])
    else if !IsHexDigit(s[0]) then
      assert s[..0] == "";
      Failure(InvalidByte(LeadByte(s[0])))
    else if |s| == 1 then Failure(OddLength)
    else if !IsHexDigit(s[1]) then
      assert AllHex(s[..1]);
      Failure(InvalidByte(LeadByte(s[1])))
    else
      var rest := Decode(s[2..]);
      AllHexShift(s);
      match rest
      case Success(bytes) => Success([HexValue(s[0]) * 16 + HexValue(s[1])] + bytes)
      case Failure(e) =>
        if e.InvalidByte? then
          FirstNonDigitShift(s, e.b);
          Failure(e)
        else Failure(e)
  }

  lemma AllHexShift(s: string)
    requires |s| >= 2 && IsHexDigit(s[0]) && IsHexDigit(s[1])
    ensures AllHex(s) <==> AllHex(s[2..])
  {
    assert forall i :: 0 <= i < |s[2..]| ==> s[2..][i] == s[i + 2];
  }

  lemma FirstNonDigitShift(s: string, b: byte)
    requires |s| >= 2 && IsHexDigit(s[0]) && IsHexDigit(s[1]) && FirstNonDigit(s[2..], b)
    ensures FirstNonDigit(s, b)
  {
    var tail := s[2..];
    var k :| 0 <= k < |tail| && b == LeadByte(tail[k]) && !IsHexDigit(tail[k]) && AllHex(tail[..k]);
    assert s[..k + 2] == s[..2] + tail[..k];
    assert s[k + 2] == tail[k];
  }

  /** The lead byte is the first byte of the character's UTF-8 encoding. */
  lemma LeadByteIsFirstUtf8Byte(c: char)
    ensures LeadByte(c) == Unicode.Utf8EncodeRune(c)[0]
  {
    var v := c as int;
    if v < 0x80 {
    } else if v < 0x800 {
    } else if v < 0x1_0000 {
    } else {
    }
  }

  /** Encoding works byte by byte, so it distributes over concatenation. */
  lemma {:induction false} EncodeAppend(a: seq<byte>, b: seq<byte>)
    ensures Encode(a + b) == Encode(a) + Encode(b)
    decreases |a|
  {
    if |a| > 0 {
      EncodeAppend(a[1..], b);
      assert (a + b)[0] == a[0] && (a + b)[1..] == a[1..] + b;
      var head := [LowerDigit(a[0] / 16), LowerDigit(a[0] % 16)];
      calc {
        Encode(a + b);
        head + Encode(a[1..] + b);
        head + (Encode(a[1..]) + Encode(b));
        (head + Encode(a[1..])) + Encode(b);
      }
    } else {
      assert a + b == b;
    }
  }

  /** ASCII lower-casing, the normal form in which decoding forgets the case of its input. */
  function ToLower(s: string): (t: string)
    ensures |t| == |s|
  {
    seq(|s|, i requires 0 <= i < |s| => if 'A' <= s[i] <= 'Z' then (s[i] as int + 32) as char else s[i])
  }

  /** Decoding undoes encoding. */
  lemma {:induction false} DecodeEncode(b: seq<byte>)
    ensures Decode(Encode(b)) == Success(b)
    decreases |b|
  {
    if |b| > 0 {
      DecodeEncode(b[1..]);
      var s := Encode(b);
      assert s[2..] == Encode(b[1..]);
      assert HexValue(s[0]) * 16 + HexValue(s[1]) == b[0];
      assert b == [b[0]] + b[1..];
    }
  }

  /** Encoding what was decoded gives the input back up to letter case. */
  lemma {:induction false} EncodeDecode(s: string)
    requires Decode(s).Success?
    ensures Encode(Decode(s).value) == ToLower(s)
    decreases |s|
  {
    if |s| > 0 {
      var tail := s[2..];
      assert forall i :: 0 <= i < |tail| ==> tail[i] == s[i + 2];
      EncodeDecode(tail);
      var v := Decode(s).value;
      var b0 := HexValue(s[0]) * 16 + HexValue(s[1]);
      assert v == [b0] + Decode(tail).value;
      assert v[1..] == Decode(tail).value;
      assert b0 / 16 == HexValue(s[0]) && b0 % 16 == HexValue(s[1]);
      LowerOfHexDigit(s[0]);
      LowerOfHexDigit(s[1]);
      ToLowerShift(s);
    }
  }

  lemma ToLowerShift(s: string)
    requires |s| >= 2
    ensures ToLower(s) == [ToLower(s)[0], ToLower(s)[1]] + ToLower(s[2..])
  {
    assert forall i :: 0 <= i < |s[2..]| ==> s[2..][i] == s[i + 2];
  }

  lemma LowerOfHexDigit(c: char)
    requires IsHexDigit(c)
    ensures LowerDigit(HexValue(c)) == if 'A' <= c <= 'Z' then (c as int + 32) as char else c
  {
  }

  /** Go's `unicode.IsPrint` on the Latin-1 range, where an `InvalidByteError` lies. */
  predicate IsPrintLatin1(b: byte)
  {
    (0x20 <= b < 0x7F) || (0xA1 <= b && b != 0xAD)
  }

  /** The error text: `"encoding/hex: invalid byte: %#U"` or `"encoding/hex: odd length hex string"`. */
  const ErrorPrefix: string := "encoding/hex: "
  const InvalidBytePrefix: string := "encoding/hex: invalid byte: U+00"

  /**
   * The `Error()` text of each error. An invalid byte is printed as U+00
   * and two upper-case hex digits that read back as the byte, followed by
   * the byte quoted when it is printable.
   */
  function ErrorText(e: HexError): (t: string)
    ensures |ErrorPrefix| <= |t| && t[..|ErrorPrefix|] == ErrorPrefix
    ensures e.InvalidByte? ==>
      var n := |InvalidBytePrefix|;
      && n + 2 <= |t| && t[..n] == InvalidBytePrefix
      && IsHexDigit(t[n]) && IsHexDigit(t[n + 1]) && HexValue(t[n]) * 16 + HexValue(t[n + 1]) == e.b
  {
    match e
    case OddLength => "encoding/hex: odd length hex string"
    case InvalidByte(b) =>
      var digits := [UpperDigit(b / 16), UpperDigit(b % 16)];
      var shown := if IsPrintLatin1(b) then " '" + [b as char] + "'" else "";
      var t := InvalidBytePrefix + digits + shown;
      assert t[..|InvalidBytePrefix|] == InvalidBytePrefix;
      assert t[|InvalidBytePrefix|] == digits[0] && t[|InvalidBytePrefix| + 1] == digits[1];
      assert t[..|ErrorPrefix|] == InvalidBytePrefix[..|ErrorPrefix|];
      t
  }

  function UpperDigit(v: nat): (c: char)
    requires v < 16
    ensures IsHexDigit(c) && HexValue(c) == v
  {
    if v < 10 then ('0' as int + v) as char else ('A' as int + v - 10) as char
  }
}

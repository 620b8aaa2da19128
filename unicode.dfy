/**
 * The text encodings the core relies on, over strings of Unicode scalar
 * values: `utf16.Encode([]rune(s))` (RFC 2781 section 2.1) for the version-1
 * challenge, and `[]byte(s)`, the UTF-8 bytes of a Go string (RFC 3629), for
 * the version-2 password.
 */
module Unicode {
  import opened Wrappers
  import opened Bytes

  /** The UTF-16 code units of one scalar value: one unit in the basic plane, else a surrogate pair. */
  function EncodeRune(c: char): (u: seq<uint16>)
    ensures 1 <= |u| <= 2
    ensures |u| == 1 <==> c as int < 0x1_0000
  {
    var v := c as int;
    if v < 0x1_0000 then [v]
    else
      var w := v - 0x1_0000;
      [0xD800 + w / 0x400, 0xDC00 + w % 0x400]
  }

  /** `utf16.Encode([]rune(s))`. */
  function Utf16Encode(s: string): (u: seq<uint16>)
    ensures |s| <= |u| <= 2 * |s|
    decreases |s|
  {
    if |s| == 0 then [] else EncodeRune(s[0]) + Utf16Encode(s[1..])
  }

  /** Encoding works character by character, so it distributes over concatenation. */
  lemma {:induction false} Utf16EncodeAppend(s: string, t: string)
    ensures Utf16Encode(s + t) == Utf16Encode(s) + Utf16Encode(t)
    decreases |s|
  {
    if |s| == 0 {
      assert s + t == t;
    } else {
      Utf16EncodeAppend(s[1..], t);
      assert (s + t)[0] == s[0] && (s + t)[1..] == s[1..] + t;
      var head := EncodeRune(s[0]);
      calc {
        Utf16Encode(s + t);
        head + Utf16Encode(s[1..] + t);
        head + (Utf16Encode(s[1..]) + Utf16Encode(t));
        (head + Utf16Encode(s[1..])) + Utf16Encode(t);
      }
    }
  }

  /**
   * `utf16.Decode(u)`: a high surrogate followed by a low one forms a pair;
   * any other surrogate decodes to U+FFFD.
   */
  function Utf16Decode(u: seq<uint16>): string
    decreases |u|
  {
    if |u| == 0 then ""
    else if u[0] < 0xD800 || u[0] >= 0xE000 then [u[0] as char] + Utf16Decode(u[1..])
    else if u[0] < 0xDC00 && |u| >= 2 && 0xDC00 <= u[1] < 0xE000 then
      [((u[0] as int - 0xD800) * 0x400 + (u[1] as int - 0xDC00) + 0x1_0000) as char] + Utf16Decode(u[2..])
    else ['\U{FFFD}'] + Utf16Decode(u[1..])
  }

  /** UTF-16 encoding loses nothing: decoding gives the string back. */
  lemma {:induction false} Utf16RoundTrip(s: string)
    ensures Utf16Decode(Utf16Encode(s)) == s
    decreases |s|
  {
    if |s| > 0 {
      Utf16RoundTrip(s[1..]);
      var u := Utf16Encode(s);
      var r := EncodeRune(s[0]);
      assert u == r + Utf16Encode(s[1..]);
      var v := s[0] as int;
      if v < 0x1_0000 {
        assert u[1..] == Utf16Encode(s[1..]);
      } else {
        var w := v - 0x1_0000;
        assert w / 0x400 * 0x400 + w % 0x400 == w;
        assert u[2..] == Utf16Encode(s[1..]);
      }
      assert s == [s[0]] + s[1..];
    }
  }

  predicate IsContinuation(b: byte) { 0x80 <= b < 0xC0 }

  /** The UTF-8 bytes of one scalar value, shortest form. */
  function Utf8EncodeRune(c: char): (b: seq<byte>)
    ensures 1 <= |b| <= 4
  {
    var v := c as int;
    if v < 0x80 then [v]
    else if v < 0x800 then [0xC0 + v / 0x40, 0x80 + v % 0x40]
    else if v < 0x1_0000 then [0xE0 + v / 0x1000, 0x80 + v / 0x40 % 0x40, 0x80 + v % 0x40]
    else [0xF0 + v / 0x4_0000, 0x80 + v / 0x1000 % 0x40, 0x80 + v / 0x40 % 0x40, 0x80 + v % 0x40]
  }

  /** `[]byte(s)`: the UTF-8 bytes of a string. */
  function Utf8Encode(s: string): (b: seq<byte>)
    ensures |s| <= |b| <= 4 * |s|
    decreases |s|
  {
    if |s| == 0 then [] else Utf8EncodeRune(s[0]) + Utf8Encode(s[1..])
  }

  /** Encoding works character by character, so it distributes over concatenation. */
  lemma {:induction false} Utf8EncodeAppend(s: string, t: string)
    ensures Utf8Encode(s + t) == Utf8Encode(s) + Utf8Encode(t)
    decreases |s|
  {
    if |s| == 0 {
      assert s + t == t;
    } else {
      Utf8EncodeAppend(s[1..], t);
      assert (s + t)[0] == s[0] && (s + t)[1..] == s[1..] + t;
      var head := Utf8EncodeRune(s[0]);
      calc {
        Utf8Encode(s + t);
        head + Utf8Encode(s[1..] + t);
        head + (Utf8Encode(s[1..]) + Utf8Encode(t));
        (head + Utf8Encode(s[1..])) + Utf8Encode(t);
      }
    }
  }

  /** Strict UTF-8 decoding: `None` for anything that is not the shortest encoding of scalar values. */
  function Utf8Decode(b: seq<byte>): Option<string>
    decreases |b|
  {
    if |b| == 0 then Some("")
    else if b[0] < 0x80 then
      match Utf8Decode(b[1..]) case Some(t) => Some([b[0] as char] + t) case None => None
    else if 0xC2 <= b[0] < 0xE0 && |b| >= 2 && IsContinuation(b[1]) then
      var v := (b[0] as int - 0xC0) * 0x40 + (b[1] as int - 0x80);
      match Utf8Decode(b[2..]) case Some(t) => Some([v as char] + t) case None => None
    else if 0xE0 <= b[0] < 0xF0 && |b| >= 3 && IsContinuation(b[1]) && IsContinuation(b[2]) then
      var v := (b[0] as int - 0xE0) * 0x1000 + (b[1] as int - 0x80) * 0x40 + (b[2] as int - 0x80);
      if v < 0x800 || 0xD800 <= v < 0xE000 then None
      else match Utf8Decode(b[3..]) case Some(t) => Some([v as char] + t) case None => None
    else if 0xF0 <= b[0] < 0xF5 && |b| >= 4 && IsContinuation(b[1]) && IsContinuation(b[2]) && IsContinuation(b[3]) then
      var v := (b[0] as int - 0xF0) * 0x4_0000 + (b[1] as int - 0x80) * 0x1000 + (b[2] as int - 0x80) * 0x40 + (b[3] as int - 0x80);
      if v < 0x1_0000 || v >= 0x11_0000 then None
      else match Utf8Decode(b[4..]) case Some(t) => Some([v as char] + t) case None => None
    else None
  }

  /** UTF-8 encoding loses nothing, so distinct passwords give distinct bytes. */
  lemma {:induction false} Utf8RoundTrip(s: string)
    ensures Utf8Decode(Utf8Encode(s)) == Some(s)
    decreases |s|
  {
    if |s| > 0 {
      Utf8RoundTrip(s[1..]);
      var r := Utf8EncodeRune(s[0]);
      var b := Utf8Encode(s);
      assert b == r + Utf8Encode(s[1..]);
      assert b[|r|..] == Utf8Encode(s[1..]);
      Utf8RuneDecodes(s[0]);
      assert s == [s[0]] + s[1..];
    }
  }

  /** The leading bytes of one encoded scalar value decode to that value. */
  lemma Utf8RuneDecodes(c: char)
    ensures var r := Utf8EncodeRune(c); var v := c as int;
      match |r|
      case 1 => r[0] < 0x80 && r[0] == v
      case 2 => 0xC2 <= r[0] < 0xE0 && IsContinuation(r[1]) && (r[0] as int - 0xC0) * 0x40 + (r[1] as int - 0x80) == v
      case 3 => 0xE0 <= r[0] < 0xF0 && IsContinuation(r[1]) && IsContinuation(r[2])
        && (r[0] as int - 0xE0) * 0x1000 + (r[1] as int - 0x80) * 0x40 + (r[2] as int - 0x80) == v
        && 0x800 <= v && !(0xD800 <= v < 0xE000)
      case 4 => (0xF0 <= r[0] < 0xF5 && IsContinuation(r[1]) && IsContinuation(r[2]) && IsContinuation(r[3])
        && (r[0] as int - 0xF0) * 0x4_0000 + (r[1] as int - 0x80) * 0x1000 + (r[2] as int - 0x80) * 0x40 + (r[3] as int - 0x80) == v
        && 0x1_0000 <= v < 0x11_0000)
  {
    var v := c as int;
    if 0x800 <= v < 0x1_0000 {
      assert v / 0x1000 * 0x1000 + (v / 0x40 % 0x40) * 0x40 + v % 0x40 == v;
    } else if v >= 0x1_0000 {
      assert v / 0x4_0000 * 0x4_0000 + (v / 0x1000 % 0x40) * 0x1000 + (v / 0x40 % 0x40) * 0x40 + v % 0x40 == v;
    }
  }
}

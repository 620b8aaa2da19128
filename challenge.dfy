/**
 * Solving the login challenge of FRITZ!OS (auth/login.go:147-202): version 1
 * is an MD5 digest over the UTF-16LE bytes of "challenge-password"; version 2,
 * written `2$<iter1>$<salt1>$<iter2>$<salt2>`, is two rounds of
 * PBKDF2-HMAC-SHA256. The hash functions are parameters.
 */
module Challenge {
  import opened Wrappers
  import opened Bytes
  import opened Strings
  import opened Decimal
  import opened Hex
  import opened Unicode
  import opened AuthErrors

  /** An MD5 sum, 16 bytes. */
  type Md5Digest = s: seq<byte> | |s| == 16 witness seq(16, _ => 0)

  /** A key of 32 bytes, the length both PBKDF2 rounds ask for. */
  type DerivedKey = s: seq<byte> | |s| == 32 witness seq(32, _ => 0)

  /**
   * `md5.Sum`, and `pbkdf2.Key(password, salt, iterations, 32, sha256.New)`.
   */
  datatype Primitives = Primitives(
    md5: seq<byte> -> Md5Digest,
    pbkdf2: (seq<byte>, seq<byte>, int) -> DerivedKey)

  /** UTF-16LE without BOM or terminator: low byte, then high byte, of each unit. */
  function LeBytes(units: seq<uint16>): (b: seq<byte>)
    ensures |b| == 2 * |units|
    decreases |units|
  {
    if |units| == 0 then [] else [units[0] % 0x100, units[0] / 0x100] + LeBytes(units[1..])
  }

  /** The byte image has exactly two bytes per unit, low byte first. */
  lemma {:induction false} LeBytesLayout(units: seq<uint16>)
    ensures |LeBytes(units)| == 2 * |units|
    ensures forall i :: 0 <= i < |units| ==>
      LeBytes(units)[2 * i] == units[i] % 0x100 && LeBytes(units)[2 * i + 1] == units[i] / 0x100
    decreases |units|
  {
    if |units| > 0 {
      LeBytesLayout(units[1..]);
      forall i | 1 <= i < |units|
        ensures LeBytes(units)[2 * i] == units[i] % 0x100 && LeBytes(units)[2 * i + 1] == units[i] / 0x100
      {
        assert LeBytes(units)[2 * i] == LeBytes(units[1..])[2 * (i - 1)];
        assert LeBytes(units)[2 * i + 1] == LeBytes(units[1..])[2 * (i - 1) + 1];
      }
    }
  }

  /** The byte image is built unit by unit. */
  lemma {:induction false} LeBytesAppend(u: seq<uint16>, v: seq<uint16>)
    ensures LeBytes(u + v) == LeBytes(u) + LeBytes(v)
    decreases |u|
  {
    if |u| == 0 {
      assert u + v == v;
    } else {
      LeBytesAppend(u[1..], v);
      assert (u + v)[0] == u[0] && (u + v)[1..] == u[1..] + v;
      var head: seq<byte> := [u[0] % 0x100, u[0] / 0x100];
      calc {
        LeBytes(u + v);
        head + LeBytes(u[1..] + v);
        head + (LeBytes(u[1..]) + LeBytes(v));
        (head + LeBytes(u[1..])) + LeBytes(v);
      }
    }
  }

  /** Reading the byte image back, two bytes at a time. */
  function FromLeBytes(b: seq<byte>): seq<uint16>
    requires |b| % 2 == 0
    decreases |b|
  {
    if |b| == 0 then [] else [b[0] as int + 0x100 * b[1] as int] + FromLeBytes(b[2..])
  }

  /** The byte image loses nothing. */
  lemma {:induction false} LeBytesRoundTrip(units: seq<uint16>)
    ensures |LeBytes(units)| % 2 == 0 && FromLeBytes(LeBytes(units)) == units
    decreases |units|
  {
    LeBytesLayout(units);
    if |units| > 0 {
      LeBytesRoundTrip(units[1..]);
      assert LeBytes(units)[2..] == LeBytes(units[1..]);
      assert units == [units[0]] + units[1..];
    }
  }

  /** The bytes version 1 hashes: UTF-16LE of "challenge-password". */
  function Md5Input(challenge: string, password: string): (b: seq<byte>)
    ensures |b| == 2 * |Utf16Encode(challenge + "-" + password)|
  {
    LeBytes(Utf16Encode(challenge + "-" + password))
  }

  /** The version-1 answer: the challenge, a dash, the MD5 digest in lower-case hex. */
  function Md5Answer(challenge: string, password: string, prims: Primitives): (a: string)
    ensures |a| == |challenge| + 33 && a[..|challenge| + 1] == challenge + "-"
  {
    challenge + "-" + Encode(prims.md5(Md5Input(challenge, password)))
  }

  /**
   * After the dash come exactly 32 lower-case hex digits, and they decode to
   * the digest of the hashed bytes.
   */
  lemma Md5AnswerShape(challenge: string, password: string, prims: Primitives)
    ensures var a := Md5Answer(challenge, password, prims);
      && IsLowerHex(a[|challenge| + 1..])
      && Decode(a[|challenge| + 1..]) == Success(prims.md5(Md5Input(challenge, password)))
  {
    var a := Md5Answer(challenge, password, prims);
    var digest := prims.md5(Md5Input(challenge, password));
    assert a[|challenge| + 1..] == Encode(digest);
    DecodeEncode(digest);
  }

  /** `calculateMD5Response`: fills a buffer of two bytes per UTF-16 unit, then hashes it. */
  method CalculateMD5Response(challenge: string, password: string, prims: Primitives) returns (answer: string)
    ensures answer == Md5Answer(challenge, password, prims)
  {
    var codes := Utf16Encode(challenge + "-" + password);
    var b := new byte[|codes| * 2];
    var i := 0;
    while i < |codes|
      invariant 0 <= i <= |codes|
      invariant forall j :: 0 <= j < i ==> b[2 * j] == codes[j] % 0x100 && b[2 * j + 1] == codes[j] / 0x100
    {
      b[i * 2] := codes[i] % 0x100;
      b[i * 2 + 1] := codes[i] / 0x100;
      i := i + 1;
    }
    LeBytesLayout(codes);
    assert b[..] == LeBytes(codes) by {
      forall k | 0 <= k < b.Length
        ensures b[k] == LeBytes(codes)[k]
      {
        var j := k / 2;
        assert 0 <= j < |codes|;
        if k == 2 * j {
          assert b[2 * j] == codes[j] % 0x100;
        } else {
          assert k == 2 * j + 1;
          assert b[2 * j + 1] == codes[j] / 0x100;
        }
      }
    }
    answer := challenge + "-" + Encode(prims.md5(b[..]));
  }

  /**
   * `calculatePBKDF2Response` on the five parts of a version-2 challenge.
   * Iteration counts are read with `Atoi`, the parse error dropped (0 for
   * text, a clamped value for an overflow); salt1 is decoded before salt2,
   * each failure being returned as is.
   */
  function CalculatePbkdf2Response(parts: seq<string>, password: string, prims: Primitives): (r: Result<string, HexError>)
    requires |parts| == 5
    ensures r.Success? <==> Decode(parts[2]).Success? && Decode(parts[4]).Success?
    ensures Decode(parts[2]).Failure? ==> r == Failure(Decode(parts[2]).error)
    ensures Decode(parts[2]).Success? && Decode(parts[4]).Failure? ==> r == Failure(Decode(parts[4]).error)
    ensures r.Success? ==>
      && |r.value| == |parts[4]| + 65
      && r.value[..|parts[4]| + 1] == parts[4] + "$"
      && IsLowerHex(r.value[|parts[4]| + 1..])
  {
    var iter1 := Atoi(parts[1]);
    match Decode(parts[2])
    case Failure(e) => Failure(e)
    case Success(salt1) =>
      var iter2 := Atoi(parts[3]);
      match Decode(parts[4])
      case Failure(e) => Failure(e)
      case Success(salt2) =>
        var key1 := prims.pbkdf2(Utf8Encode(password), salt1, iter1);
        var key2 := prims.pbkdf2(key1, salt2, iter2);
        var hex := Encode(key2);
        assert (parts[4] + "$" + hex)[|parts[4]| + 1..] == hex;
        Success(parts[4] + "$" + hex)
  }

  /** The version-2 key: key1 from the password's UTF-8 bytes, key2 from key1. */
  function Pbkdf2Key(parts: seq<string>, password: string, prims: Primitives): (key: DerivedKey)
    requires |parts| == 5 && Decode(parts[2]).Success? && Decode(parts[4]).Success?
    ensures CalculatePbkdf2Response(parts, password, prims) == Success(parts[4] + "$" + Encode(key))
  {
    var key1 := prims.pbkdf2(Utf8Encode(password), Decode(parts[2]).value, Atoi(parts[1]));
    prims.pbkdf2(key1, Decode(parts[4]).value, Atoi(parts[3]))
  }

  /** After the salt, the answer is the key in hex; decoding that part gives the key back. */
  lemma Pbkdf2AnswerCarriesKey(parts: seq<string>, password: string, prims: Primitives)
    requires |parts| == 5 && CalculatePbkdf2Response(parts, password, prims).Success?
    ensures var a := CalculatePbkdf2Response(parts, password, prims).value;
      Decode(a[|parts[4]| + 1..]) == Success(Pbkdf2Key(parts, password, prims))
  {
    var a := CalculatePbkdf2Response(parts, password, prims).value;
    var key := Pbkdf2Key(parts, password, prims);
    assert a[|parts[4]| + 1..] == Encode(key);
    DecodeEncode(key);
  }

  /**
   * An iteration count that is not a number counts as 0, when the parse meets
   * the non-digit within its first 19 bytes.
   */
  lemma UnparsableIterationIsZero(parts: seq<string>, password: string, prims: Primitives, i: nat)
    requires |parts| == 5 && 0 < i < |parts[1]| && !IsDigit(parts[1][i]) && i <= 19
    ensures CalculatePbkdf2Response(parts, password, prims) == CalculatePbkdf2Response(parts[1 := "0"], password, prims)
  {
    AtoiRejectsNonDigit(parts[1], i);
    assert Format(0) == "0";
    AtoiFormat(0);
  }

  /**
   * An iteration count whose leading digits overflow 64 bits counts as the
   * largest `int`, even when text follows the digits: the first derivation
   * runs that many iterations.
   */
  lemma OverflowingIterationIsMax(parts: seq<string>, password: string, prims: Primitives, a: string, rest: string)
    requires |parts| == 5 && parts[1] == a + rest
    requires AllDigits(a) && DigitsValue(a) > MaxUint64 && (|rest| == 0 || !IsDigit(rest[0]))
    ensures Atoi(parts[1]) == MaxInt64
    ensures Decode(parts[2]).Success? && Decode(parts[4]).Success? ==>
      var key1 := prims.pbkdf2(Utf8Encode(password), Decode(parts[2]).value, MaxInt64);
      CalculatePbkdf2Response(parts, password, prims)
        == Success(parts[4] + "$" + Encode(prims.pbkdf2(key1, Decode(parts[4]).value, Atoi(parts[3]))))
  {
    AtoiClampsOverflow("", a, rest);
    assert "" + a + rest == parts[1];
  }

  /** `solveChallenge`: dispatch on the number of `$`-separated parts. */
  function Answer(challenge: string, password: string, prims: Primitives): (r: Result<string, AuthError>)
    ensures r.Failure? ==> r.error == UnsupportedChallenge || r.error.SaltDecode?
  {
    var parts := Split(challenge, '$');
    if |parts| == 1 then Success(Md5Answer(challenge, password, prims))
    else if |parts| == 5 && parts[0] == "2" then
      match CalculatePbkdf2Response(parts, password, prims)
      case Success(a) => Success(a)
      case Failure(e) => Failure(SaltDecode(e))
    else Failure(UnsupportedChallenge)
  }

  /** `solveChallenge` as the source runs it, with the MD5 loop. */
  method SolveChallenge(challenge: string, password: string, prims: Primitives) returns (r: Result<string, AuthError>)
    ensures r == Answer(challenge, password, prims)
  {
    var parts := Split(challenge, '$');
    if |parts| == 1 {
      var answer := CalculateMD5Response(challenge, password, prims);
      return Success(answer);
    } else if |parts| == 5 {
      if parts[0] == "2" {
        var a := CalculatePbkdf2Response(parts, password, prims);
        if a.Success? {
          return Success(a.value);
        }
        return Failure(SaltDecode(a.error));
      }
      return Failure(UnsupportedChallenge);
    }
    return Failure(UnsupportedChallenge);
  }

  /**
   * The dispatch rule in terms of the challenge text: no `$` means version 1
   * and never fails; four `$` after a leading "2" means version 2, which can
   * only fail on a salt; everything else is unsupported.
   */
  lemma AnswerDispatch(challenge: string, password: string, prims: Primitives)
    ensures '$' !in challenge ==> Answer(challenge, password, prims) == Success(Md5Answer(challenge, password, prims))
    ensures Answer(challenge, password, prims) == Failure(UnsupportedChallenge) <==>
      '$' in challenge && !(Count(challenge, '$') == 4 && Split(challenge, '$')[0] == "2")
    ensures Answer(challenge, password, prims).Failure? && Answer(challenge, password, prims).error.SaltDecode? ==>
      Count(challenge, '$') == 4 && Split(challenge, '$')[0] == "2"
  {
    CountZero(challenge, '$');
    var parts := Split(challenge, '$');
    assert |parts| == Count(challenge, '$') + 1;
  }

  /** The UTF-16 units of the documentation sample: all of it lies in the basic plane. */
  lemma Version1Units()
    ensures Utf16Encode("1234567z" + "-" + "äbc") == [0x31, 0x32, 0x33, 0x34] + [0x35, 0x36, 0x37, 0x7A] + [0x2D, 0xE4, 0x62, 0x63]
  {
    assert "1234567z" + "-" + "äbc" == "1234" + "567z" + "-äbc";
    Utf16EncodeAppend("1234" + "567z", "-äbc");
    Utf16EncodeAppend("1234", "567z");
    Version1Chunk1();
    Version1Chunk2();
    Version1Chunk3();
  }

  lemma Version1Chunk1()
    ensures Utf16Encode("1234") == [0x31, 0x32, 0x33, 0x34]
  {
  }

  lemma Version1Chunk2()
    ensures Utf16Encode("567z") == [0x35, 0x36, 0x37, 0x7A]
  {
  }

  lemma Version1Chunk3()
    ensures Utf16Encode("-äbc") == [0x2D, 0xE4, 0x62, 0x63]
  {
  }

  /** Each unit of the sample below 0x100 gives its own value and a zero byte. */
  lemma Version1Bytes(u1: seq<uint16>, u2: seq<uint16>, u3: seq<uint16>)
    requires u1 == [0x31, 0x32, 0x33, 0x34] && u2 == [0x35, 0x36, 0x37, 0x7A] && u3 == [0x2D, 0xE4, 0x62, 0x63]
    ensures LeBytes(u1 + u2 + u3)
            == [0x31, 0, 0x32, 0, 0x33, 0, 0x34, 0] + [0x35, 0, 0x36, 0, 0x37, 0, 0x7A, 0] + [0x2D, 0, 0xE4, 0, 0x62, 0, 0x63, 0]
  {
    LeBytesAppend(u1 + u2, u3);
    LeBytesAppend(u1, u2);
    Version1ByteChunk1();
    Version1ByteChunk2();
    Version1ByteChunk3();
  }

  lemma Version1ByteChunk1()
    ensures LeBytes([0x31, 0x32, 0x33, 0x34]) == [0x31, 0, 0x32, 0, 0x33, 0, 0x34, 0]
  {
  }

  lemma Version1ByteChunk2()
    ensures LeBytes([0x35, 0x36, 0x37, 0x7A]) == [0x35, 0, 0x36, 0, 0x37, 0, 0x7A, 0]
  {
  }

  lemma Version1ByteChunk3()
    ensures LeBytes([0x2D, 0xE4, 0x62, 0x63]) == [0x2D, 0, 0xE4, 0, 0x62, 0, 0x63, 0]
  {
  }

  /** The bytes hashed for the documentation sample: no byte order mark, no terminator. */
  lemma Version1Input(challenge: string, password: string)
    requires challenge == "1234567z" && password == "äbc"
    ensures Md5Input(challenge, password) == [0x31, 0, 0x32, 0, 0x33, 0, 0x34, 0, 0x35, 0, 0x36, 0, 0x37, 0, 0x7A, 0,
                                              0x2D, 0, 0xE4, 0, 0x62, 0, 0x63, 0]
  {
    Version1Units();
    Version1Bytes([0x31, 0x32, 0x33, 0x34], [0x35, 0x36, 0x37, 0x7A], [0x2D, 0xE4, 0x62, 0x63]);
  }

  /**
   * The version-1 sample of the FRITZ!OS documentation (password "äbc"),
   * given the digest MD5 yields. The test in auth/login_test.go spells the
   * password with the UTF-8 bytes of "äbc" encoded twice; the digest it
   * expects is the documented one, so the documented password is used here.
   */
  lemma Version1Vector(challenge: string, password: string, prims: Primitives)
    requires challenge == "1234567z" && password == "äbc"
    requires Encode(prims.md5([0x31, 0, 0x32, 0, 0x33, 0, 0x34, 0, 0x35, 0, 0x36, 0, 0x37, 0, 0x7A, 0,
                               0x2D, 0, 0xE4, 0, 0x62, 0, 0x63, 0]))
             == "9e224a41eeefa284df7bb0f26c2913e2"
    ensures Answer(challenge, password, prims) == Success(challenge + "-" + "9e224a41eeefa284df7bb0f26c2913e2")
  {
    var input: seq<byte> := [0x31, 0, 0x32, 0, 0x33, 0, 0x34, 0, 0x35, 0, 0x36, 0, 0x37, 0, 0x7A, 0,
                             0x2D, 0, 0xE4, 0, 0x62, 0, 0x63, 0];
    Version1Input(challenge, password);
    Md5AnswerOf(challenge, password, prims, input);
    AnswerDispatch(challenge, password, prims);
    assert '$' !in challenge;
  }

  /** The version-1 answer in terms of the bytes that are hashed. */
  lemma Md5AnswerOf(challenge: string, password: string, prims: Primitives, input: seq<byte>)
    requires Md5Input(challenge, password) == input
    ensures Md5Answer(challenge, password, prims) == challenge + "-" + Encode(prims.md5(input))
  {
  }

  /** The parts of the version-2 sample, with upper-case salts. */
  lemma Version2Parts(challenge: string)
    requires challenge == "2$10000$5A1711$2000$5A1722"
    ensures Split(challenge, '$') == ["2", "10000", "5A1711", "2000", "5A1722"]
  {
    assert challenge == "2" + "$" + ("10000" + "$" + ("5A1711" + "$" + ("2000" + "$" + "5A1722")));
    SplitFive("2", "10000", "5A1711", "2000", "5A1722", '$');
  }

  /** Five separator-free pieces joined by the separator split back into those pieces. */
  lemma SplitFive(a: string, b: string, c: string, d: string, e: string, sep: char)
    requires sep !in a && sep !in b && sep !in c && sep !in d && sep !in e
    ensures Split(a + [sep] + (b + [sep] + (c + [sep] + (d + [sep] + e))), sep) == [a, b, c, d, e]
  {
    var t3 := d + [sep] + e;
    var t2 := c + [sep] + t3;
    var t1 := b + [sep] + t2;
    SplitNoSep(e, sep);
    SplitCons(d, e, sep);
    SplitCons(c, t3, sep);
    SplitCons(b, t2, sep);
    SplitCons(a, t1, sep);
  }

  /** The iteration counts of the version-2 sample. */
  lemma Version2Counts(parts: seq<string>)
    requires parts == ["2", "10000", "5A1711", "2000", "5A1722"]
    ensures Atoi(parts[1]) == 10000 && Atoi(parts[3]) == 2000
  {
    assert Format(10000) == "10000" && Format(2000) == "2000";
    AtoiFormat(10000);
    AtoiFormat(2000);
  }

  /** The salts of the version-2 sample, written in upper case. */
  lemma Version2Salts()
    ensures Decode("5A1711").Success? && Decode("5A1711").value == [0x5A, 0x17, 0x11]
    ensures Decode("5A1722").Success? && Decode("5A1722").value == [0x5A, 0x17, 0x22]
  {
  }

  lemma Version2Password()
    ensures Utf8Encode("1example!") == [0x31, 0x65, 0x78, 0x61, 0x6d, 0x70, 0x6c, 0x65, 0x21]
  {
    assert "1example!" == "1exa" + "mple!";
    Utf8EncodeAppend("1exa", "mple!");
    Version2PasswordChunks();
  }

  lemma Version2PasswordChunks()
    ensures Utf8Encode("1exa") == [0x31, 0x65, 0x78, 0x61]
    ensures Utf8Encode("mple!") == [0x6d, 0x70, 0x6c, 0x65, 0x21]
  {
  }

  /** The version-2 sample: the salt is repeated verbatim in front of the key. */
  lemma Version2Vector(challenge: string, password: string, prims: Primitives)
    requires challenge == "2$10000$5A1711$2000$5A1722" && password == "1example!"
    requires Encode(prims.pbkdf2(prims.pbkdf2([0x31, 0x65, 0x78, 0x61, 0x6d, 0x70, 0x6c, 0x65, 0x21], [0x5A, 0x17, 0x11], 10000),
                                 [0x5A, 0x17, 0x22], 2000))
             == "1798a1672bca7c6463d6b245f82b53703b0f50813401b03e4045a5861e689adb"
    ensures Answer(challenge, password, prims)
            == Success("5A1722" + "$" + "1798a1672bca7c6463d6b245f82b53703b0f50813401b03e4045a5861e689adb")
  {
    Version2Parts(challenge);
    var parts := Split(challenge, '$');
    Version2Counts(parts);
    Version2Salts();
    Version2Password();
  }
}

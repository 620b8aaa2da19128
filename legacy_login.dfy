/**
 * The older login flow of the root package (login.go). It solves the same
 * challenges with the same MD5 loop and PBKDF2 steps, but checks no input,
 * tests the challenge's status before its content type, ignores a failed
 * body read after the login, and knows no block time: every dead session id
 * is one "login failed" error. Its errors are plain values of its own.
 */
module LegacyLogin {
  import opened Wrappers
  import opened Bytes
  import opened Decimal
  import opened Hex
  import opened Request
  import Strings
  import AuthErrors
  import Challenge
  import Auth

  /** The legacy `sessionInfo`: the same document, with `BlockTime` read as an 8-bit count. */
  datatype SessionInfo = SessionInfo(sid: string, challenge: string, blockTime: byte, rights: string, users: seq<Auth.User>)

  /** Every error of the legacy flow. */
  datatype LegacyError =
    | Transport(transportError: TransportError)
      /** "couldn't get the challenge, response code was %d". */
    | ChallengeStatus(code: int)
      /** "expected xml response, but got something else". */
    | ExpectedXml
    | BodyRead(readError: ReadError)
    | XmlDecode(decodeError: DecodeError)
      /** The challenge has neither one nor five parts with a leading "2". */
    | Unsupported
    | SaltDecode(hexError: HexError)
      /** "something went wrong, %w": the login POST failed. */
    | LoginTransport(loginError: TransportError)
      /** "server returned non-200 status code -> %d". */
    | LoginStatus(loginCode: int)
    | SessionWrong
      /** "couln't logout session id %q, %w". */
    | LogoutFailed(session: string, cause: Option<TransportError>)

  /**
   * Go's `%q` of a string whose characters are all printable: quotes, with
   * `"` and `\` escaped. What is inside the quotes unescapes to the string.
   */
  function Quote(s: string): (q: string)
    ensures |q| >= |s| + 2 && q[0] == '"' && q[|q| - 1] == '"'
    ensures Unescape(q[1..|q| - 1]) == s
  {
    var q := "\"" + Escape(s) + "\"";
    assert q[1..|q| - 1] == Escape(s);
    UnescapeEscape(s);
    q
  }

  function Escape(s: string): (e: string)
    ensures |e| >= |s|
  {
    if |s| == 0 then ""
    else (if s[0] == '"' || s[0] == '\\' then ['\\', s[0]] else [s[0]]) + Escape(s[1..])
  }

  /** Reading a quoted text back: a backslash stands for the character after it. */
  function Unescape(e: string): string
  {
    if |e| == 0 then ""
    else if e[0] == '\\' && |e| >= 2 then [e[1]] + Unescape(e[2..])
    else [e[0]] + Unescape(e[1..])
  }

  /** Escaping loses nothing. */
  lemma {:induction false} UnescapeEscape(s: string)
    ensures Unescape(Escape(s)) == s
  {
    if |s| > 0 {
      UnescapeEscape(s[1..]);
      var e := Escape(s);
      if s[0] == '"' || s[0] == '\\' {
        assert e == ['\\', s[0]] + Escape(s[1..]);
        assert e[2..] == Escape(s[1..]);
      } else {
        assert e == [s[0]] + Escape(s[1..]);
        assert e[1..] == Escape(s[1..]);
      }
      assert s == [s[0]] + s[1..];
    }
  }

  const ChallengeStatusPrefix: string := "couldn't get the challenge, response code was "
  const LoginStatusPrefix: string := "server returned non-200 status code -> "

  const LogoutPrefix: string := "couln't logout session id "

  /** The `Error()` text of each error. */
  function Text(e: LegacyError): (t: string)
    ensures e.ChallengeStatus? ==> t == ChallengeStatusPrefix + Format(e.code)
    ensures e.LoginStatus? ==> t == LoginStatusPrefix + Format(e.loginCode)
    ensures e.LogoutFailed? ==>
      var head := LogoutPrefix + Quote(e.session) + ", ";
      && |head| <= |t| && t[..|head|] == head
      && t[|head|..] == if e.cause.Some? then e.cause.value.reason else "%!w(<nil>)"
  {
    match e
    case Transport(t) => t.reason
    case ChallengeStatus(c) => ChallengeStatusPrefix + Format(c)
    case ExpectedXml => "expected xml response, but got something else"
    case BodyRead(r) => r.reason
    case XmlDecode(d) => d.reason
    case Unsupported => AuthErrors.UnsupportedChallengeText
    case SaltDecode(h) => Hex.ErrorText(h)
    case LoginTransport(t) => "something went wrong, " + t.reason
    case LoginStatus(c) => LoginStatusPrefix + Format(c)
    case SessionWrong => AuthErrors.SessionInvalidText
    case LogoutFailed(s, c) =>
      Strings.WrapError(LogoutPrefix + Quote(s) + ", ", if c.Some? then c.value.reason else "", c.Some?)
  }

  /** The status code can be read back from the end of a status error's text. */
  lemma StatusTextReadsBack(code: int)
    requires MinInt64 <= code <= MaxInt64
    ensures var t := Text(ChallengeStatus(code));
      |ChallengeStatusPrefix| <= |t| && t[..|ChallengeStatusPrefix|] == ChallengeStatusPrefix
      && Atoi(t[|ChallengeStatusPrefix|..]) == code
    ensures var t := Text(LoginStatus(code));
      |LoginStatusPrefix| <= |t| && t[..|LoginStatusPrefix|] == LoginStatusPrefix
      && Atoi(t[|LoginStatusPrefix|..]) == code
  {
    var f := Format(code);
    assert (ChallengeStatusPrefix + f)[|ChallengeStatusPrefix|..] == f;
    assert (LoginStatusPrefix + f)[|LoginStatusPrefix|..] == f;
    AtoiFormat(code);
  }

  const KindXml: string := "xml"
  const KindJson: string := "json"

  /** `validateHeader`: the response kind names the content type, which must match exactly. */
  function ValidateHeaderKind(kind: string, h: Header): (ok: bool)
    ensures ok <==> ((kind == KindXml && HeaderGet(h, ContentTypeKey) == HeaderXML)
                     || (kind == KindJson && HeaderGet(h, ContentTypeKey) == HeaderJSON))
  {
    var contentType := if kind == KindXml then HeaderXML else if kind == KindJson then HeaderJSON else "";
    contentType != "" && HeaderGet(h, ContentTypeKey) == contentType
  }

  /** The legacy check accepts exactly what the request package's check accepts. */
  lemma ValidateHeaderKindAgrees(h: Header)
    ensures ValidateHeaderKind(KindXml, h) == ValidateHeader(HeaderXML, h)
    ensures ValidateHeaderKind(KindJson, h) == ValidateHeader(HeaderJSON, h)
  {
  }

  /**
   * `getChallengeString`: the transport error, then the status (its code in
   * the error), then the content type, then the body read and the decoding.
   */
  function GetChallengeString(address: string, send: Transport, xml: Decoder<SessionInfo>): (r: Result<string, LegacyError>)
    ensures var res := send(Auth.ChallengeRequest(address));
      && (r.Success? <==>
            && res.Success? && res.value.status == StatusOK && ValidateHeaderKind(KindXml, res.value.header)
            && res.value.readError.None? && xml(res.value.body).Success?)
      && (r.Success? ==> r.value == xml(res.value.body).value.challenge)
      && (res.Failure? ==> r == Failure(Transport(res.error)))
      && (res.Success? && res.value.status != StatusOK ==> r == Failure(ChallengeStatus(res.value.status)))
      && (res.Success? && res.value.status == StatusOK && !ValidateHeaderKind(KindXml, res.value.header) ==>
            r == Failure(ExpectedXml))
      && (res.Success? && res.value.status == StatusOK && ValidateHeaderKind(KindXml, res.value.header) ==>
            && (res.value.readError.Some? ==> r == Failure(BodyRead(res.value.readError.value)))
            && (res.value.readError.None? && xml(res.value.body).Failure? ==>
                  r == Failure(XmlDecode(xml(res.value.body).error))))
  {
    var res := send(Auth.ChallengeRequest(address));
    if res.Failure? then Failure(Transport(res.error))
    else if res.value.status != StatusOK then Failure(ChallengeStatus(res.value.status))
    else if !ValidateHeaderKind(KindXml, res.value.header) then Failure(ExpectedXml)
    else if res.value.readError.Some? then Failure(BodyRead(res.value.readError.value))
    else match xml(res.value.body)
      case Success(info) => Success(info.challenge)
      case Failure(d) => Failure(XmlDecode(d))
  }

  /**
   * `solveChallenge`: the same dispatch and the same answers as the auth
   * package's, with the unsupported format and the salt error as plain errors.
   */
  function SolveChallenge(challenge: string, password: string, prims: Challenge.Primitives): (r: Result<string, LegacyError>)
    ensures r.Success? <==> Challenge.Answer(challenge, password, prims).Success?
    ensures r.Success? ==> r.value == Challenge.Answer(challenge, password, prims).value
    ensures r == Failure(Unsupported) <==> Challenge.Answer(challenge, password, prims) == Failure(AuthErrors.UnsupportedChallenge)
    ensures forall h :: r == Failure(SaltDecode(h)) <==> Challenge.Answer(challenge, password, prims) == Failure(AuthErrors.SaltDecode(h))
  {
    var r := Challenge.Answer(challenge, password, prims);
    if r.Success? then Success(r.value)
    else if r.error.SaltDecode? then Failure(SaltDecode(r.error.hexError))
    else Failure(Unsupported)
  }

  /** A challenge without `$` is answered by the MD5 rule and never fails. */
  lemma SolveWithoutDollar(challenge: string, password: string, prims: Challenge.Primitives)
    requires '$' !in challenge
    ensures SolveChallenge(challenge, password, prims) == Success(Challenge.Md5Answer(challenge, password, prims))
  {
    Challenge.AnswerDispatch(challenge, password, prims);
  }

  /** The verdict on a decoded login answer: a live session id, or one error whatever the block time. */
  function ClassifySession(info: SessionInfo): (r: Result<string, LegacyError>)
    ensures r.Success? <==> Auth.IsLiveSid(info.sid)
    ensures r.Success? ==> r.value == info.sid
    ensures r.Failure? ==> r.error == SessionWrong
  {
    if info.sid == "" || info.sid == Auth.ZeroSid then Failure(SessionWrong) else Success(info.sid)
  }

  /**
   * `authenticate`: post the answer; a transport error and a non-200 status
   * (with its code) come first; the body is decoded as far as it was read.
   */
  function Authenticate(address: string, answer: string, username: string, send: Transport, xml: Decoder<SessionInfo>)
    : (r: Result<string, LegacyError>)
    ensures var res := send(Auth.LoginRequest(address, answer, username));
      && (r.Success? <==>
            && res.Success? && res.value.status == StatusOK
            && xml(res.value.body).Success? && Auth.IsLiveSid(xml(res.value.body).value.sid))
      && (r.Success? ==> r.value == xml(res.value.body).value.sid)
      && (res.Failure? ==> r == Failure(LoginTransport(res.error)))
      && (res.Success? && res.value.status != StatusOK ==> r == Failure(LoginStatus(res.value.status)))
      && (res.Success? && res.value.status == StatusOK && xml(res.value.body).Failure? ==>
            r == Failure(XmlDecode(xml(res.value.body).error)))
      && ((res.Success? && res.value.status == StatusOK && xml(res.value.body).Success?
           && !Auth.IsLiveSid(xml(res.value.body).value.sid)) ==> r == Failure(SessionWrong))
  {
    var res := send(Auth.LoginRequest(address, answer, username));
    if res.Failure? then Failure(LoginTransport(res.error))
    else if res.value.status != StatusOK then Failure(LoginStatus(res.value.status))
    else match xml(res.value.body)
      case Success(info) => ClassifySession(info)
      case Failure(d) => Failure(XmlDecode(d))
  }

  /** A failed body read changes nothing: whatever was read is decoded. */
  lemma ReadErrorIgnored(address: string, answer: string, username: string, send: Transport, other: Transport,
                         xml: Decoder<SessionInfo>, readError: Option<ReadError>)
    requires var res := send(Auth.LoginRequest(address, answer, username));
      res.Success? && other(Auth.LoginRequest(address, answer, username)) == Success(res.value.(readError := readError))
    ensures Authenticate(address, answer, username, send, xml) == Authenticate(address, answer, username, other, xml)
  {
  }

  /**
   * `AuthWithAddress`: fetch the challenge, solve it, authenticate; no input
   * is checked first. A session that comes back is always live.
   */
  function AuthWithAddress(address: string, username: string, password: string, send: Transport,
                           xml: Decoder<SessionInfo>, prims: Challenge.Primitives): (r: Result<string, LegacyError>)
    ensures r.Success? ==> Auth.IsLiveSid(r.value)
    ensures r.Success? ==> GetChallengeString(address, send, xml).Success?
  {
    match GetChallengeString(address, send, xml)
    case Failure(e) => Failure(e)
    case Success(challenge) =>
      match SolveChallenge(challenge, password, prims)
      case Failure(e) => Failure(e)
      case Success(answer) => Authenticate(address, answer, username, send, xml)
  }

  /** `Auth`: the same against the default address. */
  function AuthDefault(username: string, password: string, send: Transport,
                       xml: Decoder<SessionInfo>, prims: Challenge.Primitives): Result<string, LegacyError>
  {
    AuthWithAddress(Auth.Address, username, password, send, xml, prims)
  }

  /**
   * The steps run in order and the first failure is the result; empty
   * credentials are sent like any others.
   */
  lemma AuthStopsAtFirstFailure(address: string, username: string, password: string, send: Transport,
                                xml: Decoder<SessionInfo>, prims: Challenge.Primitives)
    ensures GetChallengeString(address, send, xml).Failure? ==>
      AuthWithAddress(address, username, password, send, xml, prims) == Failure(GetChallengeString(address, send, xml).error)
    ensures GetChallengeString(address, send, xml).Success? ==>
      var challenge := GetChallengeString(address, send, xml).value;
      && (SolveChallenge(challenge, password, prims).Failure? ==>
            AuthWithAddress(address, username, password, send, xml, prims) == Failure(SolveChallenge(challenge, password, prims).error))
      && (SolveChallenge(challenge, password, prims).Success? ==>
            AuthWithAddress(address, username, password, send, xml, prims)
            == Authenticate(address, SolveChallenge(challenge, password, prims).value, username, send, xml))
  {
  }

  /** `CloseWithAddress`: logged out exactly when the logout POST is answered with 200. */
  function CloseWithAddress(address: string, session: string, send: Transport): (r: Option<LegacyError>)
    ensures var res := send(Auth.LogoutRequest(address, session));
      && (r.None? <==> res.Success? && res.value.status == StatusOK)
      && (r.Some? ==> r.value == LogoutFailed(session, if res.Failure? then Some(res.error) else None))
  {
    var res := send(Auth.LogoutRequest(address, session));
    if res.Failure? then Some(LogoutFailed(session, Some(res.error)))
    else if res.value.status != StatusOK then Some(LogoutFailed(session, None))
    else None
  }

  /** `Close`: logout at the default address. */
  function Close(session: string, send: Transport): Option<LegacyError>
  {
    CloseWithAddress(Auth.Address, session, send)
  }
}

/**
 * The login flow of package auth (auth/login.go): validate the input, fetch
 * the challenge, solve it, post the answer, and classify the session id the
 * device returns; and the logout of a session.
 */
module Auth {
  import opened Wrappers
  import opened Request
  import opened AuthErrors
  import opened Challenge

  const Address: string := "http://fritz.box"
  const LoginPath: string := "login_sid.lua?version=2"

  /** The session id the device returns while nobody is logged in. */
  const ZeroSid: string := "0000000000000000"

  const CooldownMessage: string := "Login failed. Temporary cooldown for new requests is active"

  /** A session id handed out by the device. */
  type Session = string

  datatype User = User(value: string, last: int)

  /** The `<SessionInfo>` document of login_sid.lua. */
  datatype SessionInfo = SessionInfo(sid: string, challenge: string, blockTime: int, rights: string, users: seq<User>)

  /** A session id that names a session: neither empty nor the zero sentinel. */
  predicate IsLiveSid(sid: string)
  {
    sid != "" && sid != ZeroSid
  }

  /** `validateAuthInput`: the first empty field, in the order username, password, address. */
  function ValidateAuthInput(address: string, username: string, password: string): (r: Option<AuthError>)
    ensures r.None? <==> username != "" && password != "" && address != ""
    ensures r == Some(MissingUsername) <==> username == ""
    ensures r == Some(MissingPassword) <==> username != "" && password == ""
    ensures r == Some(MissingAddress) <==> username != "" && password != "" && address == ""
  {
    if username == "" then Some(MissingUsername)
    else if password == "" then Some(MissingPassword)
    else if address == "" then Some(MissingAddress)
    else None
  }

  /** `io.ReadAll` of the body, then `xml.Unmarshal`. */
  function ReadSessionInfo(resp: Response, xml: Decoder<SessionInfo>): (r: Result<SessionInfo, AuthError>)
    ensures r.Success? <==> resp.readError.None? && xml(resp.body).Success?
    ensures r.Success? ==> r.value == xml(resp.body).value
    ensures resp.readError.Some? ==> r == Failure(BodyRead(resp.readError.value))
    ensures resp.readError.None? && xml(resp.body).Failure? ==> r == Failure(XmlDecode(xml(resp.body).error))
  {
    if resp.readError.Some? then Failure(BodyRead(resp.readError.value))
    else match xml(resp.body)
      case Success(info) => Success(info)
      case Failure(d) => Failure(XmlDecode(d))
  }

  /** The GET that fetches a challenge. */
  function ChallengeRequest(address: string): (req: Request)
    ensures req.verb == "GET" && req.url == address + "/" + LoginPath && req.body == NoBody
  {
    GenericGetRequest(Url(address, LoginPath))
  }

  /** A 200 answer that carries the XML content type and a readable, decodable body. */
  predicate Answered(res: Result<Response, TransportError>, mediaType: string, xml: Decoder<SessionInfo>)
  {
    && res.Success? && res.value.status == StatusOK
    && ValidateHeader(mediaType, res.value.header)
    && res.value.readError.None?
    && xml(res.value.body).Success?
  }

  /**
   * `getChallengeString`: the transport error and a non-200 status are
   * checked first, then the content type, then the body.
   */
  function GetChallengeString(address: string, send: Transport, xml: Decoder<SessionInfo>): (r: Result<string, AuthError>)
    ensures var res := send(ChallengeRequest(address));
      && (r.Success? <==> Answered(res, HeaderXML, xml))
      && (r.Success? ==> r.value == xml(res.value.body).value.challenge)
      && (res.Failure? ==> r == Failure(ChallengeFetchFailed(Some(res.error))))
      && (res.Success? && res.value.status != StatusOK ==> r == Failure(ChallengeFetchFailed(None)))
      && (res.Success? && res.value.status == StatusOK && !ValidateHeader(HeaderXML, res.value.header) ==>
            r == Failure(InvalidHeaderContentType))
      && (res.Success? && res.value.status == StatusOK && ValidateHeader(HeaderXML, res.value.header) ==>
            && (res.value.readError.Some? ==> r == Failure(BodyRead(res.value.readError.value)))
            && (res.value.readError.None? && xml(res.value.body).Failure? ==>
                  r == Failure(XmlDecode(xml(res.value.body).error))))
  {
    var res := send(ChallengeRequest(address));
    if res.Failure? then Failure(ChallengeFetchFailed(Some(res.error)))
    else if res.value.status != StatusOK then Failure(ChallengeFetchFailed(None))
    else if !ValidateHeader(HeaderXML, res.value.header) then Failure(InvalidHeaderContentType)
    else match ReadSessionInfo(res.value, xml)
      case Success(info) => Success(info.challenge)
      case Failure(e) => Failure(e)
  }

  /**
   * The device's verdict on a login: a live session id is the session;
   * otherwise a positive block time is a cooldown, anything else an invalid
   * session.
   */
  function ClassifySession(info: SessionInfo): (r: Result<Session, AuthError>)
    ensures r.Success? <==> IsLiveSid(info.sid)
    ensures r.Success? ==> r.value == info.sid
    ensures r.Failure? && info.blockTime > 0 ==> r.error == BlockTime(BlockTimeError(info.blockTime, CooldownMessage))
    ensures r.Failure? && info.blockTime <= 0 ==> r.error == SessionInvalid
  {
    if info.sid == "" || info.sid == ZeroSid then
      if info.blockTime > 0 then Failure(BlockTime(BlockTimeError(info.blockTime, CooldownMessage)))
      else Failure(SessionInvalid)
    else Success(info.sid)
  }

  /** The login form: the user name and the answer, nothing else. */
  function LoginForm(username: string, answer: string): (p: Values)
    ensures p.Keys == {"username", "response"}
    ensures p["username"] == [username] && p["response"] == [answer]
  {
    Set(Set(map[], "username", username), "response", answer)
  }

  /** The login POST: the login form, sent to the login page of the device. */
  function LoginRequest(address: string, answer: string, username: string): (req: Request)
    ensures req.verb == "POST" && req.url == address + "/" + LoginPath
    ensures req.body == Form(LoginForm(username, answer))
  {
    GenericPostRequest(Url(address, LoginPath), LoginForm(username, answer))
  }

  /**
   * `authenticate`: post the answer, read the `SessionInfo`, classify it.
   * Success means a 200 answer whose document holds a live session id.
   */
  function Authenticate(address: string, answer: string, username: string, send: Transport, xml: Decoder<SessionInfo>)
    : (r: Result<Session, AuthError>)
    ensures var res := send(LoginRequest(address, answer, username));
      && (r.Success? <==>
            && res.Success? && res.value.status == StatusOK && res.value.readError.None?
            && xml(res.value.body).Success? && IsLiveSid(xml(res.value.body).value.sid))
      && (r.Success? ==> r.value == xml(res.value.body).value.sid)
      && (res.Failure? ==> r == Failure(LoginFailed(Some(res.error))))
      && (res.Success? && res.value.status != StatusOK ==> r == Failure(LoginFailed(None)))
      && (res.Success? && res.value.status == StatusOK ==>
            && (res.value.readError.Some? ==> r == Failure(BodyRead(res.value.readError.value)))
            && (res.value.readError.None? && xml(res.value.body).Failure? ==>
                  r == Failure(XmlDecode(xml(res.value.body).error)))
            && (res.value.readError.None? && xml(res.value.body).Success? ==>
                  r == ClassifySession(xml(res.value.body).value)))
  {
    var res := send(LoginRequest(address, answer, username));
    if res.Failure? then Failure(LoginFailed(Some(res.error)))
    else if res.value.status != StatusOK then Failure(LoginFailed(None))
    else match ReadSessionInfo(res.value, xml)
      case Success(info) => ClassifySession(info)
      case Failure(e) => Failure(e)
  }

  /**
   * `AuthWithAddress`: validate, fetch the challenge, solve it, authenticate.
   * A session comes back only for complete input, and it is always live.
   */
  function AuthWithAddress(address: string, username: string, password: string, send: Transport,
                           xml: Decoder<SessionInfo>, prims: Primitives): (r: Result<Session, AuthError>)
    ensures r.Success? ==> username != "" && password != "" && address != "" && IsLiveSid(r.value)
    ensures ValidateAuthInput(address, username, password).Some? ==>
      r == Failure(ValidateAuthInput(address, username, password).value)
  {
    match ValidateAuthInput(address, username, password)
    case Some(e) => Failure(e)
    case None =>
      match GetChallengeString(address, send, xml)
      case Failure(e) => Failure(e)
      case Success(challenge) =>
        match Answer(challenge, password, prims)
        case Failure(e) => Failure(e)
        case Success(answer) => Authenticate(address, answer, username, send, xml)
  }

  /** `Auth`: the same against the default address. */
  function AuthDefault(username: string, password: string, send: Transport,
                       xml: Decoder<SessionInfo>, prims: Primitives): Result<Session, AuthError>
  {
    AuthWithAddress(Address, username, password, send, xml, prims)
  }

  /**
   * The steps run in order and the first failure is the result. Invalid
   * input fails the same way whatever the device would answer.
   */
  lemma AuthStopsAtFirstFailure(address: string, username: string, password: string, send: Transport,
                                other: Transport, xml: Decoder<SessionInfo>, prims: Primitives)
    ensures ValidateAuthInput(address, username, password).Some? ==>
      && AuthWithAddress(address, username, password, send, xml, prims)
         == Failure(ValidateAuthInput(address, username, password).value)
      && AuthWithAddress(address, username, password, send, xml, prims)
         == AuthWithAddress(address, username, password, other, xml, prims)
    ensures ValidateAuthInput(address, username, password).None? && GetChallengeString(address, send, xml).Failure? ==>
      AuthWithAddress(address, username, password, send, xml, prims)
      == Failure(GetChallengeString(address, send, xml).error)
    ensures ValidateAuthInput(address, username, password).None? && GetChallengeString(address, send, xml).Success?
            && Answer(GetChallengeString(address, send, xml).value, password, prims).Failure? ==>
      AuthWithAddress(address, username, password, send, xml, prims)
      == Failure(Answer(GetChallengeString(address, send, xml).value, password, prims).error)
    ensures ValidateAuthInput(address, username, password).None? && GetChallengeString(address, send, xml).Success?
            && Answer(GetChallengeString(address, send, xml).value, password, prims).Success? ==>
      AuthWithAddress(address, username, password, send, xml, prims)
      == Authenticate(address, Answer(GetChallengeString(address, send, xml).value, password, prims).value, username, send, xml)
  {
  }

  /**
   * A successful login means: all input was given, the challenge came back
   * in a 200 XML answer, it was solvable, and the device answered the posted
   * solution with a live session id, which is the session.
   */
  lemma AuthSuccessMeans(address: string, username: string, password: string, send: Transport,
                         xml: Decoder<SessionInfo>, prims: Primitives)
    requires AuthWithAddress(address, username, password, send, xml, prims).Success?
    ensures username != "" && password != "" && address != ""
    ensures Answered(send(ChallengeRequest(address)), HeaderXML, xml)
    ensures var challenge := xml(send(ChallengeRequest(address)).value.body).value.challenge;
      && Answer(challenge, password, prims).Success?
      && var res := send(LoginRequest(address, Answer(challenge, password, prims).value, username));
      && res.Success? && res.value.status == StatusOK && res.value.readError.None?
      && xml(res.value.body).Success?
      && IsLiveSid(xml(res.value.body).value.sid)
      && AuthWithAddress(address, username, password, send, xml, prims).value == xml(res.value.body).value.sid
  {
    var challenge := GetChallengeString(address, send, xml).value;
    var answer := Answer(challenge, password, prims).value;
    assert AuthWithAddress(address, username, password, send, xml, prims)
           == Authenticate(address, answer, username, send, xml);
  }

  /** The logout form holds the session id alone. */
  function LogoutForm(session: Session): (p: Values)
    ensures p.Keys == {"logout"} && p["logout"] == [session]
  {
    Set(map[], "logout", session)
  }

  /** The logout POST: the logout form, sent to the login page of the device. */
  function LogoutRequest(address: string, session: Session): (req: Request)
    ensures req.verb == "POST" && req.url == address + "/" + LoginPath
    ensures req.body == Form(LogoutForm(session))
  {
    GenericPostRequest(Url(address, LoginPath), LogoutForm(session))
  }

  /** `Session.CloseWithAddress`: logged out exactly when the device answers 200. */
  function CloseWithAddress(address: string, session: Session, send: Transport): (r: Option<AuthError>)
    ensures var res := send(LogoutRequest(address, session));
      && (r.None? <==> res.Success? && res.value.status == StatusOK)
      && (r.Some? ==> r.value == LogoutFailed(if res.Failure? then Some(res.error) else None))
  {
    var res := send(LogoutRequest(address, session));
    if res.Failure? then Some(LogoutFailed(Some(res.error)))
    else if res.value.status != StatusOK then Some(LogoutFailed(None))
    else None
  }

  /** `Session.Close`: logout at the default address. */
  function Close(session: Session, send: Transport): Option<AuthError>
  {
    CloseWithAddress(Address, session, send)
  }
}

/**
 * The error values of package auth (auth/errors.go and the errors built in
 * auth/login.go): three sentinels, the cooldown error with its wait time,
 * and every other failure the login flow can return, each with the text its
 * `Error()` method prints.
 */
module AuthErrors {
  import opened Wrappers
  import opened Strings
  import opened Decimal
  import opened Hex
  import opened Request

  const SessionInvalidText: string := "login failed, session id is wrong"
  const InvalidHeaderContentTypeText: string := "expected xml content-type, but got something else"
  const UnsupportedChallengeText: string := "cannot solve challenge, input string is not in the expected format"

  /** The device refused the login and asks the client to wait `duration` seconds. */
  datatype BlockTimeError = BlockTimeError(duration: int, message: string)

  const WaitInfix: string := ", please wait "
  const WaitSuffix: string := " seconds"

  /** `fmt.Sprintf("%s, please wait %d seconds", Message, Duration)`. */
  function BlockTimeText(e: BlockTimeError): (t: string)
    ensures |e.message| + |WaitInfix| + |WaitSuffix| <= |t|
    ensures t[..|e.message|] == e.message && t[|t| - |WaitSuffix|..] == WaitSuffix
  {
    e.message + WaitInfix + Format(e.duration) + WaitSuffix
  }

  /**
   * The text keeps the whole message in front and the wait time can be read
   * back from between the fixed infix and suffix.
   */
  lemma BlockTimeTextReadsBack(e: BlockTimeError)
    requires MinInt64 <= e.duration <= MaxInt64
    ensures var t := BlockTimeText(e);
      var start := |e.message| + |WaitInfix|;
      && start + |WaitSuffix| <= |t|
      && t[..|e.message|] == e.message
      && t[|e.message|..start] == WaitInfix
      && t[|t| - |WaitSuffix|..] == WaitSuffix
      && Atoi(t[start..|t| - |WaitSuffix|]) == e.duration
  {
    Pieces(e.message, WaitInfix, Format(e.duration), WaitSuffix);
    AtoiFormat(e.duration);
  }

  /** Every error the auth package returns. */
  datatype AuthError =
    | SessionInvalid
    | InvalidHeaderContentType
    | UnsupportedChallenge
    | BlockTime(blockTime: BlockTimeError)
    | MissingUsername
    | MissingPassword
    | MissingAddress
      /** "couldn't get the challenge, %w", wrapping the transport error or nil. */
    | ChallengeFetchFailed(cause: Option<TransportError>)
      /** "something went wrong, %w": the login POST failed or was not answered with 200. */
    | LoginFailed(cause: Option<TransportError>)
      /** "couldn't close session, %w". */
    | LogoutFailed(cause: Option<TransportError>)
    | BodyRead(readError: ReadError)
    | XmlDecode(decodeError: DecodeError)
    | SaltDecode(hexError: HexError)

  const ChallengeFetchPrefix: string := "couldn't get the challenge, "
  const LoginFailedPrefix: string := "something went wrong, "
  const LogoutFailedPrefix: string := "couldn't close session, "

  /** "prefix, %w": the cause's text after the prefix, or Go's placeholder for a nil cause. */
  function Wrapped(prefix: string, cause: Option<TransportError>): (t: string)
    ensures |prefix| <= |t| && t[..|prefix|] == prefix
    ensures t[|prefix|..] == if cause.Some? then cause.value.reason else "%!w(<nil>)"
  {
    WrapError(prefix, if cause.Some? then cause.value.reason else "", cause.Some?)
  }

  /** The `Error()` text of each error. */
  function Text(e: AuthError): (t: string)
    ensures e.BlockTime? ==> t == BlockTimeText(e.blockTime)
    ensures e.ChallengeFetchFailed? ==> t == Wrapped(ChallengeFetchPrefix, e.cause)
    ensures e.LoginFailed? ==> t == Wrapped(LoginFailedPrefix, e.cause)
    ensures e.LogoutFailed? ==> t == Wrapped(LogoutFailedPrefix, e.cause)
    ensures e.SaltDecode? ==> t == Hex.ErrorText(e.hexError)
  {
    match e
    case SessionInvalid => SessionInvalidText
    case InvalidHeaderContentType => InvalidHeaderContentTypeText
    case UnsupportedChallenge => UnsupportedChallengeText
    case BlockTime(b) => BlockTimeText(b)
    case MissingUsername => "please provide username for authentication"
    case MissingPassword => "please provide password for authentication"
    case MissingAddress => "please provide the address of the target device"
    case ChallengeFetchFailed(c) => Wrapped(ChallengeFetchPrefix, c)
    case LoginFailed(c) => Wrapped(LoginFailedPrefix, c)
    case LogoutFailed(c) => Wrapped(LogoutFailedPrefix, c)
    case BodyRead(r) => r.reason
    case XmlDecode(d) => d.reason
    case SaltDecode(h) => Hex.ErrorText(h)
  }

  /**
   * A status other than 200 arrives without a transport error, so the
   * wrapped error is nil and Go prints its placeholder.
   */
  lemma NilCauseText()
    ensures Text(ChallengeFetchFailed(None)) == ChallengeFetchPrefix + "%!w(<nil>)"
    ensures Text(LoginFailed(None)) == LoginFailedPrefix + "%!w(<nil>)"
    ensures Text(LogoutFailed(None)) == LogoutFailedPrefix + "%!w(<nil>)"
  {
  }
}

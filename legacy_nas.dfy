/**
 * The older NAS client of the root package (nas.go): free functions against
 * the default address, with one path per rename, delete and move, caller
 * parameters for browsing, and a status error that carries the code and the
 * body instead of the device's error record.
 */
module LegacyNas {
  import opened Wrappers
  import opened Bytes
  import opened Decimal
  import opened Request
  import opened NasForms
  import Auth
  import Nas
  import Strings
  import LegacyLogin

  /** Every error of the legacy NAS functions. */
  datatype LegacyNasError =
    | Transport(transportError: TransportError)
    | IncorrectContentType
    | BodyRead(readError: ReadError)
      /** "return status code %d, response: %q". */
    | Status(code: int, body: seq<byte>)
    | Decode(decodeError: DecodeError)
      /** `io.Copy` of the upload source failed. */
    | UploadCopy(copyError: ReadError)

  const StatusPrefix: string := "return status code "
  const ResponseInfix: string := ", response: "

  /** The body as the characters of its bytes. */
  function BodyText(body: seq<byte>): (s: string)
    ensures |s| == |body| && forall i :: 0 <= i < |body| ==> s[i] == body[i] as char
  {
    seq(|body|, i requires 0 <= i < |body| => body[i] as char)
  }

  /** The `Error()` text of each error; a status error ends with the body, quoted. */
  function Text(e: LegacyNasError): (t: string)
    ensures e.IncorrectContentType? ==> t == Nas.Text(Nas.IncorrectContentType)
    ensures e.Status? ==>
      var q := LegacyLogin.Quote(BodyText(e.body));
      && |StatusPrefix| + |q| <= |t| && t[..|StatusPrefix|] == StatusPrefix && t[|t| - |q|..] == q
  {
    assert e.Status? ==> StatusPrefix + Format(e.code) + ResponseInfix + LegacyLogin.Quote(BodyText(e.body))
                         == StatusPrefix + (Format(e.code) + ResponseInfix + LegacyLogin.Quote(BodyText(e.body)));
    match e
    case Transport(t) => t.reason
    case IncorrectContentType => Nas.IncorrectContentTypeText
    case BodyRead(r) => r.reason
    case Status(c, b) => StatusPrefix + Format(c) + ResponseInfix + LegacyLogin.Quote(BodyText(b))
    case Decode(d) => d.reason
    case UploadCopy(r) => r.reason
  }

  /** The status code can be read back from between the fixed prefix and infix of a status error. */
  lemma StatusTextReadsBack(code: int, body: seq<byte>)
    requires MinInt64 <= code <= MaxInt64
    ensures var t := Text(Status(code, body));
      var end := |StatusPrefix| + |Format(code)|;
      && end + |ResponseInfix| <= |t|
      && t[..|StatusPrefix|] == StatusPrefix
      && t[end..end + |ResponseInfix|] == ResponseInfix
      && Atoi(t[|StatusPrefix|..end]) == code
  {
    var t := Text(Status(code, body));
    Strings.Pieces(StatusPrefix, Format(code), ResponseInfix, LegacyLogin.Quote(BodyText(body)));
    assert t[|StatusPrefix|..|StatusPrefix| + |Format(code)|] == Format(code);
    AtoiFormat(code);
  }

  /** An answer that passes the checks a function makes: sent, the content type, read, and the status. */
  predicate Delivered(res: Result<Response, TransportError>, checkHeader: bool, checkStatus: bool)
  {
    && res.Success?
    && (!checkHeader || LegacyLogin.ValidateHeaderKind(LegacyLogin.KindJson, res.value.header))
    && res.value.readError.None?
    && (!checkStatus || res.value.status == StatusOK)
  }

  /**
   * The answer handling shared by the legacy functions: the transport error,
   * the content type where checked, the body read, then the status where
   * checked. What passes hands back the body unchanged.
   */
  function Receive(res: Result<Response, TransportError>, checkHeader: bool, checkStatus: bool)
    : (r: Result<seq<byte>, LegacyNasError>)
    ensures r.Success? <==> Delivered(res, checkHeader, checkStatus)
    ensures r.Success? ==> r.value == res.value.body
    ensures res.Failure? ==> r == Failure(Transport(res.error))
    ensures res.Success? && checkHeader && !LegacyLogin.ValidateHeaderKind(LegacyLogin.KindJson, res.value.header) ==>
      r == Failure(IncorrectContentType)
    ensures res.Success? && (!checkHeader || LegacyLogin.ValidateHeaderKind(LegacyLogin.KindJson, res.value.header)) ==>
      && (res.value.readError.Some? ==> r == Failure(BodyRead(res.value.readError.value)))
      && (res.value.readError.None? && checkStatus && res.value.status != StatusOK ==>
            r == Failure(Status(res.value.status, res.value.body)))
  {
    if res.Failure? then Failure(Transport(res.error))
    else if checkHeader && !LegacyLogin.ValidateHeaderKind(LegacyLogin.KindJson, res.value.header) then
      Failure(IncorrectContentType)
    else if res.value.readError.Some? then Failure(BodyRead(res.value.readError.value))
    else if checkStatus && res.value.status != StatusOK then Failure(Status(res.value.status, res.value.body))
    else Success(res.value.body)
  }

  /** Where the content type is checked, a wrong one fails the call whatever the status. */
  lemma HeaderBeforeStatus(res: Result<Response, TransportError>, status: int)
    requires res.Success? && !LegacyLogin.ValidateHeaderKind(LegacyLogin.KindJson, res.value.header)
    ensures Receive(Success(res.value.(status := status)), true, true) == Failure(IncorrectContentType)
  {
  }

  /** Where the status is not checked, any status is decoded like a 200. */
  lemma UncheckedStatusIgnored(res: Result<Response, TransportError>, status: int)
    requires res.Success?
    ensures Receive(Success(res.value.(status := status)), true, false) == Receive(res, true, false)
  {
  }

  /** What a legacy function that decodes the body it received promises about its result. */
  predicate Answers<T(==)>(r: Result<T, LegacyNasError>, res: Result<Response, TransportError>, checkHeader: bool,
                           checkStatus: bool, json: Decoder<T>)
  {
    && (r.Success? <==> Delivered(res, checkHeader, checkStatus) && json(res.value.body).Success?)
    && (r.Success? ==> r.value == json(res.value.body).value)
    && (!Delivered(res, checkHeader, checkStatus) ==> r == Failure(Receive(res, checkHeader, checkStatus).error))
    && (Delivered(res, checkHeader, checkStatus) && json(res.value.body).Failure? ==>
          r == Failure(Decode(json(res.value.body).error)))
  }

  /** `Receive` followed by `json.Unmarshal` of the body. */
  function Call<T(==)>(res: Result<Response, TransportError>, checkHeader: bool, checkStatus: bool, json: Decoder<T>)
    : (r: Result<T, LegacyNasError>)
    ensures Answers(r, res, checkHeader, checkStatus, json)
  {
    match Receive(res, checkHeader, checkStatus)
    case Failure(e) => Failure(e)
    case Success(body) =>
      match json(body)
      case Success(v) => Success(v)
      case Failure(d) => Failure(Decode(d))
  }

  /** A count out of a decoded answer, or the error. */
  function CountOf<T>(c: Result<T, LegacyNasError>, count: T -> int): Result<int, LegacyNasError>
  {
    if c.Success? then Success(count(c.value)) else Failure(c.error)
  }

  /** The keys a browse starts with. */
  function ListBase(session: Auth.Session): (p: Values)
    ensures p.Keys == {"sid", "sorting", "c", "a"}
    ensures p["sid"] == [session] && p["sorting"] == ["+filename"] && p["c"] == ["files"] && p["a"] == ["browse"]
  {
    Set(Set(Set(Set(map[], "sid", session), "sorting", "+filename"), "c", "files"), "a", "browse")
  }

  /**
   * A form after `Set` of every caller parameter: each parameter replaces
   * whatever the form held under its key, every other key keeps its values.
   */
  function Override(base: Values, params: map<string, string>): (p: Values)
    ensures p.Keys == base.Keys + params.Keys
    ensures forall k :: k in params ==> p[k] == [params[k]]
    ensures forall k :: k in base && k !in params ==> p[k] == base[k]
  {
    map k | k in base.Keys + params.Keys :: if k in params then [params[k]] else base[k]
  }

  /** Without parameters the form is what it was. */
  lemma OverrideNothing(base: Values)
    ensures Override(base, map[]) == base
  {
  }

  /**
   * The loop of `ListDirectoryWithParams`: each caller parameter is `Set` on
   * the form, in whatever order the map yields its keys.
   */
  method ApplyParams(base: Values, params: map<string, string>) returns (p: Values)
    ensures p == Override(base, params)
  {
    p := base;
    var rest := params.Keys;
    OverrideNothing(base);
    assert params - rest == map[];
    while rest != {}
      invariant rest <= params.Keys
      invariant p == Override(base, params - rest)
      decreases |rest|
    {
      var k :| k in rest;
      OverrideStep(base, params, rest, k);
      p := Set(p, k, params[k]);
      rest := rest - {k};
    }
    assert params - rest == params;
  }

  /** One more parameter `Set` on the form. */
  lemma OverrideStep(base: Values, params: map<string, string>, rest: set<string>, k: string)
    requires k in rest && k in params
    ensures Set(Override(base, params - rest), k, params[k]) == Override(base, params - (rest - {k}))
  {
    var q := Set(Override(base, params - rest), k, params[k]);
    var o := Override(base, params - (rest - {k}));
    assert q.Keys == o.Keys;
    forall j | j in q
      ensures q[j] == o[j]
    {
    }
  }

  /**
   * `ListDirectoryWithParams`: the browse keys overridden by the caller's
   * parameters. The content type is checked; the status is not.
   */
  method ListDirectoryWithParams<T(==)>(session: Auth.Session, params: map<string, string>, send: Transport,
                                        json: Decoder<T>) returns (r: Result<T, LegacyNasError>)
    ensures Answers(r, send(GenericPostRequest(Url(Auth.Address, Nas.NasUriPath), Override(ListBase(session), params))),
                    true, false, json)
  {
    var p := ApplyParams(ListBase(session), params);
    r := Call(send(GenericPostRequest(Url(Auth.Address, Nas.NasUriPath), p)), true, false, json);
  }

  /** `ListDirectory`: the browse keys alone. */
  method ListDirectory<T(==)>(session: Auth.Session, send: Transport, json: Decoder<T>) returns (r: Result<T, LegacyNasError>)
    ensures Answers(r, send(GenericPostRequest(Url(Auth.Address, Nas.NasUriPath), ListBase(session))), true, false, json)
  {
    r := ListDirectoryWithParams(session, map[], send, json);
    OverrideNothing(ListBase(session));
  }

  /** `CreateDir`: the same form as the nas package's; the header, then the body, then the status. */
  function CreateDir<T(==)>(session: Auth.Session, name: string, path: string, send: Transport, json: Decoder<T>)
    : (r: Result<T, LegacyNasError>)
    ensures Answers(r, send(GenericPostRequest(Url(Auth.Address, Nas.NasUriPath), Nas.CreateDirForm(session, name, path))),
                    true, true, json)
  {
    Call(send(GenericPostRequest(Url(Auth.Address, Nas.NasUriPath), Nas.CreateDirForm(session, name, path))), true, true, json)
  }

  /** `GetFile`: the same form as the nas package's; no content-type check, a 200 hands back the body. */
  function GetFile(session: Auth.Session, path: string, send: Transport): (r: Result<seq<byte>, LegacyNasError>)
    ensures var res := send(GenericPostRequest(Url(Auth.Address, Nas.NasFileGetPath), Nas.GetFileForm(session, path)));
      && (r.Success? <==> Delivered(res, false, true))
      && (r.Success? ==> r.value == res.value.body)
      && (res.Failure? ==> r == Failure(Transport(res.error)))
      && (res.Success? && res.value.readError.Some? ==> r == Failure(BodyRead(res.value.readError.value)))
      && (res.Success? && res.value.readError.None? && res.value.status != StatusOK ==>
            r == Failure(Status(res.value.status, res.value.body)))
  {
    Receive(send(GenericPostRequest(Url(Auth.Address, Nas.NasFileGetPath), Nas.GetFileForm(session, path))), false, true)
  }

  /** `PutFile`: the same upload as the nas package's, to the default address. */
  function PutFile<T(==)>(session: Auth.Session, path: string, data: Result<seq<byte>, ReadError>, boundary: string,
                          send: Transport, json: Decoder<T>): (r: Result<T, LegacyNasError>)
    ensures data.Failure? ==> r == Failure(UploadCopy(data.error))
    ensures data.Success? ==>
      Answers(r, send(Nas.UploadRequest(Auth.Address, session, path, data.value, boundary)), true, true, json)
  {
    match data
    case Failure(e) => Failure(UploadCopy(e))
    case Success(content) => Call(send(Nas.UploadRequest(Auth.Address, session, path, content, boundary)), true, true, json)
  }

  /** The form of `RenameFile`: the command keys and one pair under index 1. */
  function RenameFileForm(session: Auth.Session, from: string, to: string): (p: Values)
    ensures p.Keys == {"sid", "c", "a", "paths[1][path]", "paths[1][newName]"}
    ensures p["sid"] == [session] && p["c"] == ["files"] && p["a"] == ["rename"]
    ensures p["paths[1][path]"] == [from] && p["paths[1][newName]"] == [to]
  {
    Add(Add(Nas.CommandBase(session, "rename"), "paths[1][path]", from), "paths[1][newName]", to)
  }

  /** The form of `DeleteObject`: the command keys and `paths[1]`. */
  function DeleteForm(session: Auth.Session, path: string): (p: Values)
    ensures p.Keys == {"sid", "c", "a", "paths[1]"}
    ensures p["sid"] == [session] && p["c"] == ["files"] && p["a"] == ["delete"] && p["paths[1]"] == [path]
  {
    Add(Nas.CommandBase(session, "delete"), "paths[1]", path)
  }

  /** The form of `MoveFile`: the command keys, `paths[1]`, then the target. */
  function MoveFileForm(session: Auth.Session, from: string, to: string): (p: Values)
    ensures p.Keys == {"sid", "c", "a", "paths[1]", "target"}
    ensures p["sid"] == [session] && p["c"] == ["files"] && p["a"] == ["move"]
    ensures p["paths[1]"] == [from] && p["target"] == [to]
  {
    Add(Add(Nas.CommandBase(session, "move"), "paths[1]", from), "target", to)
  }

  /** The legacy rename form is the nas package's form for a single input. */
  lemma RenameFormAgrees(session: Auth.Session, from: string, to: string)
    ensures RenameFileForm(session, from, to) == Nas.RenameForm(session, [RenameInput(from, to)])
  {
    var ps := [RenameInput(from, to)];
    assert Format(1) == "1";
    assert RenamePathKey(1) == "paths[1][path]" && RenameNameKey(1) == "paths[1][newName]";
    assert ps[..0] == [];
    var base := Nas.CommandBase(session, "rename");
    assert AddPairs(base, RenamePathKey, RenameNameKey, ps[..0]) == base;
    assert AddPairs(base, RenamePathKey, RenameNameKey, ps)
           == Add(Add(AddPairs(base, RenamePathKey, RenameNameKey, ps[..0]), RenamePathKey(1), from), RenameNameKey(1), to);
  }

  /** The legacy delete form is the nas package's form for a single path. */
  lemma DeleteFormAgrees(session: Auth.Session, path: string)
    ensures DeleteForm(session, path) == Nas.DeleteForm(session, [path])
  {
    assert Format(1) == "1";
    assert PathKey(1) == "paths[1]";
    assert [path][..0] == [];
    var base := Nas.CommandBase(session, "delete");
    assert AddIndexed(base, PathKey, [path][..0]) == base;
    assert AddIndexed(base, PathKey, [path]) == Add(AddIndexed(base, PathKey, [path][..0]), PathKey(1), path);
  }

  /** The legacy move form, target added last, is the nas package's form for a single path. */
  lemma MoveFormAgrees(session: Auth.Session, from: string, to: string)
    ensures MoveFileForm(session, from, to) == Nas.MoveForm(session, to, [from])
  {
    assert Format(1) == "1";
    assert PathKey(1) == "paths[1]";
    assert [from][..0] == [];
    var base := Nas.MoveBase(session, to);
    assert AddIndexed(base, PathKey, [from][..0]) == base;
    assert AddIndexed(base, PathKey, [from]) == Add(AddIndexed(base, PathKey, [from][..0]), PathKey(1), from);
    var p := MoveFileForm(session, from, to);
    var q := Nas.MoveForm(session, to, [from]);
    assert p.Keys == q.Keys;
    forall j | j in p
      ensures p[j] == q[j]
    {
    }
  }

  /** `RenameFile`: one rename; the count the device reports. */
  function RenameFile(session: Auth.Session, from: string, to: string, send: Transport, json: Decoder<Nas.RenameResponse>)
    : (r: Result<int, LegacyNasError>)
    ensures var res := send(GenericPostRequest(Url(Auth.Address, Nas.NasUriPath), RenameFileForm(session, from, to)));
      && (r.Success? <==> Delivered(res, true, true) && json(res.value.body).Success?)
      && (r.Success? ==> r.value == json(res.value.body).value.renameCount)
      && (!Delivered(res, true, true) ==> r == Failure(Receive(res, true, true).error))
      && (Delivered(res, true, true) && json(res.value.body).Failure? ==> r == Failure(Decode(json(res.value.body).error)))
  {
    CountOf(Call(send(GenericPostRequest(Url(Auth.Address, Nas.NasUriPath), RenameFileForm(session, from, to))), true, true, json),
            (v: Nas.RenameResponse) => v.renameCount)
  }

  /** `DeleteObject`: one path; the count the device reports. */
  function DeleteObject(session: Auth.Session, path: string, send: Transport, json: Decoder<Nas.DeleteResponse>)
    : (r: Result<int, LegacyNasError>)
    ensures var res := send(GenericPostRequest(Url(Auth.Address, Nas.NasUriPath), DeleteForm(session, path)));
      && (r.Success? <==> Delivered(res, true, true) && json(res.value.body).Success?)
      && (r.Success? ==> r.value == json(res.value.body).value.deleteCount)
      && (!Delivered(res, true, true) ==> r == Failure(Receive(res, true, true).error))
      && (Delivered(res, true, true) && json(res.value.body).Failure? ==> r == Failure(Decode(json(res.value.body).error)))
  {
    CountOf(Call(send(GenericPostRequest(Url(Auth.Address, Nas.NasUriPath), DeleteForm(session, path))), true, true, json),
            (v: Nas.DeleteResponse) => v.deleteCount)
  }

  /** `MoveFile`: one path to the target; the count the device reports. */
  function MoveFile(session: Auth.Session, from: string, to: string, send: Transport, json: Decoder<Nas.MoveResponse>)
    : (r: Result<int, LegacyNasError>)
    ensures var res := send(GenericPostRequest(Url(Auth.Address, Nas.NasUriPath), MoveFileForm(session, from, to)));
      && (r.Success? <==> Delivered(res, true, true) && json(res.value.body).Success?)
      && (r.Success? ==> r.value == json(res.value.body).value.moveCount)
      && (!Delivered(res, true, true) ==> r == Failure(Receive(res, true, true).error))
      && (Delivered(res, true, true) && json(res.value.body).Failure? ==> r == Failure(Decode(json(res.value.body).error)))
  {
    CountOf(Call(send(GenericPostRequest(Url(Auth.Address, Nas.NasUriPath), MoveFileForm(session, from, to))), true, true, json),
            (v: Nas.MoveResponse) => v.moveCount)
  }
}

/**
 * The NAS client of package nas (nas/nas.go). A `NAS` value holds a session
 * and the device address; each call builds a form, posts it, and classifies
 * the answer: the body on 200, the device's `SystemError` otherwise, after
 * the transport, the content type and the body read have been checked. The
 * calls model the code as it is written, including the nil wrap of a
 * non-200 body that is no error envelope.
 */
module Nas {
  import opened Wrappers
  import opened Bytes
  import opened Strings
  import opened Request
  import opened NasErrors
  import opened NasForms
  import Auth

  const NasUriPath: string := "nas/api/data.lua"
  const NasFileGetPath: string := "nas/cgi-bin/luacgi_notimeout"
  const NasFileUploadPath: string := "nas/cgi-bin/nasupload_notimeout"
  const RootApi: string := "api/data.lua"

  const MultipartContentType: string := "multipart/form-data; boundary="

  /** The records the JSON answers decode to (sizes of the disk and timestamps are not modelled). */
  datatype Directory = Directory(path: string, shared: bool, storageType: string, kind: string, filename: string)

  datatype File = File(path: string, shared: bool, width: int, storageType: string, kind: string,
                       height: int, filename: string, size: int)

  datatype Browse = Browse(path: string, index: int, totalCount: int, finished: bool, mode: string,
                           limit: int, sorting: string)

  datatype BrowseResponse = BrowseResponse(files: seq<File>, directories: seq<Directory>, writeRight: bool, browse: Browse)

  datatype CreateDirResponse = CreateDirResponse(directory: Directory)

  datatype PutFileResponse = PutFileResponse(sid: string, dir: string, filename: string,
                                             successfulUploads: string, resultCode: string)

  const UploadResultFail: string := "0"
  const UploadResultOK: string := "1"
  const ResultCodeOK: string := "0"
  const ResultCodeNoSession: string := "5"
  const ResultCodeDirNotExist: string := "9"

  datatype RenameResponse = RenameResponse(renameCount: int)

  datatype DeleteResponse = DeleteResponse(deleteCount: int)

  datatype MoveResponse = MoveResponse(moveCount: int)

  /** Every error a NAS call returns. */
  datatype NasError =
    | Transport(transportError: TransportError)
    | IncorrectContentType
    | BodyRead(readError: ReadError)
      /** The device's answer to a call it refused, `&e.Err`. */
    | System(systemError: SystemError)
      /** "couldn't unmarshal error response, %w": a non-200 answer whose body is no error envelope. */
    | UnmarshalErrorResponse(cause: Option<DecodeError>)
    | Decode(decodeError: DecodeError)
    | NoParameters
      /** `io.Copy` of the upload source failed. */
    | UploadCopy(copyError: ReadError)

  const IncorrectContentTypeText: string := "incorrect response header content-type received"
  const UnmarshalErrorPrefix: string := "couldn't unmarshal error response, "
  const NoParametersText: string := "no parameters supplied, cannot execute RenameObject command"

  /** The `Error()` text of each error. */
  function Text(e: NasError): (t: string)
    ensures e.System? ==> t == SystemErrorText(e.systemError)
    ensures e.UnmarshalErrorResponse? ==>
      && |UnmarshalErrorPrefix| <= |t| && t[..|UnmarshalErrorPrefix|] == UnmarshalErrorPrefix
      && t[|UnmarshalErrorPrefix|..] == if e.cause.Some? then e.cause.value.reason else "%!w(<nil>)"
    ensures e.IncorrectContentType? ==> t == IncorrectContentTypeText
  {
    match e
    case Transport(t) => t.reason
    case IncorrectContentType => IncorrectContentTypeText
    case BodyRead(r) => r.reason
    case System(s) => SystemErrorText(s)
    case UnmarshalErrorResponse(c) => WrapError(UnmarshalErrorPrefix, if c.Some? then c.value.reason else "", c.Some?)
    case Decode(d) => d.reason
    case NoParameters => NoParametersText
    case UploadCopy(r) => r.reason
  }

  /**
   * The error of a non-200 answer as it was evidently meant: the
   * `SystemError` of the `{"error": ...}` envelope when the envelope decoder
   * succeeds, or else the decode error wrapped.
   */
  function ErrorFromBody(body: seq<byte>, envelope: Decoder<SystemError>): (e: NasError)
    ensures e.System? <==> envelope(body).Success?
    ensures e.System? ==> e.systemError == envelope(body).value
    ensures !e.System? ==> e == UnmarshalErrorResponse(Some(envelope(body).error))
  {
    match envelope(body)
    case Success(s) => System(s)
    case Failure(d) => UnmarshalErrorResponse(Some(d))
  }

  /**
   * The error of a non-200 answer as the code writes it, and as every call
   * below returns it: the wrap takes `err`, the result of the body read,
   * which is nil on this path, instead of the decode error.
   */
  function ErrorFromBodyAsWritten(body: seq<byte>, envelope: Decoder<SystemError>): (e: NasError)
    ensures e.System? <==> envelope(body).Success?
    ensures e.System? ==> e.systemError == envelope(body).value
    ensures !e.System? ==> e == UnmarshalErrorResponse(None)
  {
    match envelope(body)
    case Success(s) => System(s)
    case Failure(_) => UnmarshalErrorResponse(None)
  }

  /**
   * On a body that is no error envelope, the error as written says
   * "%!w(<nil>)" and is the same whatever the decoder reported; the
   * corrected error carries the decoder's reason.
   */
  lemma AsWrittenLosesDecodeError(body: seq<byte>, envelope: Decoder<SystemError>, other: Decoder<SystemError>)
    requires envelope(body).Failure? && other(body).Failure?
    ensures Text(ErrorFromBodyAsWritten(body, envelope)) == UnmarshalErrorPrefix + "%!w(<nil>)"
    ensures ErrorFromBodyAsWritten(body, envelope) == ErrorFromBodyAsWritten(body, other)
    ensures Text(ErrorFromBody(body, envelope)) == UnmarshalErrorPrefix + envelope(body).error.reason
    ensures envelope(body).error != other(body).error ==> ErrorFromBody(body, envelope) != ErrorFromBody(body, other)
  {
  }

  /** Where the envelope decodes, the code as written and the corrected code agree. */
  lemma AsWrittenAgreesOnEnvelope(body: seq<byte>, envelope: Decoder<SystemError>)
    ensures envelope(body).Success? <==> ErrorFromBodyAsWritten(body, envelope) == ErrorFromBody(body, envelope)
  {
  }

  /** An answer that gets past every check: sent, the right content type where checked, read, and 200. */
  predicate Delivered(res: Result<Response, TransportError>, checkHeader: bool)
  {
    && res.Success?
    && (!checkHeader || ValidateHeader(HeaderJSON, res.value.header))
    && res.value.readError.None?
    && res.value.status == StatusOK
  }

  /**
   * `execute` (with the content-type check) and the answer handling of
   * `GetFile` (without it): the transport error, then the content type, then
   * the body read, then the status. A 200 hands back the body unchanged.
   */
  function Receive(res: Result<Response, TransportError>, checkHeader: bool, envelope: Decoder<SystemError>)
    : (r: Result<seq<byte>, NasError>)
    ensures r.Success? <==> Delivered(res, checkHeader)
    ensures r.Success? ==> r.value == res.value.body
    ensures res.Failure? ==> r == Failure(Transport(res.error))
    ensures res.Success? && checkHeader && !ValidateHeader(HeaderJSON, res.value.header) ==>
      r == Failure(IncorrectContentType)
    ensures res.Success? && (!checkHeader || ValidateHeader(HeaderJSON, res.value.header)) ==>
      && (res.value.readError.Some? ==> r == Failure(BodyRead(res.value.readError.value)))
      && (res.value.readError.None? && res.value.status != StatusOK ==>
            r == Failure(ErrorFromBodyAsWritten(res.value.body, envelope)))
  {
    if res.Failure? then Failure(Transport(res.error))
    else if checkHeader && !ValidateHeader(HeaderJSON, res.value.header) then Failure(IncorrectContentType)
    else if res.value.readError.Some? then Failure(BodyRead(res.value.readError.value))
    else if res.value.status != StatusOK then Failure(ErrorFromBodyAsWritten(res.value.body, envelope))
    else Success(res.value.body)
  }

  /** A wrong content type fails the call whatever the status, even a refusal the device explains. */
  lemma HeaderBeforeStatus(res: Result<Response, TransportError>, status: int, envelope: Decoder<SystemError>)
    requires res.Success? && !ValidateHeader(HeaderJSON, res.value.header)
    ensures Receive(Success(res.value.(status := status)), true, envelope) == Failure(IncorrectContentType)
  {
  }

  /** Without the content-type check, the headers of the answer make no difference. */
  lemma UncheckedHeaderIgnored(res: Result<Response, TransportError>, header: Header, envelope: Decoder<SystemError>)
    requires res.Success?
    ensures Receive(Success(res.value.(header := header)), false, envelope) == Receive(res, false, envelope)
  {
  }

  /** What a NAS call that decodes its 200 body promises about its result. */
  predicate Answers<T(==)>(r: Result<T, NasError>, res: Result<Response, TransportError>, checkHeader: bool,
                       envelope: Decoder<SystemError>, json: Decoder<T>)
  {
    && (r.Success? <==> Delivered(res, checkHeader) && json(res.value.body).Success?)
    && (r.Success? ==> r.value == json(res.value.body).value)
    && (!Delivered(res, checkHeader) ==> r == Failure(Receive(res, checkHeader, envelope).error))
    && (Delivered(res, checkHeader) && json(res.value.body).Failure? ==> r == Failure(Decode(json(res.value.body).error)))
  }

  /** `execute` (or the like) followed by `json.Unmarshal` of the returned body. */
  function Call<T(==)>(res: Result<Response, TransportError>, checkHeader: bool, envelope: Decoder<SystemError>, json: Decoder<T>)
    : (r: Result<T, NasError>)
    ensures Answers(r, res, checkHeader, envelope, json)
  {
    match Receive(res, checkHeader, envelope)
    case Failure(e) => Failure(e)
    case Success(body) =>
      match json(body)
      case Success(v) => Success(v)
      case Failure(d) => Failure(Decode(d))
  }

  /** The form of `ListDirectory`: the fixed browse keys, and the path, "/" when none is given. */
  function ListDirectoryForm(session: Auth.Session, path: string): (p: Values)
    ensures p.Keys == {"sid", "sorting", "c", "a", "limit", "path"}
    ensures p["sid"] == [session] && p["sorting"] == ["+filename"] && p["c"] == ["files"]
    ensures p["a"] == ["browse"] && p["limit"] == ["100"]
    ensures path == "" ==> p["path"] == ["/"]
    ensures path != "" ==> p["path"] == [path]
  {
    var p := Set(Set(Set(Set(Set(map[], "sid", session), "sorting", "+filename"), "c", "files"), "a", "browse"), "limit", "100");
    Set(p, "path", if path == "" then "/" else path)
  }

  /** The form of `CreateDir`. */
  function CreateDirForm(session: Auth.Session, name: string, path: string): (p: Values)
    ensures p.Keys == {"sid", "path", "name", "parents", "c", "a"}
    ensures p["sid"] == [session] && p["path"] == [path] && p["name"] == [name]
    ensures p["parents"] == ["false"] && p["c"] == ["files"] && p["a"] == ["create_dir"]
  {
    Set(Set(Set(Set(Set(Set(map[], "sid", session), "path", path), "name", name), "parents", "false"), "c", "files"), "a", "create_dir")
  }

  /** The form of `GetFile`. */
  function GetFileForm(session: Auth.Session, path: string): (p: Values)
    ensures p.Keys == {"sid", "script", "c", "a", "path"}
    ensures p["sid"] == [session] && p["script"] == ["/" + RootApi] && p["c"] == ["files"]
    ensures p["a"] == ["get"] && p["path"] == [path]
  {
    Add(Add(Add(Add(Add(map[], "sid", session), "script", "/" + RootApi), "c", "files"), "a", "get"), "path", path)
  }

  /** The keys every file command starts with: the session, `c=files` and the action. */
  function CommandBase(session: Auth.Session, action: string): (p: Values)
    ensures p.Keys == {"sid", "c", "a"}
    ensures p["sid"] == [session] && p["c"] == ["files"] && p["a"] == [action]
    ensures forall k :: k in p ==> Unindexed(k)
  {
    Add(Add(Add(map[], "sid", session), "c", "files"), "a", action)
  }

  /** The keys `MoveObject` starts with: the command keys and the target. */
  function MoveBase(session: Auth.Session, dest: string): (p: Values)
    ensures p.Keys == {"sid", "c", "a", "target"}
    ensures p["sid"] == [session] && p["c"] == ["files"] && p["a"] == ["move"] && p["target"] == [dest]
    ensures forall k :: k in p ==> Unindexed(k)
  {
    assert "target"[..|PathsPrefix|][0] != PathsPrefix[0];
    Add(CommandBase(session, "move"), "target", dest)
  }

  /** The form of `RenameObject`: the command keys, then input i under the keys of index i, in order. */
  function RenameForm(session: Auth.Session, ps: seq<RenameInput>): (p: Values)
    ensures PairLayout(CommandBase(session, "rename"), RenamePathKey, RenameNameKey, ps, p)
  {
    AddRenames(CommandBase(session, "rename"), ps)
  }

  /** The form of `DeleteObject`: the command keys, then path i under `paths[i]`, in order. */
  function DeleteForm(session: Auth.Session, paths: seq<string>): (p: Values)
    ensures IndexedLayout(CommandBase(session, "delete"), PathKey, paths, p)
  {
    AddPaths(CommandBase(session, "delete"), paths)
  }

  /** The form of `MoveObject`: the command keys and the target, then path i under `paths[i]`, in order. */
  function MoveForm(session: Auth.Session, dest: string, paths: seq<string>): (p: Values)
    ensures IndexedLayout(MoveBase(session, dest), PathKey, paths, p)
  {
    AddPaths(MoveBase(session, dest), paths)
  }

  /**
   * The upload of `PutFile`: a POST of a multipart form with the two fields
   * `sid` and `dir` and one file part `UploadFile` named after the file.
   */
  function UploadRequest(address: string, session: Auth.Session, path: string, content: seq<byte>, boundary: string)
    : (req: Request)
    ensures req.verb == "POST" && req.url == Url(address, NasFileUploadPath)
    ensures HeaderGet(req.header, ContentTypeKey) == MultipartContentType + boundary
    ensures req.body.Multipart? && req.body.fields.Keys == {"sid", "dir"}
    ensures req.body.fields["sid"] == session && req.body.fields["dir"] == SplitRemotePath(path).dir
    ensures req.body.fileField == "UploadFile" && req.body.fileName == SplitRemotePath(path).file
    ensures req.body.content == content
  {
    var target := SplitRemotePath(path);
    Request("POST", Url(address, NasFileUploadPath), map[ContentTypeKey := [MultipartContentType + boundary]],
            Multipart(map["sid" := session, "dir" := target.dir], "UploadFile", target.file, content))
  }

  /** A client of the NAS of one device, for one session. */
  class NAS {
    var session: Auth.Session
    var address: string

    /** `New(s)`: a client for the session, at the default address. */
    constructor (s: Auth.Session)
      ensures session == s && address == Auth.Address
    {
      session := s;
      address := Auth.Address;
    }

    /** `WithAddress`: point the client at another device; the session stays. */
    method WithAddress(addr: string) returns (n: NAS)
      modifies this
      ensures address == addr && session == old(session) && n == this
    {
      address := addr;
      n := this;
    }

    /** `ListDirectory`: browse one directory, the root when no path is given. */
    function ListDirectory(path: string, send: Transport, envelope: Decoder<SystemError>, json: Decoder<BrowseResponse>)
      : (r: Result<BrowseResponse, NasError>)
      reads this
      ensures Answers(r, send(GenericPostRequest(Url(address, NasUriPath), ListDirectoryForm(session, path))), true, envelope, json)
    {
      Call(send(GenericPostRequest(Url(address, NasUriPath), ListDirectoryForm(session, path))), true, envelope, json)
    }

    /** `CreateDir`: create directory `name` inside `path`. */
    function CreateDir(name: string, path: string, send: Transport, envelope: Decoder<SystemError>,
                       json: Decoder<CreateDirResponse>): (r: Result<CreateDirResponse, NasError>)
      reads this
      ensures Answers(r, send(GenericPostRequest(Url(address, NasUriPath), CreateDirForm(session, name, path))), true, envelope, json)
    {
      Call(send(GenericPostRequest(Url(address, NasUriPath), CreateDirForm(session, name, path))), true, envelope, json)
    }

    /**
     * `GetFile`: download one file. The content type is not checked; a 200
     * hands back the body unchanged, any other status the device's error.
     */
    function GetFile(path: string, send: Transport, envelope: Decoder<SystemError>): (r: Result<seq<byte>, NasError>)
      reads this
      ensures var res := send(GenericPostRequest(Url(address, NasFileGetPath), GetFileForm(session, path)));
        && (r.Success? <==> Delivered(res, false))
        && (r.Success? ==> r.value == res.value.body)
        && (res.Failure? ==> r == Failure(Transport(res.error)))
        && (res.Success? && res.value.readError.Some? ==> r == Failure(BodyRead(res.value.readError.value)))
        && (res.Success? && res.value.readError.None? && res.value.status != StatusOK ==>
              r == Failure(ErrorFromBodyAsWritten(res.value.body, envelope)))
    {
      Receive(send(GenericPostRequest(Url(address, NasFileGetPath), GetFileForm(session, path))), false, envelope)
    }

    /**
     * `PutFile`: upload what `data` yields to the remote `path`. A failing
     * source fails the call before anything is sent; the multipart boundary
     * is a parameter.
     */
    function PutFile(path: string, data: Result<seq<byte>, ReadError>, boundary: string, send: Transport,
                     envelope: Decoder<SystemError>, json: Decoder<PutFileResponse>): (r: Result<PutFileResponse, NasError>)
      reads this
      ensures data.Failure? ==> r == Failure(UploadCopy(data.error))
      ensures data.Success? ==>
        Answers(r, send(UploadRequest(address, session, path, data.value, boundary)), true, envelope, json)
    {
      match data
      case Failure(e) => Failure(UploadCopy(e))
      case Success(content) => Call(send(UploadRequest(address, session, path, content, boundary)), true, envelope, json)
    }

    /**
     * `RenameObject`: an empty input fails before any request; otherwise the
     * inputs are added one-based, in order, and the count the device
     * reports is the result.
     */
    method RenameObject(params: seq<RenameInput>, send: Transport, envelope: Decoder<SystemError>,
                        json: Decoder<RenameResponse>) returns (r: Result<int, NasError>)
      ensures |params| == 0 ==> r == Failure(NoParameters)
      ensures |params| > 0 ==>
        var c := Call(send(GenericPostRequest(Url(address, NasUriPath), RenameForm(session, params))), true, envelope, json);
        r == if c.Success? then Success(c.value.renameCount) else Failure(c.error)
    {
      if |params| == 0 {
        return Failure(NoParameters);
      }
      var p := AddRenamesLoop(CommandBase(session, "rename"), params);
      var c := Call(send(GenericPostRequest(Url(address, NasUriPath), p)), true, envelope, json);
      r := if c.Success? then Success(c.value.renameCount) else Failure(c.error);
    }

    /** `DeleteObject`: the paths are added one-based, in order; an empty list is sent as it is. */
    method DeleteObject(paths: seq<string>, send: Transport, envelope: Decoder<SystemError>,
                        json: Decoder<DeleteResponse>) returns (r: Result<int, NasError>)
      ensures var c := Call(send(GenericPostRequest(Url(address, NasUriPath), DeleteForm(session, paths))), true, envelope, json);
        r == if c.Success? then Success(c.value.deleteCount) else Failure(c.error)
    {
      var base := CommandBase(session, "delete");
      var p := AddPathsLoop(base, paths);
      var c := Call(send(GenericPostRequest(Url(address, NasUriPath), p)), true, envelope, json);
      r := if c.Success? then Success(c.value.deleteCount) else Failure(c.error);
    }

    /** `MoveObject`: the target, then the source paths one-based, in order. */
    method MoveObject(dest: string, paths: seq<string>, send: Transport, envelope: Decoder<SystemError>,
                      json: Decoder<MoveResponse>) returns (r: Result<int, NasError>)
      ensures var c := Call(send(GenericPostRequest(Url(address, NasUriPath), MoveForm(session, dest, paths))), true, envelope, json);
        r == if c.Success? then Success(c.value.moveCount) else Failure(c.error)
    {
      var base := MoveBase(session, dest);
      var p := AddPathsLoop(base, paths);
      var c := Call(send(GenericPostRequest(Url(address, NasUriPath), p)), true, envelope, json);
      r := if c.Success? then Success(c.value.moveCount) else Failure(c.error);
    }
  }

  /** The loop of `RenameObject`: input k + 1 is added under `paths[k + 1][path]` and `paths[k + 1][newName]`, one at a time. */
  method AddRenamesLoop(base: Values, ps: seq<RenameInput>) returns (p: Values)
    ensures p == AddRenames(base, ps)
  {
    p := base;
    var k := 0;
    while k < |ps|
      invariant 0 <= k <= |ps|
      invariant p == AddRenames(base, ps[..k])
    {
      assert ps[..k + 1][..k] == ps[..k];
      p := Add(p, RenamePathKey(k + 1), ps[k].from);
      p := Add(p, RenameNameKey(k + 1), ps[k].to);
      k := k + 1;
    }
    assert ps[..k] == ps;
  }

  /** The loop of `DeleteObject` and `MoveObject`: path k + 1 is added under `paths[k + 1]`, one at a time. */
  method AddPathsLoop(base: Values, paths: seq<string>) returns (p: Values)
    ensures p == AddPaths(base, paths)
  {
    p := base;
    var k := 0;
    while k < |paths|
      invariant 0 <= k <= |paths|
      invariant p == AddPaths(base, paths[..k])
    {
      assert paths[..k + 1][..k] == paths[..k];
      p := Add(p, PathKey(k + 1), paths[k]);
      k := k + 1;
    }
    assert paths[..k] == paths;
  }
}

/**
 * The errors of the NAS API (nas/errors.go): the `error` object of a failed
 * call, whose `data` may hold a file-system controller error.
 */
module NasErrors {
  import opened Wrappers
  import opened Bytes
  import opened Decimal
  import opened Request
  import Strings

  /** The `error` object of a failed NAS call; `data` is kept as raw JSON. */
  datatype SystemError = SystemError(message: string, data: Option<seq<byte>>, code: int)

  /** The error reported by the NAS file-system controller. */
  datatype FileSystemControllerError = FileSystemControllerError(message: string, path: string, code: int)

  /** `SystemError.Error()`: the message alone; the data and the code are not printed. */
  function SystemErrorText(e: SystemError): (t: string)
    ensures t == e.message
  {
    e.message
  }

  /**
   * What `json.Unmarshal` leaves behind when it decodes into a pointer
   * variable: the value the pointer was set to (`None` while it is still
   * nil), next to the error it returned. A syntax error or `null` leaves the
   * pointer nil; a type error fills what it can and still reports itself.
   */
  datatype Unmarshalled<T> = Unmarshalled(pointer: Option<T>, error: Option<DecodeError>)

  type PointerDecoder<T> = seq<byte> -> Unmarshalled<T>

  /**
   * An `error` interface value as `Unwrap` can return it: the nil interface,
   * or an interface holding a `*FileSystemControllerError`, which may itself
   * be nil (a typed nil, which compares unequal to nil).
   */
  datatype Cause = NilInterface | Pointer(target: Option<FileSystemControllerError>)

  /**
   * `SystemError.Unwrap()`: the pointer the decoding of `data` left behind,
   * returned as an `error`. The decode error is dropped, so a partly decoded
   * controller error is returned as it stands, and a pointer left nil is
   * still a non-nil interface.
   */
  function Unwrap(e: SystemError, json: PointerDecoder<FileSystemControllerError>): (r: Cause)
    requires e.data.Some?
    ensures r != NilInterface
    ensures r.target == json(e.data.value).pointer
  {
    Pointer(json(e.data.value).pointer)
  }

  /** Whether decoding `data` failed makes no difference to what `Unwrap` returns. */
  lemma UnwrapIgnoresDecodeError(e: SystemError, json: PointerDecoder<FileSystemControllerError>,
                                 other: PointerDecoder<FileSystemControllerError>)
    requires e.data.Some? && json(e.data.value).pointer == other(e.data.value).pointer
    ensures Unwrap(e, json) == Unwrap(e, other)
    ensures json(e.data.value).error.Some? && json(e.data.value).pointer.Some? ==>
      Unwrap(e, json) == Pointer(Some(json(e.data.value).pointer.value))
  {
  }

  const CodeLabel: string := "Code: "
  const PathLabel: string := ", Path: "
  const MsgLabel: string := ", Msg: "

  /** `fmt.Sprintf("Code: %d, Path: %s, Msg: %s", Code, Path, Message)`. */
  function ControllerErrorText(e: FileSystemControllerError): (t: string)
    ensures |CodeLabel| + |MsgLabel| + |e.message| <= |t|
    ensures t[..|CodeLabel|] == CodeLabel && t[|t| - |e.message|..] == e.message
  {
    assert CodeLabel + Format(e.code) + PathLabel + e.path + MsgLabel + e.message
           == CodeLabel + (Format(e.code) + PathLabel + e.path + MsgLabel + e.message);
    CodeLabel + Format(e.code) + PathLabel + e.path + MsgLabel + e.message
  }

  /** The code can be read back from the text, and the message closes it. */
  lemma ControllerErrorTextReadsBack(e: FileSystemControllerError)
    requires MinInt64 <= e.code <= MaxInt64
    ensures var t := ControllerErrorText(e);
      var n := |CodeLabel| + |Format(e.code)|;
      && n <= |t|
      && t[..|CodeLabel|] == CodeLabel
      && Atoi(t[|CodeLabel|..n]) == e.code
      && t[n..n + |PathLabel| + |e.path|] == PathLabel + e.path
      && t[|t| - |e.message|..] == e.message
  {
    var f := Format(e.code);
    var t := ControllerErrorText(e);
    assert t == CodeLabel + f + (PathLabel + e.path) + (MsgLabel + e.message);
    Strings.Pieces(CodeLabel, f, PathLabel + e.path, MsgLabel + e.message);
    assert t[|t| - |e.message|..] == (MsgLabel + e.message)[|MsgLabel|..];
    assert t[|CodeLabel|..|CodeLabel| + |f|] == f;
    AtoiFormat(e.code);
  }

  /**
   * The sample error of the NAS documentation: a 400 whose data names
   * `/Dokumente` with controller code 5.
   */
  lemma SampleError(message: string, inner: string, raw: seq<byte>, json: PointerDecoder<FileSystemControllerError>)
    requires json(raw) == Unmarshalled(Some(FileSystemControllerError(inner, "/Dokumente", 5)), None)
    ensures var e := SystemError(message, Some(raw), 400);
      && SystemErrorText(e) == message
      && Unwrap(e, json) == Pointer(Some(FileSystemControllerError(inner, "/Dokumente", 5)))
      && ControllerErrorText(Unwrap(e, json).target.value) == "Code: " + "5" + ", Path: " + "/Dokumente" + ", Msg: " + inner
  {
    assert Format(5) == "5";
  }
}

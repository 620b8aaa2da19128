/**
 * The request layer (request/request.go) and the parts of Go's `net/http` and
 * `net/url` it hands values through: headers, form values, requests and
 * responses. Sending a request is a parameter of type `Transport`; decoding a
 * JSON or XML body is a parameter of type `Decoder`.
 */
module Request {
  import opened Wrappers
  import opened Bytes

  /** `http.Header`: canonical header name to its values. */
  type Header = map<string, seq<string>>

  /** `h.Get(key)`: the first value stored under `key`, or "" when there is none. */
  function HeaderGet(h: Header, key: string): string
  {
    if key in h && |h[key]| > 0 then h[key][0] else ""
  }

  /** `url.Values`: form key to its values. */
  type Values = map<string, seq<string>>

  /** The values stored under `key` (`p[key]` of a Go map: nil when absent). */
  function ValuesOf(p: Values, key: string): seq<string>
  {
    if key in p then p[key] else []
  }

  /** `p.Set(key, value)`: `key` now holds `value` alone; every other key is untouched. */
  function Set(p: Values, key: string, value: string): (q: Values)
    ensures q.Keys == p.Keys + {key}
    ensures q[key] == [value]
    ensures forall k :: k in p && k != key ==> q[k] == p[k]
  {
    p[key := [value]]
  }

  /** `p.Add(key, value)`: `value` is appended to what `key` held; every other key is untouched. */
  function Add(p: Values, key: string, value: string): (q: Values)
    ensures q.Keys == p.Keys + {key}
    ensures q[key] == ValuesOf(p, key) + [value]
    ensures forall k :: k in p && k != key ==> q[k] == p[k]
  {
    p[key := ValuesOf(p, key) + [value]]
  }

  /**
   * A request body: none, a form (sent `url.Values.Encode`d), or a multipart
   * form with plain fields and one file part.
   */
  datatype Body =
    | NoBody
    | Form(values: Values)
    | Multipart(fields: map<string, string>, fileField: string, fileName: string, content: seq<byte>)

  datatype Request = Request(verb: string, url: string, header: Header, body: Body)

  /** A failure of the HTTP client before any status is seen (connection, DNS, deadline). */
  datatype TransportError = TransportError(reason: string)

  /** A failure of `io.ReadAll` on a response body or an upload source. */
  datatype ReadError = ReadError(reason: string)

  /** A failure of `json.Unmarshal` or `xml.Unmarshal`. */
  datatype DecodeError = DecodeError(reason: string)

  /**
   * A received response: status code, headers, and what `io.ReadAll` of the
   * body returns (the bytes read and the error, if reading failed).
   */
  datatype Response = Response(status: int, header: Header, body: seq<byte>, readError: Option<ReadError>)

  /** The device on the other end of `HttpRequest`. */
  type Transport = Request -> Result<Response, TransportError>

  /** A JSON or XML decoder for one record type. */
  type Decoder<T> = seq<byte> -> Result<T, DecodeError>

  const StatusOK: int := 200
  const ContentTypeKey: string := "Content-Type"
  const FormContentType: string := "application/x-www-form-urlencoded"

  /** The two `ContentType` constants. */
  const HeaderXML: string := "text/xml"
  const HeaderJSON: string := "application/json; charset=utf-8"

  /** `fmt.Sprintf("%s/%s", address, path)`. */
  function Url(address: string, path: string): string
  {
    address + "/" + path
  }

  /** `GenericGetRequestWithContext`: a GET with no body and no headers. */
  function GenericGetRequest(url: string): (r: Request)
    ensures r.verb == "GET" && r.url == url && r.body == NoBody
    ensures HeaderGet(r.header, ContentTypeKey) == ""
  {
    Request("GET", url, map[], NoBody)
  }

  /** `GenericPostRequestWithContext`: a POST whose body is the form, marked form-urlencoded. */
  function GenericPostRequest(url: string, form: Values): (r: Request)
    ensures r.verb == "POST" && r.url == url && r.body == Form(form)
    ensures HeaderGet(r.header, ContentTypeKey) == FormContentType
  {
    Request("POST", url, map[ContentTypeKey := [FormContentType]], Form(form))
  }

  /**
   * `ValidateHeader(ct, h)`: only the two known content types are accepted,
   * and only on an exact match of the response's Content-Type.
   */
  function ValidateHeader(ct: string, h: Header): (ok: bool)
    ensures ok <==> (ct == HeaderXML || ct == HeaderJSON) && HeaderGet(h, ContentTypeKey) == ct
  {
    var expected := if ct == HeaderXML then HeaderXML else if ct == HeaderJSON then HeaderJSON else "";
    expected != "" && HeaderGet(h, ContentTypeKey) == expected
  }

  /** JSON without the charset parameter, and a response without Content-Type, are rejected. */
  lemma ValidateHeaderRejects(h: Header, ct: string)
    ensures HeaderGet(h, ContentTypeKey) == "application/json" ==> !ValidateHeader(HeaderJSON, h)
    ensures ContentTypeKey !in h ==> !ValidateHeader(ct, h)
  {
  }
}

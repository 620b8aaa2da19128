# go-fritzos in Dafny

A model of the core of go-fritzos, a Go client for AVM FRITZ!Box routers. It covers two things:

- **The FRITZ!OS login** (`login_sid.lua?version=2`):
  - fetch a challenge;
  - answer it with the version-1 MD5 rule or the version-2 PBKDF2 rule;
  - post the answer;
  - classify the session id the device returns;
  - log out again.
- **The NAS client** of the device's `data.lua` API:
  - browse, create a directory, download, upload, rename, delete and move;
  - each call builds a form, posts it and classifies the answer.

Both exist twice:

- as the packages `auth`, `nas` and `request`;
- as the older root package (`login.go`, `nas.go`). That package checks some things in a different order and reports errors differently.

Everything outside the program is a parameter of the model:

- The HTTP transport is a function from a request to a response or a transport error. A response is its status, headers and body, plus a possible error while reading the body.
- The XML and JSON decoders are functions from the body bytes to a value or a decode error.
- MD5 and PBKDF2-HMAC-SHA256 are functions in a `Primitives` record.

What the model fixes is everything this program decides about those calls:

- the exact forms and keys it sends;
- the checks it makes, and the order it makes them in;
- which error each failure becomes;
- the answer strings it computes.

Modules, one per file:

| module | file | role |
|---|---|---|
| `Wrappers`, `Bytes` | wrappers.dfy | `Option`, `Result`, `byte`, `uint16` |
| `Strings` | strings.dfy | Go's `strings.Split` and `strings.Join` for a one-character separator |
| `Decimal` | decimal.dfy | `%d`, and `strconv.Atoi` for a 64-bit `int`: its range, byte-by-byte digit and overflow checks, and clamping |
| `Hex` | hex.dfy | `hex.EncodeToString` and `%x`; `hex.DecodeString` with its error order |
| `Unicode` | unicode.dfy | `utf16.Encode`, and the UTF-8 bytes of a Go string |
| `Request` | request.dfy | `url.Values`, requests and responses, `ValidateHeader` |
| `AuthErrors` | auth_errors.dfy | the errors of package `auth` and their texts |
| `Challenge` | challenge.dfy | `solveChallenge` and the MD5 and PBKDF2 answers |
| `Auth` | auth.dfy | the login and logout flow of package `auth` |
| `NasErrors` | nas_errors.dfy | `SystemError` and `FileSystemControllerError` |
| `NasForms` | nas_forms.dfy | the indexed `paths[i]…` form keys, and the remote path split |
| `Nas` | nas.dfy | the `NAS` client of package `nas` |
| `LegacyLogin` | legacy_login.dfy | the login of the root package |
| `LegacyNas` | legacy_nas.dfy | the NAS functions of the root package |

Where the code and its description disagree, the model follows the code:

- The legacy `ListDirectoryWithParams` applies the caller's parameters with `Set` after the fixed keys. A caller key such as `sid` therefore replaces the fixed value rather than being ignored.
- The legacy code sends one indexed path per call, always under index 1.

## Model

| member | source | states |
|---|---|---|
| Request.Set | nas/nas.go:110-115 | `url.Values.Set`: the key ends up with exactly the one value; every other key keeps its values |
| Request.Add | nas/nas.go:171-176 | `url.Values.Add`: the value is appended after those already under the key; every other key is unchanged |
| Request.GenericGetRequest | request/request.go:20-28 | a GET of the URL with no body |
| Request.GenericPostRequest | request/request.go:37-47 | a POST of the form to the URL, with Content-Type `application/x-www-form-urlencoded` |
| Request.ValidateHeader | request/request.go:62-76 | true exactly when the expected type is one of the two known ones and the response's Content-Type equals it exactly |
| Request.ValidateHeaderRejects | request/request.go:62-76 | `application/json` without the charset is refused; a response without Content-Type passes no check |
| Strings.Split | auth/login.go:148 | there is one more piece than separators, and no piece contains the separator |
| Strings.JoinSplit | nas/nas.go:243-245 | joining the pieces of a split with the same separator gives back the input |
| Strings.SplitJoin | auth/login.go:148 | splitting a join of separator-free pieces gives back the pieces |
| Strings.Join | nas/nas.go:245 | one piece joins to itself; a join starts with its first piece |
| Decimal.Atoi | auth/login.go:173 | the value of a parse always lies in the 64-bit range of Go's `int` |
| Decimal.AtoiFormat | auth/errors.go:31-33 | `Atoi` reads back every 64-bit value that `%d` writes |
| Decimal.FormatInjective | nas/nas.go:349 | different numbers have different decimal texts |
| Decimal.AtoiRejectsNonDigit | auth/login.go:173 | a non-digit that is not a leading sign, met within the first 19 bytes, makes the parse fail; with the error dropped, the result is 0 |
| Decimal.AtoiClampsOverflow | auth/login.go:173 | once the leading digits exceed 2^64 - 1 the parse is a range error whatever follows: the result is the largest `int`, or the smallest after a `-` |
| Decimal.AtoiOverflowBeforeLetter | auth/login.go:173 | `99999999999999999999x` reads as the largest `int`, not 0 |
| Decimal.DigitRun | auth/login.go:173 | the leading digits are exactly those before the first non-digit |
| Hex.Encode | auth/login.go:188 | two lower-case hex digits per byte |
| Hex.Decode | auth/login.go:174-183 | succeeds iff the length is even and all characters are hex digits, giving half as many bytes. Otherwise the error is the lead byte of the first non-digit; odd length is reported only when every character is a digit |
| Hex.DecodeEncode | auth/login.go:174 | decoding what was encoded gives the bytes back |
| Hex.EncodeDecode | auth/login_test.go:25-27 | encoding a decoded salt gives the salt in lower case: upper-case salts are accepted |
| Hex.LeadByteIsFirstUtf8Byte | auth/login.go:174 | the byte reported for an invalid character is the first byte of its UTF-8 form |
| Hex.ErrorText | auth/login.go:174-177 | the text starts with `encoding/hex: `; for an invalid byte, the two digits after `U+00` read back as the byte |
| Unicode.EncodeRune | auth/login.go:194 | one UTF-16 unit per character of the basic plane, a surrogate pair otherwise |
| Unicode.Utf16Encode | auth/login.go:194 | one or two units per character |
| Unicode.Utf16RoundTrip | auth/login.go:194 | `utf16.Decode` undoes `utf16.Encode` |
| Unicode.Utf16EncodeAppend | auth/login.go:194 | the UTF-16 encoding of `challenge-password` is that of its parts, concatenated |
| Unicode.Utf8Encode | auth/login.go:185 | one to four bytes per character |
| Unicode.Utf8RoundTrip | auth/login.go:185 | the password's UTF-8 bytes decode back to the password |
| Challenge.LeBytesLayout | auth/login.go:195-199 | the buffer has exactly two bytes per unit: the low byte at 2i, the high byte at 2i+1, no byte order mark and no terminator |
| Challenge.LeBytesRoundTrip | auth/login.go:195-199 | the units can be read back from the buffer |
| Challenge.LeBytes | auth/login.go:195-199 | the byte image has two bytes per unit |
| Challenge.Md5Input | auth/login.go:194-199 | the hashed bytes are two per UTF-16 unit of `challenge-password` |
| Challenge.Md5Answer | auth/login.go:201 | the answer is the challenge, a dash and 32 more characters |
| Challenge.Md5AnswerShape | auth/login.go:201 | after the dash come exactly 32 lower-case hex digits, and they decode to the digest of the hashed bytes |
| Challenge.CalculateMD5Response | auth/login.go:193-202 | the loop fills the buffer with the UTF-16LE bytes of `challenge-password`, and the answer is the challenge, a dash and the hex digest of exactly those bytes. The root package's login.go:171-179 is the same loop |
| Challenge.CalculatePbkdf2Response | auth/login.go:171-189 | succeeds iff both salts decode. salt1's error comes before salt2's. The answer is salt2 verbatim, `$`, and 64 lower-case hex digits. The root package does the same at login.go:149-167 |
| Challenge.Pbkdf2AnswerCarriesKey | auth/login.go:185-188 | the hex after the `$` decodes to key2. key2 is derived from key1 with salt2 and iter2; key1 comes from the password's UTF-8 bytes with salt1 and iter1 |
| Challenge.Pbkdf2Key | auth/login.go:185-186 | the whole answer is salt2, `$`, and this key in hex |
| Challenge.UnparsableIterationIsZero | auth/login.go:173-179 | an iteration count with a non-digit within its first 19 bytes gives the same answer as the count 0 |
| Challenge.OverflowingIterationIsMax | auth/login.go:173-186 | an iteration count whose leading digits overflow 64 bits is the largest `int`, whatever follows, and the first derivation runs that many iterations |
| Challenge.SolveChallenge | auth/login.go:147-165 | the dispatch computes the answer function `Answer` |
| Challenge.Answer | auth/login.go:147-165 | the only failures are the unsupported format and a salt that does not decode |
| Challenge.AnswerDispatch | auth/login.go:147-165 | with no `$` the MD5 answer is returned and nothing fails. Unsupported iff some `$` is present but not five parts led by `"2"`. A salt error arises only on the version-2 path |
| Challenge.Version1Vector | auth/login_test.go:12-21 | the documented sample: `1234567z` with the password `äbc` hashes the 24 UTF-16LE bytes shown, and given the digest the answer is `1234567z-9e224a41eeefa284df7bb0f26c2913e2`. The literal in the test file holds the UTF-8 bytes of `äbc` encoded twice (C3 83 C2 A4 62 63); the digest it expects is that of the documented password |
| Challenge.Version2Vector | auth/login_test.go:23-32 | `2$10000$5A1711$2000$5A1722` splits into its five parts, and its upper-case salts decode. Given the key, the answer is `5A1722$1798a1…9adb` |
| AuthErrors.BlockTimeTextReadsBack | auth/errors.go:31-33 | the cooldown text starts with the message, and the wait time can be read back between `, please wait ` and ` seconds` |
| AuthErrors.NilCauseText | auth/login.go:128-129 | a non-200 answer wraps a nil error, which Go prints as `%!w(<nil>)` |
| AuthErrors.BlockTimeText | auth/errors.go:31-33 | the text starts with the message and ends with ` seconds` |
| AuthErrors.Wrapped | auth/login.go:129 | a `%w` text: the prefix, then the cause's text, or `%!w(<nil>)` for a nil cause |
| AuthErrors.Text | auth/errors.go:14-33 | the three wrapped errors are their prefix wrapping the cause; the cooldown and salt errors print their own text |
| Auth.ValidateAuthInput | auth/login.go:80-94 | nil iff all three fields are given. Otherwise the first empty one is reported, in the order username, password, address |
| Auth.ChallengeRequest | auth/login.go:121-127 | a GET of `address/login_sid.lua?version=2` |
| Auth.GetChallengeString | auth/login.go:121-145 | succeeds iff the answer is 200, text/xml, readable and decodable, with the challenge of the document. Checked in order: a transport error or a non-200 status (the fetch error), the content type, the body read (its error), the decoding (its error) |
| Auth.ClassifySession | auth/login.go:231-242 | a live session id is the session. A dead one (empty or all zeros) is a cooldown with the block time when that is positive, else an invalid session |
| Auth.LoginForm | auth/login.go:207-209 | exactly `username` and `response` |
| Auth.Authenticate | auth/login.go:204-243 | success iff a 200 answer is read, decoded, and holds a live session id, which is the result. A transport error or a non-200 status gives the "something went wrong" error; then a failed read gives its error and a failed decoding its error; a decoded answer gets the verdict of `ClassifySession`, a cooldown or an invalid session for a dead id |
| Auth.AuthStopsAtFirstFailure | auth/login.go:62-78 | the steps run validate, challenge, solve, authenticate: a failed validation, fetch or solve is the result, without any request for a failed validation; when all three succeed the result is `Authenticate`'s, whichever error or session it gives |
| Auth.AuthSuccessMeans | auth/login.go:62-78 | a login succeeds only if every step succeeded, and the session is the id the device returned for the posted answer |
| Auth.AuthWithAddress | auth/login.go:62-78 | a session comes back only for complete input and is always live; invalid input is the validation error |
| Auth.ReadSessionInfo | auth/login.go:136-144 | the document iff the body was read and decodes; otherwise the read error, then the decode error |
| Auth.LoginRequest | auth/login.go:205-214 | a POST of exactly the login form to `address/login_sid.lua?version=2` |
| Auth.LogoutForm | auth/login.go:42-43 | exactly `logout` with the session |
| Auth.LogoutRequest | auth/login.go:41-48 | a POST of exactly the logout form to the login page |
| Auth.CloseWithAddress | auth/login.go:40-54 | nil iff the logout is answered with 200; otherwise the logout error wrapping exactly the transport error, or nil for a non-200 status |
| NasErrors.Unwrap | nas/errors.go:24-28 | the result is never the nil error, and it holds exactly the pointer the decoding of `data` left behind: a partly decoded controller error when decoding stopped on a type error, a typed nil when `data` did not parse or is `null` |
| NasErrors.UnwrapIgnoresDecodeError | nas/errors.go:24-28 | the decode error is dropped: two decodings that leave the same pointer give the same result, and a partial value is returned even though decoding failed |
| NasErrors.SystemErrorText | nas/errors.go:20-22 | the text is the message alone; the data and the code are not printed |
| NasErrors.ControllerErrorText | nas/errors.go:30-31 | the text starts with `Code: ` and ends with the message; the code and path come between |
| NasErrors.ControllerErrorTextReadsBack | nas/errors.go:30-32 | the text starts with `Code: `, and the code reads back from it. `, Path: ` and the path follow, and the message ends the text |
| NasErrors.SampleError | nas/errors_test.go:10-52 | the sample error's text is its message. Its data unwraps to code 5 at `/Dokumente`, printed as `Code: 5, Path: /Dokumente, Msg: …` |
| NasForms.IndexedKeyInjective | nas/nas.go:348-351 | two keys `paths[i]…` are equal only for the same index and suffix |
| NasForms.RenameKeysDistinct | nas/nas.go:348-351 | the keys `paths[i][path]` and `paths[i][newName]` never collide with each other or with a command key |
| NasForms.PathKeysDistinct | nas/nas.go:383-385 | the keys `paths[i]` are distinct and are not command keys |
| NasForms.AddRenames | nas/nas.go:348-351 | on a base without indexed keys: input i ends up under index i, in order (`From` alone under `[path]`, `To` alone under `[newName]`); the base keys are untouched and no other key is added |
| NasForms.AddPaths | nas/nas.go:383-385 | on a base without indexed keys: path i is the only value under `paths[i]` for i = 1..N; the base keys are untouched and no other key is added |
| NasForms.SplitRemotePath | nas/nas.go:242-245 | the file holds no `/`. With a `/`, dir + `/` + file is the path; without one, dir is empty and file is the path. The root package splits the same way at nas.go:253-255 |
| Nas.ErrorFromBody | nas/nas.go:456-467 | the corrected error of a non-200 answer: the envelope's `SystemError` iff the envelope decoder succeeds, otherwise the decode error, wrapped. (In Go any JSON object, `{}` included, decodes as an envelope; which bodies do is the decoder parameter's business) |
| Nas.Text | nas/nas.go:447-467 | a device error prints its message; the unmarshal error prints its prefix and then the cause, or `%!w(<nil>)` for a nil cause |
| Nas.ErrorFromBodyAsWritten | nas/nas.go:461-464 | the same as written, and as every call returns it: the envelope's `SystemError` iff the envelope decodes, otherwise the wrap of a nil cause |
| Nas.AsWrittenLosesDecodeError | nas/nas.go:461-464 | as written, the text is `couldn't unmarshal error response, %!w(<nil>)` whatever the decoder said; corrected, it carries the reason |
| Nas.AsWrittenAgreesOnEnvelope | nas/nas.go:456-467 | the code as written and the corrected code give the same error exactly when the envelope decodes |
| Nas.Receive | nas/nas.go:440-470 | success iff the exchange is sent, has the JSON type (where checked), is read and is 200, with the body unchanged. Checked in that order; a non-200 gives the error of the body as the code writes it, which wraps nil when the body is no envelope |
| Nas.HeaderBeforeStatus | nas/nas.go:446-456 | a wrong content type fails the call whatever the status |
| Nas.UncheckedHeaderIgnored | nas/nas.go:180-191 | without the content-type check, headers make no difference |
| Nas.Call | nas/nas.go:126-134 | the decoded 200 body, or the first failure of the exchange (as `Receive` gives it), or the decode error |
| Nas.ListDirectoryForm | nas/nas.go:110-121 | exactly sid, `sorting=+filename`, `c=files`, `a=browse`, `limit=100` and path. An empty path becomes `/`, any other is kept |
| Nas.CreateDirForm | nas/nas.go:144-150 | exactly sid, path, name, `parents=false`, `c=files`, `a=create_dir` |
| Nas.GetFileForm | nas/nas.go:171-176 | exactly sid, `script=/api/data.lua`, `c=files`, `a=get`, path |
| Nas.CommandBase | nas/nas.go:378-381 | exactly sid, `c=files` and the action, none of them an indexed key |
| Nas.MoveBase | nas/nas.go:411-415 | the command keys for `move` plus `target` |
| Nas.RenameForm | nas/nas.go:343-351 | the command keys, then input i under index i for i = 1..N, in order |
| Nas.DeleteForm | nas/nas.go:378-385 | the command keys, then exactly `paths[1]`..`paths[N]` with the given paths, in order |
| Nas.MoveForm | nas/nas.go:411-419 | the command keys and the target, then exactly `paths[1]`..`paths[N]`, in order |
| Nas.UploadRequest | nas/nas.go:239-280 | a multipart POST with exactly the fields `sid` and `dir`, and one file part `UploadFile` named after the file. The content is sent as given |
| Nas.NAS.constructor | nas/nas.go:32-37 | a client for the session at the default address |
| Nas.NAS.WithAddress | nas/nas.go:39-42 | only the address changes; the same client is returned |
| Nas.NAS.ListDirectory | nas/nas.go:107-135 | the browse form posted to `nas/api/data.lua` at the client's address, its answer handled by `Call` |
| Nas.NAS.CreateDir | nas/nas.go:141-164 | the create form, its answer handled by `Call` |
| Nas.NAS.GetFile | nas/nas.go:168-205 | the 200 body unchanged with no content-type check; a transport error and a failed read give their errors; a non-200 gives the body's error as the code writes it (nas/nas.go:196-199 wraps nil) |
| Nas.NAS.PutFile | nas/nas.go:239-314 | a failing source fails before anything is sent; otherwise the upload's answer is handled by `Call` |
| Nas.NAS.RenameObject | nas/nas.go:336-365 | no inputs fail before any request. Otherwise the reported count of the answer to the rename form, or its error |
| Nas.NAS.DeleteObject | nas/nas.go:375-399 | the count for the delete form, also for no paths |
| Nas.NAS.MoveObject | nas/nas.go:408-437 | the count for the move form |
| Nas.AddRenamesLoop | nas/nas.go:348-351 | the loop adds each input's two keys in turn, which gives the rename fold |
| Nas.AddPathsLoop | nas/nas.go:383-385 | the loop adds each path's key in turn, which gives the path fold |
| LegacyLogin.ValidateHeaderKind | login.go:212-226 | true exactly for the kind `xml` with `text/xml`, or `json` with `application/json; charset=utf-8`; any other kind is false |
| LegacyLogin.StatusTextReadsBack | login.go:104 | the status code reads back from the end of each status error's text |
| LegacyLogin.Text | login.go:58 | the status texts are their prefix and the code; the logout text starts with the session quoted, and then holds the cause or `%!w(<nil>)` |
| LegacyLogin.Quote | login.go:58 | `%q`: quote marks around the text, whose inside unescapes to the string |
| LegacyLogin.UnescapeEscape | login.go:58 | escaping loses nothing: unescaping gives the string back |
| LegacyLogin.GetChallengeString | login.go:96-122 | succeeds iff 200, XML, read and decoded, giving the challenge. Checked in order: the raw transport error, a non-200 with its code, the content type, the body read (its error), the decoding (its error) |
| LegacyLogin.SolveChallenge | login.go:124-143 | succeeds exactly where the `auth` dispatch does, with the same answer; unsupported and salt errors correspond |
| LegacyLogin.SolveWithoutDollar | login.go:130-132 | a challenge without `$` gets the MD5 answer |
| LegacyLogin.ClassifySession | login.go:205-209 | a live id is the session; a dead one is always "login failed", whatever the block time |
| LegacyLogin.Authenticate | login.go:182-210 | success iff the answer is 200 and the body decodes to a live id, whether or not the read completed. A transport error and a non-200 (with its code) come first |
| LegacyLogin.ReadErrorIgnored | login.go:197 | a failed body read changes nothing |
| LegacyLogin.AuthStopsAtFirstFailure | login.go:32-44 | challenge, solve, authenticate; the first failure is the result, and no input is checked first |
| LegacyLogin.AuthWithAddress | login.go:32-44 | a session that comes back is always live, and only after the challenge was fetched |
| LegacyLogin.CloseWithAddress | login.go:51-62 | nil iff the logout is answered with 200; the error names the session and wraps the transport error or nil |
| LegacyNas.StatusTextReadsBack | nas.go:167-168 | the text starts with `return status code `, the code reads back from it, and `, response: ` follows |
| LegacyNas.Text | nas.go:167-168 | a status text starts with `return status code ` and ends with the body quoted; the content-type text is the `nas` package's |
| LegacyNas.Receive | nas.go:157-168 | checked in order: the transport error, the content type (where checked), the read, the status (where checked), with code and body. What passes yields the body unchanged |
| LegacyNas.HeaderBeforeStatus | nas.go:157-168 | a wrong content type fails the call whatever the status |
| LegacyNas.UncheckedStatusIgnored | nas.go:114-132 | where the status is not checked, any status is decoded like a 200 |
| LegacyNas.Call | nas.go:126-132 | the decoded body, or the first failure, or the decode error |
| LegacyNas.ListBase | nas.go:95-99 | exactly sid, `sorting=+filename`, `c=files`, `a=browse` |
| LegacyNas.Override | nas.go:101-105 | each caller parameter replaces the form's values under its key; every other key is kept; nothing else is added |
| LegacyNas.ApplyParams | nas.go:101-105 | the loop over the parameter map, in any order of keys, gives that override |
| LegacyNas.ListDirectoryWithParams | nas.go:92-133 | the overridden browse form, with the content type checked and the status not |
| LegacyNas.ListDirectory | nas.go:87-89 | the browse keys alone |
| LegacyNas.CreateDir | nas.go:139-179 | the `nas` create form; the content type, then the read, then the status |
| LegacyNas.GetFile | nas.go:183-215 | no content-type check. The transport error and a failed read give their errors; a 200 yields the body, any other status the status error with the body |
| LegacyNas.PutFile | nas.go:249-315 | a failing source fails first; otherwise the `nas` upload to the default address, fully checked |
| LegacyNas.RenameFileForm | nas.go:334-339 | exactly sid, `c=files`, `a=rename`, `paths[1][path]` and `paths[1][newName]` |
| LegacyNas.DeleteForm | nas.go:381-385 | exactly sid, `c=files`, `a=delete` and `paths[1]` |
| LegacyNas.MoveFileForm | nas.go:427-432 | exactly sid, `c=files`, `a=move`, `paths[1]` and `target` |
| LegacyNas.RenameFormAgrees | nas.go:334-339 | the legacy rename form is the `nas` rename form for one input |
| LegacyNas.DeleteFormAgrees | nas.go:381-385 | the legacy delete form is the `nas` delete form for one path |
| LegacyNas.MoveFormAgrees | nas.go:427-432 | the legacy move form is the `nas` move form for one path: the order of `target` does not matter |
| LegacyNas.RenameFile | nas.go:331-370 | for the rename form: the count iff the exchange passes every check and decodes; otherwise the first failure of the exchange, or the decode error |
| LegacyNas.DeleteObject | nas.go:378-416 | for the delete form: the count iff the exchange passes every check and decodes; otherwise the first failure of the exchange, or the decode error |
| LegacyNas.MoveFile | nas.go:424-463 | for the move form: the count iff the exchange passes every check and decodes; otherwise the first failure of the exchange, or the decode error |

## Left out

- HTTP itself is not modelled:
  - connections, timeouts and contexts, and closing bodies are out;
  - `http.NewRequestWithContext` failing on a malformed URL is out;
  - the transport is a parameter, and a failed request is its error value.
- The URL encoding of forms and the byte layout of multipart bodies are not modelled. A form is the `url.Values` map; an upload is its fields, file part and content.
- Nas.UploadRequest: the boundary is a parameter. `multipart.Writer` chooses it at random.
- Nas.UploadRequest: `CreateFormFile` cannot fail on an in-memory buffer, so that error path is left out.
- MD5, SHA-256, PBKDF2, XML and JSON decoding are parameters. The file records the decoders produce leave out the disk sizes (floating point) and the timestamps.
- Nas.NAS.RenameObject: on a decode error the source returns the partially decoded count together with the error. The model returns only the error. A nil entry in the `[]*RenameInput` argument makes the source dereference nil at nas/nas.go:349 and panic. The model's inputs are values and cannot be nil.
- Nas.NAS.DeleteObject: it also returns the count decoded so far together with a decode error. The model returns only the error.
- Nas.NAS.MoveObject: a JSON body of `null` leaves the source with a nil pointer that it dereferences, which panics. The model treats every decoded value as present.
- Auth.GetChallengeString: a body that does not decode at all leaves the source's result pointer nil, and reading the challenge from it panics. A body that decodes in part gives the challenge read so far together with the error. The model returns the decode error alone in both cases.
- Nas.NAS.ListDirectory: the source returns `result, err` together. A decode error may come with a partly decoded result, and a JSON body of `null` gives a nil result with no error. The model returns the decode error alone, and a decoded value otherwise.
- Nas.NAS.CreateDir: it also returns `result, err` together, with the same partial and `null` cases. The model returns the decode error alone.
- Nas.NAS.PutFile: it also returns `result, err` together, with the same partial and `null` cases. The model returns the decode error alone.
- LegacyNas.PutFile: it also returns `result, err` together, with the same partial and `null` cases. The model returns the decode error alone.
- LegacyNas.RenameFile: a JSON body of `null` leaves the result pointer nil, and reading the count from it panics. The model treats every decoded value as present.
- LegacyNas.DeleteObject: the same nil dereference on a `null` body is not modelled.
- LegacyNas.MoveFile: the same nil dereference on a `null` body is not modelled.
- NasErrors.Unwrap: a `SystemError` without `data` makes the source dereference a nil pointer and panic. The model requires `data` to be present.
- Go strings are byte strings; the model's are sequences of Unicode scalar values. A password with invalid UTF-8 is therefore not modelled. `[]rune` would turn such bytes into U+FFFD before the UTF-16 encoding, while `[]byte` hands them to PBKDF2 unchanged.
- Challenge.Version1Vector uses the password the comment documents, `äbc`. The literal in the test file is its UTF-8 encoded twice.
- LegacyLogin.Quote: Go's `%q` also escapes non-printable characters. The model escapes only `"` and `\`.
- LegacyNas.Text: the status error's body is read byte by byte as Latin-1 (`BodyText`), where Go reads it as UTF-8 before quoting.
- Auth.AuthDefault, Auth.Close, LegacyLogin.AuthDefault, LegacyLogin.Close: these call the same operation with the default address and state nothing of their own.
- The debug line that `ValidateHeader` writes to the log is output only, and is left out.
- The command-line programs under `example/` and `main.go` are callers, not core.

## Findings

| source | as written | input that shows it | evidently intended | confidence | as-written member | corrected member |
|---|---|---|---|---|---|---|
| nas/nas.go:461-464 | a non-200 answer whose body is no `{"error": …}` envelope wraps `err`, the result of the earlier body read, which is nil on this path. The same code is at nas/nas.go:196-199 and 302-305 | any 500 answer with body `oops`: the error reads `couldn't unmarshal error response, %!w(<nil>)` and the decode error is lost | wrap `errU`, the error of decoding the envelope | not executed | Nas.ErrorFromBodyAsWritten, Nas.AsWrittenLosesDecodeError | Nas.ErrorFromBody |

The calls in `Nas` return the as-written error, as the source does. `Nas.AsWrittenAgreesOnEnvelope` shows the two definitions agree exactly on bodies that are an envelope. On the other bodies only the wrapped cause differs.

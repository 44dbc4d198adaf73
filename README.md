# b2swift core, modelled in Dafny

A model of the sequential logic inside b2swift, a Swift client for the Backblaze B2 object-storage API. The network, JSON and Foundation are not defined here. What is modelled:

- **The session (`Backblaze`)**: two credentials that never change and five optional fields that only `authorize` fills in. Every remote call first checks the fields it needs. If one is missing, the call fails with `unauthenticated` and sends nothing.
- **Authorization**: the `accountId:applicationKey` credential string, the HTTP Basic header (section 2 of RFC 7617) built from its UTF-8 bytes (RFC 3629) in base 64 (section 4 of RFC 4648), and the field writes that follow a decoded reply.
- **Buckets**: the bucket type and its parser with an `allPublic` fallback, the three initialisers, `bucket(named:)` as a first-match search, the upload pipeline (prepare, resolve headers, upload), `setType`, `listFileNames` and `description`.
- **`Data.sha1`**: each digest byte written as two lowercase hex digits, in byte order.
- **`KeyCapability`**: eleven raw values that parse back with no fallback.

A request is a value: method, location (a base URL, the path component appended to it, and a query), header fields, body, and the extra headers of the session configuration. Each operation is a method. It takes as input what the transport would hand to the completion handler: an optional body and an optional error. It returns the request it issued, `None` when its guard refused, together with the result its future would resolve to. Only `authorize` sets session headers; every other request's contract states that it carries none.

Foreign primitives are inputs. `URL(string:)`, percent-encoding and SHA-1 are the fields of `Http.Platform`, which `upload` takes. `authorize` needs only `URL(string:)`, so it takes that one function as its `parseUrl` parameter. The SHA-1 field is typed to return exactly 20 bytes. Each JSON decoder is a partial function `Bytes -> Option<T>` passed to the operation that uses it.

Files: `wrappers.dfy` (Option, Result), `octets.dfy` (bytes), `utf8.dfy`, `base64.dfy`, `digests.dfy`, `keycapability.dfy`, `http.dfy` (errors, requests, completion rule), `responses.dfy` (reply shapes), `buckets.dfy` (value-level bucket logic), `backblaze.dfy` (the `Backblaze` and `Bucket` classes), `authorization.dfy` (`authorize`).

Behaviour of the code as written, kept in the model:
- `authorize` always sends its request, even when the session already holds a token.
- `setType` never writes the bucket's type. It sends b2_update_bucket and drops the reply.
- Only `authorize` and `prepareUpload` turn a reply that does not decode into `malformedResponse`. The other calls let the decoder's own error through (`DecodingFailed`).
- A `URL(string:)` failure on the upload URL is reported as `urlEncodingFailed`, not `urlConstructionFailed`.
- `listBuckets` sends absent filters as JSON `null`. `listFileNames` leaves absent parameters out, and its key is spelled `delimeter`.
- The `hideFile` body is interpolated text with no JSON escaping.

## Model

| member | source | states |
|---|---|---|
| `Http.ErrorDescription` | Sources/b2swift/Backblaze.swift:26-41 | Each case has its own fixed sentence, and the sentence identifies the case again (`ErrorOfDescription`); `Http.SixErrors` states that no two cases share one. |
| `Http.SixErrors` | Sources/b2swift/Backblaze.swift:18-41 | There are exactly six error cases, each listed once, and no two share a description. |
| `Http.Complete` | Sources/b2swift/Backblaze.swift:226-232 | The request succeeds exactly when a body is present, with that body, even if an error is also reported. With no body it fails with the transport's error, or with the fallback (`malformedResponse`) when there is none. |
| `Http.CompletionRulesAgree` | Sources/b2swift/Bucket.swift:195-201 | The upload completion rule differs from the ordinary one only when there is neither a body nor an error: then it fails with `uploadFailed`. |
| `Http.DecodeBody` | Sources/b2swift/Backblaze.swift:204-208 | A failed transfer passes its error through. A body that decodes gives the decoded value. A body that does not decode fails with the given error. |
| `Http.OptionalString` | Sources/b2swift/Backblaze.swift:128-132 | An absent optional is written as JSON `null`, and only then; a present string is written as that JSON string. |
| `Http.Request.AddValue` | Sources/b2swift/Backblaze.swift:92 | Adding a header sets a new field to the value, or appends `,` and the value to an existing field. Every other field stays as it was, and nothing but the headers changes. |
| `Backblaze.Backblaze.constructor` | Sources/b2swift/Backblaze.swift:48-79 | The new session holds exactly the given id and key. The token, both URLs and both part sizes are nil, so every guard refuses. |
| `Backblaze.Backblaze.ApiPost` | Sources/b2swift/Backblaze.swift:88-93 | An authenticated API call is a POST to the path under `apiUrl`, whose only header is `Authorization` set to the stored token verbatim. |
| `Backblaze.Backblaze.CreateBucket` | Sources/b2swift/Backblaze.swift:83-101 | Without `apiUrl` or a token: `unauthenticated` and no request. Otherwise it sends the account id, the name and always `allPrivate`, signed with the token. The bucket it returns mirrors the decoded payload and refers to this session. |
| `Backblaze.Backblaze.ListBuckets` | Sources/b2swift/Backblaze.swift:113-149 | The same gate. The filters are sent as strings or `null`. On success it returns one bucket per decoded payload, in the same order, each copying its payload field for field. |
| `Backblaze.FirstIndexOf` | Sources/b2swift/Backblaze.swift:153 | The index returned holds the name searched for, and no earlier index does. None means that no element has that name. |
| `Backblaze.Backblaze.BucketNamed` | Sources/b2swift/Backblaze.swift:151-158 | It sends the signed b2_list_buckets POST with the name as filter. The result is the bucket built, for this session, from the first listed payload, in list order, whose name equals the search exactly, or none if no payload matches. Failures pass through. |
| `Backblaze.Backblaze.DownloadFile` | Sources/b2swift/Backblaze.swift:169-186 | The gate is `downloadUrl` and the token, not `apiUrl`. It sends a GET with the query `fileId=<id>` and the token header. The result is the raw completion. |
| `Backblaze.Backblaze.HideFile` | Sources/b2swift/Backblaze.swift:192-209 | The gate is `apiUrl` and the token. The body is the UTF-8 of the interpolated `fileName`/`bucketId` text, and the call is signed with the token. The result is the decoded reply. |
| `Authorization.Credentials` | Sources/b2swift/Backblaze+Authorization.swift:30 | The credential string is the account id, then one colon, then the application key. |
| `Authorization.BasicAuthorization` | Sources/b2swift/Backblaze+Authorization.swift:34-38 | The header value is `"Basic "` followed by the base 64 text of the UTF-8 bytes of the credential string. |
| `Authorization.SplitCredentials` | Sources/b2swift/Backblaze+Authorization.swift:30 | If the account id contains no colon, splitting the credential string at its first colon gives back the id and the key. |
| `Authorization.ParseBasicAuthorization` | Sources/b2swift/Backblaze+Authorization.swift:30-38 | Reading the Basic header back (base 64, then UTF-8, then the first colon) recovers exactly the account id and key, for any id without a colon. |
| `Authorization.Authorize` | Sources/b2swift/Backblaze+Authorization.swift:26-66 | It always sends the GET to b2_authorize_account with the Basic header in the session configuration. A failed transfer gives the transport error, and an undecodable reply gives `malformedResponse`; in both cases no field changes. A decoded reply sets the token and both part sizes to the decoded values and the two URLs to their parsed forms, and the result is `true`. The session invariant is kept. |
| `Utf8.Encode` | Sources/b2swift/Backblaze+Authorization.swift:31 | Each character becomes one to four bytes. |
| `Utf8.EncodeAppend` | Sources/b2swift/Backblaze+Authorization.swift:31 | Encoding a concatenation gives the concatenation of the encodings. |
| `Utf8.DecodeEncode` | Sources/b2swift/Backblaze+Authorization.swift:31 | Decoding the UTF-8 of any string gives the string back. |
| `Utf8.EncodeInjective` | Sources/b2swift/Backblaze+Authorization.swift:31 | Different strings have different encodings. |
| `Utf8.EncodeAscii` | Sources/b2swift/Backblaze+Authorization.swift:31 | ASCII text encodes to its own code points, one byte per character. |
| `Base64.Encode` | Sources/b2swift/Backblaze+Authorization.swift:34 | The text has 4·⌈n/3⌉ characters, each from the base 64 alphabet or `=`. |
| `Base64.DecodeEncode` | Sources/b2swift/Backblaze+Authorization.swift:34 | Decoding the base 64 text of any bytes gives the bytes back, with both padded tails. |
| `Base64.EncodeInjective` | Sources/b2swift/Backblaze+Authorization.swift:34 | Different byte strings have different base 64 texts. |
| `Buckets.Parse` | Sources/b2swift/Bucket.swift:32 | `BucketType(rawValue:)` yields a case only for that case's raw value, and none when no raw value matches; `Buckets.InterpretRawValue` shows every raw value parses back. |
| `Buckets.Interpret` | Sources/b2swift/Bucket.swift:31-37 | It returns the case whose raw value is the string, and `allPublic` for any unrecognised string. |
| `Buckets.InterpretRawValue` | Sources/b2swift/Bucket.swift:25-37 | For all four types, parsing and interpreting the raw value give the type back. |
| `Buckets.InterpretExact` | Sources/b2swift/Bucket.swift:31-37 | Interpretation yields a type exactly for its raw value. `allPublic` is also the result for every string that is no raw value. |
| `Backblaze.Bucket.FromText` | Sources/b2swift/Bucket.swift:46-51 | The String initialiser stores the id and name and runs the type through `interpret`. |
| `Backblaze.Bucket.constructor` | Sources/b2swift/Bucket.swift:53-58 | The `BucketType` initialiser stores the type unchanged. |
| `Backblaze.Bucket.FromPayload` | Sources/b2swift/Bucket.swift:60-62 | The payload initialiser copies `bucketId`, `bucketName` and `bucketType` field for field. |
| `Backblaze.Bucket.PrepareUpload` | Sources/b2swift/Bucket.swift:154-183 | Without `apiUrl` or a token: `unauthenticated`, nothing sent. Otherwise a POST of `{bucketId}` signed with the account token. A reply that does not decode is `malformedResponse`, and a transport failure passes through. |
| `Backblaze.Bucket.Upload` | Sources/b2swift/Bucket.swift:101-135 | Unauthenticated: nothing sent. Otherwise the prepare request is a signed POST of `{bucketId}`. A failed prepare: only that request is sent, and its error is the result. A path or URL that fails to encode gives `urlEncodingFailed`. Otherwise a second POST goes to the upload URL and carries the data. Its `Authorization` is the upload token. `Content-Type` is the caller's value or `b2/x-auto`. `X-Bz-Content-Sha1` is the caller's text verbatim or the hex SHA-1 of the data. The result is the upload completion, decoded. |
| `Backblaze.Bucket.SetType` | Sources/b2swift/Bucket.swift:209-223 | Without `apiUrl` or a token it throws `unauthenticated`. Otherwise it sends the bucket id, the raw value of the new type and the account id, signed with the token. It modifies nothing. |
| `Buckets.EncodeListFileNamesRequest` | Sources/b2swift/Bucket.swift:266-269 | The body has a key for each parameter given, holding its value, and no key for an absent one. |
| `Backblaze.Bucket.ListFileNames` | Sources/b2swift/Bucket.swift:248-279 | The same gate. Otherwise a signed POST whose body holds only the given parameters, and the decoded reply. |
| `Buckets.Describe` | Sources/b2swift/Bucket.swift:281-283 | The description is the name, `(id: `, the id, `, type: `, the raw type and `)`, each at its stated position. |
| `Buckets.DescriptionShowsType` | Sources/b2swift/Bucket.swift:281-283 | Whatever the name and id, the bucket type can be read back from the end of the description. |
| `Backblaze.Bucket.Description` | Sources/b2swift/Bucket.swift:281-283 | A bucket's description is exactly `Describe` of its name, id and type: the name, `(id: `, the id, `, type: `, the raw type and `)`. The type can be read back from it. |
| `Digests.Hex` | Sources/b2swift/Data+Digests.swift:14 | The text has two characters per byte, each in `0-9a-f`. |
| `Digests.Sha1Hex` | Sources/b2swift/Data+Digests.swift:12-15 | `data.sha1` has exactly 40 lowercase hex characters. Characters 2i and 2i+1 are the two-digit form of digest byte i, and reading the text back gives the digest of the data. |
| `Digests.HexAppend` | Sources/b2swift/Data+Digests.swift:14 | The output follows byte order: hex(a ++ b) = hex(a) ++ hex(b). |
| `Digests.HexAt` | Sources/b2swift/Data+Digests.swift:14 | Byte i is written as exactly the two zero-padded digits at positions 2i and 2i+1. |
| `Digests.UnhexHex` | Sources/b2swift/Data+Digests.swift:14 | Reading the text back two digits at a time recovers the digest bytes. |
| `Digests.HexInjective` | Sources/b2swift/Data+Digests.swift:14 | Different digests have different hex texts. |
| `KeyCapability.Parse` | Sources/b2swift/KeyCapability.swift:10 | `init?(rawValue:)` yields a case only for that case's raw value, and none when no raw value matches; `ParseRawValue`, `ParseExact` and `ParseUnknown` complete the characterisation. |
| `KeyCapability.ElevenCases` | Sources/b2swift/KeyCapability.swift:10-22 | There are exactly eleven cases, each listed once. |
| `KeyCapability.ParseRawValue` | Sources/b2swift/KeyCapability.swift:10-22 | Parsing a case's raw value gives that case back. |
| `KeyCapability.ParseExact` | Sources/b2swift/KeyCapability.swift:11-21 | Parsing yields a case exactly when the string is that case's raw value. |
| `KeyCapability.RawValuesDistinct` | Sources/b2swift/KeyCapability.swift:11-21 | No two cases share a raw value. |
| `KeyCapability.ParseUnknown` | Sources/b2swift/KeyCapability.swift:10 | Parsing yields none exactly for strings that are no raw value. There is no default case. |

## Left out

- Networking and futures: `URLSession`, data and upload tasks, event loops and promises. A response is an input to each operation, not the outcome of a transfer. The `executeRequest` session configuration appears only as the request's `sessionHeaders`.
- JSON: decoders are partial functions passed in. Encoding the request bodies is assumed to succeed. The body is a map of keys to strings, integers or `null`. The encoder-failure branches (Backblaze.swift:133-135, Bucket.swift:170-172 and 270-272) cannot be reached with these bodies and are not modelled.
- `authorize`'s `malformedRequest` guard (Backblaze+Authorization.swift:31-33): a Dafny string always has a UTF-8 encoding, so the guard is unreachable and not modelled.
- Foundation URL handling: `URL(string:)` and percent-encoding with `.urlQueryAllowed` are `Platform` inputs. `appendingPathComponent` is kept as a location made of a base URL and a path component. The force-unwrapped `URLComponents` steps in `downloadFile` (Backblaze.swift:176-178) are assumed to succeed.
- Header names are compared exactly; Foundation compares them without regard to case.
- `Backblaze.FirstIndexOf`: Swift's `==` on `String` (Backblaze.swift:153) compares by Unicode canonical equivalence, while the model compares scalar by scalar. A listed name `"e\u{301}"` therefore matches the search `"\u{E9}"` in Swift but not here. Dafny has no Unicode normalisation to state the Swift relation with.
- `Backblaze.Backblaze.BucketNamed`: inherits the scalar-exact comparison of `FirstIndexOf`, so it misses a bucket whose name is only canonically equivalent to the one searched for.
- `KeyCapability.Parse`: compares scalar by scalar, while the synthesised `init?(rawValue:)` compares by canonical equivalence; its none case therefore covers spellings Swift accepts.
- `KeyCapability.ParseExact`: the synthesised `init?(rawValue:)` (KeyCapability.swift:10) also compares by canonical equivalence, so Swift accepts spellings the model rejects. For example, `"list\u{212A}eys"` with the Kelvin sign parses to `listKeys`. Both the property and `KeyCapability.Parse` hold only for scalar-exact spellings.
- `KeyCapability.ParseUnknown`: for the same reason, the model's none covers some strings, such as `"list\u{212A}eys"`, that Swift parses. `Buckets.Interpret` is not affected, because none of its raw values has another canonical spelling.
- SHA-1 itself (section 6.1 of FIPS 180-4): an input function that returns 20 bytes.
- `upload(url:)` and `upload(file:)` (Bucket.swift:66-87): they read the file system. A directory URL fails with `uploadFailed` only after probing the disk.
- Integers are unbounded. Swift's `Int` is 64 bits, but part sizes and `maxFileCount` only pass through, so its width never matters here.
- `Utf8.Decode` accepts overlong forms. It is only the inverse used to prove the encoder injective; it is not a validating decoder.
- Dates in the reply shapes are integer milliseconds since 1970.
- `Bucket.backblaze` is an `unowned var` in Swift. Here it is a constant reference, because the code never reassigns it. Lifetime and the retain cycle are not modelled.
- Threads: the session fields are assumed to be accessed by one caller at a time.
- The commented-out calls in Backblaze.swift:240-302 are not live code.

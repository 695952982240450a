# PlateSolver submission client, modelled in Dafny

PlateSolver is an iOS app. It sends a photo of the night sky to the
astrometry.net web service ("nova") and shows the annotated, plate-solved
image. This project models the app's API layer:

- `PlateSolver/API/URLRequestExtension.swift`: the two request-body
  encoders on `URLRequest`.
  - `setFormURLEncoded` is the `application/x-www-form-urlencoded`
    serialiser of section 5.2 of the WHATWG URL Standard. Its allow-list
    is written out by hand.
  - `setMultipartFormData` is a `multipart/form-data` builder, with
    delimiter lines as in section 5.1.1 of RFC 2046 and parts as in
    section 4 of RFC 7578.
- `PlateSolver/API/APIService.swift`: the `APIService` object.
  - It logs in with an API key and stores the session.
  - It uploads an image as a new submission.
  - It polls the submission's status on a timer.
  - It publishes the status, the error state and the result URL.
- `PlateSolver/API/APIModel.swift`: the three decoded reply records,
  modelled as plain datatypes.

The files and modules are:

| file | module | content |
|---|---|---|
| `wrappers.dfy` | `Wrappers` | `Option` and `Outcome` |
| `bytes.dfy` | `Bytes` | bytes as integers 0..255, and the one joiner both bodies use |
| `utf8.dfy` | `Utf8` | UTF-8 encoding of a string |
| `decimal.dfy` | `Decimal` | how Swift writes an `Int` (`"\(subId)"`), and its parse |
| `hex.dfy` | `Hex` | the `%08X` format and its parse |
| `form_urlencoded.dfy` | `FormUrlEncoded` | the form serialiser as pure functions, and the parser of section 5.1 of the WHATWG URL Standard it is proved against |
| `multipart.dfy` | `Multipart` | boundary, part layout, the body as a function, and the body-building loop as a method |
| `url_request.dfy` | `UrlRequest` | the mutable `URLRequest`: URL, method, header fields, body |
| `api_model.dfy` | `ApiModel` | `AuthResponse`, `SubmissionResponse`, `SubmissionStatusResponse`, and `Reply` |
| `api_service.dfy` | `Api` | the `APIService` class, plus the pure transition function `Step` on a snapshot of its fields |

### How `APIService` is modelled

**Each network call is split into two methods.**
- One method issues the request. It makes the field changes the Swift
  method makes before `task.resume()`, and returns the `Request` it would
  send.
- The other method is the completion handler. It takes a `Reply`: no data,
  undecodable data, or a decoded record.

**Each method of the class that changes a field is tied to `Step`.**
- Its `ensures` says that the new `Snapshot()` is
  `Step(old(Snapshot()), event)`.
- `UpdateSubmissionStatus` and `CurrentSubUrl` change no field, so they
  have no event. `UpdateSubmissionStatus` has no `modifies` clause.
- Lemmas about `Run`, a fold of `Step` over any sequence of events, state
  what holds however the replies interleave.

**Where the code and the usual description of the client differ, the model
follows the code:**
- Replies are not tagged with the submission they belong to. A late status
  reply for an older submission marks the current one done
  (`Api.StatusReplyNotMatchedToSubmission`).
- A new upload does not clear the previous result URL, so the URL stays set
  while the new submission is `processing` (`Api.ResultSurvivesNewUpload`).
- The error state is cleared when a login starts, not when it succeeds. A
  failed login sets `unauthorized` but keeps any session stored earlier
  (`Api.FailedLoginKeepsSession`).
- `init` assigns the stored key without logging in, because Swift does not
  run `didSet` during initialisation.
- An empty key `""` counts as a key. `init` does not report `noAPIKey` for a
  stored `""`, and a login sends it like any other key
  (`Api.EmptyKeyIsAKey`).

## Model

| member | source | states |
|---|---|---|
| `FormUrlEncoded.IsUnreserved` | PlateSolver/API/URLRequestExtension.swift:124-130 | The bytes `serialize` leaves as they are: 0x2A, 0x2D-0x2E, 0x30-0x39, 0x41-0x5A, 0x5F and 0x61-0x7A. `SerializeOneByte` and `SerializedAlphabet` state what this means for the output. |
| `FormUrlEncoded.InAllowedSet` | PlateSolver/API/URLRequestExtension.swift:120-136 | `formURLEncodedAllowedCharacters`: the unreserved bytes and the space. `EscapeByte` states that exactly these pass percent-encoding unchanged. |
| `FormUrlEncoded.HexByte` | PlateSolver/API/URLRequestExtension.swift:27 | The hex digit of a percent-escape is itself in the unreserved set. |
| `FormUrlEncoded.EscapeByte` | PlateSolver/API/URLRequestExtension.swift:27 | A byte in the allow-list or a space stays itself. Any other byte becomes `%` followed by two unreserved hex digits. |
| `FormUrlEncoded.PercentEncode` | PlateSolver/API/URLRequestExtension.swift:27 | Every output byte is in the allow-list or is `%`. |
| `FormUrlEncoded.SerializeOneByte` | PlateSolver/API/URLRequestExtension.swift:120-136 | The three cases of `serialize`: a byte of 0x2A, 0x2D-0x2E, 0x30-0x39, 0x41-0x5A, 0x5F or 0x61-0x7A stays itself; a space becomes `+`; any other byte becomes `%XX` in upper-case hex. |
| `FormUrlEncoded.SerializeAppend` | PlateSolver/API/URLRequestExtension.swift:24-29 | `serialize` works byte by byte: the serialisation of a concatenation is the concatenation of the serialisations. |
| `FormUrlEncoded.SerializedAlphabet` | PlateSolver/API/URLRequestExtension.swift:24-29 | A serialised name or value contains only unreserved bytes, `+` and `%`, never `&` or `=`. This is why the joined output can be split again. |
| `FormUrlEncoded.PercentEncodeAppend` | PlateSolver/API/URLRequestExtension.swift:27 | Percent-encoding distributes over concatenation. |
| `FormUrlEncoded.PercentDecodeEncode` | PlateSolver/API/URLRequestExtension.swift:27 | Percent-decoding undoes the percent-encoding with this allow-list. |
| `FormUrlEncoded.DecodeSerialize` | PlateSolver/API/URLRequestExtension.swift:24-29 | Replacing `+` by space and then percent-decoding gives back the UTF-8 bytes that `serialize` started from. |
| `FormUrlEncoded.ReplaceSpaces` | PlateSolver/API/URLRequestExtension.swift:28 | Every space becomes `+`; every other byte is kept in place. |
| `FormUrlEncoded.SerializeBytes` | PlateSolver/API/URLRequestExtension.swift:24-29 | The inner `serialize` on UTF-8 bytes: percent-encoding with the allow-list, then spaces to `+`. Its properties are `SerializeOneByte`, `SerializeAppend`, `SerializedAlphabet` and `DecodeSerialize`. |
| `FormUrlEncoded.Serialize` | PlateSolver/API/URLRequestExtension.swift:24-29 | `serialize` of a string: `SerializeBytes` of its UTF-8 encoding. |
| `FormUrlEncoded.SerializeItem` | PlateSolver/API/URLRequestExtension.swift:33-35 | `name=value` with both sides serialised and a nil value as empty. `ParseSerializedItem` reads it back. |
| `FormUrlEncoded.SerializeItems` | PlateSolver/API/URLRequestExtension.swift:32-35 | One `name=value` sequence per query item, in order. |
| `Bytes.Join` | PlateSolver/API/URLRequestExtension.swift:36 | `joined(separator:)`: the parts with the separator between neighbours. The multipart loop at :70-105 builds the same shape. `JoinStartsWithFirst` and `JoinSplit` are its properties. |
| `Bytes.JoinStartsWithFirst` | PlateSolver/API/URLRequestExtension.swift:36 | A joined string starts with its first part. |
| `Bytes.JoinSplit` | PlateSolver/API/URLRequestExtension.swift:36 | Cutting the parts anywhere cuts the joined string at exactly one separator. |
| `FormUrlEncoded.FormBody` | PlateSolver/API/URLRequestExtension.swift:32-39 | The `httpBody`: the serialised items joined with `&`. `FormRoundTrip` and `FormBodySeparators` are its properties. |
| `FormUrlEncoded.SplitJoin` | PlateSolver/API/URLRequestExtension.swift:36 | Splitting on `&` undoes joining with `&` when no piece contains `&`. |
| `FormUrlEncoded.ParseSerializedItem` | PlateSolver/API/URLRequestExtension.swift:33-35 | A serialised item is never empty, and the parser reads it back as its name and its value, with a missing value read as empty. |
| `FormUrlEncoded.Expected` | PlateSolver/API/URLRequestExtension.swift:33 | What the form parser reads back for each item: the UTF-8 name, and the UTF-8 value or the empty string. |
| `FormUrlEncoded.ParseSequencesSerialized` | PlateSolver/API/URLRequestExtension.swift:32-35 | Parsing the serialised items gives back every item in order. |
| `FormUrlEncoded.FormRoundTrip` | PlateSolver/API/URLRequestExtension.swift:31-36 | The application/x-www-form-urlencoded parser reads the body back as the list of (name, value ?? "") pairs, in order. |
| `FormUrlEncoded.JoinCounts` | PlateSolver/API/URLRequestExtension.swift:36 | Joining n pieces adds n-1 separators and no other byte. |
| `FormUrlEncoded.ItemCounts` | PlateSolver/API/URLRequestExtension.swift:32-35 | The serialised items hold no `&` and exactly one `=` each. |
| `FormUrlEncoded.FormBodySeparators` | PlateSolver/API/URLRequestExtension.swift:32-36 | No items give an empty body. n items give exactly n-1 `&` and n `=`. |
| `UrlRequest.Request.constructor` | PlateSolver/API/APIService.swift:63 | A new `URLRequest` is a GET with no header fields and no body. |
| `UrlRequest.Request.SetValue` | PlateSolver/API/URLRequestExtension.swift:22 | Setting a header field replaces its value and changes nothing else. |
| `UrlRequest.WithAddedValue` | PlateSolver/API/URLRequestExtension.swift:68 | Adding a value to a header field: a new field takes the value; an existing field gets `,` and the value appended; other fields are kept. |
| `UrlRequest.Request.AddValue` | PlateSolver/API/URLRequestExtension.swift:68 | `addValue` changes only the header fields, as `WithAddedValue` says. |
| `UrlRequest.Request.SetFormURLEncoded` | PlateSolver/API/URLRequestExtension.swift:21-44 | The body becomes the serialised form. `Content-Type` is set to `application/x-www-form-urlencoded`. `Content-Length` is set to the decimal byte count of the body. URL and method are kept. |
| `UrlRequest.Request.SetMultipartFormData` | PlateSolver/API/URLRequestExtension.swift:57-111 | With no IANA charset name: throws `characterSetName` and leaves headers and body untouched. Otherwise: adds `multipart/form-data; charset=<cs>; boundary=<b>` to `Content-Type` and sets the body to the multipart body of the parameters. |
| `Multipart.Boundary` | PlateSolver/API/URLRequestExtension.swift:59-60 | 24 dashes and the two random numbers as `%08X` each. `BoundaryShape` is its property. |
| `Multipart.ContentTypeHeader` | PlateSolver/API/URLRequestExtension.swift:66 | `multipart/form-data; charset=<cs>; boundary=<b>`. |
| `Multipart.Content` | PlateSolver/API/URLRequestExtension.swift:95-104 | The content of a part: a `String` in the encoding or nothing when it is not representable, a `Data` as it is, any other value nothing. |
| `Multipart.Part` | PlateSolver/API/URLRequestExtension.swift:78-104 | A part is never empty. Its exact layout per value type is stated by `PartOfText`, `PartOfUnencodableText`, `PartOfBlob` and `PartOfOther`. |
| `Multipart.Body` | PlateSolver/API/URLRequestExtension.swift:70-110 | The `httpBody`: the parts joined with CRLF, then the close delimiter. `BuildBody` computes it, and `BodyFraming` and `PartsSplit` are its properties. |
| `Multipart.OpeningLine` | PlateSolver/API/URLRequestExtension.swift:78 | The delimiter line `--<boundary>` CRLF. `PartOpens` states that every part starts with it. |
| `Multipart.ContentTypeLine` | PlateSolver/API/URLRequestExtension.swift:80-84 | `text/plain` for a `String`, `application/octet-stream` for any other value. `PartOfText`, `PartOfBlob` and `PartOfOther` state it per value type. |
| `Multipart.DispositionLine` | PlateSolver/API/URLRequestExtension.swift:86-90 | `form-data; name="<name>"`, with `filename="SolveMe-<time>"` only for `Data`. `PartOfText` and `PartOfBlob` state it per value type. |
| `Multipart.Terminator` | PlateSolver/API/URLRequestExtension.swift:107 | The close delimiter CRLF `--<boundary>--` CRLF. `BodyFraming` states that the body ends with it. |
| `Multipart.PartList` | PlateSolver/API/URLRequestExtension.swift:73-104 | One part per parameter, in order, each part the layout of `Part`. |
| `Multipart.Parts` | PlateSolver/API/URLRequestExtension.swift:73-76 | The parts with CRLF between neighbours. `PartsSplit` is its property. |
| `Multipart.BoundaryShape` | PlateSolver/API/URLRequestExtension.swift:59-60 | The boundary is 24 dashes followed by 16 upper-case hex digits, and the two 8-digit halves read back as the two random numbers. |
| `Hex.FixedRoundTrip` | PlateSolver/API/URLRequestExtension.swift:60 | `%08X` of a 32-bit number reads back as that number. |
| `Multipart.AppendPart` | PlateSolver/API/URLRequestExtension.swift:78-104 | One turn of the loop appends exactly one part: the opening line, the content type, the disposition, a blank line, and the encoded value. |
| `Multipart.BuildBody` | PlateSolver/API/URLRequestExtension.swift:70-110 | The loop builds the parts separated by CRLF, each part added only after a CRLF when the body is not empty, then the closing delimiter. The result is the body function of the parameters. |
| `Multipart.PartOpens` | PlateSolver/API/URLRequestExtension.swift:78 | Every part starts with `--<boundary>` CRLF. |
| `Multipart.BodyFraming` | PlateSolver/API/URLRequestExtension.swift:70-109 | No parameters give only the closing delimiter. Otherwise the body starts with the first delimiter line. It always ends with CRLF `--<boundary>--` CRLF. |
| `Multipart.PartsSplit` | PlateSolver/API/URLRequestExtension.swift:73-76 | The parts of the first k parameters and of the rest are separated by exactly one CRLF. |
| `Multipart.PartOfText` | PlateSolver/API/URLRequestExtension.swift:80-104 | A string parameter is a `text/plain` part with no filename, whose content is the string in the chosen encoding. |
| `Multipart.PartOfUnencodableText` | PlateSolver/API/URLRequestExtension.swift:95-104 | A string the encoding cannot represent gets its headers but no content, and nothing is thrown. |
| `Multipart.PartOfBlob` | PlateSolver/API/URLRequestExtension.swift:80-104 | A `Data` parameter is an `application/octet-stream` part with filename `SolveMe-<time>`, whose content is the bytes as they are. |
| `Multipart.PartOfOther` | PlateSolver/API/URLRequestExtension.swift:80-104 | A parameter of any other type is an `application/octet-stream` part with no filename and no content. |
| `Api.ApiUrl` | PlateSolver/API/APIService.swift:53-55 | An API URL is the API base followed by the path. |
| `Decimal.NatToDecimal` | PlateSolver/API/URLRequestExtension.swift:42 | `String(contentLength)`: at least one digit, only digits, and a leading `0` only for zero. `NatToDecimalValue` states that the digits read back as the number. |
| `Decimal.IntToDecimal` | PlateSolver/API/APIService.swift:143-179 | `"\(subId)"` and `"\(jobId)"`, as at :143, :162 and :179: a leading `-` exactly for negative numbers. `IntToDecimalRoundTrip` and `IntToDecimalCanonical` are its properties. |
| `Decimal.IntToDecimalCanonical` | PlateSolver/API/APIService.swift:179 | The decimal text of every `Int` is canonical: no leading zeros, and no `-0`. |
| `Hex.Fixed` | PlateSolver/API/URLRequestExtension.swift:60 | `%08X`: exactly the given number of upper-case hex digits. `FixedRoundTrip` states that they read back as the number. |
| `Decimal.IntToDecimalRoundTrip` | PlateSolver/API/APIService.swift:179 | Writing an `Int` in decimal and reading it back gives the same `Int`, negatives included. |
| `Api.APIService.constructor` | PlateSolver/API/APIService.swift:45-51 | With a stored key: the key is taken, there is no error and no login. Without one: the error is `noAPIKey`. Either way the status is `notStarted`, with no submission, no result and no timer. The invariant holds. |
| `Api.Initial` | PlateSolver/API/APIService.swift:45-51 | The fields after `init`. `InitialIsValid` is its property. |
| `Api.StartLogin` | PlateSolver/API/APIService.swift:58-62 | The synchronous part of `login()`: without a key nothing changes; with one the error is cleared. |
| `Api.Step` | PlateSolver/API/APIService.swift:37-164 | One transition per event: setting the key, starting a login, a login reply, starting an upload, an upload reply, a status reply. Every method of `APIService` that changes a field is specified by it, and `StepPreservesInv` is its property. |
| `Api.Run` | PlateSolver/API/APIService.swift:37-164 | The state after a sequence of events, in any interleaving of requests and replies. `RunPreservesInv`, `NeverBackToNotStarted` and `SubIdComesFromUpload` are its properties. |
| `Api.SubmissionStatus.RawValue` | PlateSolver/API/APIService.swift:21-25 | The text shown for each status. `RawValuesDistinct` states that different statuses show different text. |
| `Api.ErrorState.RawValue` | PlateSolver/API/APIService.swift:27-30 | The text shown for each error state. `RawValuesDistinct` states that different errors show different text. |
| `Api.RawValuesDistinct` | PlateSolver/API/APIService.swift:21-30 | Two statuses, or two error states, show the same text exactly when they are equal. |
| `Api.LoginItems` | PlateSolver/API/APIService.swift:65 | The login form: the single item `request-json` with the key's JSON. `IsLoginRequest` and `FormRoundTrip` state what it becomes in the body. |
| `Api.EncodeUtf8` | PlateSolver/API/APIService.swift:104 | `.utf8`, which represents every string. `UploadBodyAccepted` states what this means for the upload. |
| `Api.EmptyKeyIsAKey` | PlateSolver/API/APIService.swift:45-62 | A stored or set empty key is a key: `init` reports no error for it, and a login with it clears the error. |
| `Api.LoginJson` | PlateSolver/API/APIService.swift:65 | `{"apikey": "<key>"}`, with the key not escaped. |
| `Api.UploadJson` | PlateSolver/API/APIService.swift:102 | The `request-json` text of the upload, with the session not escaped. |
| `Api.UploadParams` | PlateSolver/API/APIService.swift:101-104 | The upload's parameters: `request-json` as a `String`, then `file` as `Data`. |
| `Api.SubmissionPath` | PlateSolver/API/APIService.swift:143 | `submissions/<id>` with the id in decimal. |
| `Api.AnnotatedUrl` | PlateSolver/API/APIService.swift:162 | The annotated-display base followed by the job id in decimal. |
| `Utf8.EncodeScalar` | PlateSolver/API/URLRequestExtension.swift:38 | `.data(using: .utf8)` of one character: one to four bytes, the character itself when it is ASCII, and only bytes from 0x80 up otherwise. |
| `Utf8.Encode` | PlateSolver/API/URLRequestExtension.swift:38 | `.data(using: .utf8)`: between one and four bytes per character. `EncodeAppend` is its property. |
| `Api.InitialIsValid` | PlateSolver/API/APIService.swift:45-51 | The state after `init` satisfies the invariant, and reports `noAPIKey` exactly when no key is stored. |
| `Api.APIService.Login` | PlateSolver/API/APIService.swift:57-65 | Without a key: nothing changes and nothing is sent. With a key: the error is cleared and a form-encoded POST of `request-json={"apikey": "<key>"}` to `login` is sent, with both header fields. Submission state is untouched. |
| `Api.IsLoginRequest` | PlateSolver/API/APIService.swift:63-65 | The login request in full: a POST to `login` whose body is the form `request-json={"apikey": "<key>"}`, with `Content-Type` set to the form type and `Content-Length` to the body's length. |
| `Api.LoginRequest` | PlateSolver/API/APIService.swift:63-65 | Builds a fresh request that is exactly the login request for the key. |
| `Api.APIService.SetApiKey` | PlateSolver/API/APIService.swift:37-41 | Assigning the key stores it and logs in with it. With a key it sends the full login request (method, body and both header fields). Clearing the key sends nothing. |
| `Api.APIService.LoginCompleted` | PlateSolver/API/APIService.swift:68-84 | A decoded reply stores its session. No data or an undecodable reply sets `unauthorized` and keeps the stored session. Nothing else changes. |
| `Api.APIService.UploadImage` | PlateSolver/API/APIService.swift:90-107 | The timer is always stopped. Without a stored session it sends the full login request instead, or nothing without a key. Otherwise it sends the full upload request. Status, submission and result are untouched. |
| `Api.IsUploadRequest` | PlateSolver/API/APIService.swift:97-107 | The upload request in full: a POST to `upload`. With a charset name, `Content-Type` names the charset and the same boundary that delimits the body, and the body is the multipart body of the session JSON and the image. When the charset lookup throws, there is neither header nor body. |
| `Api.UploadRequest` | PlateSolver/API/APIService.swift:97-107 | Builds a fresh request that is exactly the upload request. |
| `Api.APIService.UploadCompleted` | PlateSolver/API/APIService.swift:112-132 | A decoded reply makes its id the current and the stored submission, sets `processing` and starts the timer, keeping the old result URL. No data or an undecodable reply changes nothing. |
| `Api.APIService.UpdateSubmissionStatus` | PlateSolver/API/APIService.swift:138-143 | Nothing is sent when there is no submission or its id is 0. Otherwise a GET of `submissions/<id>` is sent, with no header fields and no body. No field changes. |
| `Api.APIService.StatusReceived` | PlateSolver/API/APIService.swift:145-168 | An empty calibration list, no data or an undecodable reply change nothing. Otherwise the timer stops and the status becomes `done`. The result URL becomes the annotated-display URL of the first job id, kept as it was if the first calibration is empty. |
| `Api.APIService.CurrentSubUrl` | PlateSolver/API/APIService.swift:174-180 | No URL exactly when there is no submission. Otherwise the URL is the status base followed by the submission id in canonical decimal (no leading zeros, no `-0`), which reads back as the id. |
| `Api.StepPreservesInv` | PlateSolver/API/APIService.swift:122-163 | Every transition keeps the invariant. The timer held in `timer` runs only while a submission is processing. Before any upload there is no submission, result or timer. The current submission id is the stored one. |
| `Api.RunPreservesInv` | PlateSolver/API/APIService.swift:122-163 | The invariant holds after any sequence of requests and replies. |
| `Api.NeverBackToNotStarted` | PlateSolver/API/APIService.swift:123-160 | Once the status has left `notStarted`, no sequence of events brings it back. |
| `Api.SubIdComesFromUpload` | PlateSolver/API/APIService.swift:122-125 | The submission id only ever changes to the id of a decoded upload reply among the events. |
| `Api.UploadWithoutSessionKeepsSubmission` | PlateSolver/API/APIService.swift:90-95 | An upload with no stored session leaves the submission, status and result as they were. It stops the timer, and clears the error when a key is present. |
| `Api.StatusReplyIdempotent` | PlateSolver/API/APIService.swift:156-164 | Applying the same status reply twice has the same effect as once. |
| `Api.StatusReplyNotMatchedToSubmission` | PlateSolver/API/APIService.swift:145-164 | After two upload replies, a status reply marks the newer submission `done`, using the job id in that reply, whichever submission the reply was for. |
| `Api.ResultSurvivesNewUpload` | PlateSolver/API/APIService.swift:122-126 | A decoded upload reply sets `processing` and keeps the previous result URL. |
| `Multipart.FirstRejection` | PlateSolver/API/URLRequestExtension.swift:52 | No error exactly when every name and every `String` value is representable. Otherwise it is `name` or `value`, never `characterSetName`. |
| `Multipart.DocumentedPart` | PlateSolver/API/URLRequestExtension.swift:48-52 | A part as documented: the layout of `Part`, with the name written in the chosen encoding like the value. `DocumentedPartUtf8` and `NameEncodingDiscrepancy` are its properties. |
| `Multipart.DocumentedBody` | PlateSolver/API/URLRequestExtension.swift:48-52 | The body as documented: the documented parts joined with CRLF, then the close delimiter. `DocumentedBodyUtf8` is its property. |
| `Multipart.CheckedBody` | PlateSolver/API/URLRequestExtension.swift:48-52 | The documented behaviour: rejected exactly when some name or `String` value is not representable. Otherwise it gives the documented body, with every name and every `String` value written in the encoding, and every `String` value present in full. |
| `Multipart.DocumentedPartUtf8` | PlateSolver/API/URLRequestExtension.swift:86-91 | When the encoding writes a name as UTF-8, the documented part is exactly the part the code builds. |
| `Multipart.DocumentedBodyUtf8` | PlateSolver/API/URLRequestExtension.swift:70-110 | When the encoding writes every name as UTF-8, the documented body is exactly the body the code builds. |
| `Multipart.NameEncodingDiscrepancy` | PlateSolver/API/URLRequestExtension.swift:86-91 | As written, a part's name ignores the encoding: two encodings give the same part. As documented, two encodings that write the name differently give different parts. |
| `Multipart.UnencodableValueDiscrepancy` | PlateSolver/API/URLRequestExtension.swift:95-104 | As written, an unrepresentable `String` value gives a part with headers and no content, while the documented check rejects it with `value`. |
| `Api.UploadBodyAccepted` | PlateSolver/API/APIService.swift:101-104 | With UTF-8 the documented check accepts the upload's parameters, and its documented body, names included, is the body the code builds. |
| `Api.FailedLoginKeepsSession` | PlateSolver/API/APIService.swift:69-84 | A failed login sets `unauthorized` and keeps the session stored before. |

## Left out

- Networking: the `URLSession` data tasks are not modelled. Each request is returned instead of sent, and each completion handler is a method that takes the reply.
- Concurrency: `[weak self]`, `DispatchQueue.main.async`, and the login handler writing `errorState` off the main queue are not modelled. Events are applied one at a time in any order, which `Run` covers.
- The repeating `Timer` is the flag `timerActive`. Its firing every 10 seconds is the caller invoking `UpdateSubmissionStatus`. When two upload replies arrive, the first timer is overwritten without being invalidated and goes on firing. The flag does not capture that.
- `UserDefaults` is the `defaults` field, read at `init` and written by the handlers. Persistence across launches is not modelled.
- `JSONDecoder` and the `Codable` conformances of `APIModel.swift` are not modelled. A reply arrives as a `Reply` that is already decoded or marked undecodable.
- Swift `Int` is modelled as an unbounded integer. Ids outside 64 bits would not decode, which a `Reply` expresses as `Undecodable`.
- `URL(string:)` and its force-unwrap are not modelled. URLs are strings, and every URL the service builds is well formed.
- HTTP header names are case-insensitive in `URLRequest`. The model keys headers by exact name, which is how the code spells them.
- Order of a `[String: Any]` dictionary: `Multipart.BuildBody` takes the parameters as an ordered sequence. `Api.UploadParams` uses the order of the dictionary literal, while Swift iterates in an unspecified order.
- `Date()` is read once per `Data` parameter. The model passes one time stamp, given as text, for all parts; the upload has only one `Data` part.
- The platform lookups and randomness are parameters of the methods, not modelled in themselves:
  - `CFStringConvertEncodingToIANACharSetName` becomes the `charset` parameter;
  - `UInt32.random` becomes the `r1` and `r2` parameters;
  - the string encoding becomes an `Encoder` function.
- Unpaired UTF-16 surrogates, the force-unwrap's documented failure, cannot occur in Dafny strings and are not modelled.
- `MultipartFormDataEncodingError.name` and `.value` are never thrown by the code. The request methods follow the code; the documented check is modelled separately (see Findings).
- `FormUrlEncoded.Parse` stops at bytes. The UTF-8 decoding step of section 5.1 of the WHATWG URL Standard is not part of this model.
- `print` logging is not modelled.
- The `@Published` change notifications and the SwiftUI views (`ContentView.swift`, `SettingsView.swift`, `ResultView.swift` and the capture views) are not part of this model.

## Findings

| source | as written | input that shows it | evidently intended | confidence | as-written member | corrected member |
|---|---|---|---|---|---|---|
| PlateSolver/API/URLRequestExtension.swift:52-104 | The documentation says `setMultipartFormData` throws `MultipartFormDataEncodingError` when a key or value is not in `encoding`. The code never checks: names are always written as UTF-8 (:86-91), and a `String` value the encoding cannot represent is silently left out of its part (:97, :102). | The encoding `.ascii` and the parameter `("note", "café")`: the part has its headers and no content, and nothing is thrown. | Throw `.value("café", name: "note")`, or `.name(key)` for an unrepresentable key. Write every name, like every value, in `encoding` (:50); `Multipart.NameEncodingDiscrepancy` shows the code does not. | not executed; the intent is read from the documentation comment | `Multipart.UnencodableValueDiscrepancy` | `Multipart.CheckedBody` |

The app calls `setMultipartFormData` only with UTF-8, which represents every
string. `Api.UploadBodyAccepted` proves that the corrected check then accepts
the upload, and that its body, names written in UTF-8 included, is the body
the code builds. So the model of `APIService` uses the body as the code builds
it.

/** `OwoClient`: endpoint construction, the upload and shorten requests it builds,
    the classification of the provider's reply, the URIs it returns, and `Dispose`.
    The HTTP transport (sending, reading the body, JSON binding, `UriBuilder`'s
    parsing of a reply) is a function parameter `transport`; `System.Random` is the
    sequence of values it returned (`draws`). */
module Client {
  import opened Wrappers
  import opened Exceptions
  import opened Uris
  import opened Responses
  import opened Configuration
  import Extensions
  import Base64

  const PomfUpload: string := "/upload/pomf"
  const PolrShorten: string := "/shorten/polr"

  /** 80 MiB, the largest payload the client sends. */
  const MaxUploadLength: int := 80 * 1024 * 1024

  const LengthMessage: string := "The data needs to be less than 80MiB and greather than 0B long."

  const PartName: string := "files[]"
  const BoundaryPrefix: string := "---upload-"
  const BoundarySuffix: string := "---"

  // ---------------------------------------------------------------------------
  // Client state and its construction

  /** The get-only properties the constructor computes. */
  datatype ClientState = ClientState(
    configuration: OwoConfiguration,
    apiKey: Option<string>,
    apiBaseUri: Uri,
    uploadEndpoint: Uri,
    shortenEndpoint: Uri,
    useProxy: bool)

  /** The constructor: copy the configuration, then replace the API base URI's path
      by the two fixed endpoint paths. A null `ApiBaseUri` makes `UriBuilder` throw. */
  function Construct(config: OwoConfiguration): (r: Result<ClientState, Exception>)
    ensures r.Failure? <==> config.apiBaseUri.None?
    ensures r.Failure? ==> r.error == ArgumentNullException
    ensures r.Success? ==>
      var s, base := r.value, config.apiBaseUri.value;
      && s.configuration == Copy(config) && s.apiKey == config.apiKey && s.apiBaseUri == base
      && s.uploadEndpoint.path == PomfUpload && s.shortenEndpoint.path == PolrShorten
      && s.uploadEndpoint.(path := base.path) == base && s.shortenEndpoint.(path := base.path) == base
      && (s.useProxy <==> config.proxySettings.Some?)
  {
    var c := Copy(config);
    match c.apiBaseUri
    case None => Failure(ArgumentNullException)
    case Some(base) =>
      Success(ClientState(c, c.apiKey, base, base.WithPath(PomfUpload), base.WithPath(PolrShorten), c.proxySettings.Some?))
  }

  /** The constructor AS WRITTEN, on the as-written copy: the copy throws
      `NullReferenceException` for a null proxy before `UriBuilder` sees the base URI. */
  function ConstructAsWritten(config: OwoConfiguration): (r: Result<ClientState, Exception>)
    ensures r.Failure? <==> config.proxySettings.None? || config.apiBaseUri.None?
    ensures config.proxySettings.None? ==> r == Failure(NullReferenceException)
    ensures config.proxySettings.Some? && config.apiBaseUri.None? ==> r == Failure(ArgumentNullException)
    ensures r.Success? ==> r.value.useProxy
  {
    match CopyAsWritten(config)
    case Failure(e) => Failure(e)
    case Success(c) =>
      match c.apiBaseUri
      case None => Failure(ArgumentNullException)
      case Some(base) =>
        Success(ClientState(c, c.apiKey, base, base.WithPath(PomfUpload), base.WithPath(PolrShorten), c.proxySettings.Some?))
  }

  /** The corrected constructor differs from the as-written one only for a null proxy. */
  lemma ConstructExtendsAsWritten(config: OwoConfiguration)
    requires config.proxySettings.Some?
    ensures ConstructAsWritten(config) == Construct(config)
  {
    CopyExtendsAsWritten(config);
  }

  /** As written, no client can be built from `Default` or from a fresh configuration. */
  lemma DefaultClientFailsAsWritten()
    ensures ConstructAsWritten(Default) == Failure(NullReferenceException)
    ensures ConstructAsWritten(Fresh) == Failure(NullReferenceException)
    ensures Construct(Default).Success? && !Construct(Default).value.useProxy
  {
    DefaultCannotBeCopied();
  }

  // ---------------------------------------------------------------------------
  // Requests

  datatype HttpMethod = Get | Post

  /** The one part of the upload body: form name, quoted file name, payload size. */
  datatype FilePart = FilePart(name: string, fileName: string, payloadLength: nat)

  datatype MultipartBody = MultipartBody(boundary: string, part: FilePart)

  /** A request: its endpoint, the dictionary that becomes its query string, its body. */
  datatype HttpRequest = HttpRequest(verb: HttpMethod, endpoint: Uri, query: seq<Extensions.Pair>, body: Option<MultipartBody>)

  /** `string.Concat(endpoint, "?", args.ToQueryString())` with `enc` for `WebUtility.UrlEncode`. */
  function Target(enc: string -> string, req: HttpRequest): string {
    Render(req.endpoint) + "?" + Extensions.ToQueryString(enc, Some(req.query))
  }

  /** The text after the '?' of a request's target parses back to the request's
      dictionary, for every percent-encoder. */
  lemma TargetQuery(enc: string -> string, dec: string -> string, req: HttpRequest)
    requires Extensions.IsPercentEncoder(enc, dec)
    requires |req.query| > 0
    ensures var t, n := Target(enc, req), |Render(req.endpoint)|;
      && |t| > n && t[..n] == Render(req.endpoint) && t[n] == '?'
      && Extensions.ParseQuery(dec, t[n + 1..]) == Some(Extensions.Decoded(req.query))
  {
    var t, n := Target(enc, req), |Render(req.endpoint)|;
    var q := Extensions.ToQueryString(enc, Some(req.query));
    assert t == Render(req.endpoint) + ("?" + q);
    assert t[n + 1..] == q;
    Extensions.RoundTrip(enc, dec, req.query);
  }

  /** The payload-length guard on `dl = Length - Position`. */
  function CheckLength(length: int, position: int): (r: Result<nat, Exception>)
    ensures r.Success? <==> 0 < length - position <= 83886080
    ensures r.Success? ==> r.value == length - position
    ensures r.Failure? ==> r.error == ArgumentException(LengthMessage)
  {
    var dl := length - position;
    if dl > MaxUploadLength || dl <= 0 then Failure(ArgumentException(LengthMessage)) else Success(dl)
  }

  /** `System.Random.Next()` values: non-negative and below `int.MaxValue`. */
  predicate IsRandomDraws(draws: seq<int>) {
    |draws| == 8 && forall i :: 0 <= i < 8 ==> 0 <= draws[i] < 0x7FFF_FFFF
  }

  /** `(byte)rnd.Next()` keeps the low eight bits. */
  function BoundaryBytes(draws: seq<int>): (b: seq<bv8>)
    requires IsRandomDraws(draws)
    ensures |b| == 8
  {
    seq(8, i requires 0 <= i < 8 => (draws[i] % 256) as bv8)
  }

  /** The loop that fills `b64data` in place. */
  method RandomBytes(draws: seq<int>) returns (a: array<bv8>)
    requires IsRandomDraws(draws)
    ensures a.Length == 8
    ensures a[..] == BoundaryBytes(draws)
  {
    a := new bv8[8];
    var i := 0;
    while i < a.Length
      invariant 0 <= i <= a.Length
      invariant a[..i] == BoundaryBytes(draws)[..i]
    {
      a[i] := (draws[i] % 256) as bv8;
      i := i + 1;
    }
    assert a[..] == a[..8];
  }

  /** The multipart boundary built from the eight random bytes. */
  function Boundary(bytes: seq<bv8>): string
    requires |bytes| == 8
  {
    BoundaryPrefix + Base64.Encode(bytes) + BoundarySuffix
  }

  /** `bcharsnospace` of section 5.1.1 of RFC 2046. */
  predicate IsBcharNoSpace(c: char) {
    ('0' <= c <= '9') || ('A' <= c <= 'Z') || ('a' <= c <= 'z') || c in "'()+_,-./:=?"
  }

  /** A boundary as section 5.1.1 of RFC 2046 allows it: 1 to 70 `bchars`, not ending in a space. */
  predicate IsRfc2046Boundary(b: string) {
    && 1 <= |b| <= 70
    && (forall i :: 0 <= i < |b| ==> IsBcharNoSpace(b[i]) || b[i] == ' ')
    && IsBcharNoSpace(b[|b| - 1])
  }

  /** Eight bytes encode to eleven alphabet characters and one '='. */
  lemma EncodeEightBytes(bytes: seq<bv8>)
    requires |bytes| == 8
    ensures var e := Base64.Encode(bytes);
      |e| == 12 && (forall i :: 0 <= i < 11 ==> Base64.IsBase64Char(e[i])) && e[11] == '='
  {
    Base64.EncodeShape(bytes);
    assert Base64.Padding(8) == 1;
  }

  lemma Base64CharIsBchar(c: char)
    requires Base64.IsBase64Char(c) || c == '-' || c == '='
    ensures IsBcharNoSpace(c)
  {
    if c == '+' {
      assert "'()+_,-./:=?"[3] == c;
    } else if c == '/' {
      assert "'()+_,-./:=?"[8] == c;
    } else if c == '-' {
      assert "'()+_,-./:=?"[6] == c;
    } else if c == '=' {
      assert "'()+_,-./:=?"[10] == c;
    }
  }

  /** The boundary's layout: the prefix, the twelve encoded characters, the suffix. */
  lemma BoundaryLayout(bytes: seq<bv8>)
    requires |bytes| == 8
    ensures var b := Boundary(bytes);
      && |b| == 25
      && b[..10] == BoundaryPrefix && b[10..22] == Base64.Encode(bytes) && b[22..] == BoundarySuffix
      && (forall i :: 0 <= i < 25 ==> Base64.IsBase64Char(b[i]) || b[i] == '-' || b[i] == '=')
  {
    var e := Base64.Encode(bytes);
    EncodeEightBytes(bytes);
    var b := Boundary(bytes);
    assert b[..10] == BoundaryPrefix && b[10..22] == e && b[22..] == BoundarySuffix;
    forall i | 0 <= i < 25 ensures Base64.IsBase64Char(b[i]) || b[i] == '-' || b[i] == '='
    {
      if i < 10 {
        assert b[i] == BoundaryPrefix[i];
      } else if i < 22 {
        assert b[i] == e[i - 10];
      } else {
        assert b[i] == BoundarySuffix[i - 22];
      }
    }
  }

  /** The boundary is 25 characters: the prefix, twelve Base64 characters of which
      only the last is '=', and the suffix. It is a valid RFC 2046 boundary, and the
      random bytes can be read back out of it. */
  lemma BoundaryShape(bytes: seq<bv8>)
    requires |bytes| == 8
    ensures var b := Boundary(bytes);
      && |b| == 25
      && b[..10] == BoundaryPrefix && b[22..] == BoundarySuffix
      && (forall i :: 10 <= i < 21 ==> Base64.IsBase64Char(b[i]))
      && b[21] == '='
      && IsRfc2046Boundary(b)
      && Base64.Decode(b[10..22]) == Some(bytes)
  {
    var e := Base64.Encode(bytes);
    var b := Boundary(bytes);
    BoundaryLayout(bytes);
    EncodeEightBytes(bytes);
    Base64.DecodeEncode(bytes);
    forall i | 10 <= i < 22 ensures b[i] == e[i - 10] {
      assert b[10..22][i - 10] == b[i];
    }
    forall i | 0 <= i < 25 ensures IsBcharNoSpace(b[i]) {
      Base64CharIsBchar(b[i]);
    }
  }

  /** `Path.GetFileName` separators on Windows: '\', '/' and the volume separator ':'. */
  predicate IsPathSeparator(c: char) {
    c == '\\' || c == '/' || c == ':'
  }

  /** Where the file name starts: just past the last separator in `path[..n]`, or 0. */
  function NameStart(path: string, n: nat): (k: nat)
    requires n <= |path|
    ensures k <= n
    ensures forall i :: k <= i < n ==> !IsPathSeparator(path[i])
    ensures k == 0 || IsPathSeparator(path[k - 1])
    decreases n
  {
    if n == 0 || IsPathSeparator(path[n - 1]) then n else NameStart(path, n - 1)
  }

  /** `Path.GetFileName`: the text after the last separator. */
  function FileName(path: string): (r: string)
    ensures |r| <= |path| && r == path[|path| - |r|..]
    ensures forall i :: 0 <= i < |r| ==> !IsPathSeparator(r[i])
    ensures |r| == |path| || IsPathSeparator(path[|path| - |r| - 1])
  {
    var k := NameStart(path, |path|);
    assert forall i :: 0 <= i < |path| - k ==> path[k..][i] == path[k + i];
    path[k..]
  }

  /** `ToLower`, on ASCII letters. */
  function LowerChar(c: char): char {
    if 'A' <= c <= 'Z' then (c as int + 32) as char else c
  }

  function Lower(s: string): (r: string)
    ensures |r| == |s|
    ensures forall i :: 0 <= i < |s| ==> r[i] == LowerChar(s[i])
  {
    seq(|s|, i requires 0 <= i < |s| => LowerChar(s[i]))
  }

  /** Lowercasing leaves no capital letter and changes nothing the second time. */
  lemma LowerIsLower(s: string)
    ensures forall i :: 0 <= i < |s| ==> !('A' <= Lower(s)[i] <= 'Z')
    ensures Lower(Lower(s)) == Lower(s)
  {
  }

  /** The part's file name: the last path component, lowercased, in double quotes. */
  function PartFileName(filename: string): string {
    "\"" + Lower(FileName(filename)) + "\""
  }

  lemma PartFileNameShape(filename: string)
    ensures var q, last := PartFileName(filename), FileName(filename);
      && |q| == |last| + 2 && q[0] == '"' && q[|q| - 1] == '"'
      && q[1..|q| - 1] == Lower(last)
      && (forall i :: 1 <= i < |q| - 1 ==> !IsPathSeparator(q[i]) && !('A' <= q[i] <= 'Z'))
  {
    var last := FileName(filename);
    var lowered := Lower(last);
    var q := "\"" + lowered + "\"";
    assert q == PartFileName(filename);
    assert q[1..|q| - 1] == lowered;
    forall i | 1 <= i < |q| - 1 ensures !IsPathSeparator(q[i]) && !('A' <= q[i] <= 'Z') {
      assert q[i] == lowered[i - 1] == LowerChar(last[i - 1]);
    }
  }

  /** The upload query dictionary: the API key alone. */
  function UploadArgs(state: ClientState): seq<Extensions.Pair> {
    [("key", state.apiKey)]
  }

  /** The shorten query dictionary: key, action and target URL, in that order. */
  function ShortenArgs(state: ClientState, url: string): seq<Extensions.Pair> {
    [("key", state.apiKey), ("action", Some("shorten")), ("url", Some(url))]
  }

  /** The upload request, once the guard has passed. */
  function UploadRequest(state: ClientState, dl: nat, bytes: seq<bv8>, filename: string): HttpRequest
    requires |bytes| == 8
  {
    HttpRequest(Post, state.uploadEndpoint, UploadArgs(state),
      Some(MultipartBody(Boundary(bytes), FilePart(PartName, PartFileName(filename), dl))))
  }

  /** The shorten request. */
  function ShortenRequest(state: ClientState, url: string): HttpRequest {
    HttpRequest(Get, state.shortenEndpoint, ShortenArgs(state, url), None)
  }

  /** The upload query string reads back as the API key alone (a null key as ""). */
  lemma UploadQueryIsKeyOnly(enc: string -> string, dec: string -> string, state: ClientState)
    requires Extensions.IsPercentEncoder(enc, dec)
    ensures Extensions.ParseQuery(dec, Extensions.ToQueryString(enc, Some(UploadArgs(state))))
      == Some([("key", state.apiKey.GetOr(""))])
  {
    Extensions.RoundTrip(enc, dec, UploadArgs(state));
    assert Extensions.Decoded(UploadArgs(state)) == [("key", state.apiKey.GetOr(""))];
  }

  /** The shorten query string reads back as exactly `key`, `action=shorten` and `url`. */
  lemma ShortenQueryFields(enc: string -> string, dec: string -> string, state: ClientState, url: string)
    requires Extensions.IsPercentEncoder(enc, dec)
    ensures Extensions.ParseQuery(dec, Extensions.ToQueryString(enc, Some(ShortenArgs(state, url))))
      == Some([("key", state.apiKey.GetOr("")), ("action", "shorten"), ("url", url)])
  {
    Extensions.RoundTrip(enc, dec, ShortenArgs(state, url));
    assert Extensions.Decoded(ShortenArgs(state, url)) == [("key", state.apiKey.GetOr("")), ("action", "shorten"), ("url", url)];
  }

  // ---------------------------------------------------------------------------
  // Replies

  /** The classification of a parsed reply: a null list fails on dereference, an
      empty list fails with the fixed message, otherwise only the first file counts
      and only an error flag of `true` makes it fail, with its description embedded. */
  function Classify(response: OwoResponse): (r: Result<OwoFile, Exception>)
    ensures response.files.None? ==> r == Failure(NullReferenceException)
    ensures response.files == Some([]) ==> r == Failure(UploadException(UploadErroredMessage))
    ensures response.files.Some? && |response.files.value| > 0 ==>
      var first := response.files.value[0];
      && (r.Success? <==> first.error != Some(true))
      && (r.Success? ==> r.value == first)
      && (r.Failure? ==> r.error == UploadException(UploadFailedMessage(first.description.GetOr(""))))
  {
    match response.files
    case None => Failure(NullReferenceException)
    case Some(files) =>
      if |files| < 1 then Failure(UploadException(UploadErroredMessage))
      else if files[0].error == Some(true) then
        Failure(UploadException(UploadFailedMessage(files[0].description.GetOr(""))))
      else Success(files[0])
  }

  /** Only the first file entry is consulted. */
  lemma OnlyFirstFileCounts(r1: OwoResponse, r2: OwoResponse)
    requires r1.files.Some? && r2.files.Some?
    requires |r1.files.value| > 0 && |r2.files.value| > 0
    requires r1.files.value[0] == r2.files.value[0]
    ensures Classify(r1) == Classify(r2)
  {
  }

  /** The tri-state error flag: absent and `false` both succeed, `true` fails. */
  lemma ErrorFlagTriState(f: OwoFile, rest: seq<OwoFile>)
    ensures Classify(OwoResponse(Some([f] + rest))).Success? <==> f.error.None? || f.error == Some(false)
  {
    var response := OwoResponse(Some([f] + rest));
    assert response.files.value[0] == f;
    match f.error {
      case None =>
      case Some(b) => assert b <==> Classify(response).Failure?;
    }
  }

  /** `MakeUploadUri`: the configured upload URL with its path replaced by "/" + name
      (`string.Concat` writes a null name as nothing). */
  function MakeUploadUri(uploadUrl: Option<Uri>, name: Option<string>): (r: Result<Uri, Exception>)
    ensures r.Success? <==> uploadUrl.Some?
    ensures r.Failure? ==> r.error == ArgumentNullException
    ensures r.Success? ==>
      && r.value.scheme == uploadUrl.value.scheme && r.value.host == uploadUrl.value.host
      && r.value.port == uploadUrl.value.port
      && r.value.path == "/" + name.GetOr("") && r.value.path[1..] == name.GetOr("")
    ensures r.Success? ==> r.value.(path := uploadUrl.value.path) == uploadUrl.value
  {
    match uploadUrl
    case None => Failure(ArgumentNullException)
    case Some(u) => Success(u.WithPath("/" + name.GetOr("")))
  }

  /** `MakeShortenedUri`: the reply's URI with its host replaced by the configured
      shortener host. `parsed` is the reply already parsed by `UriBuilder`. */
  function MakeShortenedUri(shortenerUrl: Option<Uri>, parsed: Uri): (r: Result<Uri, Exception>)
    ensures r.Success? <==> shortenerUrl.Some?
    ensures r.Failure? ==> r.error == NullReferenceException
    ensures r.Success? ==>
      && r.value.host == shortenerUrl.value.host
      && r.value.(host := parsed.host) == parsed
  {
    match shortenerUrl
    case None => Failure(NullReferenceException)
    case Some(s) => Success(parsed.WithHost(s.host))
  }

  /** The reply to an upload, turned into the file's URI. */
  function Resolve(uploadUrl: Option<Uri>, response: OwoResponse): (r: Result<Uri, Exception>)
    ensures r.Success? <==> Classify(response).Success? && uploadUrl.Some?
    ensures Classify(response).Failure? ==> r == Failure(Classify(response).error)
    ensures Classify(response).Success? && uploadUrl.None? ==> r == Failure(ArgumentNullException)
    ensures r.Success? ==> r.value.path == "/" + Classify(response).value.url.GetOr("")
  {
    match Classify(response)
    case Failure(e) => Failure(e)
    case Success(f) => MakeUploadUri(uploadUrl, f.url)
  }

  /** A successful upload's URI keeps the configured scheme, host and port and has
      the first file's `url` as its path. */
  lemma ResolveSuccess(uploadUrl: Option<Uri>, response: OwoResponse)
    requires Resolve(uploadUrl, response).Success?
    ensures uploadUrl.Some? && response.files.Some? && |response.files.value| > 0
    ensures response.files.value[0].error != Some(true)
    ensures var u := Resolve(uploadUrl, response).value;
      && u.scheme == uploadUrl.value.scheme && u.host == uploadUrl.value.host && u.port == uploadUrl.value.port
      && u.path == "/" + response.files.value[0].url.GetOr("")
  {
  }

  // ---------------------------------------------------------------------------
  // The two operations

  /** What one upload did: the request it sent, if any, and its result. */
  datatype UploadOutcome = UploadOutcome(sent: Option<HttpRequest>, result: Result<Uri, Exception>)

  /** `UploadFileAsync(stream, filename)`. */
  function Upload(state: ClientState, length: int, position: int, bytes: seq<bv8>, filename: string,
                  transport: HttpRequest -> Result<OwoResponse, Exception>): (o: UploadOutcome)
    requires |bytes| == 8
    ensures o.sent.None? <==> CheckLength(length, position).Failure?
    ensures o.sent.None? ==> o.result == Failure(CheckLength(length, position).error)
    ensures o.sent.Some? && transport(o.sent.value).Failure? ==> o.result == Failure(transport(o.sent.value).error)
    ensures o.sent.Some? && transport(o.sent.value).Success? ==>
      o.result == Resolve(state.configuration.uploadUrl, transport(o.sent.value).value)
  {
    match CheckLength(length, position)
    case Failure(e) => UploadOutcome(None, Failure(e))
    case Success(dl) =>
      var req := UploadRequest(state, dl, bytes, filename);
      var result := match transport(req)
        case Failure(e) => Failure(e)
        case Success(response) => Resolve(state.configuration.uploadUrl, response);
      UploadOutcome(Some(req), result)
  }

  /** A payload outside (0, 80 MiB] fails with the guard's exception and no request is sent. */
  lemma GuardStopsUpload(state: ClientState, length: int, position: int, bytes: seq<bv8>, filename: string,
                         transport: HttpRequest -> Result<OwoResponse, Exception>)
    requires |bytes| == 8
    requires !(0 < length - position <= MaxUploadLength)
    ensures Upload(state, length, position, bytes, filename, transport) == UploadOutcome(None, Failure(ArgumentException(LengthMessage)))
  {
  }

  /** An upload that passes the guard sends one POST to the upload endpoint with a
      single `files[]` part of `Length - Position` bytes, named by `PartFileName` and
      delimited by the boundary built from the random bytes. */
  lemma UploadSendsOnePart(state: ClientState, length: int, position: int, bytes: seq<bv8>, filename: string,
                           transport: HttpRequest -> Result<OwoResponse, Exception>)
    requires |bytes| == 8
    requires 0 < length - position <= MaxUploadLength
    ensures var o := Upload(state, length, position, bytes, filename, transport);
      && o.sent.Some? && o.sent.value.verb == Post && o.sent.value.endpoint == state.uploadEndpoint
      && o.sent.value.query == UploadArgs(state)
    ensures var o := Upload(state, length, position, bytes, filename, transport);
      && o.sent.Some? && o.sent.value.body.Some?
      && o.sent.value.body.value.part.name == "files[]"
      && o.sent.value.body.value.part.payloadLength == length - position
      && IsRfc2046Boundary(o.sent.value.body.value.boundary)
    ensures var o := Upload(state, length, position, bytes, filename, transport);
      && o.sent.Some? && o.sent.value.body.Some?
      && o.sent.value.body.value.part.fileName == PartFileName(filename)
      && o.sent.value.body.value.boundary == Boundary(bytes)
  {
    BoundaryShape(bytes);
  }

  /** `ShortenUrlAsync(url)`: `transport` sends the request and parses the reply text.
      A null `url` (`None`) throws at `url.ToString()`, before any request is built. */
  function Shorten(state: ClientState, url: Option<string>, transport: HttpRequest -> Result<Uri, Exception>): (r: Result<Uri, Exception>)
    ensures url.None? ==> r == Failure(NullReferenceException)
    ensures url.Some? ==>
      (r.Success? <==> transport(ShortenRequest(state, url.value)).Success? && state.configuration.shortenerUrl.Some?)
    ensures url.Some? && transport(ShortenRequest(state, url.value)).Failure? ==>
      r == Failure(transport(ShortenRequest(state, url.value)).error)
    ensures url.Some? && transport(ShortenRequest(state, url.value)).Success? && state.configuration.shortenerUrl.None? ==>
      r == Failure(NullReferenceException)
    ensures r.Success? ==>
      && url.Some?
      && state.configuration.shortenerUrl.Some?
      && transport(ShortenRequest(state, url.value)).Success?
      && r.value.host == state.configuration.shortenerUrl.value.host
      && r.value.(host := transport(ShortenRequest(state, url.value)).value.host) == transport(ShortenRequest(state, url.value)).value
  {
    match url
    case None => Failure(NullReferenceException)
    case Some(u) =>
      match transport(ShortenRequest(state, u))
      case Failure(e) => Failure(e)
      case Success(parsed) => MakeShortenedUri(state.configuration.shortenerUrl, parsed)
  }

  // ---------------------------------------------------------------------------
  // The client object

  class OwoClient {
    const configuration: OwoConfiguration
    const apiKey: Option<string>
    const apiBaseUri: Uri
    const uploadEndpoint: Uri
    const shortenEndpoint: Uri
    const useProxy: bool

    /** `_disposed`. */
    var disposed: bool
    /** How many times the owned `HttpClient` has been disposed. */
    var httpClientDisposals: nat

    ghost predicate Valid()
      reads this
    {
      httpClientDisposals == if disposed then 1 else 0
    }

    function State(): ClientState {
      ClientState(configuration, apiKey, apiBaseUri, uploadEndpoint, shortenEndpoint, useProxy)
    }

    constructor (s: ClientState)
      ensures State() == s && !disposed && Valid()
    {
      configuration, apiKey, apiBaseUri := s.configuration, s.apiKey, s.apiBaseUri;
      uploadEndpoint, shortenEndpoint, useProxy := s.uploadEndpoint, s.shortenEndpoint, s.useProxy;
      disposed, httpClientDisposals := false, 0;
    }

    /** `new OwoClient(config)`, with the exception it can throw. */
    static method Open(config: OwoConfiguration) returns (r: Result<OwoClient, Exception>)
      ensures r.Failure? <==> Construct(config).Failure?
      ensures r.Failure? ==> r.error == Construct(config).error
      ensures r.Success? ==> fresh(r.value) && r.value.State() == Construct(config).value
      ensures r.Success? ==> !r.value.disposed && r.value.Valid()
    {
      var s := Construct(config);
      if s.Failure? {
        return Failure(s.error);
      }
      var c := new OwoClient(s.value);
      return Success(c);
    }

    /** `UploadFileAsync`: the guard, then the boundary bytes filled in place, then
        the request and the classification of the reply. Once the client is disposed,
        its `HttpClient` refuses the request with `ObjectDisposedException`. */
    method UploadFile(length: int, position: int, draws: seq<int>, filename: string,
                      transport: HttpRequest -> Result<OwoResponse, Exception>) returns (outcome: UploadOutcome)
      requires IsRandomDraws(draws)
      ensures !disposed ==> outcome == Upload(State(), length, position, BoundaryBytes(draws), filename, transport)
      ensures CheckLength(length, position).Failure? ==> outcome == UploadOutcome(None, Failure(CheckLength(length, position).error))
      ensures disposed && CheckLength(length, position).Success? ==> outcome == UploadOutcome(None, Failure(ObjectDisposedException))
    {
      var guard := CheckLength(length, position);
      if guard.Failure? {
        return UploadOutcome(None, Failure(guard.error));
      }
      var b64data := RandomBytes(draws);
      var req := UploadRequest(State(), guard.value, b64data[..], filename);
      if disposed {
        return UploadOutcome(None, Failure(ObjectDisposedException));
      }
      var reply := transport(req);
      if reply.Failure? {
        return UploadOutcome(Some(req), Failure(reply.error));
      }
      var result := Resolve(configuration.uploadUrl, reply.value);
      return UploadOutcome(Some(req), result);
    }

    /** `ShortenUrlAsync(url)` on this client: a null `url` throws first, then a disposed
        client's `HttpClient` refuses the request. */
    method ShortenUrl(url: Option<string>, transport: HttpRequest -> Result<Uri, Exception>) returns (r: Result<Uri, Exception>)
      ensures !disposed ==> r == Shorten(State(), url, transport)
      ensures url.None? ==> r == Failure(NullReferenceException)
      ensures disposed && url.Some? ==> r == Failure(ObjectDisposedException)
    {
      if url.None? {
        return Failure(NullReferenceException);
      }
      if disposed {
        return Failure(ObjectDisposedException);
      }
      r := Shorten(State(), url, transport);
    }

    /** `Dispose`: the first call marks the client disposed and disposes the
        `HttpClient`; every later call changes nothing. */
    method Dispose()
      requires Valid()
      modifies this
      ensures Valid() && disposed && httpClientDisposals == 1
      ensures old(disposed) ==> httpClientDisposals == old(httpClientDisposals)
    {
      if disposed {
        return;
      }
      disposed := true;
      httpClientDisposals := httpClientDisposals + 1;
    }
  }
}

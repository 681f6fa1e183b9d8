# OwO.NET in Dafny

A model of OwO.NET, a C# client for the whats-th.is file host and URL shortener, and of its command-line uploader. It covers these parts:

- **`OwoConfiguration` and `ProxyConfiguration`** (`Configuration.dfy`): the settings record, its defaults, `Default`, and the two copy constructors.
- **`OwoResponse` and `OwoFile`** (`Responses.dfy`): the records the upload reply binds to.
- **`Extensions.ToQueryString`** (`Extensions.dfy`): turns a dictionary into `k=v&k=v`. It is proved to round-trip through a parser for every percent-encoder.
- **`OwoClient`** (`Client.dfy`):
  - the constructor, which copies the configuration and derives the `/upload/pomf` and `/shorten/polr` endpoints;
  - the upload path: the payload-length guard, the eight random boundary bytes filled in place, the multipart boundary `---upload-<base64>---`, and the lower-cased `files[]` part name;
  - the classification of the reply;
  - `MakeUploadUri`, `MakeShortenedUri`, URL shortening, and a `Dispose` that releases the HTTP client only once.
- **Base64 and URIs** (`Base64.dfy`, `Uris.dfy`): the RFC 4648 encoding used for the boundary, and the URI components the client reads and replaces.
- **The command-line program** (`Cli.dfy`):
  - the start-up decision: write a default config, reject the config, or run;
  - the upload loop: in order, aborting at the first exception, filling an insertion-ordered dictionary keyed by full path;
  - the timestamped report path and its `'<path>' = '<uri>'` lines.

Module layout:

| module | contents |
|---|---|
| `Wrappers` | `Option` (C# `null`) and `Result` (a thrown exception) |
| `Exceptions` | the exception kinds and their messages |
| `Uris` | `Uri` and the components `UriBuilder` replaces |
| `Extensions` | `ToQueryString` |
| `Base64` | RFC 4648 encoding and decoding |
| `Responses` | the reply records |
| `Configuration` | the settings records |
| `Client` | `OwoClient` |
| `Cli` | `Program` |

Modelling conventions:

- Every source of effects becomes a parameter:
  - the HTTP exchange (`transport`), `WebUtility.UrlEncode` (`enc`) and `System.Random` (`draws`);
  - the file system, the clock and the upload of one file (`Environment`, `upload`).
- A method that mutates state stays imperative:
  - `OwoClient` is a class; `Dispose` changes its fields;
  - the byte buffer is filled in place;
  - the CLI's `foreach` is a `while` loop.
- Each imperative method is proved equal to a specification function. The lemmas are stated about that function.

## Model

| member | source | states |
|---|---|---|
| Exceptions.UploadFailedMessage | Emzi0767.OwoDotNet/OwoClient.cs:189-190 | The failure message is the fixed prefix, then the provider's description verbatim, then `'.` |
| Exceptions.UploadFailedMessageInjective | Emzi0767.OwoDotNet/OwoClient.cs:190 | Two descriptions that give the same failure message are equal: the description can be read back out of the message |
| Exceptions.UploadFailureMessagesDistinct | Emzi0767.OwoDotNet/OwoClient.cs:188-190 | An empty file list and a flagged file never raise the same message |
| Uris.Uri.WithPath | Emzi0767.OwoDotNet/OwoClient.cs:89-93 | Setting `UriBuilder.Path` changes the path and leaves scheme, host, port, query and fragment as they were |
| Uris.Uri.WithHost | Emzi0767.OwoDotNet/OwoClient.cs:227-232 | Setting `UriBuilder.Host` changes the host and nothing else |
| Extensions.EmptyDictionary | Emzi0767.OwoDotNet/Extensions.cs:32-33 | A null or empty dictionary gives the empty string |
| Extensions.Segments | Emzi0767.OwoDotNet/Extensions.cs:35 | One `key=value` segment per entry, in enumeration order |
| Extensions.ToQueryString | Emzi0767.OwoDotNet/Extensions.cs:30-39 | The query string is empty iff the dictionary is null or has no entries |
| Extensions.SegmentShape | Emzi0767.OwoDotNet/Extensions.cs:35 | With a percent-encoder, each segment contains no '&' and exactly one '=' |
| Extensions.SeparatorCount | Emzi0767.OwoDotNet/Extensions.cs:35-36 | A query string of n entries contains exactly n - 1 '&' characters |
| Extensions.SplitJoin | Emzi0767.OwoDotNet/Extensions.cs:36 | Splitting the joined text at '&' gives back the segments, when no segment contains '&' |
| Extensions.ParseSegment | Emzi0767.OwoDotNet/Extensions.cs:35 | Each segment parses back to its key and value, with a null value read as "" |
| Extensions.RoundTrip | Emzi0767.OwoDotNet/Extensions.cs:30-39 | For every percent-encoder, parsing `ToQueryString` of a non-empty dictionary gives back every key and value in order |
| Base64.CharOf | Emzi0767.OwoDotNet/OwoClient.cs:168 | Each 6-bit value maps to an alphabet character, and `ValueOf` maps that character back to the value |
| Base64.EncodeLength | Emzi0767.OwoDotNet/OwoClient.cs:168 | n bytes encode to 4 * ceil(n / 3) characters |
| Base64.EncodeShape | Emzi0767.OwoDotNet/OwoClient.cs:168 | The encoding is alphabet characters followed by exactly (3 - n mod 3) mod 3 '=' characters |
| Base64.DecodeEncode | Emzi0767.OwoDotNet/OwoClient.cs:168 | Decoding the encoding gives back the bytes |
| Configuration.DefaultIsFreshWithPlaceholder | Emzi0767.OwoDotNet/OwoConfiguration.cs:31-64 | `Default` is a fresh configuration with the placeholder key, and it has no proxy |
| Configuration.CopyProxy | Emzi0767.OwoDotNet/OwoConfiguration.cs:109-114 | The proxy copy has the same address, username and password |
| Configuration.CopyAsWritten | Emzi0767.OwoDotNet/OwoConfiguration.cs:71-78 | The copy constructor as written throws `NullReferenceException` exactly when the proxy is null; otherwise the copy equals the original |
| Configuration.AsWrittenCopyAlwaysHasProxy | Emzi0767.OwoDotNet/OwoConfiguration.cs:77 | Every copy that succeeds has a proxy, so the client's null test on the copy's proxy is never false |
| Configuration.DefaultCannotBeCopied | Emzi0767.OwoDotNet/OwoConfiguration.cs:77 | Neither `Default` nor a fresh configuration can be copied as written |
| Configuration.Copy | Emzi0767.OwoDotNet/OwoConfiguration.cs:71-78 | The corrected copy keeps every field, and keeps a null proxy null |
| Configuration.CopyExtendsAsWritten | Emzi0767.OwoDotNet/OwoConfiguration.cs:71-78 | The corrected copy agrees with the as-written copy wherever the latter succeeds |
| Client.Construct | Emzi0767.OwoDotNet/OwoClient.cs:77-107 | The constructor on the corrected copy, not the one the source runs (see Findings). It fails with `ArgumentNullException` iff the API base URI is null. Otherwise: both endpoints are the base URI with only the path replaced (`/upload/pomf`, `/shorten/polr`); the key and base are the copy's; `UseProxy` holds iff a proxy is configured |
| Client.ConstructAsWritten | Emzi0767.OwoDotNet/OwoClient.cs:84-105 | The constructor as written. It throws `NullReferenceException` when the proxy is null (the copy at line 84 runs first). It throws `ArgumentNullException` when a proxy is set but the base URI is null. On success `UseProxy` is always true |
| Client.ConstructExtendsAsWritten | Emzi0767.OwoDotNet/OwoClient.cs:84 | With a proxy configured, the as-written and corrected constructors agree |
| Client.DefaultClientFailsAsWritten | Emzi0767.OwoDotNet/OwoClient.cs:84 | As written, `new OwoClient(Default)` and `new OwoClient(new OwoConfiguration())` throw `NullReferenceException`. The corrected constructor builds a client from `Default`, without a proxy |
| Client.TargetQuery | Emzi0767.OwoDotNet/OwoClient.cs:131 | A request target is the rendered endpoint, then '?', then text that parses back to the request's dictionary, for every percent-encoder |
| Client.CheckLength | Emzi0767.OwoDotNet/OwoClient.cs:151-153 | The guard passes iff 0 < Length - Position <= 80 MiB and then yields that length; otherwise it throws `ArgumentException` with the source's message |
| Client.RandomBytes | Emzi0767.OwoDotNet/OwoClient.cs:155-158 | The in-place loop fills an 8-byte array with the low byte of each random draw |
| Client.BoundaryShape | Emzi0767.OwoDotNet/OwoClient.cs:168 | The boundary is 25 characters: `---upload-`, then 11 Base64 characters and one '=', then `---`. It is a valid RFC 2046 boundary, and its middle decodes back to the random bytes |
| Client.FileName | Emzi0767.OwoDotNet/OwoClient.cs:173 | `Path.GetFileName` returns a suffix of the path with no separator in it, preceded by a separator or the start of the path |
| Client.Lower | Emzi0767.OwoDotNet/OwoClient.cs:177 | `ToLower` maps each character separately and keeps the length |
| Client.LowerIsLower | Emzi0767.OwoDotNet/OwoClient.cs:177 | Lowercasing leaves no capital letter and is idempotent |
| Client.PartFileNameShape | Emzi0767.OwoDotNet/OwoClient.cs:173-177 | The part's file name is the lower-cased last path component in double quotes, with no separator and no capital letter inside |
| Client.UploadQueryIsKeyOnly | Emzi0767.OwoDotNet/OwoClient.cs:160-165 | The upload query parses back to exactly `key=<api key>` |
| Client.ShortenQueryFields | Emzi0767.OwoDotNet/OwoClient.cs:124-131 | The shorten query parses back to `key`, `action=shorten` and `url`, in that order |
| Client.Classify | Emzi0767.OwoDotNet/OwoClient.cs:186-190 | A null file list throws `NullReferenceException`; an empty list throws "OwO upload errored."; otherwise the first file fails iff its error flag is `true`, with its description (null as "") in the message |
| Client.Resolve | Emzi0767.OwoDotNet/OwoClient.cs:186-192 | The reply resolves iff it classifies as a success and `UploadUrl` is set. A classification failure passes its exception through; a null `UploadUrl` throws `ArgumentNullException`. A resolved URI's path is "/" + the first file's `url` |
| Client.OnlyFirstFileCounts | Emzi0767.OwoDotNet/OwoClient.cs:188 | Two replies with the same first file are classified alike |
| Client.ErrorFlagTriState | Emzi0767.OwoDotNet/OwoClient.cs:189 | An absent error flag and `false` both succeed; only `true` fails |
| Client.MakeUploadUri | Emzi0767.OwoDotNet/OwoClient.cs:210-218 | A null upload URL throws `ArgumentNullException`. Otherwise the URI is the upload URL with only the path replaced by "/" + name (null as ""): scheme, host, port, query and fragment are kept |
| Client.MakeShortenedUri | Emzi0767.OwoDotNet/OwoClient.cs:225-233 | A null shortener URL throws `NullReferenceException`. Otherwise the reply's URI gets the shortener's host and keeps everything else |
| Client.ResolveSuccess | Emzi0767.OwoDotNet/OwoClient.cs:186-192 | A successful upload's URI has the configured scheme, host and port and the first file's `url` as its path; the reply had at least one file, not flagged |
| Client.Upload | Emzi0767.OwoDotNet/OwoClient.cs:149-193 | A request is sent iff the length guard passes; otherwise the guard's exception is the result. A transport failure passes its exception through, and a reply is resolved with the configured `UploadUrl` |
| Client.GuardStopsUpload | Emzi0767.OwoDotNet/OwoClient.cs:151-153 | A payload outside (0, 80 MiB] sends no request and throws the guard's exception |
| Client.UploadSendsOnePart | Emzi0767.OwoDotNet/OwoClient.cs:160-177 | A payload that passes the guard sends one POST to the upload endpoint. The query holds only the key. There is one `files[]` part of `Length - Position` bytes, whose file name is `PartFileName(filename)`. The boundary is `Boundary` of the random bytes and is RFC 2046 valid |
| Client.Shorten | Emzi0767.OwoDotNet/OwoClient.cs:122-141 | A null `url` throws `NullReferenceException` at `url.ToString()`, before any request. Otherwise shortening succeeds iff the transport returns a URI and a shortener URL is configured. A transport failure passes its own exception through; a null `ShortenerUrl` throws `NullReferenceException`. A success is the reply's URI with the configured shortener host in place of its own |
| Client.OwoClient.constructor | Emzi0767.OwoDotNet/OwoClient.cs:77-115 | A new client holds the computed state and is not disposed |
| Client.OwoClient.Open | Emzi0767.OwoDotNet/OwoClient.cs:77-115 | `new OwoClient(config)` on the corrected copy: it throws iff `Construct` fails, with its exception; otherwise it returns a fresh, undisposed client with the state `Construct` gives |
| Client.OwoClient.UploadFile | Emzi0767.OwoDotNet/OwoClient.cs:149-193 | The imperative upload (guard, in-place boundary bytes, request, classification) equals the specification `Upload` while the client is not disposed. A failing guard throws its `ArgumentException` either way. Once disposed, a payload that passes the guard gets `ObjectDisposedException` from the `HttpClient` (line 180), and nothing is sent |
| Client.OwoClient.ShortenUrl | Emzi0767.OwoDotNet/OwoClient.cs:122-141 | `ShortenUrlAsync` on the client: a null `url` throws `NullReferenceException` first. A disposed client then gets `ObjectDisposedException` from the `HttpClient` (line 135). Otherwise the result is `Shorten` of the client's state |
| Client.OwoClient.Dispose | Emzi0767.OwoDotNet/OwoClient.cs:238-245 | After `Dispose` the client is disposed and its HTTP client has been disposed exactly once, however often `Dispose` runs |
| Cli.ConfigAccepted | Emzi0767.OwoDotNet.Cli/Program.cs:61 | An accepted configuration has an upload URL and an API key with at least one non-white-space character; the placeholder key and the empty key are never accepted |
| Cli.DefaultsRejected | Emzi0767.OwoDotNet.Cli/Program.cs:61-62 | The configuration written when none exists, and a fresh one, are both rejected |
| Cli.Start | Emzi0767.OwoDotNet.Cli/Program.cs:32-74 | A default config is written iff the file is missing, and it is `Default`. The uploader runs iff the file was read, is not JSON null and passes the key and upload-URL checks. Rejections: a read or parse failure with its own exception; JSON null with `NullReferenceException`; a failed check with `InvalidDataException` |
| Cli.Put | Emzi0767.OwoDotNet.Cli/Program.cs:106 | `ups[key] = uri`: the value is replaced. In the insertion order .NET's `Dictionary` keeps while nothing is removed, a new key is appended and an existing key keeps its place |
| Cli.PutKeepsValid | Emzi0767.OwoDotNet.Cli/Program.cs:106 | The dictionary's keys stay distinct and in step with its entries |
| Cli.MissingFileMessage | Emzi0767.OwoDotNet.Cli/Program.cs:90 | The missing-file message is "Specified file ('", the path verbatim, then "') does not exist." |
| Cli.ItemOf | Emzi0767.OwoDotNet.Cli/Program.cs:89-103 | One argument is missing iff its file does not exist. It is uploaded iff the file exists, the upload returns and the reply resolves to a URI, and then it carries that URI. A failed upload carries the upload's exception; a reply that does not resolve carries `Resolve`'s exception, so a flagged file carries the provider's description |
| Cli.Step | Emzi0767.OwoDotNet.Cli/Program.cs:89-106 | One iteration raises no exception iff none was pending and the item uploads. A missing file raises `IOException` with the missing-file message and is not handed to the upload step; any other failing item raises its own exception. Any file that exists is recorded as handed over. An upload sets `ups[fullName]` to its URI; a failed item leaves the dictionary alone |
| Cli.Process | Emzi0767.OwoDotNet.Cli/Program.cs:87-107 | Once an exception is pending, no further argument changes anything |
| Cli.ProcessKeepsValid | Emzi0767.OwoDotNet.Cli/Program.cs:87-107 | The loop keeps the dictionary's keys distinct and in step with its entries |
| Cli.UploadedInOrder | Emzi0767.OwoDotNet.Cli/Program.cs:87-97 | The files handed to the upload step are always a prefix of the arguments, in argument order |
| Cli.AllOrNothing | Emzi0767.OwoDotNet.Cli/Program.cs:87-107 | The loop ends without an exception iff every argument exists and uploads, and then every argument was uploaded |
| Cli.MissingPathAborts | Emzi0767.OwoDotNet.Cli/Program.cs:89-90 | A missing file raises an exception, and neither it nor any later argument is uploaded |
| Cli.FirstFailureEnds | Emzi0767.OwoDotNet.Cli/Program.cs:87-107 | A batch that ends in an exception ends in the exception of the first argument that does not upload |
| Cli.OtherKeysKept | Emzi0767.OwoDotNet.Cli/Program.cs:106 | An entry whose path no remaining argument has is left as it is |
| Cli.LastUploadWins | Emzi0767.OwoDotNet.Cli/Program.cs:106 | In a run without an exception, each full path maps to the URI of its last upload |
| Cli.KeysAreFullPaths | Emzi0767.OwoDotNet.Cli/Program.cs:106 | Every dictionary key is the full path of some argument |
| Cli.CombineShape | Emzi0767.OwoDotNet.Cli/Program.cs:113 | `Path.Combine` keeps both parts whole, with at most one '\\' between them |
| Cli.ReportPathShape | Emzi0767.OwoDotNet.Cli/Program.cs:110-113 | The report file is inside the app base directory when that is non-blank and exists, otherwise inside the executable's directory. Its name is `upload-<stamp>.txt` |
| Cli.StampRoundTrip | Emzi0767.OwoDotNet.Cli/Program.cs:113 | The report name is 30 characters, and its `yyyy-MM-dd-HH-mm-ss` stamp reads back to the time it was made from |
| Cli.WriteReport | Emzi0767.OwoDotNet.Cli/Program.cs:117-120 | One `'<path>' = '<uri>'` line per dictionary entry, in enumeration order |
| Cli.DistinctKeysCount | Emzi0767.OwoDotNet.Cli/Program.cs:117-120 | The report has as many lines as the dictionary has distinct paths |
| Cli.RunWith | Emzi0767.OwoDotNet.Cli/Program.cs:81-128 | A constructor exception ends the run with nothing uploaded. The files handed to the upload step are always a prefix of the arguments, and a written report lies at `ReportPath` |
| Cli.Run | Emzi0767.OwoDotNet.Cli/Program.cs:79-129 | The run on the corrected copy: a null API base fails with `ArgumentNullException` before any upload, and uploads follow the argument order |
| Cli.RunAsWritten | Emzi0767.OwoDotNet.Cli/Program.cs:79-129 | The run as written: a report needs a proxy and an API base, and uploads follow the argument order |
| Cli.RunUploader | Emzi0767.OwoDotNet.Cli/Program.cs:79-129 | The imperative run, with the client built on the corrected copy, equals the specification `Run`. The `using` block owns a client iff the constructor returns, and on every exit from the loop that client is disposed and its `HttpClient` released exactly once |
| Cli.ProxylessRunFailsAsWritten | Emzi0767.OwoDotNet.Cli/Program.cs:85 | As written, a configuration without a proxy makes the run fail with `NullReferenceException` before any upload |
| Cli.RunAgreesWithProxy | Emzi0767.OwoDotNet.Cli/Program.cs:85 | With a proxy configured, the as-written run and the corrected run are the same |
| Cli.ReportOnlyWhenAllSucceed | Emzi0767.OwoDotNet.Cli/Program.cs:81-128 | In the corrected run, a report is written iff the client can be built and every argument exists and uploads; every argument was then uploaded, and the report lies at `ReportPath`. As written, a report is written iff a proxy is configured and the corrected run reports |
| Cli.FailedRunNamesFirstFailure | Emzi0767.OwoDotNet.Cli/Program.cs:85-127 | When the client was built and the run fails, the exception printed at line 126 is that of the first argument that did not upload: the missing-file `IOException`, or that file's upload or classification exception |
| Cli.RunProgram | Emzi0767.OwoDotNet.Cli/Program.cs:14-77 | `Main` on the corrected copy, not the one the source runs (see Findings). A default config is written iff the file is missing, and then nothing is uploaded. The uploader runs iff the config is accepted, with that config. Otherwise the program stops with `Start`'s outcome |
| Cli.RunProgramAsWritten | Emzi0767.OwoDotNet.Cli/Program.cs:14-77 | `Main` as written: the same start-up, then the as-written run with the accepted config |
| Cli.FilledDefaultFailsAsWritten | Emzi0767.OwoDotNet.Cli/Program.cs:76-85 | The default file with a real key filled in is accepted. As written its run fails with `NullReferenceException` and uploads nothing; the corrected run reports iff every argument uploads |

## Left out

- HTTP and JSON are not modelled. Sending requests, reading the reply body as UTF-8 and the Newtonsoft.Json binding (including the JSON key names) are parameters: `transport` returns the already-bound `OwoResponse` or the parsed `Uri`. Any exception they throw is a `ForeignException`.
- URI parsing, escaping and normalisation are not modelled. `new Uri(...)` and `UriBuilder(string)` parse text; the model works on parsed `Uri` records. The request target is `Target`: the rendered endpoint, '?', and the query string.
- `WebUtility.UrlEncode` is abstract. The query-string lemmas hold for every encoder that never emits '&' or '=', has a decoder, and maps "" to "".
- `System.Random` is not modelled. Its draws are a parameter in [0, int.MaxValue); the model keeps `(byte)` truncation as `% 256`.
- MIME types are not modelled. `MimeTypeMap.GetMimeType`, the part's `Content-Type` header and the `User-Agent` header are outside the model.
- The payload bytes are not modelled. Only their count (`Length - Position`) is carried; reading the stream is I/O.
- `ProxyConfiguration.CreateProxy` and the `HttpClientHandler` are not modelled. Only `UseProxy` is kept; building a `WebProxy` is platform code.
- `DOMAIN_LIST` is not modelled, because no method of the client uses it.
- Client.Construct: is built on the corrected configuration copy, not on the copy the source runs. The as-written constructor is `Client.ConstructAsWritten`, which throws `NullReferenceException` for every configuration without a proxy (see Findings). A null configuration is not modelled: `new OwoClient(null)` throws `NullReferenceException` at `OwoConfiguration.cs:73`, and the model takes a configuration value.
- Client.OwoClient.Open: the client object and its `UploadFile`/`ShortenUrl`/`Dispose` are built on the corrected `Construct`. As written, no client object exists for a configuration without a proxy.
- Cli.RunProgram: the `Ran` case runs the corrected `Cli.Run`. The source's `Main` is `Cli.RunProgramAsWritten`. `Cli.FilledDefaultFailsAsWritten` shows where they differ: the default file with a key filled in, which has no proxy.
- Cli.RunUploader: runs on the corrected copy, and so do `Cli.Run` and `Cli.ReportOnlyWhenAllSucceed`'s first two clauses. The source's behaviour is `Cli.RunAsWritten`: `Cli.ProxylessRunFailsAsWritten` shows it fails before any upload when no proxy is set, and `Cli.RunAgreesWithProxy` shows it agrees with `Run` otherwise.
- Cli.Put: the order of entries relies on the behaviour of .NET's `Dictionary`: entries enumerate in insertion order as long as none is removed. .NET documents this order as undefined. The report's line order and the order in `Client.ShortenQueryFields` depend on it.
- Client.UploadSendsOnePart: the part is modelled by its size `Length - Position`, not its bytes. The source ignores the count `ReadAsync` returns (OwoClient.cs:171), so a short read would send a buffer of that size with a zero-filled tail; the model does not capture short reads.
- Client.Lower: models `ToLower` on ASCII letters only. Culture-specific and non-ASCII case mappings are outside the model.
- Client.FileName: uses the Windows separators ('\\', '/' and ':'). On Unix, `Path.GetFileName` splits at '/' only.
- Cli.CombineShape: models Windows `Path.Combine`. A rooted second part, which makes `Combine` drop the first, is not modelled because the report name is never rooted.
- Client.OwoClient.UploadFile: a null `filename` is not modelled; the model takes a string.
- Configuration objects have value semantics. The C# copies are reference objects, so aliasing between the caller's and the client's configuration is not modelled. Because of this, "the caller's configuration is unchanged" holds trivially.
- Console output is not modelled: banners, progress lines and the printed exception text. `Cli.RunOutcome.Failed` carries the exception that would be printed.
- Writing the default config file and the report file is not modelled. The model returns the configuration and the lines to write.
- Cli.RunUploader: follows the intent of the command-line program where its calls no longer match the library:
  - it uses `OwoConfiguration.Default` for `CreateDefault()`;
  - it uses `MakeUploadUri` for `MakeUri`;
  - it takes the upload step as a parameter returning the reply record, which the program then classifies as `Program.cs:99-103` does.
- Cli.ItemOf: `FileInfo.FullName` is the environment's `fullName` function; path normalisation is not modelled.
- `OwoUploader.cs` is not part of this model, and neither are the tests.
- Async execution and cancellation are not modelled. The model is sequential, in the order the `await`s run.

## Findings

| source | as written | input that shows it | evidently intended | confidence | as-written member | corrected member |
|---|---|---|---|---|---|---|
| Emzi0767.OwoDotNet/OwoConfiguration.cs:77 | The copy constructor always calls `new ProxyConfiguration(other.ProxySettings)`. That constructor reads `other.Address` (line 111), so a null proxy throws `NullReferenceException`. `new OwoClient(cfg)` runs this copy first (OwoClient.cs:84), so it throws for every configuration without a proxy, and the command-line run then uploads nothing | `OwoConfiguration.Default` or any `new OwoConfiguration()`; no proxy is the default, so `new OwoClient(OwoConfiguration.Default)` throws | Keep a null proxy null, as the client expects: `OwoClient.cs:105-106` tests the copy's `ProxySettings` for null | not executed | Configuration.CopyAsWritten, Configuration.DefaultCannotBeCopied, Client.ConstructAsWritten, Client.DefaultClientFailsAsWritten, Cli.RunAsWritten, Cli.ProxylessRunFailsAsWritten, Cli.RunProgramAsWritten, Cli.FilledDefaultFailsAsWritten | Configuration.Copy, Client.Construct |

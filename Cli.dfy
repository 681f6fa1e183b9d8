/** `Program`: the command-line uploader. Its file system, console, clock and the
    upload of one file are parameters; what is modelled are the decisions they feed:
    whether the configuration is accepted, which files are uploaded in what order,
    when the batch aborts, and the report it writes. */
module Cli {
  import opened Wrappers
  import opened Exceptions
  import opened Uris
  import opened Responses
  import opened Configuration
  import opened Client

  // ---------------------------------------------------------------------------
  // Start-up: the configuration file

  /** `char.IsWhiteSpace`: the Unicode space separators, line and paragraph
      separators, and the control characters U+0009 to U+000D and U+0085. */
  predicate IsWhiteSpace(c: char) {
    || c == ' ' || ('\t' <= c <= '\r') || c == '\U{0085}' || c == '\U{00A0}' || c == '\U{1680}'
    || ('\U{2000}' <= c <= '\U{200A}') || c == '\U{2028}' || c == '\U{2029}' || c == '\U{202F}'
    || c == '\U{205F}' || c == '\U{3000}'
  }

  /** `string.IsNullOrWhiteSpace`. */
  predicate IsNullOrWhiteSpace(s: Option<string>) {
    s.None? || forall i :: 0 <= i < |s.value| ==> IsWhiteSpace(s.value[i])
  }

  /** The checks `Main` applies to the loaded configuration. */
  predicate ConfigAccepted(cfg: OwoConfiguration)
    ensures ConfigAccepted(cfg) ==>
      && cfg.apiKey.Some? && cfg.uploadUrl.Some?
      && exists i :: 0 <= i < |cfg.apiKey.value| && !IsWhiteSpace(cfg.apiKey.value[i])
    ensures cfg.apiKey == Some(PlaceholderApiKey) || cfg.apiKey == Some("") ==> !ConfigAccepted(cfg)
  {
    && !IsNullOrWhiteSpace(cfg.apiKey)
    && cfg.apiKey != Some(PlaceholderApiKey)
    && cfg.uploadUrl.Some?
  }

  /** Neither the configuration `Main` writes when none exists nor a fresh one is accepted. */
  lemma DefaultsRejected()
    ensures !ConfigAccepted(Default) && !ConfigAccepted(Fresh)
  {
  }

  /** How start-up ends. */
  datatype Startup =
    /** No config file: a default one is written and the program returns. */
    | DefaultWritten(written: OwoConfiguration)
    /** The config file could not be read or parsed, or was rejected. */
    | Rejected(error: Exception)
    /** The uploader runs with this configuration. */
    | Accepted(config: OwoConfiguration)

  /** `Main` up to the call of `RunUploaderAsync`. `loaded` is what reading and
      deserialising the existing config file produced (`None` for a JSON `null`). */
  function Start(configExists: bool, loaded: Result<Option<OwoConfiguration>, Exception>): (r: Startup)
    ensures r.DefaultWritten? <==> !configExists
    ensures !configExists ==> r == DefaultWritten(Default)
    ensures configExists && loaded.Failure? ==> r == Rejected(loaded.error)
    ensures configExists && loaded == Success(None) ==> r == Rejected(NullReferenceException)
    ensures r.Accepted? <==> configExists && loaded.Success? && loaded.value.Some? && ConfigAccepted(loaded.value.value)
    ensures r.Accepted? ==> r.config == loaded.value.value
    ensures configExists && loaded.Success? && loaded.value.Some? && !ConfigAccepted(loaded.value.value) ==>
      r == Rejected(InvalidDataException)
  {
    if !configExists then DefaultWritten(Default)
    else match loaded
      case Failure(e) => Rejected(e)
      case Success(None) => Rejected(NullReferenceException)
      case Success(Some(cfg)) => if ConfigAccepted(cfg) then Accepted(cfg) else Rejected(InvalidDataException)
  }

  // ---------------------------------------------------------------------------
  // The upload loop

  /** A local time, as `DateTimeOffset.Now` gives it. */
  datatype Timestamp = Timestamp(year: nat, month: nat, day: nat, hour: nat, minute: nat, second: nat)

  predicate ValidTimestamp(t: Timestamp) {
    1 <= t.year <= 9999 && 1 <= t.month <= 12 && 1 <= t.day <= 31 && t.hour < 24 && t.minute < 60 && t.second < 60
  }

  /** The file system and clock as the loop sees them. */
  datatype Environment = Environment(
    fileExists: string -> bool,
    fullName: string -> string,
    baseDirectory: Option<string>,
    directoryExists: string -> bool,
    now: Timestamp)

  /** `Dictionary<string, Uri>`: entries enumerate in the order their keys were first
      added. .NET leaves the order unspecified; this is its behaviour while no entry
      is removed, which the loop never does. */
  datatype Uploads = Uploads(keys: seq<string>, values: map<string, Uri>)

  const NoUploads: Uploads := Uploads([], map[])

  ghost predicate ValidUploads(u: Uploads) {
    && (forall i, j :: 0 <= i < j < |u.keys| ==> u.keys[i] != u.keys[j])
    && (forall k :: k in u.values <==> k in u.keys)
  }

  /** `ups[key] = uri`: a new key goes last, an existing key keeps its place and takes the new value. */
  function Put(u: Uploads, key: string, uri: Uri): (r: Uploads)
    ensures r.values == u.values[key := uri]
    ensures key in u.values ==> r.keys == u.keys
    ensures key !in u.values ==> r.keys == u.keys + [key]
  {
    if key in u.values then Uploads(u.keys, u.values[key := uri])
    else Uploads(u.keys + [key], u.values[key := uri])
  }

  /** Entering a key keeps the keys distinct and in step with the map. */
  lemma PutKeepsValid(u: Uploads, key: string, uri: Uri)
    requires ValidUploads(u)
    ensures ValidUploads(Put(u, key, uri))
  {
  }

  const MissingFilePrefix: string := "Specified file ('"

  /** The message of the `IOException` for a missing file: the path, quoted, inside a fixed text. */
  function MissingFileMessage(arg: string): (m: string)
    ensures |m| == |MissingFilePrefix| + |arg| + 18
    ensures m[..|MissingFilePrefix|] == MissingFilePrefix
    ensures m[|MissingFilePrefix|..|MissingFilePrefix| + |arg|] == arg
    ensures m[|MissingFilePrefix| + |arg|..] == "') does not exist."
  {
    MissingFilePrefix + arg + "') does not exist."
  }

  /** What one argument comes to: a missing file, an exception from the upload, or the file's URI. */
  datatype Item = Missing | Errored(error: Exception) | Uploaded(uri: Uri)

  /** One argument: the existence check, the upload step, then the client's
      classification of the reply and the file's URI. */
  function ItemOf(uploadUrl: Option<Uri>, env: Environment, upload: string -> Result<OwoResponse, Exception>, arg: string): (r: Item)
    ensures r.Missing? <==> !env.fileExists(arg)
    ensures r.Uploaded? <==> env.fileExists(arg) && upload(arg).Success? && Resolve(uploadUrl, upload(arg).value).Success?
    ensures r.Uploaded? ==> r.uri == Resolve(uploadUrl, upload(arg).value).value
    ensures r.Errored? && upload(arg).Failure? ==> r.error == upload(arg).error
    ensures r.Errored? && upload(arg).Success? ==> r.error == Resolve(uploadUrl, upload(arg).value).error
  {
    if !env.fileExists(arg) then Missing
    else match upload(arg)
      case Failure(e) => Errored(e)
      case Success(response) =>
        match Resolve(uploadUrl, response)
        case Failure(e) => Errored(e)
        case Success(uri) => Uploaded(uri)
  }

  /** The loop's state: the arguments handed to the upload step so far, the result
      map, and the exception that ended the loop, if one did. */
  datatype Batch = Batch(uploaded: seq<string>, ups: Uploads, error: Option<Exception>)

  /** One iteration of the `foreach`; `key` is `FileInfo.FullName`. */
  function Step(item: string -> Item, key: string -> string, b: Batch, arg: string): (r: Batch)
    ensures r.error.None? <==> b.error.None? && item(arg).Uploaded?
    ensures b.error.None? && item(arg).Missing? ==> r.error == Some(IOException(MissingFileMessage(arg)))
    ensures b.error.None? && item(arg).Errored? ==> r.error == Some(item(arg).error)
    ensures item(arg).Missing? ==> r.uploaded == b.uploaded && r.ups == b.ups
    ensures !item(arg).Missing? ==> r.uploaded == b.uploaded + [arg]
    ensures item(arg).Uploaded? ==> r.ups.values == b.ups.values[key(arg) := item(arg).uri]
    ensures !item(arg).Uploaded? ==> r.ups == b.ups
  {
    match item(arg)
    case Missing => b.(error := Some(IOException(MissingFileMessage(arg))))
    case Errored(e) => Batch(b.uploaded + [arg], b.ups, Some(e))
    case Uploaded(uri) => Batch(b.uploaded + [arg], Put(b.ups, key(arg), uri), b.error)
  }

  /** The `foreach` over the arguments, in order, stopping at the first exception. */
  function Process(item: string -> Item, key: string -> string, b: Batch, args: seq<string>): (r: Batch)
    ensures b.error.Some? ==> r == b
    decreases |args|
  {
    if |args| == 0 || b.error.Some? then b
    else Process(item, key, Step(item, key, b, args[0]), args[1..])
  }

  /** The loop keeps the result map's keys distinct and in step with its entries. */
  lemma {:induction false} ProcessKeepsValid(item: string -> Item, key: string -> string, b: Batch, args: seq<string>)
    requires ValidUploads(b.ups)
    ensures ValidUploads(Process(item, key, b, args).ups)
    decreases |args|
  {
    if |args| > 0 && b.error.None? {
      if item(args[0]).Uploaded? {
        PutKeepsValid(b.ups, key(args[0]), item(args[0]).uri);
      }
      ProcessKeepsValid(item, key, Step(item, key, b, args[0]), args[1..]);
    }
  }

  // ---------------------------------------------------------------------------
  // The report

  /** `Path.Combine` on Windows. */
  function Combine(dir: string, name: string): string {
    if |dir| == 0 then name
    else if dir[|dir| - 1] in "\\/:" then dir + name
    else dir + "\\" + name
  }

  /** The tens and the units digit of a number below 100. */
  function Tens(n: nat): char
    requires n < 100
  {
    DigitChar(n / 10)
  }

  function Units(n: nat): char
    requires n < 100
  {
    DigitChar(n % 10)
  }

  /** `yyyy-MM-dd-HH-mm-ss`. */
  function Stamp(t: Timestamp): (s: string)
    requires ValidTimestamp(t)
    ensures |s| == 19
  {
    var hi, lo := t.year / 100, t.year % 100;
    [Tens(hi), Units(hi), Tens(lo), Units(lo), '-', Tens(t.month), Units(t.month), '-', Tens(t.day), Units(t.day),
     '-', Tens(t.hour), Units(t.hour), '-', Tens(t.minute), Units(t.minute), '-', Tens(t.second), Units(t.second)]
  }

  function ReportFileName(t: Timestamp): string
    requires ValidTimestamp(t)
  {
    "upload-" + Stamp(t) + ".txt"
  }

  /** The report's directory: the app base directory, unless it is blank or missing,
      then the assembly's directory `fbp`. */
  function ReportPath(env: Environment, fbp: string): string
    requires ValidTimestamp(env.now)
  {
    var dir := if IsNullOrWhiteSpace(env.baseDirectory) || !env.directoryExists(env.baseDirectory.value)
      then fbp else env.baseDirectory.value;
    Combine(dir, ReportFileName(env.now))
  }

  /** `Path.Combine` keeps both parts whole and puts at most one separator between them. */
  lemma CombineShape(dir: string, name: string)
    ensures var r := Combine(dir, name);
      && |dir| + |name| <= |r| <= |dir| + |name| + 1
      && r[..|dir|] == dir && r[|r| - |name|..] == name
      && (|r| == |dir| + |name| + 1 ==> r[|dir|] == '\\')
  {
    var r := Combine(dir, name);
    if |dir| > 0 && dir[|dir| - 1] !in "\\/:" {
      assert r == dir + ("\\" + name);
    }
  }

  /** The report is `upload-<stamp>.txt` inside the app base directory when that is
      usable, and inside `fbp` otherwise. */
  lemma ReportPathShape(env: Environment, fbp: string)
    requires ValidTimestamp(env.now)
    ensures var p, name := ReportPath(env, fbp), ReportFileName(env.now);
      && |p| >= |name| && p[|p| - |name|..] == name
      && (!IsNullOrWhiteSpace(env.baseDirectory) && env.directoryExists(env.baseDirectory.value) ==>
            |p| >= |env.baseDirectory.value| && p[..|env.baseDirectory.value|] == env.baseDirectory.value)
      && (IsNullOrWhiteSpace(env.baseDirectory) || !env.directoryExists(env.baseDirectory.value) ==>
            |p| >= |fbp| && p[..|fbp|] == fbp)
  {
    var dir := if IsNullOrWhiteSpace(env.baseDirectory) || !env.directoryExists(env.baseDirectory.value)
      then fbp else env.baseDirectory.value;
    CombineShape(dir, ReportFileName(env.now));
  }

  function IsDigit(c: char): bool {
    '0' <= c <= '9'
  }

  /** Two digits at `s[i..i + 2]`. */
  predicate DigitsAt(s: string, i: nat) {
    i + 2 <= |s| && IsDigit(s[i]) && IsDigit(s[i + 1])
  }

  function Value2(s: string, i: nat): nat
    requires DigitsAt(s, i)
  {
    10 * (s[i] as int - '0' as int) + (s[i + 1] as int - '0' as int)
  }

  /** Reads a `yyyy-MM-dd-HH-mm-ss` stamp back. */
  function ParseStamp(s: string): Option<Timestamp> {
    if |s| == 19 && DigitsAt(s, 0) && DigitsAt(s, 2) && DigitsAt(s, 5) && DigitsAt(s, 8)
      && DigitsAt(s, 11) && DigitsAt(s, 14) && DigitsAt(s, 17)
      && s[4] == '-' && s[7] == '-' && s[10] == '-' && s[13] == '-' && s[16] == '-'
    then Some(Timestamp(100 * Value2(s, 0) + Value2(s, 2), Value2(s, 5), Value2(s, 8), Value2(s, 11), Value2(s, 14), Value2(s, 17)))
    else None
  }

  lemma TwoDigits(n: nat, s: string, i: nat)
    requires n < 100 && i + 2 <= |s| && s[i] == Tens(n) && s[i + 1] == Units(n)
    ensures DigitsAt(s, i) && Value2(s, i) == n
  {
  }

  /** The report's name has a fixed length and the time can be read back from it. */
  lemma StampRoundTrip(t: Timestamp)
    requires ValidTimestamp(t)
    ensures |ReportFileName(t)| == 30
    ensures ParseStamp(Stamp(t)) == Some(t)
  {
    var s := Stamp(t);
    TwoDigits(t.year / 100, s, 0);
    TwoDigits(t.year % 100, s, 2);
    TwoDigits(t.month, s, 5);
    TwoDigits(t.day, s, 8);
    TwoDigits(t.hour, s, 11);
    TwoDigits(t.minute, s, 14);
    TwoDigits(t.second, s, 17);
  }

  /** One report line: `'<path>' = '<uri>'`. */
  function ReportLine(path: string, uri: Uri): string {
    "'" + path + "' = '" + Render(uri) + "'"
  }

  /** The loop writing one line per entry, in enumeration order. */
  method WriteReport(ups: Uploads) returns (lines: seq<string>)
    requires ValidUploads(ups)
    ensures |lines| == |ups.keys| == |ups.values|
    ensures forall i :: 0 <= i < |lines| ==> lines[i] == ReportLine(ups.keys[i], ups.values[ups.keys[i]])
  {
    lines := [];
    var i := 0;
    while i < |ups.keys|
      invariant 0 <= i <= |ups.keys|
      invariant |lines| == i
      invariant forall j :: 0 <= j < i ==> lines[j] == ReportLine(ups.keys[j], ups.values[ups.keys[j]])
    {
      var key := ups.keys[i];
      lines := lines + [ReportLine(key, ups.values[key])];
      i := i + 1;
    }
    DistinctKeysCount(ups.keys, ups.values);
  }

  lemma {:induction false} DistinctKeysCount(keys: seq<string>, values: map<string, Uri>)
    requires forall i, j :: 0 <= i < j < |keys| ==> keys[i] != keys[j]
    requires forall k :: k in values <==> k in keys
    ensures |keys| == |values|
  {
    if |keys| > 0 {
      var last := keys[|keys| - 1];
      var front := keys[..|keys| - 1];
      var rest := values - {last};
      forall k ensures k in rest <==> k in front {
        if k in front {
          var j :| 0 <= j < |front| && front[j] == k;
          assert keys[j] == k;
        }
        if k in values && k != last {
          var j :| 0 <= j < |keys| && keys[j] == k;
          assert j < |keys| - 1;
          assert front[j] == k;
        }
      }
      DistinctKeysCount(front, rest);
    }
  }

  // ---------------------------------------------------------------------------
  // RunUploaderAsync

  /** How the upload run ends: an exception (printed, no report), or the report. */
  datatype RunOutcome =
    | Failed(uploaded: seq<string>, error: Exception)
    | Reported(uploaded: seq<string>, reportPath: string, lines: seq<string>)

  function ReportLines(ups: Uploads): (lines: seq<string>)
    requires ValidUploads(ups)
  {
    seq(|ups.keys|, i requires 0 <= i < |ups.keys| => ReportLine(ups.keys[i], ups.values[ups.keys[i]]))
  }

  /** Every argument's item, for a run with this configuration and environment. */
  function Items(uploadUrl: Option<Uri>, env: Environment, upload: string -> Result<OwoResponse, Exception>): string -> Item {
    arg => ItemOf(uploadUrl, env, upload, arg)
  }

  /** The whole of `RunUploaderAsync`: the client, the loop, then the report. */
  function Run(cfg: OwoConfiguration, fbp: string, args: seq<string>, env: Environment,
               upload: string -> Result<OwoResponse, Exception>): (r: RunOutcome)
    requires ValidTimestamp(env.now)
    ensures cfg.apiBaseUri.None? ==> r == Failed([], ArgumentNullException)
    ensures |r.uploaded| <= |args| && r.uploaded == args[..|r.uploaded|]
  {
    RunWith(Construct(cfg), fbp, args, env, upload)
  }

  /** `RunUploaderAsync` AS WRITTEN: the client is built on the as-written copy. */
  function RunAsWritten(cfg: OwoConfiguration, fbp: string, args: seq<string>, env: Environment,
                        upload: string -> Result<OwoResponse, Exception>): (r: RunOutcome)
    requires ValidTimestamp(env.now)
    ensures r.Reported? ==> cfg.proxySettings.Some? && cfg.apiBaseUri.Some?
    ensures |r.uploaded| <= |args| && r.uploaded == args[..|r.uploaded|]
  {
    RunWith(ConstructAsWritten(cfg), fbp, args, env, upload)
  }

  /** The run once `new OwoClient(cfg)` has produced `built`. */
  function RunWith(built: Result<ClientState, Exception>, fbp: string, args: seq<string>, env: Environment,
                   upload: string -> Result<OwoResponse, Exception>): (r: RunOutcome)
    requires ValidTimestamp(env.now)
    ensures built.Failure? ==> r == Failed([], built.error)
    ensures |r.uploaded| <= |args| && r.uploaded == args[..|r.uploaded|]
    ensures r.Reported? ==> r.reportPath == ReportPath(env, fbp)
  {
    match built
    case Failure(e) => Failed([], e)
    case Success(state) =>
      var b := Process(Items(state.configuration.uploadUrl, env, upload), env.fullName, Batch([], NoUploads, None), args);
      ProcessKeepsValid(Items(state.configuration.uploadUrl, env, upload), env.fullName, Batch([], NoUploads, None), args);
      UploadedInOrder(Items(state.configuration.uploadUrl, env, upload), env.fullName, Batch([], NoUploads, None), args);
      if b.error.Some? then Failed(b.uploaded, b.error.value)
      else Reported(b.uploaded, ReportPath(env, fbp), ReportLines(b.ups))
  }

  /** As written, a configuration without a proxy (`Default`, or any config file
      without a `proxy` key) makes every run fail before the first upload. */
  lemma ProxylessRunFailsAsWritten(cfg: OwoConfiguration, fbp: string, args: seq<string>, env: Environment,
                                   upload: string -> Result<OwoResponse, Exception>)
    requires ValidTimestamp(env.now)
    requires cfg.proxySettings.None?
    ensures RunAsWritten(cfg, fbp, args, env, upload) == Failed([], NullReferenceException)
  {
  }

  /** With a proxy configured, the as-written run and the corrected run agree. */
  lemma RunAgreesWithProxy(cfg: OwoConfiguration, fbp: string, args: seq<string>, env: Environment,
                           upload: string -> Result<OwoResponse, Exception>)
    requires ValidTimestamp(env.now)
    requires cfg.proxySettings.Some?
    ensures RunAsWritten(cfg, fbp, args, env, upload) == Run(cfg, fbp, args, env, upload)
  {
    ConstructExtendsAsWritten(cfg);
  }

  /** `RunUploaderAsync`, statement by statement. `client` is the object the `using`
      block owns: there is one iff the constructor returned, and on every exit from the
      block it has been disposed, and its `HttpClient` released exactly once. */
  method RunUploader(cfg: OwoConfiguration, fbp: string, args: seq<string>, env: Environment,
                     upload: string -> Result<OwoResponse, Exception>) returns (run: RunOutcome, ghost client: OwoClient?)
    requires ValidTimestamp(env.now)
    ensures run == Run(cfg, fbp, args, env, upload)
    ensures client != null <==> Construct(cfg).Success?
    ensures client != null ==> client.disposed && client.httpClientDisposals == 1
  {
    client := null;
    var built := OwoClient.Open(cfg);
    if built.Failure? {
      return Failed([], built.error), client;
    }
    var owo := built.value;
    client := owo;
    ghost var item := Items(owo.configuration.uploadUrl, env, upload);
    var ups := NoUploads;
    var uploaded: seq<string> := [];
    var i := 0;
    while i < |args|
      invariant 0 <= i <= |args|
      invariant ValidUploads(ups)
      invariant owo.Valid() && !owo.disposed
      invariant Process(item, env.fullName, Batch([], NoUploads, None), args)
        == Process(item, env.fullName, Batch(uploaded, ups, None), args[i..])
    {
      var arg := args[i];
      assert args[i..][0] == arg && args[i..][1..] == args[i + 1..];
      if !env.fileExists(arg) {
        owo.Dispose();
        return Failed(uploaded, IOException(MissingFileMessage(arg))), client;
      }
      uploaded := uploaded + [arg];
      var reply := upload(arg);
      if reply.Failure? {
        owo.Dispose();
        return Failed(uploaded, reply.error), client;
      }
      var uri := Resolve(owo.configuration.uploadUrl, reply.value);
      if uri.Failure? {
        owo.Dispose();
        return Failed(uploaded, uri.error), client;
      }
      PutKeepsValid(ups, env.fullName(arg), uri.value);
      ups := Put(ups, env.fullName(arg), uri.value);
      i := i + 1;
    }
    owo.Dispose();
    var lines := WriteReport(ups);
    assert lines == ReportLines(ups);
    return Reported(uploaded, ReportPath(env, fbp), lines), client;
  }

  // ---------------------------------------------------------------------------
  // Properties of the loop

  /** The arguments are handed to the upload step strictly in order: what was
      uploaded is always a prefix of the arguments that follow. */
  lemma {:induction false} UploadedInOrder(item: string -> Item, key: string -> string, b: Batch, args: seq<string>)
    requires b.error.None?
    ensures var r := Process(item, key, b, args);
      && |b.uploaded| <= |r.uploaded| <= |b.uploaded| + |args|
      && r.uploaded == b.uploaded + args[..|r.uploaded| - |b.uploaded|]
    decreases |args|
  {
    if |args| > 0 {
      var s := Step(item, key, b, args[0]);
      var rest := args[1..];
      var r := Process(item, key, s, rest);
      assert Process(item, key, b, args) == r;
      if s.error.None? {
        UploadedInOrder(item, key, s, rest);
        var m := |r.uploaded| - |s.uploaded|;
        assert s.uploaded == b.uploaded + [args[0]];
        assert args[..m + 1] == [args[0]] + rest[..m];
      } else if item(args[0]).Missing? {
        assert r.uploaded == b.uploaded && args[..0] == [];
      } else {
        assert r.uploaded == b.uploaded + [args[0]] && args[..1] == [args[0]];
      }
    }
  }

  /** The loop ends without an exception exactly when every item is uploaded, and
      then every argument has been handed to the upload step. */
  lemma {:induction false} AllOrNothing(item: string -> Item, key: string -> string, b: Batch, args: seq<string>)
    requires b.error.None?
    ensures var r := Process(item, key, b, args);
      && (r.error.None? <==> forall i :: 0 <= i < |args| ==> item(args[i]).Uploaded?)
      && (r.error.None? ==> r.uploaded == b.uploaded + args)
    decreases |args|
  {
    if |args| > 0 {
      var s := Step(item, key, b, args[0]);
      var rest := args[1..];
      if s.error.None? {
        AllOrNothing(item, key, s, rest);
        assert forall i :: 1 <= i < |args| ==> args[i] == rest[i - 1];
        assert args == [args[0]] + rest;
      }
    }
  }

  /** The exception a failing argument raises: the missing-file `IOException`, or
      the exception of its upload or of the client's classification. */
  function ItemError(it: Item, arg: string): Exception
    requires !it.Uploaded?
  {
    if it.Missing? then IOException(MissingFileMessage(arg)) else it.error
  }

  /** `j` is the first argument that does not upload. */
  predicate FirstFailure(item: string -> Item, args: seq<string>, j: int) {
    && 0 <= j < |args| && !item(args[j]).Uploaded?
    && forall i :: 0 <= i < j ==> item(args[i]).Uploaded?
  }

  /** A batch that ends in an exception ends in the first failing argument's own. */
  lemma {:induction false} FirstFailureEnds(item: string -> Item, key: string -> string, b: Batch, args: seq<string>)
    requires b.error.None?
    requires Process(item, key, b, args).error.Some?
    ensures exists j ::
      FirstFailure(item, args, j) && Process(item, key, b, args).error == Some(ItemError(item(args[j]), args[j]))
    decreases |args|
  {
    var s := Step(item, key, b, args[0]);
    if s.error.Some? {
      assert FirstFailure(item, args, 0);
    } else {
      var rest := args[1..];
      FirstFailureEnds(item, key, s, rest);
      var j :| FirstFailure(item, rest, j)
        && Process(item, key, s, rest).error == Some(ItemError(item(rest[j]), rest[j]));
      assert rest[j] == args[j + 1];
      forall i | 0 <= i < j + 1 ensures item(args[i]).Uploaded? {
        if i > 0 { assert args[i] == rest[i - 1]; }
      }
      assert FirstFailure(item, args, j + 1);
    }
  }

  /** A path that does not exist aborts the batch: nothing at or after it is uploaded. */
  lemma {:induction false} MissingPathAborts(item: string -> Item, key: string -> string, b: Batch, args: seq<string>, i: nat)
    requires b.error.None?
    requires i < |args| && item(args[i]).Missing?
    ensures var r := Process(item, key, b, args);
      r.error.Some? && |r.uploaded| <= |b.uploaded| + i
    decreases |args|
  {
    var s := Step(item, key, b, args[0]);
    if i > 0 && s.error.None? {
      MissingPathAborts(item, key, s, args[1..], i - 1);
    }
  }

  /** Keys that no remaining argument maps to keep their entry untouched. */
  lemma {:induction false} OtherKeysKept(item: string -> Item, key: string -> string, b: Batch, args: seq<string>, k: string)
    requires forall l :: 0 <= l < |args| ==> key(args[l]) != k
    ensures var r := Process(item, key, b, args);
      (k in r.ups.values <==> k in b.ups.values)
      && (k in b.ups.values ==> r.ups.values[k] == b.ups.values[k])
    decreases |args|
  {
    if |args| > 0 && b.error.None? {
      OtherKeysKept(item, key, Step(item, key, b, args[0]), args[1..], k);
    }
  }

  /** The map is keyed by full path and the last upload of a path wins. */
  lemma {:induction false} LastUploadWins(item: string -> Item, key: string -> string, b: Batch, args: seq<string>, j: nat)
    requires b.error.None?
    requires Process(item, key, b, args).error.None?
    requires j < |args|
    requires forall l :: j < l < |args| ==> key(args[l]) != key(args[j])
    ensures item(args[j]).Uploaded?
    ensures var r := Process(item, key, b, args);
      key(args[j]) in r.ups.values && r.ups.values[key(args[j])] == item(args[j]).uri
    decreases |args|
  {
    var s := Step(item, key, b, args[0]);
    var rest := args[1..];
    assert s.error.None?;
    if j == 0 {
      forall l | 0 <= l < |rest| ensures key(rest[l]) != key(args[0]) {
        assert rest[l] == args[l + 1];
      }
      OtherKeysKept(item, key, s, rest, key(args[0]));
    } else {
      assert rest[j - 1] == args[j];
      forall l | j - 1 < l < |rest| ensures key(rest[l]) != key(rest[j - 1]) {
        assert rest[l] == args[l + 1];
      }
      LastUploadWins(item, key, s, rest, j - 1);
    }
  }

  /** Every key of the map is the full path of some argument. */
  lemma {:induction false} KeysAreFullPaths(item: string -> Item, key: string -> string, b: Batch, args: seq<string>, k: string)
    requires k in Process(item, key, b, args).ups.values
    ensures k in b.ups.values || exists l :: 0 <= l < |args| && key(args[l]) == k
    decreases |args|
  {
    if |args| > 0 && b.error.None? {
      var s := Step(item, key, b, args[0]);
      KeysAreFullPaths(item, key, s, args[1..], k);
      if k !in b.ups.values && k !in s.ups.values {
        var l :| 0 <= l < |args[1..]| && key(args[1..][l]) == k;
        assert key(args[l + 1]) == k;
      }
    }
  }

  /** A report is written only when the client could be built and every file
      exists and uploads; every argument was then handed to the upload step, in order.
      As written, a run without a proxy never reaches the report. */
  lemma ReportOnlyWhenAllSucceed(cfg: OwoConfiguration, fbp: string, args: seq<string>, env: Environment,
                                 upload: string -> Result<OwoResponse, Exception>)
    requires ValidTimestamp(env.now)
    ensures var r := Run(cfg, fbp, args, env, upload);
      r.Reported? <==> cfg.apiBaseUri.Some? && forall i :: 0 <= i < |args| ==> ItemOf(cfg.uploadUrl, env, upload, args[i]).Uploaded?
    ensures var r := Run(cfg, fbp, args, env, upload);
      r.Reported? ==> r.uploaded == args && r.reportPath == ReportPath(env, fbp)
    ensures RunAsWritten(cfg, fbp, args, env, upload).Reported? <==>
      cfg.proxySettings.Some? && Run(cfg, fbp, args, env, upload).Reported?
  {
    if cfg.proxySettings.Some? {
      RunAgreesWithProxy(cfg, fbp, args, env, upload);
    }
    if cfg.apiBaseUri.Some? {
      var item := Items(Construct(cfg).value.configuration.uploadUrl, env, upload);
      AllOrNothing(item, env.fullName, Batch([], NoUploads, None), args);
      assert forall i :: 0 <= i < |args| ==> item(args[i]) == ItemOf(cfg.uploadUrl, env, upload, args[i]);
    }
  }

  /** A run that fails after the client was built prints the exception of the first
      argument that did not upload: the missing-file `IOException`, or that file's
      upload or classification exception. */
  lemma FailedRunNamesFirstFailure(cfg: OwoConfiguration, fbp: string, args: seq<string>, env: Environment,
                                   upload: string -> Result<OwoResponse, Exception>)
    requires ValidTimestamp(env.now)
    requires cfg.apiBaseUri.Some?
    requires Run(cfg, fbp, args, env, upload).Failed?
    ensures exists j :: (FirstFailure(Items(cfg.uploadUrl, env, upload), args, j) &&
      Run(cfg, fbp, args, env, upload).error == ItemError(ItemOf(cfg.uploadUrl, env, upload, args[j]), args[j]))
  {
    var item := Items(cfg.uploadUrl, env, upload);
    assert Construct(cfg).value.configuration.uploadUrl == cfg.uploadUrl;
    FirstFailureEnds(item, env.fullName, Batch([], NoUploads, None), args);
  }

  // ---------------------------------------------------------------------------
  // The whole program

  datatype ProgramOutcome = NotRun(startup: Startup) | Ran(run: RunOutcome)

  /** `Main`: start-up, then the uploader with the accepted configuration, on the
      corrected configuration copy. */
  function RunProgram(configExists: bool, loaded: Result<Option<OwoConfiguration>, Exception>, fbp: string,
                      args: seq<string>, env: Environment, upload: string -> Result<OwoResponse, Exception>): (r: ProgramOutcome)
    requires ValidTimestamp(env.now)
    ensures !configExists ==> r == NotRun(DefaultWritten(Default))
    ensures r.Ran? <==> configExists && loaded.Success? && loaded.value.Some? && ConfigAccepted(loaded.value.value)
    ensures r.Ran? ==> r.run == Run(loaded.value.value, fbp, args, env, upload)
    ensures r.NotRun? ==> r.startup == Start(configExists, loaded)
    ensures r.NotRun? && r.startup.DefaultWritten? <==> !configExists
  {
    match Start(configExists, loaded)
    case Accepted(cfg) => Ran(Run(cfg, fbp, args, env, upload))
    case other => NotRun(other)
  }

  /** `Main` AS WRITTEN: the same start-up, then the as-written uploader. */
  function RunProgramAsWritten(configExists: bool, loaded: Result<Option<OwoConfiguration>, Exception>, fbp: string,
                               args: seq<string>, env: Environment, upload: string -> Result<OwoResponse, Exception>): (r: ProgramOutcome)
    requires ValidTimestamp(env.now)
    ensures r.Ran? <==> configExists && loaded.Success? && loaded.value.Some? && ConfigAccepted(loaded.value.value)
    ensures r.Ran? ==> r.run == RunAsWritten(loaded.value.value, fbp, args, env, upload)
    ensures r.NotRun? ==> r.startup == Start(configExists, loaded)
  {
    match Start(configExists, loaded)
    case Accepted(cfg) => Ran(RunAsWritten(cfg, fbp, args, env, upload))
    case other => NotRun(other)
  }

  /** The default file `Main` writes has no proxy, so filling in a key and keeping
      the rest gives a configuration that start-up accepts; as written, its run then
      fails with `NullReferenceException` before any upload, whereas the corrected
      run reports whenever every argument uploads. */
  lemma FilledDefaultFailsAsWritten(key: string, fbp: string, args: seq<string>, env: Environment,
                                    upload: string -> Result<OwoResponse, Exception>)
    requires ValidTimestamp(env.now)
    requires !IsNullOrWhiteSpace(Some(key)) && key != PlaceholderApiKey
    ensures var loaded := Success(Some(Default.(apiKey := Some(key))));
      && RunProgramAsWritten(true, loaded, fbp, args, env, upload) == Ran(Failed([], NullReferenceException))
      && RunProgram(true, loaded, fbp, args, env, upload).Ran?
      && (RunProgram(true, loaded, fbp, args, env, upload).run.Reported? <==>
            forall i :: 0 <= i < |args| ==> ItemOf(Default.uploadUrl, env, upload, args[i]).Uploaded?)
  {
    var cfg := Default.(apiKey := Some(key));
    DefaultIsFreshWithPlaceholder();
    assert ConfigAccepted(cfg);
    ProxylessRunFailsAsWritten(cfg, fbp, args, env, upload);
    ReportOnlyWhenAllSucceed(cfg, fbp, args, env, upload);
  }
}

/** `OwoConfiguration` and `ProxyConfiguration`: the uploader's settings record,
    its defaults and its copy constructors. Every reference-typed property can be
    null, so each is an `Option`. */
module Configuration {
  import opened Wrappers
  import opened Exceptions
  import opened Uris

  datatype ProxyConfiguration = ProxyConfiguration(
    address: Option<Uri>,
    username: Option<string>,
    password: Option<string>)

  datatype OwoConfiguration = OwoConfiguration(
    apiKey: Option<string>,
    uploadUrl: Option<Uri>,
    shortenerUrl: Option<Uri>,
    apiBaseUri: Option<Uri>,
    proxySettings: Option<ProxyConfiguration>)

  /** The placeholder key that `Default` carries and the CLI refuses. */
  const PlaceholderApiKey: string := "your-api-key-here"

  /** `new Uri("https://owo.whats-th.is")` and the other two initialisers, already parsed. */
  const DefaultUploadUrl: Uri := Uri("https", "owo.whats-th.is", 443, "/", "", "")
  const DefaultShortenerUrl: Uri := Uri("https", "awau.moe", 443, "/", "", "")
  const DefaultApiBaseUri: Uri := Uri("https", "api.awau.moe", 443, "/", "", "")

  /** `new OwoConfiguration()`: the three URIs initialised, key and proxy null. */
  const Fresh: OwoConfiguration :=
    OwoConfiguration(None, Some(DefaultUploadUrl), Some(DefaultShortenerUrl), Some(DefaultApiBaseUri), None)

  /** `OwoConfiguration.Default`: a fresh configuration with the placeholder key. */
  const Default: OwoConfiguration := Fresh.(apiKey := Some(PlaceholderApiKey))

  /** `Default` differs from a fresh configuration in the API key and nowhere else. */
  lemma DefaultIsFreshWithPlaceholder()
    ensures Default.apiKey == Some(PlaceholderApiKey) && Fresh.apiKey == None
    ensures Default.(apiKey := None) == Fresh
    ensures Default.proxySettings.None?
  {
  }

  /** The proxy copy constructor: a new object with the same three properties. */
  function CopyProxy(other: ProxyConfiguration): (r: ProxyConfiguration)
    ensures r.address == other.address && r.username == other.username && r.password == other.password
  {
    ProxyConfiguration(other.address, other.username, other.password)
  }

  /** The configuration copy constructor AS WRITTEN: it hands `other.ProxySettings`
      to the proxy copy constructor without a null check, so a configuration
      without a proxy cannot be copied. */
  function CopyAsWritten(other: OwoConfiguration): (r: Result<OwoConfiguration, Exception>)
    ensures r.Failure? <==> other.proxySettings.None?
    ensures r.Failure? ==> r.error == NullReferenceException
    ensures r.Success? ==> r.value == other
  {
    match other.proxySettings
    case None => Failure(NullReferenceException)
    case Some(p) => Success(other.(proxySettings := Some(CopyProxy(p))))
  }

  /** Every configuration the as-written copy produces has a proxy, so the
      client's `UseProxy = ProxySettings != null` is always true after it. */
  lemma AsWrittenCopyAlwaysHasProxy(other: OwoConfiguration)
    requires CopyAsWritten(other).Success?
    ensures CopyAsWritten(other).value.proxySettings.Some?
  {
  }

  /** The counterexample: neither `Default` nor a fresh configuration can be copied. */
  lemma DefaultCannotBeCopied()
    ensures CopyAsWritten(Default) == Failure(NullReferenceException)
    ensures CopyAsWritten(Fresh) == Failure(NullReferenceException)
  {
  }

  /** The copy constructor as evidently intended (the client tests the copy's proxy
      for null): a null proxy stays null, any other proxy is copied. */
  function Copy(other: OwoConfiguration): (r: OwoConfiguration)
    ensures r.apiKey == other.apiKey && r.uploadUrl == other.uploadUrl
    ensures r.shortenerUrl == other.shortenerUrl && r.apiBaseUri == other.apiBaseUri
    ensures r.proxySettings.None? <==> other.proxySettings.None?
    ensures r.proxySettings.Some? ==> r.proxySettings.value == other.proxySettings.value
  {
    match other.proxySettings
    case None => other
    case Some(p) => other.(proxySettings := Some(CopyProxy(p)))
  }

  /** The corrected copy agrees with the as-written one wherever that one succeeds. */
  lemma CopyExtendsAsWritten(other: OwoConfiguration)
    requires CopyAsWritten(other).Success?
    ensures Copy(other) == CopyAsWritten(other).value
  {
  }
}

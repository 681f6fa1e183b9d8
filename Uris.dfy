/** `System.Uri` and `UriBuilder`, reduced to the components the client reads and replaces.
    Parsing, escaping and normalisation stay outside the model: a `Uri` here is already parsed. */
module Uris {

  /** An absolute URI. `query` is empty or starts with '?', `fragment` is empty or starts with '#'. */
  datatype Uri = Uri(scheme: string, host: string, port: int, path: string, query: string, fragment: string) {

    /** `new UriBuilder(this) { Path = p }.Uri`: only the path changes. */
    function WithPath(p: string): (u: Uri)
      ensures u.path == p
      ensures u.scheme == scheme && u.host == host && u.port == port
      ensures u.query == query && u.fragment == fragment
    {
      this.(path := p)
    }

    /** `new UriBuilder(this) { Host = h }.Uri`: only the host changes. */
    function WithHost(h: string): (u: Uri)
      ensures u.host == h
      ensures u.scheme == scheme && u.port == port && u.path == path
      ensures u.query == query && u.fragment == fragment
    {
      this.(host := h)
    }
  }

  /** The port a scheme uses when none is written. */
  function DefaultPort(scheme: string): int {
    if scheme == "https" then 443 else if scheme == "http" then 80 else -1
  }

  function DigitChar(d: nat): (c: char)
    requires d < 10
    ensures '0' <= c <= '9' && c as int - '0' as int == d
  {
    ('0' as int + d) as char
  }

  /** Decimal text of a natural number, without leading zeros. */
  function DecimalText(n: nat): (s: string)
    ensures |s| > 0
    decreases n
  {
    if n < 10 then [DigitChar(n)] else DecimalText(n / 10) + [DigitChar(n % 10)]
  }

  /** `Uri.ToString()`: the port is written only when it is not the scheme's default. */
  function Render(u: Uri): string {
    var port := if u.port < 0 || u.port == DefaultPort(u.scheme) then "" else ":" + DecimalText(u.port);
    u.scheme + "://" + u.host + port + u.path + u.query + u.fragment
  }
}

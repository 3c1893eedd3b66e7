/** The request the reporter sends to the remote: its target and its headers. */
module RemoteReporter {
  import opened StatusTypes

  const UnitsStatusPath: string := "/units/status"
  const BearerScheme: string := "bearer "
  const JsonContentType: string := "application/json"

  /** An HTTP request as the reporter builds it; the body is the payload before
      JSON encoding. */
  datatype Request = Request(
    verb: string,
    url: string,
    contentType: string,
    authorization: string,
    body: seq<ContainerStatus>)

  /** `s` with every trailing '/' removed: the longest prefix of `s` that does not
      end in '/' and after which `s` holds only '/'. */
  function TrimRightSlash(s: string): (r: string)
    ensures r <= s
    ensures r == "" || r[|r| - 1] != '/'
    ensures forall k | |r| <= k < |s| :: s[k] == '/'
    decreases |s|
  {
    if s != "" && s[|s| - 1] == '/' then TrimRightSlash(s[..|s| - 1]) else s
  }

  /** The three properties of TrimRightSlash's contract determine its result. */
  lemma TrimRightSlashUnique(s: string, t: string)
    requires t <= s
    requires t == "" || t[|t| - 1] != '/'
    requires forall k | |t| <= k < |s| :: s[k] == '/'
    ensures t == TrimRightSlash(s)
  {
  }

  /** Trimming twice is trimming once. */
  lemma TrimRightSlashIdempotent(s: string)
    ensures TrimRightSlash(TrimRightSlash(s)) == TrimRightSlash(s)
  {
  }

  /** An extra trailing '/' makes no difference. */
  lemma TrimRightSlashAbsorbsSlash(s: string)
    ensures TrimRightSlash(s + "/") == TrimRightSlash(s)
  {
  }

  /** The report endpoint: the base URL with all trailing '/' removed, then
      "/units/status". */
  function StatusUrl(endpoint: string): (url: string)
    ensures |url| >= |UnitsStatusPath|
    ensures url[|url| - |UnitsStatusPath|..] == UnitsStatusPath
    ensures url[..|url| - |UnitsStatusPath|] == TrimRightSlash(endpoint)
  {
    TrimRightSlash(endpoint) + UnitsStatusPath
  }

  /** A base URL that already has no trailing '/' is used as it is. */
  lemma StatusUrlOfPlainEndpoint(endpoint: string)
    requires endpoint == "" || endpoint[|endpoint| - 1] != '/'
    ensures StatusUrl(endpoint) == endpoint + UnitsStatusPath
  {
  }

  /** Trailing slashes on the base URL do not change the endpoint. */
  lemma StatusUrlIgnoresTrailingSlash(endpoint: string)
    ensures StatusUrl(endpoint + "/") == StatusUrl(endpoint)
  {
  }

  /** The Authorization header value: the bearer scheme, then the token. */
  function AuthorizationValue(token: string): (h: string)
    ensures |h| == |BearerScheme| + |token|
    ensures h[..|BearerScheme|] == BearerScheme
    ensures h[|BearerScheme|..] == token
  {
    BearerScheme + token
  }

  /** Distinct tokens give distinct header values. */
  lemma AuthorizationValueInjective(t1: string, t2: string)
    requires AuthorizationValue(t1) == AuthorizationValue(t2)
    ensures t1 == t2
  {
  }

  /** The POST the reporter issues for a non-empty payload. */
  function NewRequest(config: ReporterConfig, payload: seq<ContainerStatus>): (r: Request)
    ensures r.verb == "POST"
    ensures r.url == StatusUrl(config.tsuruEndpoint)
    ensures r.contentType == JsonContentType
    ensures r.authorization == AuthorizationValue(config.tsuruToken)
    ensures r.body == payload
  {
    Request("POST", StatusUrl(config.tsuruEndpoint), JsonContentType,
            AuthorizationValue(config.tsuruToken), payload)
  }
}

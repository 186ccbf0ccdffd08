/**
 * The request-signing client (src/AmazonMwsClient.php): Amazon MWS
 * "Signature Version 2" for POST requests, and the classification of the
 * response.
 *
 * What the PHP code takes from its surroundings is passed in explicitly: the
 * HMAC-SHA256, MD5 and base64 primitives, the date formatter, `parse_url`,
 * the XML parser and the runtime details of the user agent form an
 * `Environment`; the clock reading is an integer number of seconds; the
 * response of the HTTP call is a `Response` value.
 */
module MwsClient {
  import opened Wrappers
  import opened ByteStrings
  import opened Text
  import opened UrlEncoding
  import opened PhpArrays
  import opened Xml
  import opened MwsErrors

  const MethodPost: Bytes := "POST"
  const SignatureMethod: Bytes := "HmacSHA256"
  /** Every base URL must contain this. */
  const BaseUrlNeedle: Bytes := "https://mws.amazonservices"
  const DefaultApplicationName: Bytes := "YucaAmazonMwsClient"
  const DefaultApplicationVersion: Bytes := "1.0"
  const DefaultBaseUrl: Bytes := "https://mws.amazonservices.com"
  const FormContentType: Bytes := "application/x-www-form-urlencoded" + "; charset=UTF-8"
  const XmlContentType: Bytes := "text/xml"
  const MarketplaceKeyPrefix: Bytes := "MarketplaceIdList.Id."
  /** The keys `genQuery` and `send` treat specially. */
  const TimestampKey: Bytes := "Timestamp"
  const ContentMd5Key: Bytes := "ContentMD5Value"
  const SignatureKey: Bytes := "Signature"
  const XmlKey: Bytes := "xml"
  const MarketplaceIdKey: Bytes := "MarketplaceId"
  /** How many seconds the timestamp lags the clock. */
  const TimestampSkew: int := 120

  /** The parts of a URL that the string to sign uses. */
  datatype Url = Url(host: Bytes, path: Option<Bytes>)

  datatype Environment = Environment(
    hmacSha256: (Bytes, Bytes) -> Bytes,   // raw `hash_hmac('sha256', data, key, true)`
    md5: Bytes -> Bytes,                   // raw `md5(data, true)`
    base64: Bytes -> Bytes,                // `base64_encode`
    formatTime: int -> Bytes,              // `date('Y-m-d\TH:i:sO', t)`
    parseUrl: Bytes -> Url,                // `parse_url`
    parseXml: Bytes -> Option<Node>,       // `simplexml_load_string`; None for a falsy result
    phpVersion: Bytes,
    osName: Bytes,
    machine: Bytes,
    osRelease: Bytes)

  /** The reasons construction fails with `InvalidArgumentException`. */
  datatype ConfigError = BaseUrlMismatch(received: Bytes) | MissingApplicationName | MissingApplicationVersion

  predicate IsNullOrEmpty(s: Option<Bytes>) {
    s.None? || s == Some([])
  }

  /**
   * The constructor's checks, in their order: the base URL must contain the
   * needle, then the application name and version must be neither null nor
   * empty.
   */
  function ConfigProblem(baseUrl: Bytes, applicationName: Option<Bytes>, applicationVersion: Option<Bytes>)
    : (r: Option<ConfigError>)
    ensures r == Some(BaseUrlMismatch(baseUrl)) <==> !Contains(baseUrl, BaseUrlNeedle)
    ensures r == Some(MissingApplicationName) <==>
      Contains(baseUrl, BaseUrlNeedle) && IsNullOrEmpty(applicationName)
    ensures r == Some(MissingApplicationVersion) <==>
      Contains(baseUrl, BaseUrlNeedle) && !IsNullOrEmpty(applicationName) && IsNullOrEmpty(applicationVersion)
    ensures r.None? <==>
      Contains(baseUrl, BaseUrlNeedle) && !IsNullOrEmpty(applicationName) && !IsNullOrEmpty(applicationVersion)
  {
    if StrPos(baseUrl, BaseUrlNeedle).None? then Some(BaseUrlMismatch(baseUrl))
    else if IsNullOrEmpty(applicationName) then Some(MissingApplicationName)
    else if IsNullOrEmpty(applicationVersion) then Some(MissingApplicationVersion)
    else None
  }

  /** A foreign host is refused; a regional service host is accepted. */
  lemma ConfigExamples()
    ensures ConfigProblem("https://example.com", Some(DefaultApplicationName), Some(DefaultApplicationVersion))
      == Some(BaseUrlMismatch("https://example.com"))
    ensures ConfigProblem("https://mws.amazonservices.co.uk", Some(DefaultApplicationName), Some(DefaultApplicationVersion))
      == None
  {
    assert OccursAt("https://mws.amazonservices.co.uk", BaseUrlNeedle, 0);
  }

  /** A client built with the constructor's default name, version and base URL is accepted. */
  lemma DefaultsAreValid()
    ensures ConfigProblem(DefaultBaseUrl, Some(DefaultApplicationName), Some(DefaultApplicationVersion)) == None
  {
    assert OccursAt(DefaultBaseUrl, BaseUrlNeedle, 0);
  }

  /** The key of the `n`-th marketplace id, counting from 1. */
  function MarketplaceKey(n: nat): Bytes {
    MarketplaceKeyPrefix + DecimalString(n)
  }

  /** The marketplace ids as `MarketplaceIdList.Id.1`, `.2`, ... in order. */
  function MarketplaceEntries(ids: seq<Bytes>): Params {
    seq(|ids|, i requires 0 <= i < |ids| => (MarketplaceKey(i + 1), ids[i]))
  }

  lemma MarketplaceKeyInjective(n: nat, m: nat)
    requires MarketplaceKey(n) == MarketplaceKey(m)
    ensures n == m
  {
    assert MarketplaceKey(n)[|MarketplaceKeyPrefix|..] == DecimalString(n);
    assert MarketplaceKey(m)[|MarketplaceKeyPrefix|..] == DecimalString(m);
    DecimalStringInjective(n, m);
  }

  /** One `key=value` pair of the query string, the value raw-url-encoded. */
  function PairString(e: Entry): Bytes {
    e.0 + "=" + RawUrlEncode(e.1)
  }

  function PairStrings(ps: Params): seq<Bytes> {
    seq(|ps|, i requires 0 <= i < |ps| => PairString(ps[i]))
  }

  /** `getParametersAsString`: the pairs in iteration order, joined with `&`. */
  function Serialise(ps: Params): Bytes {
    Join(PairStrings(ps), '&')
  }

  /** Splits one `key=value` pair at its first `=` and decodes the value. */
  function ParsePair(p: Bytes): Entry {
    match StrPos(p, "=")
    case None => (p, [])
    case Some(i) => (p[..i], PercentDecode(p[i + 1..]))
  }

  /** Reads a query string back into its entries. */
  function ParseQuery(q: Bytes): Params {
    if |q| == 0 then []
    else
      var pieces := Split(q, '&');
      seq(|pieces|, i requires 0 <= i < |pieces| => ParsePair(pieces[i]))
  }

  /** Keys are written unencoded, so they must not hold the separators. */
  predicate PlainKeys(ps: Params) {
    forall i :: 0 <= i < |ps| ==> '&' !in ps[i].0 && '=' !in ps[i].0
  }

  lemma ParsePairOfPairString(e: Entry)
    requires '=' !in e.0
    ensures ParsePair(PairString(e)) == e
  {
    var p := PairString(e);
    var k := |e.0|;
    assert OccursAt(p, "=", k);
    assert p[..k] == e.0;
    var i := StrPos(p, "=").value;
    assert p[i] == '=';
    assert p[..k] == e.0 && p[k + 1..] == RawUrlEncode(e.1);
    DecodeEncode(e.1);
  }

  /**
   * The serialisation loses nothing: its pairs split back into the original
   * entries, in order, with the values decoded. An empty array gives "".
   */
  lemma SerialiseRoundTrip(ps: Params)
    requires PlainKeys(ps)
    ensures |ps| == 0 <==> Serialise(ps) == []
    ensures ParseQuery(Serialise(ps)) == ps
  {
    var pieces := PairStrings(ps);
    if |ps| > 0 {
      forall i | 0 <= i < |pieces| ensures '&' !in pieces[i] {
        assert pieces[i] == ps[i].0 + "=" + RawUrlEncode(ps[i].1);
      }
      SplitJoin(pieces, '&');
      assert |Serialise(ps)| >= |pieces[0]| > 0;
      forall i | 0 <= i < |ps| ensures ParsePair(pieces[i]) == ps[i] {
        ParsePairOfPairString(ps[i]);
      }
    }
  }

  function EncodeSegments(xs: seq<Bytes>): seq<Bytes> {
    seq(|xs|, i requires 0 <= i < |xs| => RawUrlEncode(xs[i]))
  }

  function DecodeSegments(xs: seq<Bytes>): seq<Bytes> {
    seq(|xs|, i requires 0 <= i < |xs| => PercentDecode(xs[i]))
  }

  /** The request path with each `/`-separated segment encoded on its own. */
  function EncodePath(path: Bytes): Bytes {
    Join(EncodeSegments(Split(path, '/')), '/')
  }

  /**
   * The encoded path has the same segments as the path, each encoded, and
   * decoding them one by one gives the path back.
   */
  lemma EncodePathBySegment(path: Bytes)
    ensures Split(EncodePath(path), '/') == EncodeSegments(Split(path, '/'))
    ensures Join(DecodeSegments(Split(EncodePath(path), '/')), '/') == path
  {
    var segments := Split(path, '/');
    var encoded := EncodeSegments(segments);
    SplitJoin(encoded, '/');
    forall i | 0 <= i < |segments| ensures DecodeSegments(encoded)[i] == segments[i] {
      DecodeEncode(segments[i]);
    }
    assert DecodeSegments(encoded) == segments;
    JoinSplit(path, '/');
  }

  /**
   * `calculateStringToSign`: method, host, the encoded path (`/` when the URL
   * has none) and the entries sorted by `strcmp` of their keys.
   */
  function CanonicalString(host: Bytes, path: Option<Bytes>, ps: Params): Bytes {
    MethodPost + "\n" + host + "\n" + EncodePath(path.GetOr("/")) + "\n" + Serialise(SortByKey(ps))
  }

  /** The string to sign does not depend on the order the entries come in. */
  lemma CanonicalStringOrderIndependent(host: Bytes, path: Option<Bytes>, p: Params, q: Params)
    requires DistinctKeys(p) && DistinctKeys(q)
    requires multiset(p) == multiset(q)
    ensures CanonicalString(host, path, p) == CanonicalString(host, path, q)
  {
    SortByKeyOrderIndependent(p, q);
  }

  /**
   * After the three header lines the string to sign holds exactly the
   * entries, in strictly increasing key order.
   */
  lemma CanonicalStringSignsSortedEntries(host: Bytes, path: Option<Bytes>, ps: Params)
    requires DistinctKeys(ps) && PlainKeys(ps)
    ensures var header := MethodPost + "\n" + host + "\n" + EncodePath(path.GetOr("/")) + "\n";
      var c := CanonicalString(host, path, ps);
      var signed := ParseQuery(c[|header|..]);
      && IsPrefix(header, c)
      && StrictlySorted(signed)
      && multiset(signed) == multiset(ps)
  {
    var sorted := SortByKey(ps);
    SortByKeySorts(ps);
    forall i | 0 <= i < |sorted| ensures '&' !in sorted[i].0 && '=' !in sorted[i].0 {
      assert sorted[i] in multiset(ps);
    }
    SerialiseRoundTrip(sorted);
  }

  datatype HttpRequest = HttpRequest(
    httpMethod: Bytes,
    uri: Bytes,
    userAgent: Bytes,
    contentType: Bytes,
    query: Option<Params>,
    body: Bytes)

  datatype Response = Response(headers: Headers, body: Bytes)

  /** What `send` gives back: the raw content, the parsed document, or the thrown error. */
  datatype Outcome = RawContent(content: Bytes) | Document(root: Node) | ServiceError(exception: MwsClientException)

  /**
   * Content that does not parse is returned raw; a parsed document with an
   * `Error` child becomes the exception; any other document is returned.
   */
  ghost predicate ClassifiedAs(outcome: Outcome, content: Bytes, parsed: Option<Node>, headers: Headers) {
    match parsed
    case None => outcome == RawContent(content)
    case Some(root) =>
      if Child(root, "Error").None? then outcome == Document(root)
      else
        && outcome.ServiceError?
        && outcome.exception.Valid()
        && outcome.exception.error == root
        && outcome.exception.headers == headers
  }

  method ClassifyResponse(content: Bytes, parsed: Option<Node>, headers: Headers) returns (outcome: Outcome)
    ensures ClassifiedAs(outcome, content, parsed, headers)
    ensures outcome.ServiceError? ==> fresh(outcome.exception)
  {
    if parsed.None? {
      return RawContent(content);
    }
    var root := parsed.value;
    if Child(root, "Error").Some? {
      var e := new MwsClientException(root, headers);
      return ServiceError(e);
    }
    outcome := Document(root);
  }

  class Client {
    const accessKey: Bytes
    const secretKey: Bytes
    const sellerId: Bytes
    const marketplaceIds: seq<Bytes>
    const mwsAuthToken: Bytes
    const applicationName: Bytes
    const applicationVersion: Bytes
    const baseUrl: Bytes

    /** Stores the settings, which `Create` has already checked. */
    constructor (accessKey: Bytes, secretKey: Bytes, sellerId: Bytes, marketplaceIds: seq<Bytes>,
                 mwsAuthToken: Bytes, applicationName: Bytes, applicationVersion: Bytes, baseUrl: Bytes)
      requires ConfigProblem(baseUrl, Some(applicationName), Some(applicationVersion)).None?
      ensures this.accessKey == accessKey && this.secretKey == secretKey && this.sellerId == sellerId
      ensures this.marketplaceIds == marketplaceIds && this.mwsAuthToken == mwsAuthToken
      ensures this.applicationName == applicationName && this.applicationVersion == applicationVersion
      ensures this.baseUrl == baseUrl
    {
      this.accessKey := accessKey;
      this.secretKey := secretKey;
      this.sellerId := sellerId;
      this.marketplaceIds := marketplaceIds;
      this.mwsAuthToken := mwsAuthToken;
      this.applicationName := applicationName;
      this.applicationVersion := applicationVersion;
      this.baseUrl := baseUrl;
    }

    /**
     * The PHP constructor: fails on a base URL without the needle or a null
     * or empty application name or version, and otherwise keeps all eight
     * settings unchanged.
     */
    static method Create(accessKey: Bytes, secretKey: Bytes, sellerId: Bytes, marketplaceIds: seq<Bytes>,
                         mwsAuthToken: Bytes, applicationName: Option<Bytes>, applicationVersion: Option<Bytes>,
                         baseUrl: Bytes)
      returns (r: Result<Client, ConfigError>)
      ensures r.Failure? <==> ConfigProblem(baseUrl, applicationName, applicationVersion).Some?
      ensures r.Failure? ==> Some(r.error) == ConfigProblem(baseUrl, applicationName, applicationVersion)
      ensures r.Success? ==> fresh(r.value)
      ensures r.Success? ==>
        && r.value.accessKey == accessKey && r.value.secretKey == secretKey && r.value.sellerId == sellerId
        && r.value.marketplaceIds == marketplaceIds && r.value.mwsAuthToken == mwsAuthToken
        && Some(r.value.applicationName) == applicationName
        && Some(r.value.applicationVersion) == applicationVersion
        && r.value.baseUrl == baseUrl
    {
      var problem := ConfigProblem(baseUrl, applicationName, applicationVersion);
      if problem.Some? {
        return Failure(problem.value);
      }
      var c := new Client(accessKey, secretKey, sellerId, marketplaceIds, mwsAuthToken,
                          applicationName.value, applicationVersion.value, baseUrl);
      r := Success(c);
    }

    /** `genUserAgent`, over the runtime details given by the environment. */
    function UserAgent(env: Environment): Bytes {
      applicationName + "/" + applicationVersion + " (" + "Language=PHP/" + env.phpVersion + "; "
        + "Platform=" + env.osName + "/" + env.machine + "/" + env.osRelease + ")"
    }

    /** The seven keys every request carries. */
    function FixedParams(action: Bytes, versionUri: Bytes): Params {
      [ ("AWSAccessKeyId", accessKey),
        ("Action", action),
        ("SellerId", sellerId),
        ("MWSAuthToken", mwsAuthToken),
        ("SignatureVersion", "2"),
        ("Version", LastSegment(versionUri, '/')),
        ("SignatureMethod", SignatureMethod) ]
    }

    function RequiredParams(action: Bytes, versionUri: Bytes, ignoreMarketplaceIds: bool): Params {
      FixedParams(action, versionUri) + if ignoreMarketplaceIds then [] else MarketplaceEntries(marketplaceIds)
    }

    lemma FixedKeysAreShort(action: Bytes, versionUri: Bytes)
      ensures forall k :: k in Keys(FixedParams(action, versionUri)) ==> |k| < |MarketplaceKeyPrefix|
    {
      assert Keys(FixedParams(action, versionUri))
        == ["AWSAccessKeyId", "Action", "SellerId", "MWSAuthToken", "SignatureVersion", "Version", "SignatureMethod"];
    }

    lemma MarketplaceKeyIsNew(action: Bytes, versionUri: Bytes, n: nat)
      requires n <= |marketplaceIds|
      ensures MarketplaceKey(n + 1) !in Keys(FixedParams(action, versionUri) + MarketplaceEntries(marketplaceIds[..n]))
    {
      var r := FixedParams(action, versionUri) + MarketplaceEntries(marketplaceIds[..n]);
      FixedKeysAreShort(action, versionUri);
      forall i | 0 <= i < |r| ensures r[i].0 != MarketplaceKey(n + 1) {
        if i >= 7 && r[i].0 == MarketplaceKey(n + 1) {
          MarketplaceKeyInjective(i - 7 + 1, n + 1);
        }
      }
    }

    /** Putting the next marketplace id appends it under its new key. */
    lemma MarketplaceStep(action: Bytes, versionUri: Bytes, n: nat)
      requires n < |marketplaceIds|
      ensures var r := FixedParams(action, versionUri) + MarketplaceEntries(marketplaceIds[..n]);
        Put(r, MarketplaceKey(n + 1), marketplaceIds[n])
          == FixedParams(action, versionUri) + MarketplaceEntries(marketplaceIds[..n + 1])
    {
      var r := FixedParams(action, versionUri) + MarketplaceEntries(marketplaceIds[..n]);
      MarketplaceKeyIsNew(action, versionUri, n);
      KeysPut(r, MarketplaceKey(n + 1), marketplaceIds[n]);
      assert MarketplaceEntries(marketplaceIds[..n + 1])
        == MarketplaceEntries(marketplaceIds[..n]) + [(MarketplaceKey(n + 1), marketplaceIds[n])];
    }

    /**
     * `buildRequiredParams`: the fixed keys, then, unless told to ignore
     * them, one `MarketplaceIdList.Id.N` key per marketplace id.
     */
    method BuildRequiredParams(action: Bytes, versionUri: Bytes, ignoreMarketplaceIds: bool) returns (r: Params)
      ensures r == RequiredParams(action, versionUri, ignoreMarketplaceIds)
    {
      var version := Split(versionUri, '/');
      r := [ ("AWSAccessKeyId", accessKey),
             ("Action", action),
             ("SellerId", sellerId),
             ("MWSAuthToken", mwsAuthToken),
             ("SignatureVersion", "2"),
             ("Version", version[|version| - 1]),
             ("SignatureMethod", SignatureMethod) ];
      if !ignoreMarketplaceIds {
        var key := 1;
        var i := 0;
        while i < |marketplaceIds|
          invariant 0 <= i <= |marketplaceIds| && key == i + 1
          invariant r == FixedParams(action, versionUri) + MarketplaceEntries(marketplaceIds[..i])
        {
          var param := MarketplaceKeyPrefix + DecimalString(key);
          MarketplaceStep(action, versionUri, i);
          r := Put(r, param, marketplaceIds[i]);
          key := key + 1;
          i := i + 1;
        }
        assert marketplaceIds[..i] == marketplaceIds;
      }
    }

    lemma RequiredKeysDistinct(action: Bytes, versionUri: Bytes, ignoreMarketplaceIds: bool)
      ensures DistinctKeys(RequiredParams(action, versionUri, ignoreMarketplaceIds))
    {
      var r := RequiredParams(action, versionUri, ignoreMarketplaceIds);
      FixedKeysAreShort(action, versionUri);
      forall i, j | 0 <= i < j < |r| ensures r[i].0 != r[j].0 {
        if 7 <= i {
          if r[i].0 == r[j].0 {
            MarketplaceKeyInjective(i - 6, j - 6);
          }
        } else if 7 <= j {
          assert r[i].0 in Keys(FixedParams(action, versionUri));
        }
      }
    }

    lemma FixedParamsLookup(action: Bytes, versionUri: Bytes, r: Params)
      requires DistinctKeys(r) && |r| >= 7 && r[..7] == FixedParams(action, versionUri)
      ensures Lookup(r, "AWSAccessKeyId") == Some(accessKey)
      ensures Lookup(r, "Action") == Some(action)
      ensures Lookup(r, "SellerId") == Some(sellerId)
      ensures Lookup(r, "MWSAuthToken") == Some(mwsAuthToken)
      ensures Lookup(r, "SignatureVersion") == Some("2")
      ensures Lookup(r, "Version") == Some(LastSegment(versionUri, '/'))
      ensures Lookup(r, "SignatureMethod") == Some("HmacSHA256")
    {
      var f := FixedParams(action, versionUri);
      assert r[0] == f[0] && r[1] == f[1] && r[2] == f[2] && r[3] == f[3];
      assert r[4] == f[4] && r[5] == f[5] && r[6] == f[6];
      LookupAt(r, 0); LookupAt(r, 1); LookupAt(r, 2); LookupAt(r, 3);
      LookupAt(r, 4); LookupAt(r, 5); LookupAt(r, 6);
    }

    /**
     * The required parameters have distinct keys; the fixed keys carry the
     * credentials, the action, signature version 2, the `HmacSHA256` method
     * and the last segment of the version URI; the `n`-th marketplace key
     * carries the `n`-th id, and when ids are ignored there is no
     * marketplace key at all.
     */
    lemma RequiredParamsShape(action: Bytes, versionUri: Bytes, ignoreMarketplaceIds: bool)
      ensures DistinctKeys(RequiredParams(action, versionUri, ignoreMarketplaceIds))
      ensures var r := RequiredParams(action, versionUri, ignoreMarketplaceIds);
        && Lookup(r, "AWSAccessKeyId") == Some(accessKey)
        && Lookup(r, "Action") == Some(action)
        && Lookup(r, "SellerId") == Some(sellerId)
        && Lookup(r, "MWSAuthToken") == Some(mwsAuthToken)
        && Lookup(r, "SignatureVersion") == Some("2")
        && Lookup(r, "Version") == Some(LastSegment(versionUri, '/'))
        && Lookup(r, "SignatureMethod") == Some("HmacSHA256")
      ensures ignoreMarketplaceIds ==>
        var r := RequiredParams(action, versionUri, ignoreMarketplaceIds);
        |r| == 7 && forall k :: k in Keys(r) ==> !IsPrefix(MarketplaceKeyPrefix, k)
      ensures !ignoreMarketplaceIds ==>
        var r := RequiredParams(action, versionUri, ignoreMarketplaceIds);
        && |r| == 7 + |marketplaceIds|
        && forall n :: 1 <= n <= |marketplaceIds| ==> Lookup(r, MarketplaceKey(n)) == Some(marketplaceIds[n - 1])
    {
      var r := RequiredParams(action, versionUri, ignoreMarketplaceIds);
      RequiredKeysDistinct(action, versionUri, ignoreMarketplaceIds);
      assert r[..7] == FixedParams(action, versionUri);
      FixedParamsLookup(action, versionUri, r);
      if ignoreMarketplaceIds {
        FixedKeysAreShort(action, versionUri);
      } else {
        MarketplaceLookup(action, versionUri);
      }
    }

    lemma MarketplaceLookup(action: Bytes, versionUri: Bytes)
      requires DistinctKeys(RequiredParams(action, versionUri, false))
      ensures forall n :: 1 <= n <= |marketplaceIds| ==>
        Lookup(RequiredParams(action, versionUri, false), MarketplaceKey(n)) == Some(marketplaceIds[n - 1])
    {
      var r := RequiredParams(action, versionUri, false);
      forall n | 1 <= n <= |marketplaceIds| ensures Lookup(r, MarketplaceKey(n)) == Some(marketplaceIds[n - 1]) {
        assert r[n + 6] == (MarketplaceKey(n), marketplaceIds[n - 1]);
        LookupAt(r, n + 6);
      }
    }

    /** `sign`: the base64 HMAC-SHA256 of `data` under the secret key. */
    function Sign(env: Environment, data: Bytes): Bytes {
      env.base64(env.hmacSha256(data, secretKey))
    }

    /** The string to sign for a request to `uri` below the base URL. */
    function StringToSign(env: Environment, ps: Params, uri: Bytes): Bytes {
      var endpoint := env.parseUrl(baseUrl + uri);
      CanonicalString(endpoint.host, endpoint.path, ps)
    }

    /** `getParametersAsString`, pair by pair. */
    method ParametersAsString(ps: Params) returns (r: Bytes)
      ensures r == Serialise(ps)
    {
      var queryParameters: seq<Bytes> := [];
      var i := 0;
      while i < |ps|
        invariant 0 <= i <= |ps|
        invariant queryParameters == PairStrings(ps[..i])
      {
        var (key, value) := ps[i];
        queryParameters := queryParameters + [key + "=" + RawUrlEncode(value)];
        i := i + 1;
      }
      assert ps[..i] == ps;
      r := Join(queryParameters, '&');
    }

    /** `calculateStringToSign`, building the string piece by piece. */
    method CalculateStringToSign(env: Environment, ps: Params, uri: Bytes) returns (r: Bytes)
      ensures r == StringToSign(env, ps, uri)
    {
      var data := MethodPost;
      data := data + "\n";
      var endpoint := env.parseUrl(baseUrl + uri);
      data := data + endpoint.host;
      data := data + "\n";
      var path := if endpoint.path.Some? then endpoint.path.value else "/";
      var encoded := Join(EncodeSegments(Split(path, '/')), '/');
      data := data + encoded;
      data := data + "\n";
      var sorted := SortByKey(ps);
      var query := ParametersAsString(sorted);
      data := data + query;
      r := data;
    }

    /** `signParameters`. */
    method SignParameters(env: Environment, ps: Params, uri: Bytes) returns (r: Bytes)
      ensures r == Sign(env, StringToSign(env, ps, uri))
    {
      var stringToSign := CalculateStringToSign(env, ps, uri);
      r := Sign(env, stringToSign);
    }

    /** `genTime`: the formatted time, two minutes before the clock reading. */
    function GenTime(env: Environment, now: int): Bytes {
      env.formatTime(now - TimestampSkew)
    }

    /** The parameters `genQuery` returns. */
    function SignedQuery(env: Environment, now: int, ps: Params, uri: Bytes): Params {
      var stamped := Put(ps, TimestampKey, GenTime(env, now));
      var withMd5 :=
        match Lookup(stamped, XmlKey)
        case Some(xml) => Put(stamped, ContentMd5Key, env.base64(env.md5(xml)))
        case None => stamped;
      var unsigned := Remove(Remove(withMd5, SignatureKey), XmlKey);
      Put(unsigned, SignatureKey, Sign(env, StringToSign(env, unsigned, uri)))
    }

    /** `genQuery`, setting and unsetting keys step by step. */
    method GenQuery(env: Environment, now: int, ps: Params, uri: Bytes) returns (r: Params)
      ensures r == SignedQuery(env, now, ps, uri)
    {
      r := ps;
      r := Put(r, TimestampKey, GenTime(env, now));
      var xml := Lookup(r, XmlKey);
      if xml.Some? {
        r := Put(r, ContentMd5Key, env.base64(env.md5(xml.value)));
      }
      r := Remove(r, SignatureKey);
      r := Remove(r, XmlKey);
      var signature := SignParameters(env, r, uri);
      r := Put(r, SignatureKey, signature);
    }

    /**
     * What each key of the signed parameters finds: `Signature` the
     * signature of the parameters it was computed over, `xml` nothing,
     * `Timestamp` the generated time, `ContentMD5Value` the MD5 of the XML
     * body when there is one, and every other key its original value.
     */
    lemma SignedQueryLookup(env: Environment, now: int, ps: Params, uri: Bytes, k: Bytes)
      ensures var r := SignedQuery(env, now, ps, uri);
        Lookup(r, k) ==
          if k == SignatureKey then Some(r[|r| - 1].1)
          else if k == XmlKey then None
          else if k == TimestampKey then Some(GenTime(env, now))
          else if k == ContentMd5Key && Lookup(ps, XmlKey).Some? then
            Some(env.base64(env.md5(Lookup(ps, XmlKey).value)))
          else Lookup(ps, k)
    {
      var t := GenTime(env, now);
      var stamped := Put(ps, TimestampKey, t);
      LookupPut(ps, TimestampKey, t, XmlKey);
      LookupPut(ps, TimestampKey, t, k);
      var withMd5 :=
        match Lookup(stamped, XmlKey)
        case Some(xml) => Put(stamped, ContentMd5Key, env.base64(env.md5(xml)))
        case None => stamped;
      if Lookup(stamped, XmlKey).Some? {
        LookupPut(stamped, ContentMd5Key, env.base64(env.md5(Lookup(stamped, XmlKey).value)), k);
      }
      var removed := Remove(withMd5, SignatureKey);
      var unsigned := Remove(removed, XmlKey);
      LookupRemove(withMd5, SignatureKey, k);
      LookupRemove(removed, XmlKey, k);
      var sig := Sign(env, StringToSign(env, unsigned, uri));
      LookupPut(unsigned, SignatureKey, sig, k);
      LookupRemove(withMd5, SignatureKey, SignatureKey);
      LookupRemove(removed, XmlKey, SignatureKey);
      LookupFound(unsigned, SignatureKey);
      KeysPut(unsigned, SignatureKey, sig);
    }

    /**
     * The signed parameters have distinct keys and end with the only
     * `Signature`, which signs exactly the entries before it.
     */
    lemma SignedQueryEndsWithSignature(env: Environment, now: int, ps: Params, uri: Bytes)
      requires DistinctKeys(ps)
      ensures var r := SignedQuery(env, now, ps, uri);
        && DistinctKeys(r)
        && |r| > 0
        && r[|r| - 1] == (SignatureKey, Sign(env, StringToSign(env, r[..|r| - 1], uri)))
        && SignatureKey !in Keys(r[..|r| - 1])
    {
      var t := GenTime(env, now);
      var stamped := Put(ps, TimestampKey, t);
      DistinctPut(ps, TimestampKey, t);
      var withMd5 :=
        match Lookup(stamped, XmlKey)
        case Some(xml) => Put(stamped, ContentMd5Key, env.base64(env.md5(xml)))
        case None => stamped;
      if Lookup(stamped, XmlKey).Some? {
        DistinctPut(stamped, ContentMd5Key, env.base64(env.md5(Lookup(stamped, XmlKey).value)));
      }
      var removed := Remove(withMd5, SignatureKey);
      var unsigned := Remove(removed, XmlKey);
      DistinctRemove(withMd5, SignatureKey);
      DistinctRemove(removed, XmlKey);
      LookupRemove(withMd5, SignatureKey, SignatureKey);
      LookupRemove(removed, XmlKey, SignatureKey);
      LookupFound(unsigned, SignatureKey);
      var sig := Sign(env, StringToSign(env, unsigned, uri));
      KeysPut(unsigned, SignatureKey, sig);
      DistinctPut(unsigned, SignatureKey, sig);
      var r := SignedQuery(env, now, ps, uri);
      assert r[..|r| - 1] == unsigned;
    }

    /** The caller's parameters with the required ones merged over them. */
    function MergedParams(action: Bytes, versionUri: Bytes, optionalParams: Params): Params {
      Merge(optionalParams, RequiredParams(action, versionUri, Lookup(optionalParams, MarketplaceIdKey).Some?))
    }

    /**
     * Every required key carries its required value, every other key its
     * caller value; the caller's keys come first in their order, then the
     * required keys the caller did not pass, in their order; and a
     * caller-supplied `MarketplaceId` suppresses the marketplace list.
     */
    lemma MergedParamsShape(action: Bytes, versionUri: Bytes, optionalParams: Params)
      requires DistinctKeys(optionalParams)
      ensures var required := RequiredParams(action, versionUri, Lookup(optionalParams, MarketplaceIdKey).Some?);
        var p := MergedParams(action, versionUri, optionalParams);
        && DistinctKeys(p)
        && |optionalParams| <= |p|
        && Keys(p)[..|optionalParams|] == Keys(optionalParams)
        && Keys(p) == Keys(optionalParams) + KeysNotIn(required, Keys(optionalParams))
        && (forall k :: k in Keys(required) ==> Lookup(p, k) == Lookup(required, k))
        && (forall k :: k !in Keys(required) ==> Lookup(p, k) == Lookup(optionalParams, k))
        && (Lookup(optionalParams, MarketplaceIdKey).Some? ==>
              forall k :: k in Keys(required) ==> !IsPrefix(MarketplaceKeyPrefix, k))
    {
      var ignore := Lookup(optionalParams, MarketplaceIdKey).Some?;
      var required := RequiredParams(action, versionUri, ignore);
      RequiredParamsShape(action, versionUri, ignore);
      var p := MergedParams(action, versionUri, optionalParams);
      MergeKeepsKeysOfFirst(optionalParams, required);
      MergeKeyOrder(optionalParams, required);
      DistinctMerge(optionalParams, required);
      forall k ensures Lookup(p, k) == if k in Keys(required) then Lookup(required, k) else Lookup(optionalParams, k) {
        LookupMerge(optionalParams, required, k);
      }
    }

    /**
     * The request `send` issues: with an `xml` parameter it posts the XML as
     * `text/xml` with the signed parameters in the query, otherwise it posts
     * the serialised signed parameters as a form body.
     */
    ghost predicate IsRequestFor(request: HttpRequest, env: Environment, now: int,
                                 action: Bytes, versionUri: Bytes, optionalParams: Params) {
      var params := MergedParams(action, versionUri, optionalParams);
      var signed := SignedQuery(env, now, params, versionUri);
      && request.httpMethod == MethodPost
      && request.uri == versionUri
      && request.userAgent == UserAgent(env)
      && (match Lookup(params, XmlKey)
         case Some(xml) =>
           && request.contentType == XmlContentType
           && request.query == Some(signed)
           && request.body == xml
         case None =>
           && request.contentType == FormContentType
           && request.query == None
           && request.body == Serialise(signed))
    }

    /** The request-building half of `send`. */
    method BuildRequest(env: Environment, now: int, action: Bytes, versionUri: Bytes, optionalParams: Params)
      returns (request: HttpRequest)
      ensures IsRequestFor(request, env, now, action, versionUri, optionalParams)
    {
      var required := BuildRequiredParams(action, versionUri, Lookup(optionalParams, MarketplaceIdKey).Some?);
      var params := Merge(optionalParams, required);
      request := HttpRequest(MethodPost, versionUri, UserAgent(env), FormContentType, None, []);
      var xml := Lookup(params, XmlKey);
      if xml.Some? {
        var query := GenQuery(env, now, params, versionUri);
        request := request.(contentType := XmlContentType, query := Some(query), body := xml.value);
      } else {
        var query := GenQuery(env, now, params, versionUri);
        var body := ParametersAsString(query);
        request := request.(body := body);
      }
    }

    /**
     * `send`: builds and signs the request, takes the response the transport
     * returned for it, and classifies its content.
     */
    method Send(env: Environment, now: int, action: Bytes, versionUri: Bytes, optionalParams: Params,
                response: Response)
      returns (request: HttpRequest, outcome: Outcome)
      ensures IsRequestFor(request, env, now, action, versionUri, optionalParams)
      ensures ClassifiedAs(outcome, response.body, env.parseXml(response.body), response.headers)
      ensures outcome.ServiceError? ==> fresh(outcome.exception)
    {
      request := BuildRequest(env, now, action, versionUri, optionalParams);
      var content := response.body;
      var result := env.parseXml(content);
      outcome := ClassifyResponse(content, result, response.headers);
    }
  }
}

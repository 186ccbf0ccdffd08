# Amazon MWS client: a verified model of request signing

This project models in Dafny the core of `amazon-mws-client`, a small PHP
client for the Amazon Marketplace Web Service (MWS). It covers two parts.

- **`AmazonMwsClient`** validates its configuration when constructed. For
  each call it:
  - builds the required request parameters;
  - merges them over the caller's parameters;
  - signs the result with Amazon's "Signature Version 2" over a POST request;
  - chooses between an XML-body request and a form-body request;
  - classifies the response as raw content, a parsed document or a service error.
- **`AmazonMwsClientException`** is built from an error document and exposes
  its message, type, status code, request id and response headers.

## Files

- `wrappers.dfy` defines `Option` and `Result`.
- `bytes.dfy` defines PHP strings as byte strings, plus the `strcmp` order and its laws.
- `text.dfy` defines `explode`/`implode`, `end(explode(...))`, `strpos` and the
  decimal form of a counter, each with lemmas that characterise it.
- `url_encoding.dfy` defines `rawurlencode` and the percent-decoding that inverts it.
- `php_arrays.dfy` models ordered PHP arrays as sequences of key/value pairs
  with distinct keys. It covers:
  - `$a[k] = v`;
  - `unset`;
  - `array_merge`;
  - `uksort($a, 'strcmp')`.
- `xml.dfy` models the parsed XML tree and SimpleXML's `$node->Child` access.
- `mws_client_exception.dfy` models the exception class.
- `mws_client.dfy` models the client class.

Everything the PHP code takes from its runtime is a value of the
`Environment` datatype, passed in as a parameter. That covers:
- the HMAC-SHA256, MD5 and base64 primitives;
- `date`, `parse_url` and `simplexml_load_string`;
- the PHP version and the uname fields.

The clock reading is an integer parameter. The HTTP response is an input to
`Send`.

Two behaviours of the code are worth knowing, and the model follows the code in both:
- `genQuery` adds `ContentMD5Value` only when `xml` is set, and it never
  removes a `ContentMD5Value` the caller passed. So the signed parameters
  carry the MD5 of the XML when there is XML, and otherwise whatever
  `ContentMD5Value` the caller gave, if any
  (`MwsClient.Client.SignedQueryLookup`).
- The exception stores the error's `Code` element in `statusCode`. It never
  assigns `errorCode`, so `getErrorCode` always returns null
  (`MwsErrors.MwsClientException.GetErrorCode`). This contradicts its
  docblock, which promises the error code returned by the service
  (src/AmazonMwsClientException.php:71-74).

## Model

| member | source | states |
|---|---|---|
| MwsClient.ConfigProblem | src/AmazonMwsClient.php:73-87 | Construction fails with a base-URL mismatch exactly when the URL does not contain `https://mws.amazonservices`. Otherwise it fails on a null or empty application name, then on a null or empty version, in that order. No problem is reported exactly when all three checks pass. |
| MwsClient.DefaultsAreValid | src/AmazonMwsClient.php:68-87 | The constructor's defaults pass every check: name `YucaAmazonMwsClient`, version `1.0` and base URL `https://mws.amazonservices.com`. |
| MwsClient.ConfigExamples | src/AmazonMwsClient.php:73-79 | A foreign host is refused with the offending URL. The UK service host `https://mws.amazonservices.co.uk` is accepted. |
| MwsClient.Client.Create | src/AmazonMwsClient.php:62-97 | Creation fails exactly when `ConfigProblem` reports a problem, and returns that problem. Otherwise it returns a fresh client that stores all eight arguments unchanged. A caller that omits the last three arguments passes the defaults `DefaultApplicationName`, `DefaultApplicationVersion` and `DefaultBaseUrl`, which `DefaultsAreValid` accepts. |
| MwsClient.Client.constructor | src/AmazonMwsClient.php:89-96 | Given a valid configuration, every field holds its argument. |
| Text.StrPos | src/AmazonMwsClient.php:75 | `strpos` finds the first occurrence of the needle, and returns nothing exactly when the needle does not occur. |
| Text.JoinSplit | src/AmazonMwsClient.php:224 | `implode(d, explode(d, s)) == s`. |
| Text.SplitJoin | src/AmazonMwsClient.php:224 | Exploding the implosion of delimiter-free pieces gives the pieces back. |
| Text.LastSegmentIsTail | src/AmazonMwsClient.php:325-333 | `end(explode('/', uri))` is a suffix of the URI and contains no `/`. It is either the whole URI or preceded by a `/`. |
| Text.SplitWithoutDelimiter | src/AmazonMwsClient.php:325 | A string without the delimiter explodes into itself alone. So a version URI without `/` is its own `Version`. |
| Text.DecimalRoundTrip | src/AmazonMwsClient.php:340 | The decimal text `sprintf('%s', $key)` gives for a counter reads back as that counter. |
| Text.DecimalStringInjective | src/AmazonMwsClient.php:340 | Different counters have different decimal texts. |
| MwsClient.MarketplaceKeyInjective | src/AmazonMwsClient.php:340 | Different positions give different `MarketplaceIdList.Id.N` keys. |
| MwsClient.Client.BuildRequiredParams | src/AmazonMwsClient.php:322-348 | The loop builds the seven fixed entries, then appends one `MarketplaceIdList.Id.N` entry per id with the counter starting at 1, unless ids are ignored. The loop invariant ties each step to `RequiredParams`. |
| MwsClient.Client.MarketplaceStep | src/AmazonMwsClient.php:340-343 | Putting the next marketplace id under its fresh key appends exactly one entry. |
| MwsClient.Client.RequiredKeysDistinct | src/AmazonMwsClient.php:327-345 | No key of the required parameters repeats. |
| MwsClient.Client.RequiredParamsShape | src/AmazonMwsClient.php:322-348 | The keys are distinct. The fixed keys carry the access key, action, seller id, auth token, `SignatureVersion` 2, `SignatureMethod` `HmacSHA256` and the last URI segment as `Version`. With ids ignored there are exactly those seven entries and no marketplace key. Otherwise key `Id.n` carries the `n`-th id, for every `n`, and there are seven plus the number of ids entries. |
| MwsClient.Client.FixedParamsLookup | src/AmazonMwsClient.php:327-335 | Any well-formed array that starts with the fixed entries finds each fixed value under its key. |
| MwsClient.Client.MarketplaceLookup | src/AmazonMwsClient.php:337-345 | Key `MarketplaceIdList.Id.n` finds the `n`-th marketplace id. |
| PhpArrays.LookupFound | src/AmazonMwsClient.php:130 | `isset($a[k])` holds exactly when `k` is one of the array's keys. |
| PhpArrays.LookupAt | src/AmazonMwsClient.php:130 | In an array with distinct keys, each entry's key finds that entry's value. |
| PhpArrays.LookupPut | src/AmazonMwsClient.php:248-254 | After `$a[k] = v`, `k` finds `v` and every other key finds what it found before. |
| PhpArrays.KeysPut | src/AmazonMwsClient.php:248 | An existing key keeps its position. A new key is appended at the end, and the array grows by exactly that entry. |
| PhpArrays.DistinctPut | src/AmazonMwsClient.php:248 | Assignment keeps keys distinct. |
| PhpArrays.LookupRemove | src/AmazonMwsClient.php:252-253 | After `unset($a[k])`, `k` finds nothing and every other key finds what it found before. |
| PhpArrays.RemoveDropsOneEntry | src/AmazonMwsClient.php:252-253 | In an array with distinct keys, `unset` of a present key drops exactly the entry at that key's position. The entries before and after it stay, in their order. |
| PhpArrays.DistinctRemove | src/AmazonMwsClient.php:252-253 | `unset` keeps keys distinct. |
| PhpArrays.RemoveAbsent | src/AmazonMwsClient.php:252-253 | Unsetting an absent key leaves the array unchanged. |
| PhpArrays.LookupMerge | src/AmazonMwsClient.php:115 | `array_merge(a, b)` gives `b`'s value on every key of `b` and `a`'s value on every other key. |
| PhpArrays.MergeKeepsKeysOfFirst | src/AmazonMwsClient.php:115 | The keys of `a` come first in the merge, in their order. |
| PhpArrays.MergeKeyOrder | src/AmazonMwsClient.php:115 | When `b` has distinct keys, the keys of `array_merge(a, b)` are the keys of `a` in their order, followed by the keys of `b` that `a` lacks, in `b`'s order. |
| PhpArrays.DistinctMerge | src/AmazonMwsClient.php:115 | Merging into an array with distinct keys keeps them distinct. |
| MwsClient.Client.MergedParamsShape | src/AmazonMwsClient.php:115 | In the merged parameters every required key carries its required value and every other key its caller value. The keys are distinct. The caller's keys come first in their order, followed by the required keys the caller did not pass, in their order. A caller-supplied `MarketplaceId` suppresses all `MarketplaceIdList.Id.N` keys. |
| UrlEncoding.RawUrlEncode | src/AmazonMwsClient.php:180-183 | Every byte of `rawurlencode`'s output is an RFC 3986 unreserved byte or `%`. So the output never contains a space, `/`, `&` or `=`. |
| UrlEncoding.EncodeUnreserved | src/AmazonMwsClient.php:180-183 | A string made only of unreserved bytes (`A-Z a-z 0-9 - _ . ~`) is left unchanged. |
| UrlEncoding.EncodeSpace | src/AmazonMwsClient.php:180-183 | A space becomes `%20`, never `+`. |
| UrlEncoding.EncodeSlash | src/AmazonMwsClient.php:180-183 | A slash becomes `%2F`. |
| UrlEncoding.DecodeEncode | src/AmazonMwsClient.php:180-183 | Percent-decoding inverts `rawurlencode` on every byte string. |
| UrlEncoding.EncodeInjective | src/AmazonMwsClient.php:180-183 | Different values never encode alike. |
| MwsClient.Client.ParametersAsString | src/AmazonMwsClient.php:192-200 | The loop builds `key=rawurlencode(value)` pairs in iteration order and joins them with `&`. The result is `Serialise`. |
| MwsClient.ParsePairOfPairString | src/AmazonMwsClient.php:196 | A pair whose key has no `=` splits back, at its first `=`, into the key and the decoded value. |
| MwsClient.SerialiseRoundTrip | src/AmazonMwsClient.php:192-200 | For keys without `&` and `=`, the serialisation is empty exactly when the array is. Parsing it back gives the same entries in the same order. |
| MwsClient.EncodePathBySegment | src/AmazonMwsClient.php:218-224 | The encoded path has exactly the path's `/`-segments, each encoded on its own. Decoding them one by one and rejoining gives the path back. |
| ByteStrings.StrLessIrreflexive | src/AmazonMwsClient.php:227 | No key sorts before itself under `strcmp`. |
| ByteStrings.StrLessTransitive | src/AmazonMwsClient.php:227 | The `strcmp` order is transitive. |
| ByteStrings.StrLessTotal | src/AmazonMwsClient.php:227 | Of two different keys, exactly one sorts first. |
| PhpArrays.SortByKeySorts | src/AmazonMwsClient.php:227 | `uksort($a, 'strcmp')` of an array with distinct keys gives strictly increasing keys and the same entries. |
| PhpArrays.SortedIsUnique | src/AmazonMwsClient.php:227 | Two strictly sorted arrays with the same entries are equal. |
| PhpArrays.SortByKeyOrderIndependent | src/AmazonMwsClient.php:227 | Sorting arrays that hold the same entries in any order gives the same result. |
| PhpArrays.SortByKeyOfSorted | src/AmazonMwsClient.php:227 | Sorting an already sorted array changes nothing. |
| MwsClient.Client.CalculateStringToSign | src/AmazonMwsClient.php:210-232 | The accumulated string is `POST`, the host, the path encoded segment by segment (`/` when the URL has none) and the sorted serialised parameters, each of the first three followed by a newline. |
| MwsClient.CanonicalStringOrderIndependent | src/AmazonMwsClient.php:227-229 | The string to sign does not depend on the order of the parameters. |
| MwsClient.CanonicalStringSignsSortedEntries | src/AmazonMwsClient.php:210-232 | The string to sign starts with the three header lines. The rest parses back to exactly the parameters, in strictly increasing key order. |
| MwsClient.Client.SignParameters | src/AmazonMwsClient.php:292-313 | The signature is the base64 HMAC-SHA256, under the secret key, of the string to sign. |
| MwsClient.Client.GenQuery | src/AmazonMwsClient.php:246-257 | The step-by-step sets and unsets give `SignedQuery`. |
| MwsClient.Client.SignedQueryLookup | src/AmazonMwsClient.php:246-282 | In the signed parameters `xml` finds nothing. `Timestamp` finds the clock minus 120 seconds, formatted. `ContentMD5Value` finds the base64 MD5 of the XML when there is XML. `Signature` finds the last entry's value. Every other key keeps its original value. |
| MwsClient.Client.SignedQueryEndsWithSignature | src/AmazonMwsClient.php:252-254 | The signed parameters have distinct keys. They end with the only `Signature`, which signs exactly the entries before it. |
| MwsClient.Client.BuildRequest | src/AmazonMwsClient.php:115-136 | The request is a POST to the version URI with the user agent. With `xml` set, it carries `text/xml`, the signed parameters as the query and the raw XML as the body. Otherwise it carries the form content type and the serialised signed parameters as the body. |
| MwsClient.ClassifyResponse | src/AmazonMwsClient.php:140-150 | Content that does not parse is returned raw. A document with an `Error` child becomes a fresh exception built from it and the headers. Any other document is returned as it is. |
| MwsClient.Client.Send | src/AmazonMwsClient.php:113-153 | The request satisfies `BuildRequest`'s contract. The outcome is the classification of the response. |
| Xml.FirstNamed | src/AmazonMwsClientException.php:50-61 | Returns the index of the first child with the given name, or nothing when no child has it. |
| Xml.Child | src/AmazonMwsClientException.php:50-61 | `$node->Name` is the first child of the node with that name: no earlier child has the name. It is absent exactly when no child has the name. |
| MwsErrors.MwsClientException.constructor | src/AmazonMwsClientException.php:48-68 | Each field starts at its default and is overwritten only when its element is present, or, for the headers, when there are any. The result satisfies `Valid`. |
| MwsErrors.MwsClientException.GetErrorCode | src/AmazonMwsClientException.php:75-77 | Always null: the field is never assigned. |
| MwsErrors.MwsClientException.GetErrorType | src/AmazonMwsClientException.php:53-87 | Present exactly when `Error/Type` is, and then its text. |
| MwsErrors.MwsClientException.GetErrorMessage | src/AmazonMwsClientException.php:50-97 | The text of `Error/Message`, or empty when it is missing. |
| MwsErrors.MwsClientException.GetStatusCode | src/AmazonMwsClientException.php:57-108 | Unavailable (the source's -1) exactly when `Error/Code` is missing. Otherwise it is that element's text. |
| MwsErrors.MwsClientException.GetRequestId | src/AmazonMwsClientException.php:61-117 | Present exactly when the root has a `RequestID` child (beside `Error`), and then its text. |
| MwsErrors.MwsClientException.GetResponseHeaders | src/AmazonMwsClientException.php:65-126 | Present exactly when the headers were non-empty, and then equal to them. |

## Left out

- The HTTP transport is an input, not a call: Guzzle's client, its `base_uri`, `http_errors` and the `debug` flag. `Send` takes the response the transport returned and does not model the network.
- The primitives are uninterpreted fields of `Environment`, so no cryptography is verified. This covers HMAC-SHA256, MD5 and base64.
- `date`, `parse_url` and `simplexml_load_string` are also uninterpreted `Environment` fields. For `parse_url` the model sees only the host and the optional path.
- `simplexml_load_string` returning a falsy value is modelled as `None`. This includes an element with no children and no attributes, which PHP treats as false. Which documents count as falsy is up to the environment.
- The libxml error buffer (`libxml_use_internal_errors` and `libxml_clear_errors`) is left out. It has no effect on the result.
- `genTime`'s optional `$time` argument and `strtotime` are left out, because no caller passes a time. The clock reading is a parameter.
- `UserAgent`: only the concatenation of `genUserAgent` over the given version and uname strings is modelled. No property is stated about it.
- Parameter values are byte strings. PHP `null` values, for which `isset` is false although the key exists, are not modelled. The integer `2` of `SignatureVersion` is written as its text `"2"`.
- `array_merge` renumbers integer keys. The model has only string keys, as every key here is a string.
- `MwsClient.Client.Create`: Dafny has no default arguments. The PHP defaults for the application name, version and base URL (src/AmazonMwsClient.php:68-70) are the constants `DefaultApplicationName`, `DefaultApplicationVersion` and `DefaultBaseUrl`, which a caller passes explicitly.
- Other default arguments are passed explicitly by callers. These are `send`'s `$optionalParams = []` (src/AmazonMwsClient.php:113), `buildRequiredParams`'s `$ignoreMarketplaceIds = false` (src/AmazonMwsClient.php:322) and the exception's `$responseHeaders = []` (src/AmazonMwsClientException.php:48).
- The base URL is a byte string and cannot be null. A null base URL fails the `strpos` check of src/AmazonMwsClient.php:75 exactly as the empty string does, which `ConfigProblem` rejects.
- The texts of the `InvalidArgumentException` messages are not modelled. The three failure reasons are the `ConfigError` values.
- `uksort` is modelled by the function `PhpArrays.SortByKey` (an insertion sort), not by an in-place sort. The sort is a library routine applied to a local copy, and only its result is observable.
- `MwsClient.SerialiseRoundTrip` holds only for keys without `&` and `=`. Keys are written unencoded, so other keys cannot be recovered from the query string.
- `ByteStrings.StrLessTotal`: only the "sorts before" relation of `strcmp` is modelled, not the magnitude of its result.
- SimpleXML elements are converted to their text. The exception stores the element text rather than the element object.

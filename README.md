# Bing image search client — a Dafny model

This project models the core of a small Java client for the Bing Image Search API (v5):

- **the request parameters** (`BingImageSearchRequest`): six named, optional parameters —
  `q`, `count`, `offset`, `mkt`, `safeSearch`, `size` — that register themselves, in declaration
  order, in the request's parameter list, and the query string they render to. Each value is
  form-encoded the way `URLEncoder.encode(value, "UTF-8")` does it (the
  application/x-www-form-urlencoded byte serializer of section 5.2 of the WHATWG URL Standard over
  the value's UTF-8 bytes);
- **the HTTP transport** (`LiteHttpClient`): an object holding an insertion-ordered header map, the
  HTTP method, the endpoint and an optional user agent, set by fluent calls, and `send`, which turns
  what happened on the network into a response text, a thrown `LiteHttpClientException`, or null;
- **the search call** (`BingImageSearchClient.searchImage`): sets the subscription-key header, opens
  a GET on the fixed search URL plus `?` plus the query string, sends, rethrows transport failures
  as `BingImageSearchException`, and decodes the response text, giving null when decoding fails.

Files: `common.dfy` (Option, joining and splitting strings), `form_encoding.dfy` (UTF-8 and form
encoding with their decoders), `search_request.dfy`, `lite_http_client.dfy`, `search_client.dfy`.

The network is a parameter `net: WireRequest -> Outcome`: given the request that goes on the wire
(method, URL, headers as the connection ends up holding them, body), it says what happened — the
URL did not parse, no connection object came about, the body was read, or an `IOException` was
raised after the connection existed, together with the status code (or a failure to get it) and
the diagnostic stream (or a failure to get it). Streams are text that is read line by line the way
`BufferedReader.readLine` reads it; a stream may be "broken", so that reading past its text fails.
JSON decoding is a parameter `decode: string -> Option<R>`.

The model follows the code, including where it behaves unexpectedly:

- unset parameters are not skipped: each contributes an empty segment, so a request with nothing
  set renders to `&&&&&` and one with only `q=cat` set to `q=cat&&&&&`;
- the `?` after the base URL is always there;
- a decoding failure is not raised: the search returns null;
- a malformed URL, a missing connection, or a failure while asking for the status or the
  diagnostic stream all give null, with no exception.

## Model

| member | source | states |
|---|---|---|
| `FormEncoding.EncodeByte` | src/main/java/org/riversun/bing/client/v5/image_search/model/BingImageSearchRequest.java:66 | what one byte becomes: an ASCII letter, digit, `.`, `-`, `*` or `_` stays itself, a space becomes `+`, any other byte `%` and its two upper-case hexadecimal digits |
| `FormEncoding.FormEncode` | src/main/java/org/riversun/bing/client/v5/image_search/model/BingImageSearchRequest.java:66 | `URLEncoder.encode(value, "UTF-8")`: the encodings of the value's UTF-8 bytes, in order |
| `FormEncoding.Utf8RoundTrip` | src/main/java/org/riversun/bing/client/v5/image_search/model/BingImageSearchRequest.java:66 | the UTF-8 bytes the encoder works on decode back to the value (no value is lost before form encoding) |
| `FormEncoding.FormRoundTrip` | src/main/java/org/riversun/bing/client/v5/image_search/model/BingImageSearchRequest.java:66 | form-decoding the form encoding of any value gives the value back |
| `FormEncoding.FormEncodeAlphabet` | src/main/java/org/riversun/bing/client/v5/image_search/model/BingImageSearchRequest.java:66 | the encoding holds only ASCII letters, digits, `.` `-` `*` `_` `+` `%`, so never `&` or `=`, and every `%` is followed by two upper-case hexadecimal digits |
| `FormEncoding.FormEncodeKeepsUnreserved` | src/main/java/org/riversun/bing/client/v5/image_search/model/BingImageSearchRequest.java:66 | a value of unreserved ASCII characters only is encoded as itself |
| `SearchRequest.DecimalString` | src/main/java/org/riversun/bing/client/v5/image_search/model/BingImageSearchRequest.java:64 | the text `String.valueOf` gives an Integer: its decimal digits without leading zeros, preceded by `-` when negative |
| `SearchRequest.ValueOf` | src/main/java/org/riversun/bing/client/v5/image_search/model/BingImageSearchRequest.java:64 | the text of a value: a String is itself, an Integer its decimal form |
| `SearchRequest.RenderParam` | src/main/java/org/riversun/bing/client/v5/image_search/model/BingImageSearchRequest.java:58-71 | a parameter's piece of the query string: empty when the value is null, otherwise the key, `=` and the form encoding of the value's text |
| `SearchRequest.QueryString` | src/main/java/org/riversun/bing/client/v5/image_search/model/BingImageSearchRequest.java:150-161 | a request's query string: every parameter's piece, unset ones included, in list order, separated by `&` |
| `SearchRequest.RemoveTail` | src/main/java/org/riversun/bing/client/v5/image_search/model/BingImageSearchRequest.java:158 | the buffer without its last character, unchanged when empty |
| `SearchRequest.DecimalRoundTrip` | src/main/java/org/riversun/bing/client/v5/image_search/model/BingImageSearchRequest.java:64 | the decimal form `String.valueOf` gives an Integer parses back to that number |
| `SearchRequest.NumberRendersAsDecimal` | src/main/java/org/riversun/bing/client/v5/image_search/model/BingImageSearchRequest.java:64-70 | a set Integer parameter renders to `key=` and its plain decimal form |
| `SearchRequest.NumberRenderingInjective` | src/main/java/org/riversun/bing/client/v5/image_search/model/BingImageSearchRequest.java:64-70 | two different Integer values of the same parameter render to different pieces |
| `SearchRequest.TextSegmentDecodes` | src/main/java/org/riversun/bing/client/v5/image_search/model/BingImageSearchRequest.java:64-70 | a set String parameter renders to `key=` followed by text that decodes back to the value |
| `SearchRequest.RenderParamEmptyIffUnset` | src/main/java/org/riversun/bing/client/v5/image_search/model/BingImageSearchRequest.java:58-71 | a parameter renders to the empty string exactly when its value is null |
| `SearchRequest.RenderParamHasNoAmpersand` | src/main/java/org/riversun/bing/client/v5/image_search/model/BingImageSearchRequest.java:64-70 | a parameter's rendering holds no `&` when its key holds none |
| `SearchRequest.KeysWellFormed` | src/main/java/org/riversun/bing/client/v5/image_search/model/BingImageSearchRequest.java:82-148 | the six keys are non-empty and hold no `&` |
| `SearchRequest.Param.constructor` | src/main/java/org/riversun/bing/client/v5/image_search/model/BingImageSearchRequest.java:46-51 | a new parameter has the given key, value and owner and is appended to the owner's list |
| `SearchRequest.Param.Set` | src/main/java/org/riversun/bing/client/v5/image_search/model/BingImageSearchRequest.java:53-56 | sets this parameter's value and returns the owning request; the list and every other parameter's value are unchanged |
| `SearchRequest.Request.constructor` | src/main/java/org/riversun/bing/client/v5/image_search/model/BingImageSearchRequest.java:75-148 | the list holds exactly six fresh, distinct parameters owned by the request, keyed `q, count, offset, mkt, safeSearch, size` in that order, all null |
| `SearchRequest.Request.ToQueryString` | src/main/java/org/riversun/bing/client/v5/image_search/model/BingImageSearchRequest.java:150-161 | the result is the parameters' renderings, in list order, joined by `&` |
| `SearchRequest.Request.ValidHasStandardKeys` | src/main/java/org/riversun/bing/client/v5/image_search/model/BingImageSearchRequest.java:82-148 | the entries of a well-formed request carry the keys `q, count, offset, mkt, safeSearch, size` in that order |
| `SearchRequest.RemoveTailOfTerminated` | src/main/java/org/riversun/bing/client/v5/image_search/model/BingImageSearchRequest.java:154-158 | appending `&` after each rendering and then removing the last character is joining with `&` |
| `SearchRequest.QuerySegments` | src/main/java/org/riversun/bing/client/v5/image_search/model/BingImageSearchRequest.java:150-161 | splitting the query string at `&` gives back each parameter's rendering in order; it holds one `&` fewer than there are parameters |
| `SearchRequest.RequestSegments` | src/main/java/org/riversun/bing/client/v5/image_search/model/BingImageSearchRequest.java:150-161 | a request's query string has exactly five `&` and six segments, the i-th empty exactly when the i-th parameter is null |
| `SearchRequest.AllUnsetRendersSeparators` | src/main/java/org/riversun/bing/client/v5/image_search/model/BingImageSearchRequest.java:150-161 | with every parameter null the query string is `&&&&&` |
| `SearchRequest.ChangeOneValue` | src/main/java/org/riversun/bing/client/v5/image_search/model/BingImageSearchRequest.java:53-56 | setting one parameter changes that parameter's segment of the query string and no other |
| `LiteHttp.Put` | src/main/java/org/riversun/bing/client/v5/image_search/http/LiteHttpClient.java:67 | `put` on the insertion-ordered header map: an existing key's value is replaced where it stands, a new key is added at the end |
| `LiteHttp.Lookup` | src/main/java/org/riversun/bing/client/v5/image_search/http/LiteHttpClient.java:126 | `get` finds a value exactly for the keys the map holds |
| `LiteHttp.PutLookup` | src/main/java/org/riversun/bing/client/v5/image_search/http/LiteHttpClient.java:66-69 | after `put(k, v)`, `k` maps to `v` and every other key keeps its value |
| `LiteHttp.PutNames` | src/main/java/org/riversun/bing/client/v5/image_search/http/LiteHttpClient.java:66-69 | after `put(k, v)` a key already present keeps its position and a new key goes last |
| `LiteHttp.PutKeepsKeysDistinct` | src/main/java/org/riversun/bing/client/v5/image_search/http/LiteHttpClient.java:66-69 | `put` keeps the keys distinct and leaves exactly one entry for the key put |
| `LiteHttp.PutIdempotent` | src/main/java/org/riversun/bing/client/v5/image_search/http/LiteHttpClient.java:66-69 | putting the same entry twice is putting it once |
| `LiteHttp.LiteHttpClient.constructor` | src/main/java/org/riversun/bing/client/v5/image_search/http/LiteHttpClient.java:49-57 | a fresh client has method POST, endpoint empty, user agent null, no headers |
| `LiteHttp.LiteHttpClient.AddHeader` | src/main/java/org/riversun/bing/client/v5/image_search/http/LiteHttpClient.java:66-69 | the header map becomes `put(key, value)` of the old one; nothing else changes; returns the same client |
| `LiteHttp.LiteHttpClient.SetUserAgent` | src/main/java/org/riversun/bing/client/v5/image_search/http/LiteHttpClient.java:71-74 | sets only the user agent; returns the same client |
| `LiteHttp.LiteHttpClient.Open` | src/main/java/org/riversun/bing/client/v5/image_search/http/LiteHttpClient.java:76-80 | sets only the method and the endpoint; returns the same client |
| `LiteHttp.RequestProperties` | src/main/java/org/riversun/bing/client/v5/image_search/http/LiteHttpClient.java:122-127 | the `setRequestProperty` calls in order: `User-Agent` first when a user agent is set, then every map entry in insertion order |
| `LiteHttp.ApplyProperties` | src/main/java/org/riversun/bing/client/v5/image_search/http/LiteHttpClient.java:122-127 | the connection's request headers after those calls, a later call for a name replacing the earlier value |
| `LiteHttp.LiteHttpClient.Wire` | src/main/java/org/riversun/bing/client/v5/image_search/http/LiteHttpClient.java:117-141 | the request that goes on the wire: the client's method and endpoint, the headers those calls leave on the connection, and the body (nothing for a null body) |
| `LiteHttp.UserAgentPrecedence` | src/main/java/org/riversun/bing/client/v5/image_search/http/LiteHttpClient.java:122-127 | on the connection a `User-Agent` map entry wins over the configured user agent, which applies only when the map has none; every other header is the map's |
| `LiteHttp.ReadLine` | src/main/java/org/riversun/bing/client/v5/image_search/http/LiteHttpClient.java:150 | `readLine`: the characters up to the next `\n`, `\r` or `\r\n`, which is consumed; at the end the unterminated remainder, then null; on a broken stream a failure where the data runs out |
| `LiteHttp.ReadLineDrains` | src/main/java/org/riversun/bing/client/v5/image_search/http/LiteHttpClient.java:150-152 | each `readLine` takes the next line, terminator dropped, off the text still to be gathered; end of stream or a read failure leaves nothing |
| `LiteHttp.DiagnosticText` | src/main/java/org/riversun/bing/client/v5/image_search/http/LiteHttpClient.java:235-273 | what `getFromStream` returns: empty for a null stream, otherwise the lines read until the end or a read failure, run together |
| `LiteHttp.LiteHttpClient.GetFromStream` | src/main/java/org/riversun/bing/client/v5/image_search/http/LiteHttpClient.java:235-273 | returns the stream's complete lines run together (empty for a null stream), stopping without failing where reading fails |
| `LiteHttp.LiteHttpClient.Send` | src/main/java/org/riversun/bing/client/v5/image_search/http/LiteHttpClient.java:99-233 | the result is the classification of what the network did with the request built from the client's state and the body |
| `LiteHttp.LiteHttpClient.SendNoBody` | src/main/java/org/riversun/bing/client/v5/image_search/http/LiteHttpClient.java:88-90 | `send()` is `send(null)`, and a null body puts nothing on the wire |
| `LiteHttp.SuccessConcatenatesLines` | src/main/java/org/riversun/bing/client/v5/image_search/http/LiteHttpClient.java:143-158 | a successful response is its lines concatenated, with the terminators removed |
| `LiteHttp.Classify` | src/main/java/org/riversun/bing/client/v5/image_search/http/LiteHttpClient.java:160-185 | what `send` gives for each outcome: the body's lines run together on success; null for a malformed URL, no connection, or a failure to get the status or the diagnostic stream; otherwise an exception with the cause only (status 500 and above) or with the error stream's text (below 500) |
| `LiteHttp.NullExactlyWhenSwallowed` | src/main/java/org/riversun/bing/client/v5/image_search/http/LiteHttpClient.java:160-185 | the result is null exactly for a malformed URL, no connection, or a failure to get the status or the diagnostic stream |
| `LiteHttp.ServerErrorCarriesCauseOnly` | src/main/java/org/riversun/bing/client/v5/image_search/http/LiteHttpClient.java:172-175 | from status 500 on, the exception carries the failure as cause and no message of its own |
| `LiteHttp.ClientErrorCarriesErrorText` | src/main/java/org/riversun/bing/client/v5/image_search/http/LiteHttpClient.java:176-179 | below status 500, the exception's message is the error stream's text and its cause the failure |
| `SearchClient.BingImageSearchClient.constructor` | src/main/java/org/riversun/bing/client/v5/image_search/BingImageSearchClient.java:77-80 | the API key is the one given (a constant from then on) and the HTTP state is a fresh client's |
| `SearchClient.BingImageSearchClient.SearchImage` | src/main/java/org/riversun/bing/client/v5/image_search/BingImageSearchClient.java:90-121 | afterwards the key header holds the API key, the method is GET, the endpoint is base URL + `?` + query string, the user agent is unchanged, and the result is the send result mapped by the search rules |
| `SearchClient.Endpoint` | src/main/java/org/riversun/bing/client/v5/image_search/BingImageSearchClient.java:96 | the URL a search opens: the fixed base URL, `?`, and the request's query string |
| `SearchClient.SearchResult` | src/main/java/org/riversun/bing/client/v5/image_search/BingImageSearchClient.java:100-119 | what a search gives for the send result: a search exception with the transport exception's message and itself as cause, or the decoded response, null when decoding fails |
| `SearchClient.SearchResultRules` | src/main/java/org/riversun/bing/client/v5/image_search/BingImageSearchClient.java:100-119 | a transport exception is rethrown with the same message and itself as cause; a failed decode gives null, a successful one the decoded value |
| `SearchClient.EndpointShape` | src/main/java/org/riversun/bing/client/v5/image_search/BingImageSearchClient.java:96 | the search URL is the base URL, `?`, then six `&`-separated segments that are the parameters' renderings |
| `SearchClient.EndpointsDifferOnlyInCount` | src/main/java/org/riversun/bing/client/v5/image_search/BingImageSearchClient.java:96 | requests differing only in `count` open URLs differing only in the `count` segment |
| `SearchClient.CountSegmentOfUrl` | src/main/java/org/riversun/bing/client/v5/image_search/BingImageSearchClient.java:96 | two searches whose requests differ only in `count` that open the same URL have the same `count` piece |
| `SearchClient.DistinctCountsGiveDistinctUrls` | src/main/java/org/riversun/bing/client/v5/image_search/BingImageSearchClient.java:96 | two searches whose requests differ only in their Integer `count` open different URLs |
| `SearchClient.RepeatedSearchKeepsOneKeyHeader` | src/main/java/org/riversun/bing/client/v5/image_search/BingImageSearchClient.java:94 | repeated searches leave exactly one subscription-key header, holding the API key |

## Left out

- Real networking (`URL`, `HttpURLConnection`, `connect`, the redirect flag, the socket streams):
  replaced by the `net` parameter and the `Outcome` datatype. Which endpoints are malformed, and
  whether the connection's own rules change the request (for instance what the JDK does with a GET
  on a connection whose output is enabled), are the network's business in this model.
- Whether asking for the input stream after a status of 500 or more fails is left to the `net`
  parameter. The JDK's `HttpURLConnection.getInputStream` normally throws for such a status, and
  then the result is null rather than an exception; the model covers both cases.
- The stream-closing `finally` blocks: every close failure is swallowed there, so cleanup never
  changes the result; the model has no resources to release.
- JSON decoding with Jackson is the `decode` parameter. What the library does with a null response
  text is not modelled: the search then ends in `NullText`.
- Logging and `printStackTrace`: no effect on behaviour.
- UTF-8 transcoding of the outgoing body: the body is the string written. Java strings with lone
  surrogates cannot be expressed (Dafny characters are Unicode scalar values).
- Header names are compared exactly; the case-insensitive matching of `setRequestProperty` is not
  modelled.
- `SearchRequest.Param.Set`: takes any `ParamValue`; the Java element type of each parameter
  (`String` or `Integer`) is a compile-time restriction the model does not enforce.
- `LiteHttp.ServerErrorCarriesCauseOnly`: `LiteHttpClientException` is not part of this model; an
  exception built from a cause alone is modelled with no message of its own, not with the message
  the exception class may derive from the cause.
- `StringGrabber` is not part of this model; its `removeTail` is taken to drop the last character
  (and to do nothing on an empty buffer).
- The six public parameter fields of the request (`keyword`, `count`, …) are the entries 0 to 5 of
  its parameter list rather than separate fields.
- Inheritance: `BingImageSearchClient` extends `LiteHttpClient` in Java; here it holds its HTTP
  client in a constant field and updates that client's state.
- `LiteHttpClientException` is taken not to be an `IOException`. The exceptions thrown at
  `LiteHttpClient.java` lines 175 and 179 then leave `send`; were it an `IOException`, the
  `catch (IOException e1)` at line 182 would swallow them and `send` would return null.
- Unchecked exceptions that escape `send` have no `Outcome`: the `ClassCastException` of the cast
  at line 119 for a URL that is not HTTP, and the `NullPointerException` of `setRequestProperty`
  for a null header name. Null header names, header values and API keys cannot be expressed: the
  header map, `AddHeader` and the API key hold plain strings.
- The UTF-8 decoding of incoming bytes (the `InputStreamReader`s at lines 144 and 243): the
  model's streams are already characters, so malformed input bytes are not modelled.
- Timeouts, retries, pooling and concurrency do not exist in the code and are not modelled.

/**
 * The image search call: it sets the subscription-key header, opens a GET on the fixed search URL
 * followed by `?` and the request's query string, sends, turns a transport exception into a
 * search exception, and decodes the response text, giving null when decoding fails.
 */
module SearchClient {
  import opened Common
  import opened SearchRequest
  import opened LiteHttp

  const SubscriptionKeyName: string := "Ocp-Apim-Subscription-Key"
  const BaseUrl: string := "https://api.cognitive.microsoft.com/bing/v5.0/images/search"

  /** The URL a search opens: the base URL, `?` (always), and the query string. */
  function Endpoint(es: seq<Entry>): string
  {
    BaseUrl + "?" + QueryString(es)
  }

  /** A `BingImageSearchException`: a message and the transport exception it wraps. */
  datatype SearchException = SearchException(message: Option<string>, cause: ClientException)

  /**
   * What a search ends in: a response (None when the text could not be decoded), a thrown
   * search exception, or a null response text, whose decoding is outside this model.
   */
  datatype SearchOutcome<R> = Response(value: Option<R>) | Raised(ex: SearchException) | NullText

  /** How a search maps the transport's result, given the decoder of response text. */
  function SearchResult<R>(sent: SendResult, decode: string -> Option<R>): SearchOutcome<R>
  {
    match sent
    case Thrown(e) => Raised(SearchException(e.message, e))
    case Null => NullText
    case Body(text) => Response(decode(text))
  }

  /**
   * A transport exception is rethrown with its own message and as the cause; a decoding failure
   * becomes a null response and is never thrown.
   */
  lemma SearchResultRules<R>(sent: SendResult, decode: string -> Option<R>)
    ensures sent.Thrown? <==> SearchResult(sent, decode).Raised?
    ensures sent.Thrown? ==> SearchResult(sent, decode).ex == SearchException(sent.ex.message, sent.ex)
    ensures sent.Body? && decode(sent.text).None? ==> SearchResult(sent, decode) == Response(None)
    ensures sent.Body? && decode(sent.text).Some? ==> SearchResult(sent, decode) == Response(decode(sent.text))
  {
  }

  /**
   * Every search URL starts with the base URL and `?`, and what follows splits at `&` into the
   * six parameters' renderings.
   */
  lemma EndpointShape(es: seq<Entry>)
    requires StandardKeys(es)
    ensures |Endpoint(es)| > |BaseUrl|
    ensures Endpoint(es)[..|BaseUrl| + 1] == BaseUrl + "?"
    ensures Split(Endpoint(es)[|BaseUrl| + 1..], '&') == Pieces(es)
  {
    assert Endpoint(es)[|BaseUrl| + 1..] == QueryString(es);
    KeysWellFormed();
    QuerySegments(es);
  }

  /** Two searches whose requests differ only in `count` open URLs that differ only in the `count` segment. */
  lemma EndpointsDifferOnlyInCount(es: seq<Entry>, c: Option<ParamValue>)
    requires StandardKeys(es)
    ensures |Split(Endpoint(es)[|BaseUrl| + 1..], '&')| == 6
    ensures var es' := es[1 := es[1].(value := c)];
      && Endpoint(es')[..|BaseUrl| + 1] == Endpoint(es)[..|BaseUrl| + 1]
      && Split(Endpoint(es')[|BaseUrl| + 1..], '&') ==
           Split(Endpoint(es)[|BaseUrl| + 1..], '&')[1 := RenderParam(Entry("count", c))]
  {
    var es' := es[1 := es[1].(value := c)];
    EndpointShape(es);
    EndpointShape(es');
  }

  /** The URL of a search determines the rendering of its `count` segment. */
  lemma CountSegmentOfUrl(es: seq<Entry>, c: Option<ParamValue>, d: Option<ParamValue>)
    requires StandardKeys(es)
    requires Endpoint(es[1 := es[1].(value := c)]) == Endpoint(es[1 := es[1].(value := d)])
    ensures RenderParam(Entry("count", c)) == RenderParam(Entry("count", d))
  {
    var ec := es[1 := es[1].(value := c)];
    var ed := es[1 := es[1].(value := d)];
    var at := |BaseUrl| + 1;
    EndpointsDifferOnlyInCount(es, c);
    EndpointsDifferOnlyInCount(es, d);
    var whole := Split(Endpoint(es)[at..], '&');
    assert Split(Endpoint(ec)[at..], '&') == whole[1 := RenderParam(Entry("count", c))];
    assert Split(Endpoint(ed)[at..], '&') == whole[1 := RenderParam(Entry("count", d))];
    assert whole[1 := RenderParam(Entry("count", c))] == whole[1 := RenderParam(Entry("count", d))];
    assert whole[1 := RenderParam(Entry("count", c))][1] == RenderParam(Entry("count", c));
    assert whole[1 := RenderParam(Entry("count", d))][1] == RenderParam(Entry("count", d));
  }

  /** Distinct Integer values of a parameter render differently. */
  lemma NumberRenderingInjective(key: string, n: int32, m: int32)
    requires RenderParam(Entry(key, Some(Number(n)))) == RenderParam(Entry(key, Some(Number(m))))
    ensures n == m
  {
    NumberRendersAsDecimal(key, n);
    NumberRendersAsDecimal(key, m);
    var pn := key + "=" + DecimalString(n);
    var pm := key + "=" + DecimalString(m);
    assert pn[|key| + 1..] == DecimalString(n);
    assert pm[|key| + 1..] == DecimalString(m);
    DecimalRoundTrip(n);
    DecimalRoundTrip(m);
  }

  /** Two searches whose requests differ only in their Integer `count` open different URLs. */
  lemma DistinctCountsGiveDistinctUrls(es: seq<Entry>, n: int32, m: int32)
    requires StandardKeys(es) && n != m
    ensures Endpoint(es[1 := es[1].(value := Some(Number(n)))]) !=
            Endpoint(es[1 := es[1].(value := Some(Number(m)))])
  {
    if Endpoint(es[1 := es[1].(value := Some(Number(n)))]) ==
       Endpoint(es[1 := es[1].(value := Some(Number(m)))]) {
      CountSegmentOfUrl(es, Some(Number(n)), Some(Number(m)));
      NumberRenderingInjective("count", n, m);
    }
  }

  /** Searching again with the same key leaves the headers as one search left them: one key entry. */
  lemma RepeatedSearchKeepsOneKeyHeader(hs: seq<Header>, apiKey: string)
    requires DistinctNames(hs)
    ensures var once := Put(hs, SubscriptionKeyName, apiKey);
      Put(once, SubscriptionKeyName, apiKey) == once &&
      Occurrences(Names(once), SubscriptionKeyName) == 1 &&
      Lookup(once, SubscriptionKeyName) == Some(apiKey)
  {
    PutIdempotent(hs, SubscriptionKeyName, apiKey);
    PutKeepsKeysDistinct(hs, SubscriptionKeyName, apiKey);
    PutLookup(hs, SubscriptionKeyName, apiKey, SubscriptionKeyName);
  }

  /** A search client: a fixed API key over an HTTP client whose state each search updates. */
  class BingImageSearchClient {
    const apiKey: string
    const http: LiteHttpClient

    ghost predicate Valid()
      reads this, http
    {
      http.Valid()
    }

    constructor (apiKey: string)
      ensures Valid() && fresh(http)
      ensures this.apiKey == apiKey
      ensures http.headers == [] && http.requestMethod == "POST" && http.endpoint == "" && http.userAgent == None
    {
      this.apiKey := apiKey;
      http := new LiteHttpClient();
    }

    /**
     * `searchImage`: afterwards the key header holds the API key, the method is GET and the
     * endpoint is the search URL for the request; the result is the transport's result for that
     * request, mapped by `SearchResult`.
     */
    method SearchImage<R>(req: Request, net: WireRequest -> Outcome, decode: string -> Option<R>)
      returns (r: SearchOutcome<R>)
      requires Valid()
      modifies http`headers, http`requestMethod, http`endpoint
      ensures Valid()
      ensures http.headers == Put(old(http.headers), SubscriptionKeyName, apiKey)
      ensures http.requestMethod == "GET" && http.endpoint == Endpoint(req.Entries())
      ensures http.userAgent == old(http.userAgent)
      ensures r == SearchResult(Classify(net(http.Wire(None))), decode)
    {
      var _ := http.AddHeader(SubscriptionKeyName, apiKey);
      var query := req.ToQueryString();
      var _ := http.Open("GET", BaseUrl + "?" + query);
      var sent := http.SendNoBody(net);
      match sent {
        case Thrown(e1) =>
          r := Raised(SearchException(e1.message, e1));
        case Null =>
          r := NullText;
        case Body(text) =>
          r := Response(decode(text));
      }
    }
  }
}

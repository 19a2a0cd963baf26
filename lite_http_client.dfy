/**
 * The HTTP transport: a client whose header map, method, endpoint and user agent are set by
 * fluent calls, and whose `Send` turns what the network did into a response body, a thrown
 * `LiteHttpClientException`, or null. The network itself is a parameter: a function from the
 * request that goes on the wire to what happened.
 */
module LiteHttp {
  import opened Common

  // ------------------------------------------- the header map (a LinkedHashMap)

  datatype Header = Header(name: string, value: string)

  function Names(hs: seq<Header>): (r: seq<string>)
    ensures |r| == |hs|
    ensures forall i :: 0 <= i < |hs| ==> r[i] == hs[i].name
  {
    if |hs| == 0 then [] else [hs[0].name] + Names(hs[1..])
  }

  predicate DistinctNames(hs: seq<Header>)
  {
    forall i, j :: 0 <= i < j < |hs| ==> hs[i].name != hs[j].name
  }

  /** `map.get(k)`: the value of the first entry named `k`. */
  function Lookup(hs: seq<Header>, k: string): (r: Option<string>)
    ensures r.None? <==> k !in Names(hs)
  {
    if |hs| == 0 then None
    else if hs[0].name == k then Some(hs[0].value)
    else Lookup(hs[1..], k)
  }

  /** `map.put(k, v)` on an insertion-ordered map. */
  function Put(hs: seq<Header>, k: string, v: string): seq<Header>
  {
    if |hs| == 0 then [Header(k, v)]
    else if hs[0].name == k then [Header(k, v)] + hs[1..]
    else [hs[0]] + Put(hs[1..], k, v)
  }

  /** After `put(k, v)`, `k` maps to `v` and every other key keeps its value. */
  lemma {:induction false} PutLookup(hs: seq<Header>, k: string, v: string, j: string)
    ensures Lookup(Put(hs, k, v), j) == if j == k then Some(v) else Lookup(hs, j)
  {
    if |hs| > 0 && hs[0].name != k {
      PutLookup(hs[1..], k, v, j);
    }
  }

  /** A key already present keeps its position; a new key goes last. */
  lemma {:induction false} PutNames(hs: seq<Header>, k: string, v: string)
    ensures Names(Put(hs, k, v)) == if k in Names(hs) then Names(hs) else Names(hs) + [k]
  {
    if |hs| > 0 {
      assert Names(hs) == [hs[0].name] + Names(hs[1..]);
      if hs[0].name != k {
        PutNames(hs[1..], k, v);
      }
    }
  }

  /** The number of entries named `k`. */
  function Occurrences(names: seq<string>, k: string): nat
  {
    if |names| == 0 then 0 else (if names[0] == k then 1 else 0) + Occurrences(names[1..], k)
  }

  lemma {:induction false} DistinctOccurrences(hs: seq<Header>, k: string)
    requires DistinctNames(hs)
    ensures Occurrences(Names(hs), k) == if k in Names(hs) then 1 else 0
  {
    if |hs| > 0 {
      DistinctOccurrences(hs[1..], k);
      assert Names(hs)[1..] == Names(hs[1..]);
      if hs[0].name == k {
        assert k !in Names(hs[1..]);
      }
    }
  }

  /** `put` keeps the keys distinct, and after it the key occurs exactly once. */
  lemma PutKeepsKeysDistinct(hs: seq<Header>, k: string, v: string)
    requires DistinctNames(hs)
    ensures DistinctNames(Put(hs, k, v))
    ensures Occurrences(Names(Put(hs, k, v)), k) == 1
  {
    var r := Put(hs, k, v);
    PutNames(hs, k, v);
    forall i, j | 0 <= i < j < |r| ensures r[i].name != r[j].name {
      assert Names(r)[i] == r[i].name && Names(r)[j] == r[j].name;
      if k in Names(hs) {
        assert Names(hs)[i] == hs[i].name && Names(hs)[j] == hs[j].name;
      } else if j < |hs| {
        assert Names(hs)[i] == hs[i].name && Names(hs)[j] == hs[j].name;
      } else {
        assert Names(hs)[i] == hs[i].name;
      }
    }
    DistinctOccurrences(r, k);
  }

  /** Putting the same entry twice is putting it once. */
  lemma {:induction false} PutIdempotent(hs: seq<Header>, k: string, v: string)
    ensures Put(Put(hs, k, v), k, v) == Put(hs, k, v)
  {
    if |hs| > 0 && hs[0].name != k {
      PutIdempotent(hs[1..], k, v);
    }
  }

  // ------------------------------------------- headers as applied to the connection

  const UserAgentName: string := "User-Agent"

  /** The `setRequestProperty` calls, in order: the user agent when set, then the map in insertion order. */
  function RequestProperties(userAgent: Option<string>, hs: seq<Header>): seq<Header>
  {
    match userAgent
    case Some(ua) => [Header(UserAgentName, ua)] + hs
    case None => hs
  }

  /** The connection's request headers after the calls `props` on top of `acc`; a later call overwrites. */
  function ApplyProperties(acc: seq<Header>, props: seq<Header>): seq<Header>
    decreases props
  {
    if |props| == 0 then acc else ApplyProperties(Put(acc, props[0].name, props[0].value), props[1..])
  }

  /** The value of the last call for `k` in `props`. */
  function LastValue(props: seq<Header>, k: string): Option<string>
  {
    if |props| == 0 then None
    else match LastValue(props[1..], k)
      case Some(v) => Some(v)
      case None => if props[0].name == k then Some(props[0].value) else None
  }

  lemma {:induction false} ApplyPropertiesLookup(acc: seq<Header>, props: seq<Header>, k: string)
    ensures Lookup(ApplyProperties(acc, props), k) ==
      if LastValue(props, k).Some? then LastValue(props, k) else Lookup(acc, k)
    decreases props
  {
    if |props| > 0 {
      ApplyPropertiesLookup(Put(acc, props[0].name, props[0].value), props[1..], k);
      PutLookup(acc, props[0].name, props[0].value, k);
    }
  }

  lemma {:induction false} LastValueOfDistinct(hs: seq<Header>, k: string)
    requires DistinctNames(hs)
    ensures LastValue(hs, k) == Lookup(hs, k)
  {
    if |hs| > 0 {
      LastValueOfDistinct(hs[1..], k);
      if hs[0].name == k {
        assert k !in Names(hs[1..]) by {
          assert forall i :: 0 <= i < |hs[1..]| ==> Names(hs[1..])[i] == hs[i + 1].name;
        }
      }
    }
  }

  /**
   * On the connection, a `User-Agent` entry of the map wins over the configured user agent,
   * which applies only when the map has none; every other header is the map's.
   */
  lemma UserAgentPrecedence(userAgent: Option<string>, hs: seq<Header>)
    requires DistinctNames(hs)
    ensures var applied := ApplyProperties([], RequestProperties(userAgent, hs));
      && Lookup(applied, UserAgentName) ==
           (if UserAgentName in Names(hs) then Lookup(hs, UserAgentName) else userAgent)
      && forall k :: k != UserAgentName ==> Lookup(applied, k) == Lookup(hs, k)
  {
    var props := RequestProperties(userAgent, hs);
    forall k ensures Lookup(ApplyProperties([], props), k) ==
      (if k == UserAgentName && k !in Names(hs) then userAgent else Lookup(hs, k))
    {
      ApplyPropertiesLookup([], props, k);
      LastValueOfDistinct(hs, k);
      if userAgent.Some? {
        assert props[1..] == hs;
      }
    }
  }

  // ------------------------------------------------------- what the network does

  /** What goes out on the connection. */
  datatype WireRequest = WireRequest(requestMethod: string, url: string, headers: seq<Header>, body: string)

  /** An `IOException` the network raised; its content is not interpreted. */
  datatype IoCause = IoCause(description: string)

  /** The characters a stream delivers; when `broken`, reading past them fails instead of ending. */
  datatype Stream = Stream(data: string, broken: bool)

  /** `getResponseCode()`: a status, or an `IOException`. */
  datatype Status = Code(code: int) | StatusFails

  /** Obtaining the stream to read a failure's text from: an `IOException`, or a stream that may be null. */
  datatype Diagnostic = DiagnosticFails | Obtained(stream: Option<Stream>)

  /**
   * How one `send` went: the URL did not parse; no connection object came about; the body was
   * read in full; or an `IOException` was raised once the connection existed, in which case the
   * status and the diagnostic stream (the input stream from 500 on, the error stream below 500)
   * are what the connection gives when asked.
   */
  datatype Outcome =
    | MalformedUrl
    | NoConnection
    | Ok(body: string)
    | IoError(cause: IoCause, status: Status, diagnostic: Diagnostic)

  /** A `LiteHttpClientException`: an optional message of its own and the `IOException` it wraps. */
  datatype ClientException = ClientException(message: Option<string>, cause: IoCause)

  /** What `send` produces: the response text, an exception it throws, or null. */
  datatype SendResult = Body(text: string) | Thrown(ex: ClientException) | Null

  // ------------------------------------------------ reading lines (BufferedReader)

  predicate IsTerminator(c: char) { c == '\n' || c == '\r' }

  /** The text with every line terminator removed. */
  function Strip(s: string): (r: string)
    ensures forall i :: 0 <= i < |r| ==> !IsTerminator(r[i])
  {
    if |s| == 0 then "" else (if IsTerminator(s[0]) then "" else [s[0]]) + Strip(s[1..])
  }

  /** The length of the longest prefix of `s` that ends in a terminator, or 0. */
  function TerminatedLength(s: string): (n: nat)
    ensures n <= |s|
  {
    if |s| == 0 then 0 else if IsTerminator(s[|s| - 1]) then |s| else TerminatedLength(s[..|s| - 1])
  }

  /** The part of a stream that is read as complete lines before it ends or fails. */
  function Readable(s: Stream): string
  {
    if s.broken then s.data[..TerminatedLength(s.data)] else s.data
  }

  /** What reading a stream line by line and appending every line gathers. */
  function Drained(s: Stream): string
  {
    Strip(Readable(s))
  }

  /** The index of the first terminator, or the length when there is none. */
  function LineEnd(s: string): (i: nat)
    ensures i <= |s|
    ensures forall j :: 0 <= j < i ==> !IsTerminator(s[j])
    ensures i < |s| ==> IsTerminator(s[i])
  {
    if |s| == 0 || IsTerminator(s[0]) then 0 else 1 + LineEnd(s[1..])
  }

  datatype LineRead = Line(line: string, rest: Stream) | EndOfStream | ReadFails

  /**
   * `readLine()`: the characters up to `\n`, `\r` or `\r\n` (which is consumed); at the end, the
   * unterminated remainder, if any; then null. On a broken stream the unterminated remainder is
   * lost to the failure.
   */
  function ReadLine(s: Stream): LineRead
  {
    var i := LineEnd(s.data);
    if i < |s.data| then
      var next := if s.data[i] == '\r' && i + 1 < |s.data| && s.data[i + 1] == '\n' then i + 2 else i + 1;
      Line(s.data[..i], Stream(s.data[next..], s.broken))
    else if s.broken then ReadFails
    else if |s.data| == 0 then EndOfStream
    else Line(s.data, Stream("", false))
  }

  lemma {:induction false} StripAppend(a: string, b: string)
    ensures Strip(a + b) == Strip(a) + Strip(b)
  {
    if |a| > 0 {
      assert (a + b)[1..] == a[1..] + b;
      StripAppend(a[1..], b);
    } else {
      assert a + b == b;
    }
  }

  lemma StripPlain(s: string)
    requires forall i :: 0 <= i < |s| ==> !IsTerminator(s[i])
    ensures Strip(s) == s
  {
    if |s| > 0 {
      StripPlain(s[1..]);
      assert [s[0]] + s[1..] == s;
    }
  }

  lemma StripTerminators(s: string)
    requires forall i :: 0 <= i < |s| ==> IsTerminator(s[i])
    ensures Strip(s) == ""
  {
  }

  lemma {:induction false} TerminatedLengthAppend(a: string, b: string)
    ensures TerminatedLength(a + b) == if TerminatedLength(b) > 0 then |a| + TerminatedLength(b) else TerminatedLength(a)
  {
    if |b| > 0 {
      assert (a + b)[..|a + b| - 1] == a + b[..|b| - 1];
      TerminatedLengthAppend(a, b[..|b| - 1]);
    } else {
      assert a + b == a;
    }
  }

  lemma TerminatedLengthNone(s: string)
    requires forall i :: 0 <= i < |s| ==> !IsTerminator(s[i])
    ensures TerminatedLength(s) == 0
  {
    if |s| > 0 {
      TerminatedLengthNone(s[..|s| - 1]);
    }
  }

  lemma ReadableAfterTerminated(head: string, rest: string)
    requires |head| >= 1 && IsTerminator(head[|head| - 1])
    ensures Readable(Stream(head + rest, true)) == head + Readable(Stream(rest, true))
  {
    TerminatedLengthAppend(head, rest);
    var n := TerminatedLength(rest);
    if n > 0 {
      assert (head + rest)[..|head| + n] == head + rest[..n];
    } else {
      assert (head + rest)[..|head|] == head;
      assert rest[..0] == "";
    }
  }

  /** Gathering what follows a complete line is gathering the line and then the rest. */
  lemma DrainedAfterLine(line: string, term: string, rest: string, broken: bool)
    requires forall i :: 0 <= i < |line| ==> !IsTerminator(line[i])
    requires 1 <= |term| && forall i :: 0 <= i < |term| ==> IsTerminator(term[i])
    ensures Drained(Stream(line + term + rest, broken)) == line + Drained(Stream(rest, broken))
  {
    var head := line + term;
    assert Strip(head) == line by {
      StripPlain(line);
      StripTerminators(term);
      StripAppend(line, term);
    }
    if broken {
      assert head[|head| - 1] == term[|term| - 1];
      ReadableAfterTerminated(head, rest);
      StripAppend(head, Readable(Stream(rest, true)));
    } else {
      StripAppend(head, rest);
    }
  }

  /** Each line read takes the next line off what is left to gather; the end and a failure leave nothing. */
  lemma ReadLineDrains(s: Stream)
    ensures match ReadLine(s)
      case Line(line, rest) => Drained(s) == line + Drained(rest) && |rest.data| < |s.data|
      case _ => Drained(s) == ""
  {
    var d := s.data;
    var i := LineEnd(d);
    if i < |d| {
      var next := if d[i] == '\r' && i + 1 < |d| && d[i + 1] == '\n' then i + 2 else i + 1;
      TerminatedLine(s, i, next);
    } else if s.broken {
      TerminatedLengthNone(d);
    } else if |d| > 0 {
      assert d[..i] == d;
      StripPlain(d);
    }
  }

  lemma TerminatedLine(s: Stream, i: nat, next: nat)
    requires i == LineEnd(s.data) < |s.data|
    requires next == if s.data[i] == '\r' && i + 1 < |s.data| && s.data[i + 1] == '\n' then i + 2 else i + 1
    ensures Drained(s) == s.data[..i] + Drained(Stream(s.data[next..], s.broken))
  {
    var d := s.data;
    var line, term, rest := d[..i], d[i..next], d[next..];
    assert d == line + term + rest;
    assert forall j :: 0 <= j < |line| ==> !IsTerminator(line[j]);
    assert term == [d[i]] || term == [d[i], '\n'];
    DrainedAfterLine(line, term, rest, s.broken);
  }

  /** Lines without terminators, written one per `\n`, are read back as their concatenation. */
  lemma {:induction false} StripJoinedLines(lines: seq<string>)
    requires forall i, j :: 0 <= i < |lines| && 0 <= j < |lines[i]| ==> !IsTerminator(lines[i][j])
    ensures Strip(Join(lines, '\n')) == Concat(lines)
  {
    if |lines| == 1 {
      StripPlain(lines[0]);
      assert Concat(lines) == lines[0] + Concat([]);
    } else if |lines| > 1 {
      StripJoinedLines(lines[1..]);
      StripPlain(lines[0]);
      StripAppend(lines[0] + "\n", Join(lines[1..], '\n'));
      StripAppend(lines[0], "\n");
    }
  }

  function Concat(lines: seq<string>): string
  {
    if |lines| == 0 then "" else lines[0] + Concat(lines[1..])
  }

  // ---------------------------------------------------------- classification

  /** The text `getFromStream` returns: empty for a null stream, else what could be read of it. */
  function DiagnosticText(stream: Option<Stream>): string
  {
    match stream
    case None => ""
    case Some(s) => Drained(s)
  }

  /** The result `send` gives for each way the exchange can go. */
  function Classify(o: Outcome): SendResult
  {
    match o
    case MalformedUrl => Null
    case NoConnection => Null
    case Ok(body) => Body(Strip(body))
    case IoError(cause, status, diagnostic) =>
      match (status, diagnostic)
      case (StatusFails, _) => Null
      case (_, DiagnosticFails) => Null
      case (Code(code), Obtained(stream)) =>
        if code >= 500 then Thrown(ClientException(None, cause))
        else Thrown(ClientException(Some(DiagnosticText(stream)), cause))
  }

  /**
   * `send` gives null exactly when the URL is malformed, no connection came about, or asking for
   * the status or the diagnostic stream raised an `IOException` in turn.
   */
  lemma NullExactlyWhenSwallowed(o: Outcome)
    ensures Classify(o).Null? <==>
      o.MalformedUrl? || o.NoConnection? ||
      (o.IoError? && (o.status.StatusFails? || o.diagnostic.DiagnosticFails?))
  {
  }

  /** From status 500 on, the exception carries the cause only; the server's text is dropped. */
  lemma ServerErrorCarriesCauseOnly(cause: IoCause, code: int, stream: Option<Stream>)
    requires code >= 500
    ensures Classify(IoError(cause, Code(code), Obtained(stream))) == Thrown(ClientException(None, cause))
  {
  }

  /** Below status 500, the exception's message is the error stream's text, and its cause the failure. */
  lemma ClientErrorCarriesErrorText(cause: IoCause, code: int, s: Stream)
    requires code < 500
    ensures Classify(IoError(cause, Code(code), Obtained(Some(s)))) ==
      Thrown(ClientException(Some(Drained(s)), cause))
    ensures !s.broken ==> Classify(IoError(cause, Code(code), Obtained(Some(s)))).ex.message == Some(Strip(s.data))
  {
  }

  /** A body sent as lines is returned as those lines run together, with no terminator between them. */
  lemma SuccessConcatenatesLines(lines: seq<string>)
    requires forall i, j :: 0 <= i < |lines| && 0 <= j < |lines[i]| ==> !IsTerminator(lines[i][j])
    ensures Classify(Ok(Join(lines, '\n'))) == Body(Concat(lines))
  {
    StripJoinedLines(lines);
  }

  // --------------------------------------------------------------- the client

  class LiteHttpClient {
    var headers: seq<Header>
    var requestMethod: string
    var endpoint: string
    var userAgent: Option<string>

    ghost predicate Valid()
      reads this
    {
      DistinctNames(headers)
    }

    /** A fresh client: method POST, empty endpoint, no user agent, no headers. */
    constructor ()
      ensures Valid()
      ensures headers == [] && requestMethod == "POST" && endpoint == "" && userAgent == None
    {
      headers := [];
      requestMethod := "POST";
      endpoint := "";
      userAgent := None;
    }

    method AddHeader(key: string, value: string) returns (self: LiteHttpClient)
      requires Valid()
      modifies this`headers
      ensures Valid() && self == this
      ensures headers == Put(old(headers), key, value)
    {
      PutKeepsKeysDistinct(headers, key, value);
      headers := Put(headers, key, value);
      self := this;
    }

    method SetUserAgent(ua: Option<string>) returns (self: LiteHttpClient)
      modifies this`userAgent
      ensures self == this && userAgent == ua
    {
      userAgent := ua;
      self := this;
    }

    method Open(requestMethod: string, url: string) returns (self: LiteHttpClient)
      modifies this`requestMethod, this`endpoint
      ensures self == this && this.requestMethod == requestMethod && endpoint == url
    {
      this.requestMethod := requestMethod;
      endpoint := url;
      self := this;
    }

    /** The request `send(body)` puts on the wire; a null body writes nothing. */
    function Wire(body: Option<string>): WireRequest
      reads this
    {
      WireRequest(requestMethod, endpoint, ApplyProperties([], RequestProperties(userAgent, headers)),
                  match body case Some(s) => s case None => "")
    }

    /** `getFromStream`: appends every line it can read; never fails, keeping what it gathered. */
    method GetFromStream(stream: Option<Stream>) returns (text: string)
      ensures text == DiagnosticText(stream)
    {
      text := "";
      if stream.Some? {
        var rest := stream.value;
        while ReadLine(rest).Line?
          invariant text + Drained(rest) == Drained(stream.value)
          decreases |rest.data|
        {
          ReadLineDrains(rest);
          text := text + ReadLine(rest).line;
          rest := ReadLine(rest).rest;
        }
        ReadLineDrains(rest);
      }
    }

    /** `send(body)`: the result is the classification of what the network did with this request. */
    method Send(body: Option<string>, net: WireRequest -> Outcome) returns (r: SendResult)
      ensures r == Classify(net(Wire(body)))
    {
      var outcome := net(Wire(body));
      match outcome {
        case MalformedUrl =>
          r := Null;
        case NoConnection =>
          r := Null;
        case Ok(data) =>
          var sb := "";
          var rest := Stream(data, false);
          while ReadLine(rest).Line?
            invariant sb + Drained(rest) == Strip(data)
            decreases |rest.data|
          {
            ReadLineDrains(rest);
            sb := sb + ReadLine(rest).line;
            rest := ReadLine(rest).rest;
          }
          ReadLineDrains(rest);
          r := Body(sb);
        case IoError(cause, status, diagnostic) =>
          if status.StatusFails? || diagnostic.DiagnosticFails? {
            r := Null;
          } else {
            var message := GetFromStream(diagnostic.stream);
            if status.code >= 500 {
              r := Thrown(ClientException(None, cause));
            } else {
              r := Thrown(ClientException(Some(message), cause));
            }
          }
      }
    }

    /** `send()`: the same as sending a null body. */
    method SendNoBody(net: WireRequest -> Outcome) returns (r: SendResult)
      ensures r == Classify(net(Wire(None)))
      ensures Wire(None).body == ""
    {
      r := Send(None, net);
    }
  }
}

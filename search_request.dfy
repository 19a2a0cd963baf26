/**
 * The request parameters of an image search: six named, optional parameters kept in declaration
 * order, each of which renders itself to `key=value` (its value form-encoded) or to nothing, and
 * the query string that joins those renderings with `&`.
 */
module SearchRequest {
  import opened Common
  import opened FormEncoding

  /** A Java `Integer`. */
  type int32 = x: int | -0x8000_0000 <= x < 0x8000_0000

  /** The value of a parameter: a `String` or an `Integer`. */
  datatype ParamValue = Text(s: string) | Number(n: int32)

  // ------------------------------------------------------- decimal numbers

  predicate IsDigit(c: char) { '0' <= c <= '9' }

  function DigitChar(d: int): (c: char)
    requires 0 <= d < 10
    ensures IsDigit(c)
  {
    ('0' as int + d) as char
  }

  /** The decimal digits of `n`, without leading zeros. */
  function Digits(n: nat): (r: string)
    ensures |r| >= 1
    ensures forall i :: 0 <= i < |r| ==> IsDigit(r[i])
  {
    if n < 10 then [DigitChar(n)] else Digits(n / 10) + [DigitChar(n % 10)]
  }

  /** `Integer.toString(n)`: an optional minus sign and the digits. */
  function DecimalString(n: int): string
  {
    if n < 0 then "-" + Digits(-n) else Digits(n)
  }

  function DigitValue(c: char): (d: int)
    requires IsDigit(c)
    ensures 0 <= d < 10
  {
    c as int - '0' as int
  }

  function ParseDigits(s: string): nat
    requires forall i :: 0 <= i < |s| ==> IsDigit(s[i])
  {
    if |s| == 0 then 0 else ParseDigits(s[..|s| - 1]) * 10 + DigitValue(s[|s| - 1])
  }

  predicate AllDigits(s: string) { |s| >= 1 && forall i :: 0 <= i < |s| ==> IsDigit(s[i]) }

  /** `Integer.parseInt(s)`, the partner of `DecimalString`. */
  function ParseDecimal(s: string): Option<int>
  {
    if |s| >= 1 && s[0] == '-' && AllDigits(s[1..]) then Some(0 - ParseDigits(s[1..]) as int)
    else if AllDigits(s) then Some(ParseDigits(s))
    else None
  }

  lemma {:induction false} DigitsRoundTrip(n: nat)
    ensures ParseDigits(Digits(n)) == n
  {
    if n >= 10 {
      DigitsRoundTrip(n / 10);
      var d := Digits(n);
      assert d[..|d| - 1] == Digits(n / 10);
    }
  }

  /** The decimal form of a number reads back as the same number. */
  lemma DecimalRoundTrip(n: int)
    ensures ParseDecimal(DecimalString(n)) == Some(n)
  {
    if n < 0 {
      var d := Digits(-n);
      DigitsRoundTrip(-n);
      var s := "-" + d;
      assert s == DecimalString(n);
      assert s[0] == '-' && s[1..] == d;
      assert AllDigits(d);
      assert ParseDecimal(s) == Some(0 - ParseDigits(d) as int);
    } else {
      var d := Digits(n);
      DigitsRoundTrip(n);
      assert d == DecimalString(n);
      assert IsDigit(d[0]);
      assert AllDigits(d);
      assert ParseDecimal(d) == Some(ParseDigits(d) as int);
    }
  }

  // ------------------------------------------------------------- rendering

  /** `String.valueOf(value)`. */
  function ValueOf(v: ParamValue): string
  {
    match v
    case Text(s) => s
    case Number(n) => DecimalString(n)
  }

  /** The key and the current value of one parameter. */
  datatype Entry = Entry(key: string, value: Option<ParamValue>)

  /** What one parameter contributes to the query string: nothing when unset, else `key=value` encoded. */
  function RenderParam(e: Entry): string
  {
    match e.value
    case None => ""
    case Some(v) => e.key + "=" + FormEncode(ValueOf(v))
  }

  function Pieces(es: seq<Entry>): (r: seq<string>)
    ensures |r| == |es|
    ensures forall i :: 0 <= i < |es| ==> r[i] == RenderParam(es[i])
  {
    if |es| == 0 then [] else [RenderParam(es[0])] + Pieces(es[1..])
  }

  /** The query string: every parameter's rendering, unset ones included, separated by `&`. */
  function QueryString(es: seq<Entry>): string
  {
    Join(Pieces(es), '&')
  }

  /** The keys, in declaration order, of the six parameters of every request. */
  const Keys: seq<string> := ["q", "count", "offset", "mkt", "safeSearch", "size"]

  /** What a request holds right after construction: all six parameters unset. */
  function Initial(): (es: seq<Entry>)
    ensures |es| == |Keys|
    ensures forall i :: 0 <= i < |es| ==> es[i] == Entry(Keys[i], None)
  {
    seq(|Keys|, i requires 0 <= i < |Keys| => Entry(Keys[i], None))
  }

  predicate StandardKeys(es: seq<Entry>)
  {
    |es| == |Keys| && forall i :: 0 <= i < |es| ==> es[i].key == Keys[i]
  }

  /** StringGrabber's `removeTail`: drops the last character, if there is one. */
  function RemoveTail(s: string): string
  {
    if |s| == 0 then s else s[..|s| - 1]
  }

  /** The renderings of `ps`, each followed by `&`, as the rendering loop appends them. */
  function Terminated(ps: seq<string>): string
  {
    if |ps| == 0 then "" else Terminated(ps[..|ps| - 1]) + ps[|ps| - 1] + "&"
  }

  lemma {:induction false} JoinSnoc(ps: seq<string>, p: string, sep: char)
    requires |ps| >= 1
    ensures Join(ps + [p], sep) == Join(ps, sep) + [sep] + p
  {
    if |ps| == 1 {
    } else {
      assert (ps + [p])[1..] == ps[1..] + [p];
      JoinSnoc(ps[1..], p, sep);
    }
  }

  /** Appending `&` after each rendering and then dropping the last character is joining with `&`. */
  lemma {:induction false} RemoveTailOfTerminated(ps: seq<string>)
    ensures RemoveTail(Terminated(ps)) == Join(ps, '&')
  {
    if |ps| >= 1 {
      var init := ps[..|ps| - 1];
      if |init| >= 1 {
        RemoveTailOfTerminated(init);
        JoinSnoc(init, ps[|ps| - 1], '&');
        assert Terminated(init) == Join(init, '&') + "&";
        assert init + [ps[|ps| - 1]] == ps;
      } else {
        assert Terminated(ps) == ps[0] + "&";
      }
    }
  }

  // ---------------------------------------------------- properties of rendering

  /** An unset parameter renders to nothing; a set one never does, since it holds at least `=`. */
  lemma RenderParamEmptyIffUnset(e: Entry)
    ensures RenderParam(e) == "" <==> e.value.None?
  {
    if e.value.Some? {
      assert RenderParam(e)[|e.key|] == '=';
    }
  }

  lemma RenderParamHasNoAmpersand(e: Entry)
    requires '&' !in e.key
    ensures '&' !in RenderParam(e)
  {
    if e.value.Some? {
      FormEncodeAlphabet(ValueOf(e.value.value));
    }
  }

  /** A number is rendered as its plain decimal form: the encoder leaves digits and `-` as they are. */
  lemma NumberRendersAsDecimal(key: string, n: int32)
    ensures RenderParam(Entry(key, Some(Number(n)))) == key + "=" + DecimalString(n)
  {
    var d := DecimalString(n);
    forall i | 0 <= i < |d| ensures d[i] as int < 0x80 && Unreserved(d[i] as int) {
      if n < 0 && i >= 1 {
        assert d[i] == Digits(-(n as int))[i - 1];
      }
    }
    FormEncodeKeepsUnreserved(d);
  }

  /** A set text value reads back from its segment: the part after `key=` decodes to the value. */
  lemma TextSegmentDecodes(key: string, s: string)
    ensures var seg := RenderParam(Entry(key, Some(Text(s))));
      |seg| >= |key| + 1 && seg[..|key| + 1] == key + "=" && FormDecode(seg[|key| + 1..]) == Some(s)
  {
    var seg := RenderParam(Entry(key, Some(Text(s))));
    assert seg[|key| + 1..] == FormEncode(s);
    assert seg[..|key| + 1] == key + "=";
    FormRoundTrip(s);
  }

  /**
   * Splitting a query string at `&` gives back the parameters' renderings one by one, in order,
   * and the string has exactly one `&` fewer than there are parameters.
   */
  lemma QuerySegments(es: seq<Entry>)
    requires |es| >= 1
    requires forall i :: 0 <= i < |es| ==> '&' !in es[i].key
    ensures Split(QueryString(es), '&') == Pieces(es)
    ensures Count(QueryString(es), '&') == |es| - 1
  {
    var ps := Pieces(es);
    forall i | 0 <= i < |ps| ensures '&' !in ps[i] {
      RenderParamHasNoAmpersand(es[i]);
    }
    SplitJoin(ps, '&');
    JoinSeparatorCount(ps, '&');
  }

  /**
   * For a request's six parameters: exactly five `&`, six segments in declaration order, and a
   * segment is empty exactly when its parameter is unset.
   */
  lemma KeysWellFormed()
    ensures forall i :: 0 <= i < |Keys| ==> |Keys[i]| >= 1 && '&' !in Keys[i]
  {
    forall i | 0 <= i < |Keys| ensures |Keys[i]| >= 1 && '&' !in Keys[i] {
      assert i == 0 || i == 1 || i == 2 || i == 3 || i == 4 || i == 5;
    }
  }

  lemma RequestSegments(es: seq<Entry>)
    requires StandardKeys(es)
    ensures Count(QueryString(es), '&') == 5
    ensures |Split(QueryString(es), '&')| == 6
    ensures forall i :: 0 <= i < 6 ==>
      Split(QueryString(es), '&')[i] == RenderParam(es[i]) &&
      (Split(QueryString(es), '&')[i] == "" <==> es[i].value.None?)
  {
    KeysWellFormed();
    QuerySegments(es);
    forall i | 0 <= i < 6 ensures RenderParam(es[i]) == "" <==> es[i].value.None? {
      RenderParamEmptyIffUnset(es[i]);
    }
  }

  /** A request with nothing set renders to five bare separators. */
  lemma AllUnsetRendersSeparators(es: seq<Entry>)
    requires StandardKeys(es)
    requires forall i :: 0 <= i < |es| ==> es[i].value.None?
    ensures QueryString(es) == "&&&&&"
  {
    var ps := Pieces(es);
    assert ps == ["", "", "", "", "", ""];
    assert Join(ps[5..], '&') == "";
    assert Join(ps[4..], '&') == "&";
    assert Join(ps[3..], '&') == "&&";
    assert Join(ps[2..], '&') == "&&&";
    assert Join(ps[1..], '&') == "&&&&";
  }

  /** Changing the value of one parameter changes its own segment of the query string and no other. */
  lemma ChangeOneValue(es: seq<Entry>, k: nat, v: Option<ParamValue>)
    requires StandardKeys(es) && k < |es|
    ensures Split(QueryString(es), '&') == Pieces(es)
    ensures var es' := es[k := es[k].(value := v)];
      Split(QueryString(es'), '&') == Split(QueryString(es), '&')[k := RenderParam(es'[k])]
  {
    var es' := es[k := es[k].(value := v)];
    KeysWellFormed();
    QuerySegments(es);
    QuerySegments(es');
  }

  // ------------------------------------------------------------ the objects

  /** One parameter; it registers itself with its request when constructed. */
  class Param {
    const key: string
    var value: Option<ParamValue>
    const request: Request

    /** Appends the new parameter to `req`'s parameter list. */
    constructor (req: Request, key: string, value: Option<ParamValue>)
      modifies req`params
      ensures this.key == key && this.value == value && this.request == req
      ensures req.params == old(req.params) + [this]
    {
      this.key := key;
      this.value := value;
      this.request := req;
      new;
      req.params := req.params + [this];
    }

    /**
     * Replaces this parameter's value and hands back the owning request. Every other parameter of
     * the request, and the request's list itself, stay as they were.
     */
    method Set(v: Option<ParamValue>) returns (r: Request)
      modifies this`value
      ensures r == request && value == v
      ensures request.params == old(request.params)
      ensures forall i :: 0 <= i < |request.params| ==>
        request.params[i].value == if request.params[i] == this then v else old(request.params[i].value)
    {
      value := v;
      r := request;
    }

    function Rendered(): string
      reads this
    {
      RenderParam(Entry(key, value))
    }
  }

  /**
   * The parameters of one image search. The public fields `keyword`, `count`, `offset`, `mkt`,
   * `safeSearch` and `size` are the list's entries 0 to 5.
   */
  class Request {
    var params: seq<Param>

    /** The list holds six distinct parameters owned by this request, with the keys in declaration order. */
    ghost predicate Valid()
      reads this
    {
      && |params| == |Keys|
      && (forall i :: 0 <= i < |params| ==> params[i].request == this && params[i].key == Keys[i])
      && (forall i, j :: 0 <= i < j < |params| ==> params[i] != params[j])
    }

    /** The key and value of every parameter, in list order. */
    function Entries(): (es: seq<Entry>)
      reads this, params
      ensures |es| == |params|
      ensures forall i :: 0 <= i < |params| ==> es[i] == Entry(params[i].key, params[i].value)
    {
      var ps := params;
      seq(|ps|, i requires 0 <= i < |ps| reads ps => Entry(ps[i].key, ps[i].value))
    }

    /** A well-formed request's entries carry the six keys in declaration order, so the rendering lemmas apply to it. */
    lemma ValidHasStandardKeys()
      requires Valid()
      ensures StandardKeys(Entries())
    {
    }

    /** Declares the six parameters, each unset, in the order `q, count, offset, mkt, safeSearch, size`. */
    constructor ()
      ensures Valid()
      ensures Entries() == Initial()
      ensures forall i :: 0 <= i < |params| ==> fresh(params[i])
    {
      params := [];
      new;
      var q := new Param(this, "q", None);
      var c := new Param(this, "count", None);
      var o := new Param(this, "offset", None);
      var m := new Param(this, "mkt", None);
      var ss := new Param(this, "safeSearch", None);
      var sz := new Param(this, "size", None);
      assert params == [q, c, o, m, ss, sz];
      assert q.value == None && c.value == None && o.value == None;
      assert m.value == None && ss.value == None && sz.value == None;
      forall i | 0 <= i < |params| ensures Entries()[i] == Initial()[i] {
        assert params[i].key == Keys[i] && params[i].value == None;
      }
    }

    /** Appends every parameter's rendering and an `&`, then drops the final character. */
    method ToQueryString() returns (r: string)
      ensures r == QueryString(Entries())
    {
      ghost var ps := Pieces(Entries());
      var sb := "";
      for i := 0 to |params|
        invariant sb == Terminated(ps[..i])
      {
        ghost var next := ps[..i + 1];
        assert next[..i] == ps[..i] && next[i] == ps[i];
        assert params[i].Rendered() == ps[i];
        sb := sb + params[i].Rendered() + "&";
      }
      assert ps[..|params|] == ps;
      RemoveTailOfTerminated(ps);
      r := RemoveTail(sb);
    }
  }
}

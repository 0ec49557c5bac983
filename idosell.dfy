/**
 * The shop API client (idosell_client.py): the order endpoint derived from
 * the configured domain, the body of the order-note update and the
 * classification of the shop's answer into success or `IdosellApiError`.
 * The HTTP exchange itself is outside the model: the answer is a parameter.
 */
module Idosell {
  import opened Wrappers
  import opened PyJson
  import opened Decimal

  // ---------------------------------------------------------------
  //  String operations of `__init__` (idosell_client.py:28-30)
  // ---------------------------------------------------------------

  /** `s.startswith(p)`. */
  predicate StartsWith(s: string, p: string) {
    |p| <= |s| && s[..|p|] == p
  }

  /** `pat` occurs in `s` at position `i`. */
  predicate MatchAt(s: string, pat: string, i: nat) {
    i + |pat| <= |s| && s[i..i + |pat|] == pat
  }

  /** The first position at or after `from` where `pat` occurs in `s`. */
  function FindFrom(s: string, pat: string, from: nat): (r: Option<nat>)
    ensures r.Some? ==> from <= r.value && MatchAt(s, pat, r.value)
    ensures r.Some? ==> forall i :: from <= i < r.value ==> !MatchAt(s, pat, i)
    ensures r.None? ==> forall i :: from <= i ==> !MatchAt(s, pat, i)
    decreases |s| - from
  {
    if from + |pat| > |s| then None
    else if MatchAt(s, pat, from) then Some(from)
    else FindFrom(s, pat, from + 1)
  }

  /** `s.split(sep, 1)[1]`: what follows the first occurrence of `sep`;
      None where the split has a single part and `[1]` would fail. */
  function AfterFirst(s: string, sep: string): Option<string> {
    match FindFrom(s, sep, 0)
    case None => None
    case Some(i) => Some(s[i + |sep|..])
  }

  /** Lines 28-29: a domain given with `http://` or `https://` loses
      everything up to and including the first `://`. */
  function DropScheme(domain: string): string {
    if StartsWith(domain, "http://") || StartsWith(domain, "https://") then
      match AfterFirst(domain, "://")
      case Some(rest) => rest
      case None => domain
    else domain
  }

  /** `s.lstrip('/')`. */
  function LStrip(s: string): (r: string)
    ensures |r| <= |s| && r == s[|s| - |r|..]
    ensures r != [] ==> r[0] != '/'
    ensures forall k :: 0 <= k < |s| - |r| ==> s[k] == '/'
  {
    if s != [] && s[0] == '/' then LStrip(s[1..]) else s
  }

  /** `s.rstrip('/')`. */
  function RStrip(s: string): (r: string)
    ensures |r| <= |s| && r == s[..|r|]
    ensures r != [] ==> r[|r| - 1] != '/'
    ensures forall k :: |r| <= k < |s| ==> s[k] == '/'
  {
    if s != [] && s[|s| - 1] == '/' then RStrip(s[..|s| - 1]) else s
  }

  /** `s.strip('/')`: neither starts nor ends with '/'. */
  function Strip(s: string): (r: string)
    ensures |r| <= |s|
    ensures r != [] ==> r[0] != '/' && r[|r| - 1] != '/'
  {
    var l := LStrip(s);
    var r := RStrip(l);
    assert r != [] ==> r[0] == l[0];
    r
  }

  /** What `strip('/')` keeps is a middle part of `s`, all around it
      being '/'. */
  lemma StripKeepsMiddle(s: string)
    ensures exists i, j :: (0 <= i <= j <= |s| && Strip(s) == s[i..j] &&
      (forall k :: 0 <= k < i ==> s[k] == '/') && (forall k :: j <= k < |s| ==> s[k] == '/'))
  {
    var l := LStrip(s);
    var r := RStrip(l);
    var i := |s| - |l|;
    var j := i + |r|;
    assert l == s[i..];
    assert r == s[i..j];
    forall k | j <= k < |s| ensures s[k] == '/' {
      assert s[k] == l[k - i];
    }
  }

  const OrdersPath: string := "/api/admin/v6/orders/orders"

  /** Line 30: `self.base_url`. */
  function BaseUrl(domain: string): string {
    "https://" + Strip(DropScheme(domain)) + OrdersPath
  }

  /** A `http://` domain loses exactly its first seven characters. */
  lemma DropHttp(domain: string)
    requires StartsWith(domain, "http://")
    ensures DropScheme(domain) == domain[7..]
  {
    assert domain[..7] == "http://";
    assert !MatchAt(domain, "://", 0) by { assert domain[0..3][0] == 'h'; }
    assert !MatchAt(domain, "://", 1) by { assert domain[1..4][0] == 't'; }
    assert !MatchAt(domain, "://", 2) by { assert domain[2..5][0] == 't'; }
    assert !MatchAt(domain, "://", 3) by { assert domain[3..6][0] == 'p'; }
    assert MatchAt(domain, "://", 4) by { assert domain[4..7] == "://"; }
    assert FindFrom(domain, "://", 0) == Some(4);
  }

  /** A `https://` domain loses exactly its first eight characters. */
  lemma DropHttps(domain: string)
    requires StartsWith(domain, "https://")
    ensures DropScheme(domain) == domain[8..]
  {
    assert domain[..8] == "https://";
    assert !StartsWith(domain, "http://") by { assert domain[4] == 's'; }
    assert !MatchAt(domain, "://", 0) by { assert domain[0..3][0] == 'h'; }
    assert !MatchAt(domain, "://", 1) by { assert domain[1..4][0] == 't'; }
    assert !MatchAt(domain, "://", 2) by { assert domain[2..5][0] == 't'; }
    assert !MatchAt(domain, "://", 3) by { assert domain[3..6][0] == 'p'; }
    assert !MatchAt(domain, "://", 4) by { assert domain[4..7][0] == 's'; }
    assert MatchAt(domain, "://", 5) by { assert domain[5..8] == "://"; }
    assert FindFrom(domain, "://", 0) == Some(5);
  }

  /** Stripping twice strips nothing more. */
  lemma StripIdempotent(s: string)
    ensures Strip(Strip(s)) == Strip(s)
  {
    var r := Strip(s);
    if r != [] {
      assert LStrip(r) == r;
      assert RStrip(r) == r;
    }
  }

  /** The same host reaches the same endpoint whether it is configured
      bare, with `http://` or with `https://`. */
  lemma BaseUrlIgnoresScheme(host: string)
    requires !StartsWith(host, "http://") && !StartsWith(host, "https://")
    ensures BaseUrl("http://" + host) == BaseUrl(host)
    ensures BaseUrl("https://" + host) == BaseUrl(host)
  {
    var h1, h2 := "http://" + host, "https://" + host;
    assert h1[..7] == "http://" && h1[7..] == host;
    assert h2[..8] == "https://" && h2[8..] == host;
    DropHttp(h1);
    DropHttps(h2);
  }

  // ---------------------------------------------------------------
  //  The order-note request (idosell_client.py:74-90, 99)
  // ---------------------------------------------------------------

  /** What callers pass as `order_serial_number: int | str`. */
  datatype SerialNumber = IntSerial(n: int) | StrSerial(s: string)

  /** Lines 75-79: `int(order_serial_number)`, or its `str` when `int`
      refuses it. */
  function CoerceSerial(serial: SerialNumber): (j: Json)
    ensures j.Int? || j.Str?
    ensures serial.IntSerial? ==> j == Int(serial.n)
    ensures serial.StrSerial? && IsIntLiteral(serial.s) ==> j == Int(ParseIntLiteral(serial.s))
    ensures j.Str? <==> serial.StrSerial? && !IsIntLiteral(serial.s)
    ensures j.Str? ==> j.s == serial.s
  {
    match serial
    case IntSerial(n) => Int(n)
    case StrSerial(s) => if IsIntLiteral(s) then Int(ParseIntLiteral(s)) else Str(s)
  }

  /** A serial number passed as its decimal text is sent as the same int. */
  lemma CoerceDecimalSerial(n: int)
    ensures CoerceSerial(StrSerial(IntToDecimal(n))) == Int(n)
  {
    ParseIntToDecimal(n);
  }

  /** The orders entry of the body. */
  function NoteOrder(serial: Json, note: string): Json {
    Object([("orderSerialNumber", serial), ("orderNote", Str(note))])
  }

  /** Lines 81-90: `{"params": {"orders": [order]}}`. */
  function NotePayload(serial: Json, note: string): Json {
    Object([("params", Object([("orders", List([NoteOrder(serial, note)]))]))])
  }

  /** The orders the shop reads from a request body, if the body has the
      `params.orders` list shape. */
  function OrdersOf(body: Json): Option<seq<Json>> {
    if !body.Object? then None
    else
      var params := Get(body.entries, "params");
      if !params.Object? then None
      else
        var orders := Get(params.entries, "orders");
        if orders.List? then Some(orders.items) else None
  }

  /** The body carries exactly one order, with the serial number and the note. */
  lemma NotePayloadCarriesOneOrder(serial: Json, note: string)
    ensures OrdersOf(NotePayload(serial, note)) == Some([NoteOrder(serial, note)])
    ensures var o := NoteOrder(serial, note).entries;
      Get(o, "orderSerialNumber") == serial && Get(o, "orderNote") == Str(note)
  {
    var o := NoteOrder(serial, note).entries;
    assert o[0].0 != "orderNote" by { assert o[0].0[5] == 'S'; }
    assert o[1..] == [("orderNote", Str(note))];
    assert Lookup(o[1..], "orderNote") == Some(Str(note));
  }

  /** The PUT the client sends: URL, JSON body and timeout. */
  datatype PutRequest = PutRequest(url: string, body: Json, timeout: real)

  // ---------------------------------------------------------------
  //  The shop's answer (idosell_client.py:44-51, 101-139)
  // ---------------------------------------------------------------

  /** The body of an answer as `resp.json()` sees it. */
  datatype Body = Unparseable | Parsed(value: Json)

  datatype HttpResponse = HttpResponse(statusCode: int, text: string, body: Body)

  /** `IdosellApiError`, by what its message carries. */
  datatype IdosellApiError = HttpStatusError(status: int, text: string) | ApiErrors(errors: Json)

  /** Lines 44-51: the parsed body, None when it is not JSON. */
  function ParseJsonSafely(resp: HttpResponse): (data: Json)
    ensures resp.body.Unparseable? ==> data == Null
    ensures resp.body.Parsed? ==> data == resp.body.value
  {
    match resp.body
    case Unparseable => Null
    case Parsed(v) => v
  }

  /** `isinstance(x, dict) and x.get("errors")`. */
  predicate HasErrors(x: Json) {
    x.Object? && Truthy(Get(x.entries, "errors"))
  }

  /** The error of the first list item that reports errors. */
  function FirstItemError(items: seq<Json>): Option<IdosellApiError> {
    if items == [] then None
    else if HasErrors(items[0]) then Some(ApiErrors(Get(items[0].entries, "errors")))
    else FirstItemError(items[1..])
  }

  /** Lines 101-134: the error `update_order_note` raises for an answer,
      or None when it returns normally. */
  function NoteResponseError(resp: HttpResponse): Option<IdosellApiError> {
    if resp.statusCode >= 400 then Some(HttpStatusError(resp.statusCode, resp.text))
    else
      var data := ParseJsonSafely(resp);
      if HasErrors(data) then Some(ApiErrors(Get(data.entries, "errors")))
      else if data.List? then FirstItemError(data.items)
      else None
  }

  /** The first list item with errors is the one reported. */
  lemma {:induction false} FirstItemErrorIff(items: seq<Json>)
    ensures FirstItemError(items).Some? <==> exists k :: 0 <= k < |items| && HasErrors(items[k])
    ensures FirstItemError(items).Some? ==>
      exists k :: 0 <= k < |items| && HasErrors(items[k]) &&
        FirstItemError(items) == Some(ApiErrors(Get(items[k].entries, "errors"))) &&
        forall j :: 0 <= j < k ==> !HasErrors(items[j])
  {
    if items != [] && !HasErrors(items[0]) {
      var tail := items[1..];
      FirstItemErrorIff(tail);
      assert forall k :: 1 <= k < |items| ==> items[k] == tail[k - 1];
      if FirstItemError(tail).Some? {
        var k :| 0 <= k < |tail| && HasErrors(tail[k]) &&
          FirstItemError(tail) == Some(ApiErrors(Get(tail[k].entries, "errors"))) &&
          forall j :: 0 <= j < k ==> !HasErrors(tail[j]);
        assert HasErrors(items[k + 1]) && forall j :: 0 <= j < k + 1 ==> !HasErrors(items[j]);
      }
    }
  }

  /** The call fails exactly on an HTTP status of 400 or more (whatever the
      body), on a dict body with truthy `errors`, or on a list body with a
      dict item with truthy `errors`; an unparseable body with a good
      status is a success. */
  lemma NoteResponseErrorIff(resp: HttpResponse)
    ensures resp.statusCode >= 400 ==> NoteResponseError(resp) == Some(HttpStatusError(resp.statusCode, resp.text))
    ensures resp.statusCode < 400 && resp.body.Unparseable? ==> NoteResponseError(resp).None?
    ensures NoteResponseError(resp).Some? <==>
      || resp.statusCode >= 400
      || HasErrors(ParseJsonSafely(resp))
      || (ParseJsonSafely(resp).List? &&
          exists k :: 0 <= k < |ParseJsonSafely(resp).items| && HasErrors(ParseJsonSafely(resp).items[k]))
  {
    var data := ParseJsonSafely(resp);
    if data.List? {
      FirstItemErrorIff(data.items);
    }
  }

  // ---------------------------------------------------------------
  //  The client object (idosell_client.py:15-139)
  // ---------------------------------------------------------------

  /** Seconds a request may take when the caller names no timeout (line 21). */
  const DefaultTimeout: real := 10.0

  /** The headers the session sends with every request. */
  function SessionHeaders(apiKey: string): map<string, string> {
    map["accept" := "application/json", "content-type" := "application/json", "X-API-KEY" := apiKey]
  }

  class IdosellClient {
    var baseUrl: string
    var timeout: real
    var headers: map<string, string>

    /** Lines 21-40. */
    constructor (domain: string, apiKey: string, timeout: real := DefaultTimeout)
      ensures baseUrl == BaseUrl(domain)
      ensures this.timeout == timeout
      ensures headers == SessionHeaders(apiKey)
    {
      var host := DropScheme(domain);
      baseUrl := "https://" + Strip(host) + OrdersPath;
      this.timeout := timeout;
      headers := SessionHeaders(apiKey);
    }

    /** `update_order_note`: the request it sends, and the error it raises
        for the shop's answer `resp` (None when it returns normally). The
        list body is scanned item by item and the first item with errors
        ends the scan. */
    method UpdateOrderNote(serial: SerialNumber, note: string, resp: HttpResponse)
      returns (request: PutRequest, err: Option<IdosellApiError>)
      ensures request == PutRequest(baseUrl, NotePayload(CoerceSerial(serial), note), timeout)
      ensures err == NoteResponseError(resp)
    {
      var serialValue := CoerceSerial(serial);
      request := PutRequest(baseUrl, NotePayload(serialValue, note), timeout);
      if resp.statusCode >= 400 {
        return request, Some(HttpStatusError(resp.statusCode, resp.text));
      }
      var data := ParseJsonSafely(resp);
      if HasErrors(data) {
        return request, Some(ApiErrors(Get(data.entries, "errors")));
      }
      if data.List? {
        var items := data.items;
        var i := 0;
        assert items[0..] == items;
        while i < |items|
          invariant 0 <= i <= |items|
          invariant FirstItemError(items) == FirstItemError(items[i..])
        {
          assert items[i..][0] == items[i];
          if HasErrors(items[i]) {
            return request, Some(ApiErrors(Get(items[i].entries, "errors")));
          }
          assert items[i..][1..] == items[i + 1..];
          i := i + 1;
        }
      }
      err := None;
    }
  }
}

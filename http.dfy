/**
  The part of Go's net/http that the handlers drive: a response writer whose
  header map the handler edits, whose status line is written once, and whose
  header is fixed at that moment. Headers that net/http adds by itself (Date,
  a sniffed Content-Type, a computed Content-Length) are not modelled.
 */
module Http {
  import opened Common

  /** `http.Header`: a key holds a list of values. */
  type Header = map<string, seq<string>>

  const STATUS_OK := 200
  const STATUS_BAD_REQUEST := 400
  const STATUS_UNAUTHORIZED := 401
  const STATUS_NOT_FOUND := 404
  const STATUS_METHOD_NOT_ALLOWED := 405
  const STATUS_INTERNAL_SERVER_ERROR := 500

  /**
    What a handler writes as the body. The embedded HTML pages are opaque:
    UploadForm stands for the upload page, Confirmation for the reload page
    with the anchor `<a href='href'>text</a>` filled into its template.
   */
  datatype Payload = UploadForm | Confirmation(href: string, text: string) | Data(bytes: Bytes)

  /** What the client receives: the status, the header fixed with it, and the body. */
  datatype Response = Response(status: int, header: Header, body: seq<Payload>)

  /** The three cross-origin headers every custom handler sets first. */
  function Cors(): (h: Header)
    ensures "Access-Control-Allow-Origin" in h && h["Access-Control-Allow-Origin"] == ["*"]
    ensures "Access-Control-Allow-Methods" in h && h["Access-Control-Allow-Methods"] == ["GET, POST, OPTIONS"]
    ensures "Access-Control-Allow-Headers" in h && h["Access-Control-Allow-Headers"] == ["Content-Type, Authorization"]
    ensures h.Keys == {"Access-Control-Allow-Origin", "Access-Control-Allow-Methods", "Access-Control-Allow-Headers"}
  {
    map["Access-Control-Allow-Origin" := ["*"],
        "Access-Control-Allow-Methods" := ["GET, POST, OPTIONS"],
        "Access-Control-Allow-Headers" := ["Content-Type, Authorization"]]
  }

  /** `h` carries the three cross-origin headers with their values. */
  predicate HasCors(h: Header)
  {
    forall k :: k in Cors() ==> k in h && h[k] == Cors()[k]
  }

  /** `Header.Add`: appends a value to a key. */
  function Added(h: Header, key: string, value: string): (r: Header)
    ensures key in r && r[key] == (if key in h then h[key] else []) + [value]
    ensures forall k :: k in h && k != key ==> k in r && r[k] == h[k]
    ensures r.Keys == h.Keys + {key}
  {
    h[key := (if key in h then h[key] else []) + [value]]
  }

  /** The decimal digits of a number, as `fmt.Sprint` writes an int. */
  function Decimal(n: nat): (s: string)
    ensures |s| >= 1 && forall i :: 0 <= i < |s| ==> '0' <= s[i] <= '9'
    ensures |s| > 1 ==> s[0] != '0'
    ensures DecimalValue(s) == n
  {
    if n < 10 then [('0' as int + n) as char]
    else Decimal(n / 10) + [('0' as int + n % 10) as char]
  }

  /** The number a string of decimal digits denotes. */
  function DecimalValue(s: string): nat
    requires forall i :: 0 <= i < |s| ==> '0' <= s[i] <= '9'
  {
    if s == [] then 0 else 10 * DecimalValue(s[..|s| - 1]) + (s[|s| - 1] as int - '0' as int)
  }

  /** A `http.ResponseWriter` for one request. */
  class ResponseWriter {
    /** The map `w.Header()` returns, which the handler edits. */
    var header: Header
    /** The status code written, 0 while none has been. */
    var status: int
    /** The header as it stood when the status line was written: what the client receives. */
    var sent: Header
    var body: seq<Payload>

    constructor ()
      ensures Idle()
    {
      header, status, sent, body := map[], 0, map[], [];
    }

    /** Nothing has been set or written yet. */
    predicate Idle()
      reads this
    {
      header == map[] && status == 0 && sent == map[] && body == []
    }

    /** What the client receives once the handler returns (an unwritten status is 200). */
    function Received(): Response
      reads this
    {
      if status == 0 then Response(STATUS_OK, header, body) else Response(status, sent, body)
    }

    /** `w.Header().Set(key, value)`: replaces the values of a key; too late to be sent once the status is written. */
    method Set(key: string, value: string)
      modifies this
      ensures header == old(header)[key := [value]]
      ensures status == old(status) && sent == old(sent) && body == old(body)
    {
      header := header[key := [value]];
    }

    /** `w.Header().Add(key, value)`. */
    method Add(key: string, value: string)
      modifies this
      ensures header == Added(old(header), key, value)
      ensures status == old(status) && sent == old(sent) && body == old(body)
    {
      header := Added(header, key, value);
    }

    /**
      `w.WriteHeader(code)` for a final status: the first call writes the status and fixes the
      header, later calls are ignored. Informational 1xx codes, which net/http sends without
      fixing anything, are not modelled.
     */
    method WriteHeader(code: int)
      requires 200 <= code <= 999
      modifies this
      ensures old(status) == 0 ==> status == code && sent == header
      ensures old(status) != 0 ==> status == old(status) && sent == old(sent)
      ensures header == old(header) && body == old(body)
    {
      if status == 0 {
        status, sent := code, header;
      }
    }

    /** `w.Write(p)`: writes status 200 first when no status has been written. */
    method Write(p: Payload)
      modifies this
      ensures old(status) == 0 ==> status == STATUS_OK && sent == header
      ensures old(status) != 0 ==> status == old(status) && sent == old(sent)
      ensures header == old(header) && body == old(body) + [p]
    {
      if status == 0 {
        status, sent := STATUS_OK, header;
      }
      body := body + [p];
    }
  }
}

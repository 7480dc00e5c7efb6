/** One direction of an HTTP exchange as index.js accumulates it: the
    `HTTPMessage` object and its request/response variants, updated in place
    by the native parser's callbacks. The native parser itself is abstracted
    as a sink that records what it is given. */
module Messages {
  import opened Wrappers
  import opened Text
  import opened RawHeaders

  newtype byte = x: int | 0 <= x < 256

  /** `HTTPParser.REQUEST` or `HTTPParser.RESPONSE`. */
  datatype MessageKind = Request | Response

  /** One entry of a parser's log: an `execute` of some bytes, or its release. */
  datatype ParserOp = Executed(data: seq<byte>) | Freed

  /** The part of the start line a variant keeps: a request's `method`, or a
      response's `statusCode` and `statusMessage`. */
  datatype StartLine =
    | RequestLine(methodName: Option<string>)
    | StatusLine(statusCode: int, statusMessage: string)

  /** Events the message emits: `'http headers'` and `'http message'`. */
  datatype Event = HeadersComplete | MessageComplete

  /** The arguments of the parser's headers-complete callback. `rawHeaders`
      is absent when the parser already delivered the headers through
      `onHeaders`; a response's `url` is given as the empty string. */
  datatype HeadersInfo = HeadersInfo(
    versionMajor: nat,
    versionMinor: nat,
    rawHeaders: Option<seq<string>>,
    methodCode: int,
    url: string,
    statusCode: int,
    statusMessage: string,
    upgrade: bool,
    shouldKeepAlive: bool)

  /** `versionMajor + '.' + versionMinor`: the text determines both numbers. */
  function FormatVersion(major: nat, minor: nat): (v: string)
    ensures ParseVersion(v) == Some((major, minor))
  {
    DottedDecimalRoundTrip(major, minor);
    Decimal(major) + "." + Decimal(minor)
  }

  /** Reads a `major.minor` version string back into its two numbers. */
  function ParseVersion(v: string): Option<(nat, nat)>
  {
    match IndexOf(v, '.')
    case None => None
    case Some(i) =>
      match (ParseDecimal(v[..i]), ParseDecimal(v[i + 1..]))
      case (Some(major), Some(minor)) => Some((major, minor))
      case _ => None
  }

  lemma DottedDecimalRoundTrip(major: nat, minor: nat)
    ensures ParseVersion(Decimal(major) + "." + Decimal(minor)) == Some((major, minor))
  {
    var a := Decimal(major);
    var v := a + "." + Decimal(minor);
    assert v[|a|] == '.';
    var i := IndexOf(v, '.').value;
    assert forall k :: 0 <= k < |a| ==> v[k] == a[k] && v[k] != '.';
    assert v[..i] == a;
    assert v[i + 1..] == Decimal(minor);
    DecimalRoundTrip(major);
    DecimalRoundTrip(minor);
  }

  /** `methods[code]`: an entry of the parser's method table, `undefined` out of range. */
  function MethodName(methods: seq<string>, code: int): (r: Option<string>)
    ensures r.Some? <==> 0 <= code < |methods|
    ensures r.Some? ==> r.value == methods[code]
  {
    if 0 <= code < |methods| then Some(methods[code]) else None
  }

  /** `buffer.slice(start, end)`: indices are clamped to the buffer and an
      end before the start gives an empty slice. */
  function Slice(buffer: seq<byte>, start: nat, end: nat): (r: seq<byte>)
    ensures start <= end <= |buffer| ==> r == buffer[start..end]
    ensures end <= start ==> r == []
    ensures |r| <= |buffer|
  {
    var s := if start < |buffer| then start else |buffer|;
    var e := if end < |buffer| then end else |buffer|;
    if e <= s then [] else buffer[s..e]
  }

  /** What the variants' headers-complete hook stores: a request's method
      from the parser's method table, or a response's status code and message
      copied unchanged. */
  function HookStartLine(kind: MessageKind, info: HeadersInfo, methods: seq<string>): StartLine
  {
    match kind
    case Request => RequestLine(MethodName(methods, info.methodCode))
    case Response => StatusLine(info.statusCode, info.statusMessage)
  }

  /** The value a freshly constructed variant gives its start-line fields. */
  function InitialStartLine(kind: MessageKind): StartLine
  {
    match kind
    case Request => RequestLine(Some(""))
    case Response => StatusLine(0, "")
  }

  /** The native `HTTPParser`, as an opaque sink: it records the byte
      sequences it is asked to execute and its release. */
  class Parser {
    const kind: MessageKind
    var ops: seq<ParserOp>

    constructor (kind: MessageKind)
      ensures this.kind == kind && ops == []
    {
      this.kind := kind;
      ops := [];
    }

    method Execute(data: seq<byte>)
      modifies this
      ensures ops == old(ops) + [Executed(data)]
    {
      ops := ops + [Executed(data)];
    }

    method Free()
      modifies this
      ensures ops == old(ops) + [Freed]
    {
      ops := ops + [Freed];
    }
  }

  class HttpMessage {
    const kind: MessageKind
    const parser: Parser
    const src: string
    const dst: string
    const isn: int
    /** Whether the body callback is bound to `OnBody` or to a no-op. */
    const trackBodies: bool

    var chunks: seq<seq<byte>>
    var httpVersion: string
    var url: string
    var rawHeaders: seq<string>
    var headers: map<string, Option<string>>
    var startLine: StartLine
    var emitted: seq<Event>

    /** The parser and the start-line fields follow the message's kind: a
        request keeps a method, a response a status code and message. */
    ghost predicate Valid()
      reads this
    {
      && parser.kind == kind
      && (kind == Request <==> startLine.RequestLine?)
    }

    /** Nothing received yet: no chunks, empty version, url, raw headers and
        header map, nothing emitted. */
    ghost predicate Empty()
      reads this
    {
      && chunks == []
      && httpVersion == ""
      && url == ""
      && rawHeaders == []
      && headers == map[]
      && emitted == []
    }

    constructor (kind: MessageKind, src: string, dst: string, isn: int, trackBodies: bool)
      ensures this.kind == kind && this.src == src && this.dst == dst && this.isn == isn
      ensures this.trackBodies == trackBodies
      ensures fresh(parser) && parser.kind == kind && parser.ops == []
      ensures Valid() && Empty()
      ensures startLine == InitialStartLine(kind)
    {
      this.kind := kind;
      parser := new Parser(kind);
      this.src := src;
      this.dst := dst;
      this.isn := isn;
      this.trackBodies := trackBodies;
      chunks := [];
      httpVersion := "";
      url := "";
      rawHeaders := [];
      headers := map[];
      startLine := InitialStartLine(kind);
      emitted := [];
    }

    /** `onHeaders`: appends a fragment of raw headers and of the url. An
        absent argument is passed as its default, the empty list or string. */
    method OnHeaders(fragment: seq<string>, urlPart: string)
      modifies this`rawHeaders, this`url
      ensures rawHeaders == old(rawHeaders) + fragment
      ensures url == old(url) + urlPart
    {
      rawHeaders := rawHeaders + fragment;
      url := url + urlPart;
    }

    /** The variants' `onHeadersComplete` hook: a request looks its method up
        in the parser's method table; a response copies status code and message. */
    method SetStartLine(info: HeadersInfo, methods: seq<string>)
      modifies this`startLine
      ensures old(Valid()) ==> Valid()
      ensures startLine == HookStartLine(kind, info, methods)
    {
      match kind
      case Request =>
        startLine := RequestLine(MethodName(methods, info.methodCode));
      case Response =>
        startLine := StatusLine(info.statusCode, info.statusMessage);
    }

    /** `_onHeadersComplete` as written: the loop reads the argument's
        `rawHeaders.length`, so an absent argument throws after `httpVersion`
        was set, and `ok` is false. A present list replaces the accumulated
        one, even when empty; the url is replaced only by a non-empty one. */
    method OnHeadersCompleteAsWritten(info: HeadersInfo, methods: seq<string>) returns (ok: bool)
      modifies this`httpVersion, this`rawHeaders, this`headers, this`url, this`startLine, this`emitted
      ensures old(Valid()) ==> Valid()
      ensures ok <==> info.rawHeaders.Some?
      ensures httpVersion == FormatVersion(info.versionMajor, info.versionMinor)
      ensures !ok ==> && rawHeaders == old(rawHeaders) && headers == old(headers)
                      && url == old(url) && startLine == old(startLine) && emitted == old(emitted)
      ensures ok ==> && rawHeaders == info.rawHeaders.value
                     && headers == Normalize(info.rawHeaders.value)
                     && url == (if info.url != "" then info.url else old(url))
                     && startLine == HookStartLine(kind, info, methods)
                     && emitted == old(emitted) + [HeadersComplete]
    {
      httpVersion := FormatVersion(info.versionMajor, info.versionMinor);
      rawHeaders := info.rawHeaders.GetOr(rawHeaders);
      if info.rawHeaders.None? {
        return false;
      }
      headers := FoldHeaders(info.rawHeaders.value);
      url := if info.url != "" then info.url else url;
      SetStartLine(info, methods);
      emitted := emitted + [HeadersComplete];
      ok := true;
    }

    /** `_onHeadersComplete` as evidently intended: the header map is folded
        from the raw list the message keeps, which is the argument when the
        parser gives one and the accumulated `onHeaders` fragments otherwise. */
    method OnHeadersComplete(info: HeadersInfo, methods: seq<string>)
      modifies this`httpVersion, this`rawHeaders, this`headers, this`url, this`startLine, this`emitted
      ensures old(Valid()) ==> Valid()
      ensures httpVersion == FormatVersion(info.versionMajor, info.versionMinor)
      ensures rawHeaders == info.rawHeaders.GetOr(old(rawHeaders))
      ensures headers == Normalize(rawHeaders)
      ensures url == (if info.url != "" then info.url else old(url))
      ensures startLine == HookStartLine(kind, info, methods)
      ensures emitted == old(emitted) + [HeadersComplete]
    {
      httpVersion := FormatVersion(info.versionMajor, info.versionMinor);
      rawHeaders := info.rawHeaders.GetOr(rawHeaders);
      headers := FoldHeaders(rawHeaders);
      url := if info.url != "" then info.url else url;
      SetStartLine(info, methods);
      emitted := emitted + [HeadersComplete];
    }

    /** `onBody`: keeps a copy of `buffer[start .. start + length)` as one more
        chunk; with body tracking off the callback is a no-op. */
    method OnBody(buffer: seq<byte>, start: nat, length: nat)
      modifies this`chunks
      ensures chunks == if trackBodies then old(chunks) + [Slice(buffer, start, start + length)] else old(chunks)
    {
      if trackBodies {
        chunks := chunks + [Slice(buffer, start, start + length)];
      }
    }

    /** `onMessageComplete`: emits `'http message'`. */
    method OnMessageComplete()
      modifies this`emitted
      ensures emitted == old(emitted) + [MessageComplete]
    {
      emitted := emitted + [MessageComplete];
    }

    /** `free`: releases the parser. */
    method Free()
      modifies parser
      ensures parser.ops == old(parser.ops) + [Freed]
    {
      parser.Free();
    }
  }

  /** A header block the parser delivered through `onHeaders` and then
      reported complete without a `rawHeaders` argument: as written, the
      message ends with no header map; as intended, it holds `host`. */
  method AbsentRawHeadersExample()
  {
    var methods := ["DELETE", "GET"];
    var fragment := ["Host", "h"];
    var info := HeadersInfo(1, 1, None, 1, "", 0, "", false, true);
    assert Decimal(1) == "1";
    assert FormatVersion(1, 1) == "1.1";
    assert LowerChar('H') == 'h';
    assert Lower("Host") == "host";
    NormalizeLastWins(fragment, 0);
    ghost var expected := Normalize(fragment);
    assert expected["host"] == Some("h");

    var asWritten := new HttpMessage(Request, "10.0.0.1:5000", "10.0.0.2:80", 7, true);
    asWritten.OnHeaders(fragment, "/x");
    var ok := asWritten.OnHeadersCompleteAsWritten(info, methods);
    assert !ok;
    assert asWritten.rawHeaders == fragment && asWritten.headers == map[];

    var intended := new HttpMessage(Request, "10.0.0.1:5000", "10.0.0.2:80", 7, true);
    intended.OnHeaders(fragment, "/x");
    assert intended.rawHeaders == fragment;
    intended.OnHeadersComplete(info, methods);
    assert intended.headers == expected;
    assert intended.headers["host"] == Some("h");
    assert intended.startLine == RequestLine(Some("GET"));
    assert intended.httpVersion == "1.1";
  }
}

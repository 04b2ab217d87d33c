/**
 * The interceptor (KiwanoLog.kt): the send hook that creates the log row,
 * captures body and headers and observes transport failures, and the
 * receive hook that records the response.
 *
 * The host pipeline is abstract: the request and response are values,
 * `proceedWith` is the outcome the caller supplies (None when it returns,
 * Some(t) when it throws t), and the call attribute holding the id is the
 * `attached` value the send hook returns and the receive hook is given.
 * Charset decoding is the function `decodeText`.
 */
module Interceptor {
  import opened Wrappers
  import opened RequestState
  import opened Decimal
  import opened Headers
  import opened Entity
  import opened Queries
  import opened Dao
  import opened Mapper
  import opened Repository
  import opened Logger

  /** A `ContentType`: its rendering and its charset parameter, if any. */
  datatype ContentType = ContentType(text: string, charset: Option<string>)

  /** The kinds of `OutgoingContent` the hook distinguishes. */
  datatype OutgoingContent =
    | ByteArrayContent(bytes: seq<bv8>, contentType: Option<ContentType>, contentLength: Option<int>)
    | NoContent(contentType: Option<ContentType>, contentLength: Option<int>)
    /** Channel-based and protocol-upgrade contents. */
    | OtherContent(contentType: Option<ContentType>, contentLength: Option<int>)

  /**
   * The finalized outgoing request. `body` is `context.body as? OutgoingContent`:
   * None when the body is not an OutgoingContent.
   */
  datatype OutgoingRequest = OutgoingRequest(
    httpMethod: string, url: string, host: string, port: int, encodedPath: string,
    protocolName: string, headers: seq<HeaderEntry>, body: Option<OutgoingContent>)

  datatype HttpProtocolVersion = HttpProtocolVersion(name: string, major: int, minor: int)

  datatype HttpResponse = HttpResponse(
    status: int, version: HttpProtocolVersion, requestTimestamp: int, responseTimestamp: int,
    headers: seq<HeaderEntry>, body: seq<bv8>, contentType: Option<ContentType>)

  /** Which of the send hook's store calls and capture steps throw. */
  datatype SendFaults = SendFaults(insertFails: bool, captureFails: bool, detailWriteFails: bool,
                                   exceptionWriteFails: bool)

  const DefaultCharset: string := "UTF-8"
  const BodyOmitted: string := "Body Omitted"

  /** `contentType?.charset() ?: Charsets.UTF_8` */
  function CharsetOf(contentType: Option<ContentType>): string {
    match contentType
    case Some(ct) => ct.charset.GetOr(DefaultCharset)
    case None => DefaultCharset
  }

  /** `outgoingContent?.contentType` */
  function ContentTypeOf(body: Option<OutgoingContent>): Option<ContentType> {
    match body
    case Some(c) => c.contentType
    case None => None
  }

  /** `outgoingContent?.contentLength` */
  function ContentLengthOf(body: Option<OutgoingContent>): Option<int> {
    match body
    case Some(c) => c.contentLength
    case None => None
  }

  /**
   * The logged request body: byte-array content as decoded text, no
   * content as null, anything else (including a body that is not an
   * OutgoingContent) as "Body Omitted".
   */
  function ClassifyBody(body: Option<OutgoingContent>, decodeText: (seq<bv8>, string) -> string): (r: Option<string>)
    ensures r.None? <==> body.Some? && body.value.NoContent?
    ensures body.Some? && body.value.ByteArrayContent? ==>
      r == Some(decodeText(body.value.bytes, CharsetOf(body.value.contentType)))
    ensures body.None? || body.value.OtherContent? ==> r == Some(BodyOmitted)
  {
    match body
    case Some(ByteArrayContent(bytes, ct, _)) => Some(decodeText(bytes, CharsetOf(ct)))
    case Some(NoContent(_, _)) => None
    case _ => Some(BodyOmitted)
  }

  /** Content-Type is added when the headers lack it and the content has one. */
  predicate AddsContentType(existing: seq<HeaderEntry>, contentType: Option<ContentType>) {
    !Contains(existing, Headers.ContentType) && contentType.Some?
  }

  /** Content-Length is added when the headers lack it and the content knows it. */
  predicate AddsContentLength(existing: seq<HeaderEntry>, contentLength: Option<int>) {
    !Contains(existing, ContentLength) && contentLength.Some?
  }

  /**
   * One `if (!headerBuilder.contains(name) && value != null) headerBuilder.append(name, value)`
   * step: the header is added at the end exactly when it is absent and the value known.
   */
  function AppendIfAbsent(b: Builder, name: string, value: Option<string>): Builder
  {
    // `append` of a name the builder lacks adds it at the end (see Headers.Append).
    if !Contains(b, name) && value.Some? then b + [HeaderEntry(name, [value.value])] else b
  }

  /** After an AppendIfAbsent step the name holds the new value if it was added, and the old ones otherwise. */
  lemma AppendIfAbsentLookup(b: Builder, name: string, value: Option<string>)
    ensures Lookup(AppendIfAbsent(b, name, value), name) ==
      if !Contains(b, name) && value.Some? then Some([value.value]) else Lookup(b, name)
    ensures DistinctNames(b) ==> DistinctNames(AppendIfAbsent(b, name, value))
  {
    if !Contains(b, name) && value.Some? {
      if DistinctNames(b) {
        AppendKeepsDistinct(b, name, [value.value]);
      }
      LookupAddedAtEnd(b, HeaderEntry(name, [value.value]), name);
    }
  }

  /** An AppendIfAbsent step leaves every other name as it was. */
  lemma AppendIfAbsentOther(b: Builder, name: string, value: Option<string>, other: string)
    requires !NameEquals(name, other)
    ensures Lookup(AppendIfAbsent(b, name, value), other) == Lookup(b, other)
    ensures Contains(AppendIfAbsent(b, name, value), other) <==> Contains(b, other)
  {
    if !Contains(b, name) && value.Some? {
      LookupAddedAtEnd(b, HeaderEntry(name, [value.value]), other);
    }
  }

  /** The rendering of a content type, if there is one. */
  function TextOf(contentType: Option<ContentType>): Option<string> {
    match contentType
    case Some(ct) => Some(ct.text)
    case None => None
  }

  /** The decimal rendering of a content length, if there is one. */
  function DecimalOf(contentLength: Option<int>): Option<string> {
    match contentLength
    case Some(n) => Some(DecimalString(n))
    case None => None
  }

  /**
   * The headers `getHeadersWithContentTypeAndLength` returns: a copy of the
   * existing headers, then Content-Type, then Content-Length, each added only
   * when absent and known.
   */
  function AugmentedHeaders(existing: seq<HeaderEntry>, contentLength: Option<int>,
                                              contentType: Option<ContentType>): Builder
  {
    var withType := AppendIfAbsent(CopyOf(existing), Headers.ContentType, TextOf(contentType));
    AppendIfAbsent(withType, ContentLength, DecimalOf(contentLength))
  }

  /** `append` of a name the builder lacks is an AppendIfAbsent step that adds it. */
  lemma AppendOfAbsent(b: Builder, name: string, value: string)
    requires !Contains(b, name)
    ensures Append(b, name, [value]) == AppendIfAbsent(b, name, Some(value))
  {
  }

  /**
   * `getHeadersWithContentTypeAndLength`: a fresh builder filled with
   * `appendAll`, then the two conditional `append` calls, then its entries.
   */
  method GetHeadersWithContentTypeAndLength(existing: seq<HeaderEntry>, contentLength: Option<int>,
                                            contentType: Option<ContentType>) returns (entries: seq<HeaderEntry>)
    ensures entries == AugmentedHeaders(existing, contentLength, contentType)
  {
    var headerBuilder: Builder := [];
    headerBuilder := AppendAll(headerBuilder, existing);
    headerBuilder := AppendWhenMissing(headerBuilder, Headers.ContentType, TextOf(contentType));
    headerBuilder := AppendWhenMissing(headerBuilder, ContentLength, DecimalOf(contentLength));
    entries := headerBuilder;
  }

  /** `if (!headerBuilder.contains(name) && value != null) headerBuilder.append(name, value)` */
  method AppendWhenMissing(headerBuilder: Builder, name: string, value: Option<string>) returns (r: Builder)
    ensures r == AppendIfAbsent(headerBuilder, name, value)
  {
    r := headerBuilder;
    if !Contains(headerBuilder, name) && value.Some? {
      AppendOfAbsent(headerBuilder, name, value.value);
      r := Append(headerBuilder, name, [value.value]);
    }
  }

  /** An AppendIfAbsent step keeps the builder it starts from as a prefix. */
  lemma AppendIfAbsentPrefix(b: Builder, name: string, value: Option<string>)
    ensures var r := AppendIfAbsent(b, name, value); |b| <= |r| && r[..|b|] == b
  {
    if !Contains(b, name) && value.Some? {
      assert (b + [HeaderEntry(name, [value.value])])[..|b|] == b;
    }
  }

  lemma PrefixOfExtension(a: Builder, b: Builder, c: Builder)
    requires |a| <= |b| <= |c| && b[..|a|] == a && c[..|b|] == b
    ensures c[..|a|] == a
  {
    assert c[..|a|] == c[..|b|][..|a|];
  }

  /** The two content-header steps keep whatever builder they start from as a prefix. */
  lemma ContentStepsPrefix(b: Builder, typeText: Option<string>, lengthText: Option<string>)
    ensures var r := AppendIfAbsent(AppendIfAbsent(b, Headers.ContentType, typeText), ContentLength, lengthText);
      |b| <= |r| && r[..|b|] == b
  {
    var withType := AppendIfAbsent(b, Headers.ContentType, typeText);
    AppendIfAbsentPrefix(b, Headers.ContentType, typeText);
    AppendIfAbsentPrefix(withType, ContentLength, lengthText);
    PrefixOfExtension(b, withType, AppendIfAbsent(withType, ContentLength, lengthText));
  }

  /** Every existing header is kept, in order, ahead of the added ones. */
  lemma HeadersKeepExisting(existing: seq<HeaderEntry>, contentLength: Option<int>, contentType: Option<ContentType>)
    ensures var r := AugmentedHeaders(existing, contentLength, contentType);
      && |CopyOf(existing)| <= |r| && r[..|CopyOf(existing)|] == CopyOf(existing)
      && (DistinctNames(existing) ==> |existing| <= |r| && r[..|existing|] == existing)
  {
    ContentStepsPrefix(CopyOf(existing), TextOf(contentType), DecimalOf(contentLength));
    if DistinctNames(existing) {
      CopyOfDistinct(existing);
    }
  }

  /** At most the two content headers are added: one for each that was absent and known. */
  lemma HeadersCount(existing: seq<HeaderEntry>, contentLength: Option<int>, contentType: Option<ContentType>)
    ensures |AugmentedHeaders(existing, contentLength, contentType)| ==
      |CopyOf(existing)| + (if AddsContentType(existing, contentType) then 1 else 0)
                         + (if AddsContentLength(existing, contentLength) then 1 else 0)
  {
    var copy := CopyOf(existing);
    AppendAllContains([], existing, Headers.ContentType);
    AppendAllContains([], existing, ContentLength);
    ContentTypeIsNotContentLength();
    AppendIfAbsentOther(copy, Headers.ContentType, TextOf(contentType), ContentLength);
  }

  /** Content-Type is appended with the content's type exactly when it is absent and known. */
  lemma HeadersContentType(existing: seq<HeaderEntry>, contentLength: Option<int>, contentType: Option<ContentType>)
    ensures var r := AugmentedHeaders(existing, contentLength, contentType);
      Lookup(r, Headers.ContentType) ==
        if AddsContentType(existing, contentType) then Some([contentType.value.text])
        else Lookup(CopyOf(existing), Headers.ContentType)
  {
    var copy := CopyOf(existing);
    CopyOfProperties(existing);
    ContentTypeIsNotContentLength();
    AppendIfAbsentLookup(copy, Headers.ContentType, TextOf(contentType));
    var withType := AppendIfAbsent(copy, Headers.ContentType, TextOf(contentType));
    AppendIfAbsentOther(withType, ContentLength, DecimalOf(contentLength), Headers.ContentType);
  }

  /** Content-Length is appended, as the decimal text of the length, exactly when it is absent and known. */
  lemma HeadersContentLength(existing: seq<HeaderEntry>, contentLength: Option<int>, contentType: Option<ContentType>)
    ensures var r := AugmentedHeaders(existing, contentLength, contentType);
      Lookup(r, ContentLength) ==
        if AddsContentLength(existing, contentLength) then Some([DecimalString(contentLength.value)])
        else Lookup(CopyOf(existing), ContentLength)
  {
    var copy := CopyOf(existing);
    CopyOfProperties(existing);
    ContentTypeIsNotContentLength();
    AppendIfAbsentOther(copy, Headers.ContentType, TextOf(contentType), ContentLength);
    AppendIfAbsentLookup(AppendIfAbsent(copy, Headers.ContentType, TextOf(contentType)), ContentLength, DecimalOf(contentLength));
  }

  /** With both headers already present, or neither value known, the result is the copied header set. */
  lemma HeadersUnchanged(existing: seq<HeaderEntry>, contentLength: Option<int>, contentType: Option<ContentType>)
    requires !AddsContentType(existing, contentType) && !AddsContentLength(existing, contentLength)
    ensures AugmentedHeaders(existing, contentLength, contentType) == CopyOf(existing)
    ensures DistinctNames(existing) ==> AugmentedHeaders(existing, contentLength, contentType) == existing
  {
    var copy := CopyOf(existing);
    CopyOfProperties(existing);
    ContentTypeIsNotContentLength();
    AppendIfAbsentOther(copy, Headers.ContentType, TextOf(contentType), ContentLength);
    if DistinctNames(existing) {
      CopyOfDistinct(existing);
    }
  }

  /** The result is a well-formed header set: every name at most once. */
  lemma HeadersWellFormed(existing: seq<HeaderEntry>, contentLength: Option<int>, contentType: Option<ContentType>)
    ensures DistinctNames(AugmentedHeaders(existing, contentLength, contentType))
  {
    CopyOfProperties(existing);
    var withType := AppendIfAbsent(CopyOf(existing), Headers.ContentType, TextOf(contentType));
    AppendIfAbsentLookup(CopyOf(existing), Headers.ContentType, TextOf(contentType));
    AppendIfAbsentLookup(withType, ContentLength, DecimalOf(contentLength));
  }

  /** `uppercase()` of the protocol name, for ASCII letters. */
  function UppercaseAscii(s: string): (r: string)
    ensures |r| == |s|
    ensures forall i :: 0 <= i < |s| ==> r[i] == if 'a' <= s[i] <= 'z' then (s[i] as int - 32) as char else s[i]
  {
    if s == [] then [] else [if 'a' <= s[0] <= 'z' then (s[0] as int - 32) as char else s[0]] + UppercaseAscii(s[1..])
  }

  /** The protocol version as logged: `"${major}.${minor}"`. */
  function FormatVersion(major: int, minor: int): string {
    DecimalString(major) + "." + DecimalString(minor)
  }

  /** The position of the first '.', or the length when there is none. */
  function FirstDot(s: string): (i: nat)
    ensures i <= |s|
  {
    if s == [] || s[0] == '.' then 0 else 1 + FirstDot(s[1..])
  }

  lemma {:induction false} FirstDotAfter(x: string, y: string)
    requires forall i :: 0 <= i < |x| ==> x[i] != '.'
    ensures FirstDot(x + "." + y) == |x|
  {
    if x != [] {
      assert (x + "." + y)[1..] == x[1..] + "." + y;
      FirstDotAfter(x[1..], y);
    }
  }

  /** Distinct versions are logged as distinct texts: the text determines major and minor. */
  lemma FormatVersionInjective(major: int, minor: int, major': int, minor': int)
    requires FormatVersion(major, minor) == FormatVersion(major', minor')
    ensures major == major' && minor == minor'
  {
    var a, b := DecimalString(major), DecimalString(minor);
    var a', b' := DecimalString(major'), DecimalString(minor');
    FirstDotAfter(a, b);
    FirstDotAfter(a', b');
    var s := a + "." + b;
    assert a == s[..|a|] && a' == s[..|a'|];
    assert b == s[|a| + 1..] && b' == s[|a'| + 1..];
    DecimalInjective(major, major');
    DecimalInjective(minor, minor');
  }

  /** The headers the send hook logs for a request. */
  function CapturedHeaders(request: OutgoingRequest): Builder {
    AugmentedHeaders(request.headers, ContentLengthOf(request.body), ContentTypeOf(request.body))
  }

  /** The state the send hook leaves a created row in. */
  function SendState(faults: SendFaults, proceed: Option<Throwable>): HttpRequestState {
    if proceed.Some? then (if faults.exceptionWriteFails then Unknown else Failed)
    else if !faults.captureFails && faults.detailWriteFails then Unknown
    else Running
  }

  /** The detail write of the send hook: the encoded augmented headers and the classified body. */
  function DetailWrite(request: OutgoingRequest, decodeText: (seq<bv8>, string) -> string,
                       encodeHeaders: seq<KiwanoHttpHeader> -> string): Write
  {
    BodyAndHeaderWrite(encodeHeaders(ToKiwanoHttpHeaderArray(CapturedHeaders(request))),
                       ClassifyBody(request.body, decodeText))
  }

  /** The row the send hook creates: the request line, path normalized, protocol upper-cased, Running. */
  function Created(request: OutgoingRequest, now: int, id: int): HttpRequestEntity {
    NewEntity(request.httpMethod, request.url, request.host, request.port,
              NormalizePath(request.encodedPath), UppercaseAscii(request.protocolName), now, Running).(id := id)
  }

  /**
   * What the rest of the send hook makes of the created row `created`: the
   * detail write unless capturing failed, then the exception write when the
   * request threw.
   */
  function FinishedRow(created: HttpRequestEntity, request: OutgoingRequest, faults: SendFaults,
                       proceed: Option<Throwable>, decodeText: (seq<bv8>, string) -> string,
                       encodeHeaders: seq<KiwanoHttpHeader> -> string,
                       stackTraceToString: Throwable -> string): HttpRequestEntity
  {
    var detailed :=
      if faults.captureFails then created
      else RowAfter(created, DetailWrite(request, decodeText, encodeHeaders), faults.detailWriteFails);
    match proceed
    case Some(t) => RowAfter(detailed, ExceptionWrite(stackTraceToString(t)), faults.exceptionWriteFails)
    case None => detailed
  }

  /** The row the send hook leaves behind for id `id`: the created Running row, finished. */
  function SentRow(request: OutgoingRequest, now: int, id: int, faults: SendFaults, proceed: Option<Throwable>,
                   decodeText: (seq<bv8>, string) -> string, encodeHeaders: seq<KiwanoHttpHeader> -> string,
                   stackTraceToString: Throwable -> string): HttpRequestEntity
  {
    FinishedRow(Created(request, now, id), request, faults, proceed, decodeText, encodeHeaders, stackTraceToString)
  }

  /**
   * What the stored row holds after the send hook: the request line as
   * captured (path normalized, protocol upper-cased, the clock's time), no
   * response data, the body and headers when they were captured and stored,
   * the exception text when the request threw and it was stored, and the
   * state SendState gives.
   */
  lemma SentRowFields(request: OutgoingRequest, now: int, id: int, faults: SendFaults, proceed: Option<Throwable>,
                      decodeText: (seq<bv8>, string) -> string, encodeHeaders: seq<KiwanoHttpHeader> -> string,
                      stackTraceToString: Throwable -> string)
    ensures var e := SentRow(request, now, id, faults, proceed, decodeText, encodeHeaders, stackTraceToString);
      && e.id == id && e.httpMethod == request.httpMethod && e.url == request.url
      && e.host == request.host && e.port == request.port
      && e.path == NormalizePath(request.encodedPath) && e.protocol == UppercaseAscii(request.protocolName)
      && e.requestTime == now
      && e.statusCode.None? && e.protocolVersion.None? && e.responseHeaders.None? && e.responseBody.None?
      && e.responseTime.None? && e.duration.None? && !e.notified
      && (if !faults.captureFails && !faults.detailWriteFails
          then e.requestBody == ClassifyBody(request.body, decodeText)
            && e.requestHeaders == Some(encodeHeaders(ToKiwanoHttpHeaderArray(CapturedHeaders(request))))
          else e.requestBody.None? && e.requestHeaders.None?)
      && e.exception == (if proceed.Some? && !faults.exceptionWriteFails
                         then Some(stackTraceToString(proceed.value)) else None)
      && e.state == SendState(faults, proceed)
  {
  }

  class KiwanoLog {
    const logger: KiwanoLogger
    /** `String(bytes, charset)` and `bodyAsText(charset)` */
    const decodeText: (seq<bv8>, string) -> string

    ghost predicate Valid()
      reads this, logger, logger.repository, logger.repository.dao
    {
      logger.Valid()
    }

    /** The store's rows. */
    ghost function Rows(): Table
      reads this, logger, logger.repository, logger.repository.dao
    {
      logger.repository.dao.rows
    }

    /** The store's next generated key. */
    ghost function NextId(): int
      reads this, logger, logger.repository, logger.repository.dao
    {
      logger.repository.dao.nextId
    }

    /** Building the plugin builds its logger, which runs recovery. */
    constructor (repository: HttpRequestRepositoryImpl, stackTraceToString: Throwable -> string,
                 decodeText: (seq<bv8>, string) -> string, recoveryFails: bool)
      requires repository.Valid()
      modifies repository.dao
      ensures Valid() && fresh(logger)
      ensures logger.repository == repository && logger.stackTraceToString == stackTraceToString
      ensures this.decodeText == decodeText
      ensures Rows() ==
        if recoveryFails then old(repository.dao.rows) else SetStateForAllRequests(old(repository.dao.rows), Unknown)
      ensures NextId() == old(repository.dao.nextId)
    {
      logger := new KiwanoLogger(repository, stackTraceToString, recoveryFails);
      this.decodeText := decodeText;
    }

    /**
     * The send hook. The row is created before the request proceeds; its
     * id is attached to the call only when creation succeeded, and only
     * then are details and a transport failure logged. A capture failure
     * is swallowed; a transport failure is rethrown unchanged.
     */
    method InterceptSend(request: OutgoingRequest, now: int, faults: SendFaults, proceed: Option<Throwable>)
      returns (attached: Option<int>, rethrown: Option<Throwable>)
      requires Valid()
      modifies logger.repository.dao
      ensures Valid()
      ensures rethrown == proceed
      ensures attached.None? <==> faults.insertFails
      ensures attached.None? ==> Rows() == old(Rows()) && NextId() == old(NextId())
      ensures attached.Some? ==>
        && attached.value !in old(Rows())
        && attached.value == old(NextId()) < NextId()
        && Rows() == old(Rows())[attached.value := SentRow(request, now, attached.value, faults, proceed, decodeText,
                                                            logger.repository.encodeHeaders, logger.stackTraceToString)]
    {
      var id := logger.LogRequest(request.httpMethod, request.url, request.host, request.port,
                                  request.encodedPath, UppercaseAscii(request.protocolName), now, faults.insertFails);
      attached := id;
      if id.None? {
        // Nothing further is logged without an id; the request still proceeds.
        rethrown := proceed;
        return;
      }
      var key := id.value;
      FinishSend(key, request, faults, proceed, old(Rows()), Created(request, now, key));
      rethrown := proceed;
    }

    /**
     * The send hook after the row `key` exists: both `try` blocks, each
     * logging against `key`. `before` and `created` are the rows around the
     * insert, so the result is stated against the table before the hook.
     */
    method FinishSend(key: int, request: OutgoingRequest, faults: SendFaults, proceed: Option<Throwable>,
                      ghost before: map<int, HttpRequestEntity>, ghost created: HttpRequestEntity)
      requires Valid() && Rows() == before[key := created]
      modifies logger.repository.dao
      ensures Valid()
      ensures Rows() == before[key := FinishedRow(created, request, faults, proceed, decodeText,
                                                  logger.repository.encodeHeaders, logger.stackTraceToString)]
      ensures NextId() == old(NextId())
    {
      ghost var row := created;
      if !faults.captureFails {
        CaptureRequestDetail(key, request, faults.detailWriteFails, before, row);
        row := RowAfter(row, DetailWrite(request, decodeText, logger.repository.encodeHeaders),
                        faults.detailWriteFails);
      }
      if proceed.Some? {
        LogTransportFailure(key, proceed.value, faults.exceptionWriteFails, before, row);
      }
    }

    /**
     * The first `try` block of the send hook: the classified body and the
     * augmented headers are stored on row `key`.
     */
    method CaptureRequestDetail(key: int, request: OutgoingRequest, writeFails: bool,
                                ghost before: map<int, HttpRequestEntity>, ghost row: HttpRequestEntity)
      requires Valid() && Rows() == before[key := row]
      modifies logger.repository.dao
      ensures Valid()
      ensures Rows() == before[key := RowAfter(row, DetailWrite(request, decodeText, logger.repository.encodeHeaders),
                                               writeFails)]
      ensures NextId() == old(NextId())
    {
      var body := ClassifyBody(request.body, decodeText);
      var headers := GetHeadersWithContentTypeAndLength(request.headers, ContentLengthOf(request.body),
                                                        ContentTypeOf(request.body));
      SafeOutcomeAt(Rows(), key, BodyAndHeaderWrite(logger.repository.encodeHeaders(ToKiwanoHttpHeaderArray(headers)), body),
                    writeFails);
      logger.LogRequestBodyAndHeader(key, body, headers, writeFails);
    }

    /** The `catch` of `proceedWith`: the throwable is logged against row `key` before it is rethrown. */
    method LogTransportFailure(key: int, t: Throwable, writeFails: bool,
                               ghost before: map<int, HttpRequestEntity>, ghost row: HttpRequestEntity)
      requires Valid() && Rows() == before[key := row]
      modifies logger.repository.dao
      ensures Valid()
      ensures Rows() == before[key := RowAfter(row, ExceptionWrite(logger.stackTraceToString(t)), writeFails)]
      ensures NextId() == old(NextId())
    {
      SafeOutcomeAt(Rows(), key, ExceptionWrite(logger.stackTraceToString(t)), writeFails);
      logger.LogRequestException(key, t, writeFails);
    }

    /**
     * The receive hook. The response is handed on at once; the logging step
     * reads the id from the call's attributes with the throwing accessor, so
     * without an id that step fails and writes nothing. Otherwise it logs the
     * response with duration = response time - request time.
     */
    method InterceptReceive(response: HttpResponse, attached: Option<int>, writeFails: bool)
      returns (delivered: HttpResponse, loggingFailed: bool)
      requires Valid()
      modifies logger.repository.dao
      ensures Valid()
      ensures delivered == response
      ensures loggingFailed <==> attached.None?
      ensures attached.None? ==> Rows() == old(Rows())
      ensures attached.Some? ==> Rows() == SafeOutcome(old(Rows()), attached.value,
        ResponseWrite(response.status, FormatVersion(response.version.major, response.version.minor),
                      response.responseTimestamp, response.responseTimestamp - response.requestTimestamp,
                      Some(decodeText(response.body, CharsetOf(response.contentType))),
                      logger.repository.encodeHeaders(ToKiwanoHttpHeaderArray(response.headers))),
        writeFails)
      ensures NextId() == old(NextId())
    {
      delivered := response;
      var bodyText := decodeText(response.body, CharsetOf(response.contentType));
      match attached
      case None =>
        loggingFailed := true;
      case Some(id) =>
        logger.LogResponse(id, response.status, Some(bodyText), response.headers,
                           FormatVersion(response.version.major, response.version.minor),
                           response.responseTimestamp, response.responseTimestamp - response.requestTimestamp,
                           writeFails);
        loggingFailed := false;
    }
  }
}

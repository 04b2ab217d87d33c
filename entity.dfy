/**
 * One row of the `http_request` table (data/local/entity/HttpRequestEntity.kt).
 *
 * Kotlin `Long`/`Int` columns are `int` here and nullable columns are
 * `Option`s. Besides the record itself, the row is also viewed as the
 * SQL table sees it: one cell per column, with the state stored as its
 * name by the state converter. The store's update contracts are stated
 * in that view ("these columns are set, every other column is unchanged").
 */
module Entity {
  import opened Wrappers
  import opened RequestState
  import opened StateConverter

  datatype HttpRequestEntity = HttpRequestEntity(
    id: int,
    httpMethod: string,
    statusCode: Option<int>,
    url: string,
    host: string,
    port: int,
    path: string,
    protocol: string,
    protocolVersion: Option<string>,
    requestHeaders: Option<string>,
    requestBody: Option<string>,
    responseHeaders: Option<string>,
    responseBody: Option<string>,
    requestTime: int,
    responseTime: Option<int>,
    duration: Option<int>,
    state: HttpRequestState,
    exception: Option<string>,
    notified: bool
  )

  /** The columns of `http_request`. */
  datatype Column =
    | IdCol | MethodCol | StatusCodeCol | UrlCol | HostCol | PortCol | PathCol | ProtocolCol
    | ProtocolVersionCol | RequestHeadersCol | RequestBodyCol | ResponseHeadersCol | ResponseBodyCol
    | RequestTimeCol | ResponseTimeCol | DurationCol | StateCol | ExceptionCol | NotifiedCol

  /** A stored value: SQL NULL, an INTEGER or a TEXT. */
  datatype Cell = Null | Integer(i: int) | Text(t: string)

  function IntCell(v: Option<int>): Cell {
    match v
    case Some(i) => Integer(i)
    case None => Null
  }

  function TextCell(v: Option<string>): Cell {
    match v
    case Some(s) => Text(s)
    case None => Null
  }

  /** The cell of column `c` in row `e`. */
  function CellOf(e: HttpRequestEntity, c: Column): Cell {
    match c
    case IdCol => Integer(e.id)
    case MethodCol => Text(e.httpMethod)
    case StatusCodeCol => IntCell(e.statusCode)
    case UrlCol => Text(e.url)
    case HostCol => Text(e.host)
    case PortCol => Integer(e.port)
    case PathCol => Text(e.path)
    case ProtocolCol => Text(e.protocol)
    case ProtocolVersionCol => TextCell(e.protocolVersion)
    case RequestHeadersCol => TextCell(e.requestHeaders)
    case RequestBodyCol => TextCell(e.requestBody)
    case ResponseHeadersCol => TextCell(e.responseHeaders)
    case ResponseBodyCol => TextCell(e.responseBody)
    case RequestTimeCol => Integer(e.requestTime)
    case ResponseTimeCol => IntCell(e.responseTime)
    case DurationCol => IntCell(e.duration)
    case StateCol => Text(FromHttpRequestState(e.state))
    case ExceptionCol => TextCell(e.exception)
    case NotifiedCol => Integer(if e.notified then 1 else 0)
  }

  /** Rows `a` and `b` hold the same value in every column outside `cols`. */
  ghost predicate SameExcept(a: HttpRequestEntity, b: HttpRequestEntity, cols: set<Column>) {
    forall c :: c !in cols ==> CellOf(a, c) == CellOf(b, c)
  }

  /**
   * The entity as the constructor builds it when only the columns without
   * a default are given: `id = 0` (to be replaced by the generated key),
   * every nullable column null, `notified = false`.
   */
  function NewEntity(httpMethod: string, url: string, host: string, port: int, path: string,
                     protocol: string, requestTime: int, state: HttpRequestState): (e: HttpRequestEntity)
    ensures e.id == 0 && !e.notified
    ensures e.statusCode.None? && e.protocolVersion.None? && e.requestHeaders.None? && e.requestBody.None?
    ensures e.responseHeaders.None? && e.responseBody.None? && e.responseTime.None? && e.duration.None?
    ensures e.exception.None?
    ensures e.httpMethod == httpMethod && e.url == url && e.host == host && e.port == port
    ensures e.path == path && e.protocol == protocol && e.requestTime == requestTime
    ensures e.state == state && CellOf(e, StateCol) == Text(state.Name())
  {
    HttpRequestEntity(
      id := 0, httpMethod := httpMethod, statusCode := None, url := url, host := host, port := port,
      path := path, protocol := protocol, protocolVersion := None, requestHeaders := None,
      requestBody := None, responseHeaders := None, responseBody := None,
      requestTime := requestTime, responseTime := None, duration := None, state := state,
      exception := None, notified := false)
  }

  lemma IntCellInjective(a: Option<int>, b: Option<int>)
    requires IntCell(a) == IntCell(b)
    ensures a == b
  {
  }

  lemma TextCellInjective(a: Option<string>, b: Option<string>)
    requires TextCell(a) == TextCell(b)
    ensures a == b
  {
  }

  /** A row is determined by its cells: the column view loses nothing. */
  lemma RowFromCells(a: HttpRequestEntity, b: HttpRequestEntity)
    requires forall c :: CellOf(a, c) == CellOf(b, c)
    ensures a == b
  {
    RequiredFromCells(a, b);
    NullableFromCells(a, b);
    assert CellOf(a, StateCol) == CellOf(b, StateCol);
    StateRoundTrip(a.state);
    StateRoundTrip(b.state);
  }

  /** The columns without a default are read back from their cells. */
  lemma RequiredFromCells(a: HttpRequestEntity, b: HttpRequestEntity)
    requires forall c :: CellOf(a, c) == CellOf(b, c)
    ensures a.id == b.id && a.httpMethod == b.httpMethod && a.url == b.url && a.host == b.host
    ensures a.port == b.port && a.path == b.path && a.protocol == b.protocol
    ensures a.requestTime == b.requestTime && a.notified == b.notified
  {
    assert CellOf(a, IdCol) == CellOf(b, IdCol);
    assert CellOf(a, MethodCol) == CellOf(b, MethodCol);
    assert CellOf(a, UrlCol) == CellOf(b, UrlCol);
    assert CellOf(a, HostCol) == CellOf(b, HostCol);
    assert CellOf(a, PortCol) == CellOf(b, PortCol);
    assert CellOf(a, PathCol) == CellOf(b, PathCol);
    assert CellOf(a, ProtocolCol) == CellOf(b, ProtocolCol);
    assert CellOf(a, RequestTimeCol) == CellOf(b, RequestTimeCol);
    assert CellOf(a, NotifiedCol) == CellOf(b, NotifiedCol);
  }

  /** The nullable columns are read back from their cells, NULL as None. */
  lemma NullableFromCells(a: HttpRequestEntity, b: HttpRequestEntity)
    requires forall c :: CellOf(a, c) == CellOf(b, c)
    ensures a.statusCode == b.statusCode && a.responseTime == b.responseTime && a.duration == b.duration
    ensures a.protocolVersion == b.protocolVersion && a.requestHeaders == b.requestHeaders
    ensures a.requestBody == b.requestBody && a.responseHeaders == b.responseHeaders
    ensures a.responseBody == b.responseBody && a.exception == b.exception
  {
    assert CellOf(a, StatusCodeCol) == CellOf(b, StatusCodeCol);
    IntCellInjective(a.statusCode, b.statusCode);
    assert CellOf(a, ResponseTimeCol) == CellOf(b, ResponseTimeCol);
    IntCellInjective(a.responseTime, b.responseTime);
    assert CellOf(a, DurationCol) == CellOf(b, DurationCol);
    IntCellInjective(a.duration, b.duration);
    assert CellOf(a, ProtocolVersionCol) == CellOf(b, ProtocolVersionCol);
    TextCellInjective(a.protocolVersion, b.protocolVersion);
    assert CellOf(a, RequestHeadersCol) == CellOf(b, RequestHeadersCol);
    TextCellInjective(a.requestHeaders, b.requestHeaders);
    assert CellOf(a, RequestBodyCol) == CellOf(b, RequestBodyCol);
    TextCellInjective(a.requestBody, b.requestBody);
    assert CellOf(a, ResponseHeadersCol) == CellOf(b, ResponseHeadersCol);
    TextCellInjective(a.responseHeaders, b.responseHeaders);
    assert CellOf(a, ResponseBodyCol) == CellOf(b, ResponseBodyCol);
    TextCellInjective(a.responseBody, b.responseBody);
    assert CellOf(a, ExceptionCol) == CellOf(b, ExceptionCol);
    TextCellInjective(a.exception, b.exception);
  }
}

/**
 * The projection of a stored row onto the view model
 * (data/repository/mapper/KiwanoMapper.kt, with its target
 * domain/model/KiwanoHttpModel.kt), and the two header-array conversions.
 * The JSON decoder is the parameter `decode`; None stands for a string it
 * cannot parse.
 */
module Mapper {
  import opened Wrappers
  import opened RequestState
  import opened Headers
  import opened Entity
  import opened Queries

  datatype Info = Info(
    httpMethod: string,
    statusCode: Option<int>,
    url: string,
    host: string,
    port: int,
    path: string,
    protocol: string,
    protocolVersion: Option<string>,
    duration: Option<int>,
    state: HttpRequestState,
    exception: Option<string>
  )

  datatype Request = Request(headers: seq<KiwanoHttpHeader>, body: Option<string>, timeMillis: int)

  datatype Response = Response(headers: Option<seq<KiwanoHttpHeader>>, body: Option<string>, timeMillis: Option<int>)

  datatype KiwanoHttpModel = KiwanoHttpModel(info: Info, request: Request, response: Option<Response>)

  /** `Set<Map.Entry<String, List<String>>>.toKiwanoHttpHeaderArray()`: one header per entry, in order. */
  function ToKiwanoHttpHeaderArray(entries: seq<HeaderEntry>): (r: seq<KiwanoHttpHeader>)
    ensures |r| == |entries|
    ensures forall i :: 0 <= i < |r| ==> r[i].key == entries[i].name && r[i].value == entries[i].values
  {
    if entries == [] then []
    else [KiwanoHttpHeader(entries[0].name, entries[0].values)] + ToKiwanoHttpHeaderArray(entries[1..])
  }

  /** `String.toKiwanoHttpHeaderArray()`: the decoded array, or an empty one when decoding fails. */
  function DecodeHeaderArray(s: string, decode: string -> Option<seq<KiwanoHttpHeader>>): (r: seq<KiwanoHttpHeader>)
    ensures decode(s).Some? ==> r == decode(s).value
    ensures decode(s).None? ==> r == []
  {
    decode(s).GetOr([])
  }

  /** `HttpRequestEntity.toKiwanoHttpModel()` */
  function ToKiwanoHttpModel(e: HttpRequestEntity, decode: string -> Option<seq<KiwanoHttpHeader>>): (m: KiwanoHttpModel)
    ensures m.info == Info(e.httpMethod, e.statusCode, e.url, e.host, e.port, e.path, e.protocol,
                           e.protocolVersion, e.duration, e.state, e.exception)
    ensures e.requestHeaders.None? ==> m.request.headers == []
    ensures e.requestHeaders.Some? ==> m.request.headers == DecodeHeaderArray(e.requestHeaders.value, decode)
    ensures m.request.body == e.requestBody && m.request.timeMillis == e.requestTime
    ensures m.response.Some?
    ensures m.response.value.headers.None? <==> e.responseHeaders.None?
    ensures e.responseHeaders.Some? ==> m.response.value.headers == Some(DecodeHeaderArray(e.responseHeaders.value, decode))
    ensures m.response.value.body == e.responseBody && m.response.value.timeMillis == e.responseTime
  {
    KiwanoHttpModel(
      Info(e.httpMethod, e.statusCode, e.url, e.host, e.port, e.path, e.protocol,
           e.protocolVersion, e.duration, e.state, e.exception),
      Request(
        match e.requestHeaders
        case Some(h) => DecodeHeaderArray(h, decode)
        case None => [],
        e.requestBody, e.requestTime),
      Some(Response(
        match e.responseHeaders
        case Some(h) => Some(DecodeHeaderArray(h, decode))
        case None => None,
        e.responseBody, e.responseTime)))
  }

  /**
   * What the detail write stores is what the view shows: if the decoder
   * reads back what the encoder wrote, the request headers and body of
   * row `id` appear unchanged in its view model.
   */
  lemma StoredRequestDetailIsShown(t: Table, id: int, headers: seq<KiwanoHttpHeader>, body: Option<string>,
                                   encode: seq<KiwanoHttpHeader> -> string,
                                   decode: string -> Option<seq<KiwanoHttpHeader>>)
    requires id in t
    requires decode(encode(headers)) == Some(headers)
    ensures var m := ToKiwanoHttpModel(UpdateRequestBodyAndHeader(t, id, Some(encode(headers)), body)[id], decode);
      m.request.headers == headers && m.request.body == body
  {
  }
}

/**
 * The repository (data/repository/HttpRequestRepositoryImpl.kt): the only
 * component that writes to the store. It turns lifecycle operations into
 * DAO calls and absorbs the store's faults.
 *
 * Each `GlobalScope.launch` block is one sequential step, run at the call.
 * Whether a store call throws is an explicit `...Fails` parameter; the
 * JSON encoder of the header arrays is the function `encodeHeaders`.
 */
module Repository {
  import opened Wrappers
  import opened RequestState
  import opened Headers
  import opened Entity
  import opened Queries
  import opened Dao

  /** The block a `logSafe` call wraps: one targeted DAO update of the row. */
  datatype Write =
    | BodyAndHeaderWrite(requestHeaders: string, requestBody: Option<string>)
    | ExceptionWrite(exception: string)
    | ResponseWrite(statusCode: int, protocolVersion: string, responseTime: int, duration: int,
                    responseBody: Option<string>, responseHeaders: string)

  /** What the block does to the table when it succeeds (the DAO's default states). */
  function Applied(t: Table, id: int, w: Write): Table {
    match w
    case BodyAndHeaderWrite(h, b) => UpdateRequestBodyAndHeader(t, id, Some(h), b)
    case ExceptionWrite(ex) => UpdateRequestException(t, id, ex, Failed)
    case ResponseWrite(sc, pv, rt, d, rb, rh) => UpdateRequest(t, id, sc, pv, rt, d, rb, Some(rh), Completed)
  }

  /** The outcome of `logSafe(id) { w }`: the write, or, when it throws, the row marked Unknown and nothing else. */
  function SafeOutcome(t: Table, id: int, w: Write, writeFails: bool): (r: Table)
    ensures writeFails ==> OnlyRowChanged(t, r, id, {StateCol}) && (id in t ==> r[id].state == Unknown)
    ensures !writeFails ==> r == Applied(t, id, w)
  {
    if writeFails then LogUnknown(t, id, Unknown) else Applied(t, id, w)
  }

  /** The row a `logSafe` write leaves behind: the write's columns set, or only the state Unknown when it throws. */
  function RowAfter(e: HttpRequestEntity, w: Write, writeFails: bool): HttpRequestEntity {
    if writeFails then e.(state := Unknown)
    else match w
      case BodyAndHeaderWrite(h, b) => e.(requestHeaders := Some(h), requestBody := b)
      case ExceptionWrite(ex) => e.(exception := Some(ex), state := Failed)
      case ResponseWrite(sc, pv, rt, d, rb, rh) =>
        e.(protocolVersion := Some(pv), statusCode := Some(sc), responseTime := Some(rt), duration := Some(d),
           responseBody := rb, responseHeaders := Some(rh), state := Completed)
  }

  /** `logSafe` on an existing row replaces that row by RowAfter and touches nothing else. */
  lemma SafeOutcomeAt(t: Table, id: int, w: Write, writeFails: bool)
    requires id in t
    ensures SafeOutcome(t, id, w, writeFails) == t[id := RowAfter(t[id], w, writeFails)]
  {
  }

  class HttpRequestRepositoryImpl {
    const dao: HttpRequestDao
    /** `json.encodeToString` of a header array. */
    const encodeHeaders: seq<KiwanoHttpHeader> -> string

    ghost predicate Valid()
      reads this, dao
    {
      dao.Valid()
    }

    constructor (dao: HttpRequestDao, encodeHeaders: seq<KiwanoHttpHeader> -> string)
      ensures this.dao == dao && this.encodeHeaders == encodeHeaders
    {
      this.dao := dao;
      this.encodeHeaders := encodeHeaders;
    }

    /**
     * Inserts a Running row for the request, stamped with the clock `now`,
     * and returns its id; a failing insert is swallowed and gives None.
     */
    method LogRequest(httpMethod: string, url: string, host: string, port: int, path: string,
                      protocol: string, now: int, insertFails: bool) returns (id: Option<int>)
      requires Valid()
      modifies dao
      ensures Valid()
      ensures id.None? <==> insertFails
      ensures id.None? ==> dao.rows == old(dao.rows) && dao.nextId == old(dao.nextId)
      ensures id.Some? ==>
        && id.value !in old(dao.rows)
        && dao.rows == old(dao.rows)[id.value := NewEntity(httpMethod, url, host, port, path, protocol, now, Running).(id := id.value)]
        && id.value == old(dao.nextId) < dao.nextId
    {
      if insertFails {
        id := None;
      } else {
        id := dao.InsertRequest(NewEntity(httpMethod, url, host, port, path, protocol, now, Running));
        assert id.value in dao.rows;
      }
    }

    /** `logSafe`: runs the write; if it throws, marks the row Unknown instead. */
    method LogSafe(id: int, w: Write, writeFails: bool)
      requires Valid()
      modifies dao
      ensures Valid()
      ensures dao.rows == SafeOutcome(old(dao.rows), id, w, writeFails)
      ensures dao.nextId == old(dao.nextId)
    {
      if writeFails {
        dao.LogUnknown(id);
      } else {
        match w
        case BodyAndHeaderWrite(h, b) => dao.UpdateRequestBodyAndHeader(id, Some(h), b);
        case ExceptionWrite(ex) => dao.UpdateRequestException(id, ex);
        case ResponseWrite(sc, pv, rt, d, rb, rh) => dao.UpdateRequest(id, sc, pv, rt, d, rb, Some(rh));
      }
    }

    /** Stores the request body and the encoded request headers on row `id`. */
    method LogRequestBodyAndHeader(id: int, requestBody: Option<string>, requestHeaders: seq<KiwanoHttpHeader>,
                                   writeFails: bool)
      requires Valid()
      modifies dao
      ensures Valid()
      ensures dao.rows == SafeOutcome(old(dao.rows), id, BodyAndHeaderWrite(encodeHeaders(requestHeaders), requestBody), writeFails)
      ensures dao.nextId == old(dao.nextId)
    {
      LogSafe(id, BodyAndHeaderWrite(encodeHeaders(requestHeaders), requestBody), writeFails);
    }

    /** Leaves row `id` Failed with the exception text. */
    method LogRequestException(id: int, exception: string, writeFails: bool)
      requires Valid()
      modifies dao
      ensures Valid()
      ensures dao.rows == SafeOutcome(old(dao.rows), id, ExceptionWrite(exception), writeFails)
      ensures dao.nextId == old(dao.nextId)
    {
      LogSafe(id, ExceptionWrite(exception), writeFails);
    }

    /** Leaves row `id` Completed with the response data and the encoded response headers. */
    method LogResponse(id: int, statusCode: int, responseBody: Option<string>, responseHeaders: seq<KiwanoHttpHeader>,
                       protocolVersion: string, responseTime: int, duration: int, writeFails: bool)
      requires Valid()
      modifies dao
      ensures Valid()
      ensures dao.rows == SafeOutcome(old(dao.rows), id,
        ResponseWrite(statusCode, protocolVersion, responseTime, duration, responseBody, encodeHeaders(responseHeaders)),
        writeFails)
      ensures dao.nextId == old(dao.nextId)
    {
      LogSafe(id, ResponseWrite(statusCode, protocolVersion, responseTime, duration, responseBody,
                                encodeHeaders(responseHeaders)), writeFails);
    }

    /** Recovery: every Running row becomes Unknown; a store failure is swallowed and changes nothing. */
    method CompleteAllPendingLogs(storeFails: bool)
      requires Valid()
      modifies dao
      ensures Valid()
      ensures dao.rows == if storeFails then old(dao.rows) else SetStateForAllRequests(old(dao.rows), Unknown)
      ensures dao.nextId == old(dao.nextId)
    {
      if !storeFails {
        dao.SetStateForAllRequests(Unknown);
      }
    }

    /** Empties the table; a store failure is swallowed and changes nothing. */
    method ClearAllRequests(storeFails: bool)
      requires Valid()
      modifies dao
      ensures Valid()
      ensures dao.rows == if storeFails then old(dao.rows) else map[]
      ensures dao.nextId == old(dao.nextId)
    {
      if !storeFails {
        dao.ClearRequests();
      }
    }
  }

  /** A successful response write leaves the row Completed with exactly the logged values. */
  lemma ResponseWriteCompletes(t: Table, id: int, statusCode: int, protocolVersion: string, responseTime: int,
                               duration: int, responseBody: Option<string>, responseHeaders: string)
    requires id in t
    ensures var r := SafeOutcome(t, id, ResponseWrite(statusCode, protocolVersion, responseTime, duration,
                                                      responseBody, responseHeaders), false);
      && r[id].state == Completed && r[id].statusCode == Some(statusCode)
      && r[id].protocolVersion == Some(protocolVersion) && r[id].responseTime == Some(responseTime)
      && r[id].duration == Some(duration) && r[id].responseBody == responseBody
      && r[id].responseHeaders == Some(responseHeaders)
      && SameExcept(t[id], r[id], ResponseColumns)
  {
  }

  /** A successful exception write leaves the row Failed with the text, and e.g. its status code as it was. */
  lemma ExceptionWriteMarksFailed(t: Table, id: int, exception: string)
    requires id in t
    ensures var r := SafeOutcome(t, id, ExceptionWrite(exception), false);
      && r[id].state == Failed && r[id].exception == Some(exception)
      && r[id].statusCode == t[id].statusCode
      && SameExcept(t[id], r[id], {ExceptionCol, StateCol})
  {
  }
}

/**
 * The queries of the record store (data/local/dao/HttpRequestDao.kt) as
 * functions on the contents of the `http_request` table. Each contract
 * says which rows the statement selects, which columns it sets, and that
 * every other column and row is left alone.
 */
module Queries {
  import opened Wrappers
  import opened RequestState
  import opened StateConverter
  import opened Entity

  /** The table's rows by primary key. */
  type Table = map<int, HttpRequestEntity>

  /** `r` differs from `t` at most in the columns `cols` of row `id`. */
  ghost predicate OnlyRowChanged(t: Table, r: Table, id: int, cols: set<Column>) {
    && r.Keys == t.Keys
    && (forall k | k in t && k != id :: r[k] == t[k])
    && (id in t ==> SameExcept(t[id], r[id], cols))
  }

  const ResponseColumns: set<Column> := {
    ProtocolVersionCol, StatusCodeCol, ResponseTimeCol, DurationCol,
    ResponseBodyCol, ResponseHeadersCol, StateCol
  }

  /** `UPDATE http_request SET protocol_version, status_code, response_time, duration, response_body, response_headers, state WHERE id=:id` */
  function UpdateRequest(t: Table, id: int, statusCode: int, protocolVersion: string, responseTime: int,
                         duration: int, responseBody: Option<string>, responseHeaders: Option<string>,
                         state: HttpRequestState): (r: Table)
    ensures OnlyRowChanged(t, r, id, ResponseColumns)
    ensures id !in t ==> r == t
    ensures id in t ==>
      && r[id].protocolVersion == Some(protocolVersion) && r[id].statusCode == Some(statusCode)
      && r[id].responseTime == Some(responseTime) && r[id].duration == Some(duration)
      && r[id].responseBody == responseBody && r[id].responseHeaders == responseHeaders
      && r[id].state == state
  {
    if id in t then
      t[id := t[id].(protocolVersion := Some(protocolVersion), statusCode := Some(statusCode),
                     responseTime := Some(responseTime), duration := Some(duration),
                     responseBody := responseBody, responseHeaders := responseHeaders, state := state)]
    else t
  }

  /** `UPDATE http_request SET exception=:exception, state=:state WHERE id=:id` */
  function UpdateRequestException(t: Table, id: int, exception: string, state: HttpRequestState): (r: Table)
    ensures OnlyRowChanged(t, r, id, {ExceptionCol, StateCol})
    ensures id !in t ==> r == t
    ensures id in t ==> r[id].exception == Some(exception) && r[id].state == state
  {
    if id in t then t[id := t[id].(exception := Some(exception), state := state)] else t
  }

  /** `UPDATE http_request SET request_headers=:requestHeaders, request_body=:requestBody WHERE id=:id` */
  function UpdateRequestBodyAndHeader(t: Table, id: int, requestHeaders: Option<string>,
                                      requestBody: Option<string>): (r: Table)
    ensures OnlyRowChanged(t, r, id, {RequestHeadersCol, RequestBodyCol})
    ensures id !in t ==> r == t
    ensures id in t ==> r[id].requestHeaders == requestHeaders && r[id].requestBody == requestBody
  {
    if id in t then t[id := t[id].(requestHeaders := requestHeaders, requestBody := requestBody)] else t
  }

  /** `UPDATE http_request SET state=:state WHERE id=:id` */
  function LogUnknown(t: Table, id: int, state: HttpRequestState): (r: Table)
    ensures OnlyRowChanged(t, r, id, {StateCol})
    ensures id !in t ==> r == t
    ensures id in t ==> r[id].state == state
  {
    if id in t then t[id := t[id].(state := state)] else t
  }

  /**
   * `UPDATE http_request SET state=:state WHERE state IS 'Running'`: the
   * WHERE clause compares the stored text of the state column.
   */
  function SetStateForAllRequests(t: Table, state: HttpRequestState): (r: Table)
    ensures r.Keys == t.Keys
    ensures forall k | k in t :: SameExcept(t[k], r[k], {StateCol})
    ensures forall k | k in t :: r[k].state == if t[k].state == Running then state else t[k].state
    ensures forall k | k in t && t[k].state != Running :: r[k] == t[k]
    ensures state != Running ==> forall k | k in r :: r[k].state != Running
  {
    map k | k in t :: SetStateIfRunning(t[k], state)
  }

  /** One row under `SET state=:state WHERE state IS 'Running'`. */
  function SetStateIfRunning(e: HttpRequestEntity, state: HttpRequestState): (r: HttpRequestEntity)
    ensures SameExcept(e, r, {StateCol})
    ensures r.state == if e.state == Running then state else e.state
    ensures e.state != Running ==> r == e
  {
    if CellOf(e, StateCol) == Text("Running") then
      assert e.state == Running by { StateRoundTrip(e.state); }
      e.(state := state)
    else e
  }

  /** Resetting the running rows a second time changes nothing. */
  lemma SetStateIdempotent(t: Table, state: HttpRequestState)
    ensures SetStateForAllRequests(SetStateForAllRequests(t, state), state) == SetStateForAllRequests(t, state)
  {
    var r := SetStateForAllRequests(t, state);
    forall k | k in r
      ensures SetStateIfRunning(r[k], state) == r[k]
    {
      if r[k].state == Running {
        assert state == Running && r[k] == t[k];
      }
    }
  }

  /**
   * The request-detail write and the response write of one row touch
   * disjoint columns, so the order in which the two background writes land
   * does not matter.
   */
  lemma DetailAndResponseCommute(t: Table, id: int, requestHeaders: Option<string>, requestBody: Option<string>,
                                 statusCode: int, protocolVersion: string, responseTime: int, duration: int,
                                 responseBody: Option<string>, responseHeaders: Option<string>, state: HttpRequestState)
    ensures UpdateRequest(UpdateRequestBodyAndHeader(t, id, requestHeaders, requestBody),
                          id, statusCode, protocolVersion, responseTime, duration, responseBody, responseHeaders, state)
         == UpdateRequestBodyAndHeader(UpdateRequest(t, id, statusCode, protocolVersion, responseTime, duration,
                                                     responseBody, responseHeaders, state),
                                       id, requestHeaders, requestBody)
  {
  }

}

/**
 * The record store (data/local/dao/HttpRequestDao.kt): the `http_request`
 * table, keyed by an auto-generated id, updated in place by the queries.
 */
module Dao {
  import opened Wrappers
  import opened RequestState
  import opened Entity
  import opened Queries

  /** An auto-incrementing table of log rows. */
  class HttpRequestDao {
    var rows: Table
    /** The next generated key: above every key used so far (AUTOINCREMENT never reuses one). */
    var nextId: int

    ghost predicate Valid()
      reads this
    {
      && nextId >= 1
      && forall k | k in rows :: rows[k].id == k && k < nextId
    }

    constructor ()
      ensures Valid() && rows == map[] && nextId == 1
    {
      rows := map[];
      nextId := 1;
    }

    /**
     * `@Insert`: an entity whose id is 0 gets the next generated key; a
     * non-zero id is used as given, and fails (a constraint violation)
     * when a row with that key exists.
     */
    method InsertRequest(e: HttpRequestEntity) returns (r: Option<int>)
      requires Valid()
      modifies this
      ensures Valid()
      ensures r.None? <==> e.id != 0 && e.id in old(rows)
      ensures r.None? ==> rows == old(rows) && nextId == old(nextId)
      ensures r.Some? ==> r.value !in old(rows) && rows == old(rows)[r.value := e.(id := r.value)]
      ensures r.Some? && e.id != 0 ==> r.value == e.id
      ensures r.Some? && e.id == 0 ==> r.value == old(nextId) && forall k | k in old(rows) :: k < r.value
      ensures nextId >= old(nextId)
    {
      if e.id == 0 {
        r := Some(nextId);
        rows := rows[nextId := e.(id := nextId)];
        nextId := nextId + 1;
      } else if e.id in rows {
        r := None;
      } else {
        r := Some(e.id);
        rows := rows[e.id := e];
        if e.id >= nextId {
          nextId := e.id + 1;
        }
      }
    }

    method UpdateRequest(id: int, statusCode: int, protocolVersion: string, responseTime: int, duration: int,
                         responseBody: Option<string>, responseHeaders: Option<string>,
                         state: HttpRequestState := Completed)
      requires Valid()
      modifies this
      ensures Valid() && nextId == old(nextId)
      ensures rows == Queries.UpdateRequest(old(rows), id, statusCode, protocolVersion, responseTime, duration,
                                        responseBody, responseHeaders, state)
    {
      rows := Queries.UpdateRequest(rows, id, statusCode, protocolVersion, responseTime, duration,
                                responseBody, responseHeaders, state);
    }

    method UpdateRequestException(id: int, exception: string, state: HttpRequestState := Failed)
      requires Valid()
      modifies this
      ensures Valid() && nextId == old(nextId)
      ensures rows == Queries.UpdateRequestException(old(rows), id, exception, state)
    {
      rows := Queries.UpdateRequestException(rows, id, exception, state);
    }

    method UpdateRequestBodyAndHeader(id: int, requestHeaders: Option<string>, requestBody: Option<string>)
      requires Valid()
      modifies this
      ensures Valid() && nextId == old(nextId)
      ensures rows == Queries.UpdateRequestBodyAndHeader(old(rows), id, requestHeaders, requestBody)
    {
      rows := Queries.UpdateRequestBodyAndHeader(rows, id, requestHeaders, requestBody);
    }

    method SetStateForAllRequests(state: HttpRequestState)
      requires Valid()
      modifies this
      ensures Valid() && nextId == old(nextId)
      ensures rows == Queries.SetStateForAllRequests(old(rows), state)
    {
      rows := Queries.SetStateForAllRequests(rows, state);
    }

    method LogUnknown(id: int, state: HttpRequestState := Unknown)
      requires Valid()
      modifies this
      ensures Valid() && nextId == old(nextId)
      ensures rows == Queries.LogUnknown(old(rows), id, state)
    {
      rows := Queries.LogUnknown(rows, id, state);
    }

    /** `DELETE FROM http_request`; the key counter is kept, so keys are still never reused. */
    method ClearRequests()
      requires Valid()
      modifies this
      ensures Valid() && nextId == old(nextId)
      ensures rows == map[]
    {
      rows := map[];
    }
  }
}

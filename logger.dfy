/**
 * The logger facade (device/logger/KiwanoLogger.kt): recovery when it is
 * constructed, path normalization, and forwarding to the repository with
 * the header entries converted to header arrays. `stackTraceToString` is
 * the platform's rendering of a throwable.
 */
module Logger {
  import opened Wrappers
  import opened RequestState
  import opened Headers
  import opened Entity
  import opened Queries
  import opened Dao
  import opened Mapper
  import opened Repository

  /** A throwable raised by the HTTP pipeline; only its identity and rendering matter here. */
  datatype Throwable = Throwable(description: string)

  /** `if (path.startsWith("/")) path else "/$path"` */
  function NormalizePath(path: string): (r: string)
    ensures |r| > 0 && r[0] == '/'
    ensures |path| > 0 && path[0] == '/' ==> r == path
    ensures !(|path| > 0 && path[0] == '/') ==> r == "/" + path && |r| == |path| + 1
  {
    if |path| > 0 && path[0] == '/' then path else "/" + path
  }

  /** Normalizing twice is the same as once. */
  lemma NormalizePathIdempotent(path: string)
    ensures NormalizePath(NormalizePath(path)) == NormalizePath(path)
  {
  }

  class KiwanoLogger {
    const repository: HttpRequestRepositoryImpl
    const stackTraceToString: Throwable -> string

    ghost predicate Valid()
      reads this, repository, repository.dao
    {
      repository.Valid()
    }

    /**
     * The `init` block: recovery (Running rows become Unknown) runs before
     * the logger can be used. The watcher it also launches does nothing.
     */
    constructor (repository: HttpRequestRepositoryImpl, stackTraceToString: Throwable -> string, recoveryFails: bool)
      requires repository.Valid()
      modifies repository.dao
      ensures Valid()
      ensures this.repository == repository && this.stackTraceToString == stackTraceToString
      ensures repository.dao.rows ==
        if recoveryFails then old(repository.dao.rows) else SetStateForAllRequests(old(repository.dao.rows), Unknown)
      ensures repository.dao.nextId == old(repository.dao.nextId)
    {
      this.repository := repository;
      this.stackTraceToString := stackTraceToString;
      new;
      repository.CompleteAllPendingLogs(recoveryFails);
    }

    /** Creates the row with the path normalized to start with '/'. */
    method LogRequest(httpMethod: string, url: string, host: string, port: int, path: string, protocol: string,
                      now: int, insertFails: bool) returns (id: Option<int>)
      requires Valid()
      modifies repository.dao
      ensures Valid()
      ensures id.None? <==> insertFails
      ensures id.None? ==> repository.dao.rows == old(repository.dao.rows) && repository.dao.nextId == old(repository.dao.nextId)
      ensures id.Some? ==>
        && id.value !in old(repository.dao.rows)
        && repository.dao.rows == old(repository.dao.rows)[id.value :=
             NewEntity(httpMethod, url, host, port, NormalizePath(path), protocol, now, Running).(id := id.value)]
        && id.value == old(repository.dao.nextId) < repository.dao.nextId
    {
      id := repository.LogRequest(httpMethod, url, host, port, NormalizePath(path), protocol, now, insertFails);
    }

    /** Logs the throwable's rendering against row `id`. */
    method LogRequestException(id: int, throwable: Throwable, writeFails: bool)
      requires Valid()
      modifies repository.dao
      ensures Valid()
      ensures repository.dao.rows ==
        SafeOutcome(old(repository.dao.rows), id, ExceptionWrite(stackTraceToString(throwable)), writeFails)
      ensures repository.dao.nextId == old(repository.dao.nextId)
    {
      repository.LogRequestException(id, stackTraceToString(throwable), writeFails);
    }

    /** Forwards id and body unchanged, the header entries converted one for one. */
    method LogRequestBodyAndHeader(id: int, requestBody: Option<string>, requestHeaders: seq<HeaderEntry>,
                                   writeFails: bool)
      requires Valid()
      modifies repository.dao
      ensures Valid()
      ensures repository.dao.rows == SafeOutcome(old(repository.dao.rows), id,
        BodyAndHeaderWrite(repository.encodeHeaders(ToKiwanoHttpHeaderArray(requestHeaders)), requestBody), writeFails)
      ensures repository.dao.nextId == old(repository.dao.nextId)
    {
      repository.LogRequestBodyAndHeader(id, requestBody, ToKiwanoHttpHeaderArray(requestHeaders), writeFails);
    }

    /** Forwards the response data unchanged, the header entries converted one for one. */
    method LogResponse(id: int, statusCode: int, responseBody: Option<string>, responseHeaders: seq<HeaderEntry>,
                       protocolVersion: string, responseTime: int, duration: int, writeFails: bool)
      requires Valid()
      modifies repository.dao
      ensures Valid()
      ensures repository.dao.rows == SafeOutcome(old(repository.dao.rows), id,
        ResponseWrite(statusCode, protocolVersion, responseTime, duration, responseBody,
                      repository.encodeHeaders(ToKiwanoHttpHeaderArray(responseHeaders))),
        writeFails)
      ensures repository.dao.nextId == old(repository.dao.nextId)
    {
      repository.LogResponse(id, statusCode, responseBody, ToKiwanoHttpHeaderArray(responseHeaders),
                             protocolVersion, responseTime, duration, writeFails);
    }
  }
}

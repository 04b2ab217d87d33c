# kiwano-log: the capture-and-persist core in Dafny

kiwano-log is a ktor client plugin for Android. It records every HTTP request the client sends in a local
table (`http_request`): a row is created in state Running when the request is sent; the request body and
headers are added; the row becomes Completed when the response arrives, or Failed when the transport
throws. Rows left Running by a previous process become Unknown when the logger starts. A stored row can be
turned into a view model for display.

This project models that core as one in-memory table and the sequential code around it, and proves what
each layer promises:

- `RequestState`, `StateConverter`: the four states, their names, the total parser that falls back to
  Unknown, and the Room converter that stores a state as its name.
- `Entity`: the row and its defaults. It also has a column view: each column as an SQL cell (NULL, INTEGER
  or TEXT), with the state stored as its name. The store's contracts use this view to say "these columns
  are set, every other column is unchanged".
- `Queries`: every SQL statement of the DAO as a pure function on the table.
- `Dao`: the class `HttpRequestDao`. Its `rows` map and `nextId` counter are updated in place.
  Keys are generated as by SQLite AUTOINCREMENT (Room's `autoGenerate = true`), so a key is never reused,
  even after a DELETE.
- `Repository`: the class `HttpRequestRepositoryImpl`. It turns lifecycle events into DAO calls and
  absorbs the store's faults. A failed insert gives no id. A failed `logSafe` write marks only that row
  Unknown.
- `Logger`: the class `KiwanoLogger`. It runs recovery when it is constructed, normalizes the path, and
  converts header entries to header arrays.
- `Headers`, `Decimal`: ktor's `HeadersBuilder` and Kotlin's `toString()` of integers.
  `HeadersBuilder` keeps entries in insertion order. The model compares header names ignoring ASCII case
  only, while ktor uses Kotlin's `equals(ignoreCase = true)`, which also folds non-ASCII letters.
- `Interceptor`: the class `KiwanoLog`. Its send hook creates the row, captures the detail and logs a
  transport failure before rethrowing it. Its receive hook logs the response. This module also holds the
  header augmentation rule and the body classification.
- `Mapper`: the projection from a row to `KiwanoHttpModel`.

Faults are explicit parameters. A store call that throws is a `...Fails` flag; the transport outcome is
`proceed` (None when the request returns, Some(t) when it throws t). Each `GlobalScope.launch` block
runs as one step at the point where it is launched. Foreign functions are parameters or `const` fields:
- the JSON encoder of header arrays (`encodeHeaders`) and the JSON decoder (`decode`, None for text it
  cannot parse);
- charset decoding of bytes (`decodeText`);
- `Throwable.stackTraceToString`.

The clock is the parameter `now`, and response timestamps are fields of the response.

The sources are not entirely consistent; where they differ the model does the following:
- `url` is a required column and a parameter of the repository interface and the logger. However,
  `HttpRequestRepositoryImpl.logRequest` and `KiwanoLog` do not pass it. The model passes the request's
  url through unchanged at every layer.
- `KiwanoHttpModel.Info` declares `scheme` and `Set` headers, while the mapper fills `url` and header
  arrays. The model follows the mapper: an `url` field and header sequences.
- Headers are one representation throughout: a sequence of (name, values) pairs in `HeadersBuilder`
  order.

## Model

| member | source | states |
|---|---|---|
| RequestState.FromString | kiwano-log/src/main/java/com/ehsanmsz/kiwanolog/data/local/entity/HttpRequestState.kt:50-58 | a string that is one of the four names gives the state with that name; every other string gives Unknown |
| RequestState.FromStringOfName | kiwano-log/src/main/java/com/ehsanmsz/kiwanolog/data/local/entity/HttpRequestState.kt:31-58 | fromString(s.name) == s for every state |
| RequestState.FromStringFallback | kiwano-log/src/main/java/com/ehsanmsz/kiwanolog/data/local/entity/HttpRequestState.kt:56 | any string other than the four names parses to Unknown |
| RequestState.NamesDistinct | kiwano-log/src/main/java/com/ehsanmsz/kiwanolog/data/local/entity/HttpRequestState.kt:31-47 | two states have the same name exactly when they are the same state |
| RequestState.NameIsDeclared | kiwano-log/src/main/java/com/ehsanmsz/kiwanolog/data/local/entity/HttpRequestState.kt:26-47 | every state's name is one of "Running", "Completed", "Failed", "Unknown" |
| RequestState.FromStringStable | kiwano-log/src/main/java/com/ehsanmsz/kiwanolog/data/local/entity/HttpRequestState.kt:50-58 | fromString(fromString(s).name) == fromString(s) for every string |
| StateConverter.FromHttpRequestState | kiwano-log/src/main/java/com/ehsanmsz/kiwanolog/data/local/database/converter/HttpRequestStateConverter.kt:28 | the stored text is one of the four names, and parsing it gives the state back |
| StateConverter.ToHttpRequestState | kiwano-log/src/main/java/com/ehsanmsz/kiwanolog/data/local/database/converter/HttpRequestStateConverter.kt:32 | total; a declared name is read as the state that writes it, anything else as Unknown |
| StateConverter.StateRoundTrip | kiwano-log/src/main/java/com/ehsanmsz/kiwanolog/data/local/database/converter/HttpRequestStateConverter.kt:28-32 | writing a state and reading it back gives the same state |
| StateConverter.TextRoundTrip | kiwano-log/src/main/java/com/ehsanmsz/kiwanolog/data/local/database/converter/HttpRequestStateConverter.kt:28-32 | reading a text and writing it back gives the text if it is a declared name, else "Unknown" |
| Entity.NewEntity | kiwano-log/src/main/java/com/ehsanmsz/kiwanolog/data/local/entity/HttpRequestEntity.kt:27-55 | a row built from only the required columns has id 0, notified false, all nine nullable columns null, the given required values, and the state stored as its name |
| Entity.RowFromCells | kiwano-log/src/main/java/com/ehsanmsz/kiwanolog/data/local/entity/HttpRequestEntity.kt:26-56 | two rows with the same cell in every column are the same row (the column view loses nothing) |
| Entity.RequiredFromCells | kiwano-log/src/main/java/com/ehsanmsz/kiwanolog/data/local/entity/HttpRequestEntity.kt:28-37 | equal cells in the columns without default mean equal id, method, url, host, port, path, protocol, request time and notified flag |
| Entity.NullableFromCells | kiwano-log/src/main/java/com/ehsanmsz/kiwanolog/data/local/entity/HttpRequestEntity.kt:31-54 | equal cells in the nullable columns mean equal optional values, NULL being None |
| Queries.UpdateRequest | kiwano-log/src/main/java/com/ehsanmsz/kiwanolog/data/local/dao/HttpRequestDao.kt:35-57 | on row id: protocol version, status code, response time, duration, response body, response headers and state set to the given values; every other column and every other row unchanged; unknown id leaves the table unchanged |
| Queries.UpdateRequestException | kiwano-log/src/main/java/com/ehsanmsz/kiwanolog/data/local/dao/HttpRequestDao.kt:59-64 | on row id only exception and state are set; every other column (e.g. status code) and row unchanged; unknown id changes nothing |
| Queries.UpdateRequestBodyAndHeader | kiwano-log/src/main/java/com/ehsanmsz/kiwanolog/data/local/dao/HttpRequestDao.kt:66-67 | on row id only request headers and body are set, the state is untouched; other rows unchanged; unknown id changes nothing |
| Queries.LogUnknown | kiwano-log/src/main/java/com/ehsanmsz/kiwanolog/data/local/dao/HttpRequestDao.kt:72-73 | on row id only the state is set; other rows unchanged; unknown id changes nothing |
| Queries.SetStateForAllRequests | kiwano-log/src/main/java/com/ehsanmsz/kiwanolog/data/local/dao/HttpRequestDao.kt:69-70 | same keys; only the state column can change; exactly the Running rows get the new state, other rows are unchanged; no row is Running afterwards unless the new state is Running |
| Queries.SetStateIfRunning | kiwano-log/src/main/java/com/ehsanmsz/kiwanolog/data/local/dao/HttpRequestDao.kt:69-70 | one row under the statement: only its state can change, to the new state when it was Running, and not at all otherwise |
| Queries.SetStateIdempotent | kiwano-log/src/main/java/com/ehsanmsz/kiwanolog/data/local/dao/HttpRequestDao.kt:69-70 | applying the bulk state rewrite twice is the same as once (so recovery is idempotent) |
| Queries.DetailAndResponseCommute | kiwano-log/src/main/java/com/ehsanmsz/kiwanolog/data/local/dao/HttpRequestDao.kt:35-67 | the request-detail write and the response write commute, so the order in which the two background writes land does not matter |
| Dao.HttpRequestDao.InsertRequest | kiwano-log/src/main/java/com/ehsanmsz/kiwanolog/data/local/dao/HttpRequestDao.kt:32-33 | adds exactly one row whose key was free and returns that key; id 0 takes the next generated key, above every key in use; a non-zero id is used as given and is refused when taken; no existing row changes |
| Dao.HttpRequestDao.UpdateRequest | kiwano-log/src/main/java/com/ehsanmsz/kiwanolog/data/local/dao/HttpRequestDao.kt:35-57 | the table becomes Queries.UpdateRequest of the old table, with state Completed by default; the key counter is unchanged |
| Dao.HttpRequestDao.UpdateRequestException | kiwano-log/src/main/java/com/ehsanmsz/kiwanolog/data/local/dao/HttpRequestDao.kt:59-64 | the table becomes Queries.UpdateRequestException of the old table, with state Failed by default |
| Dao.HttpRequestDao.UpdateRequestBodyAndHeader | kiwano-log/src/main/java/com/ehsanmsz/kiwanolog/data/local/dao/HttpRequestDao.kt:66-67 | the table becomes Queries.UpdateRequestBodyAndHeader of the old table |
| Dao.HttpRequestDao.SetStateForAllRequests | kiwano-log/src/main/java/com/ehsanmsz/kiwanolog/data/local/dao/HttpRequestDao.kt:69-70 | the table becomes Queries.SetStateForAllRequests of the old table |
| Dao.HttpRequestDao.LogUnknown | kiwano-log/src/main/java/com/ehsanmsz/kiwanolog/data/local/dao/HttpRequestDao.kt:72-73 | the table becomes Queries.LogUnknown of the old table, with state Unknown by default |
| Dao.HttpRequestDao.ClearRequests | kiwano-log/src/main/java/com/ehsanmsz/kiwanolog/data/local/dao/HttpRequestDao.kt:75-76 | the table is empty (so clearing twice is clearing once) and the key counter is kept |
| Repository.SafeOutcome | kiwano-log/src/main/java/com/ehsanmsz/kiwanolog/data/repository/HttpRequestRepositoryImpl.kt:130-143 | when the wrapped write throws, the only change is that row id becomes Unknown; otherwise the write's effect |
| Repository.SafeOutcomeAt | kiwano-log/src/main/java/com/ehsanmsz/kiwanolog/data/repository/HttpRequestRepositoryImpl.kt:130-143 | on an existing row, logSafe replaces that one row and leaves every other row as it was |
| Repository.HttpRequestRepositoryImpl.LogRequest | kiwano-log/src/main/java/com/ehsanmsz/kiwanolog/data/repository/HttpRequestRepositoryImpl.kt:45-67 | on success, one new Running row with the given request line and requestTime = now, under a fresh id that is returned; that id is the key counter's old value and the counter moves past it, so no key is handed out twice; a failing insert gives null and changes neither the table nor the counter |
| Repository.HttpRequestRepositoryImpl.LogSafe | kiwano-log/src/main/java/com/ehsanmsz/kiwanolog/data/repository/HttpRequestRepositoryImpl.kt:130-143 | the table becomes SafeOutcome of the write |
| Repository.HttpRequestRepositoryImpl.LogRequestBodyAndHeader | kiwano-log/src/main/java/com/ehsanmsz/kiwanolog/data/repository/HttpRequestRepositoryImpl.kt:69-81 | stores the body and the encoded headers on row id, or marks it Unknown when the write fails |
| Repository.HttpRequestRepositoryImpl.LogRequestException | kiwano-log/src/main/java/com/ehsanmsz/kiwanolog/data/repository/HttpRequestRepositoryImpl.kt:83-90 | leaves row id Failed with the exception text, or Unknown when the write fails |
| Repository.HttpRequestRepositoryImpl.LogResponse | kiwano-log/src/main/java/com/ehsanmsz/kiwanolog/data/repository/HttpRequestRepositoryImpl.kt:92-112 | leaves row id Completed with the response data and encoded headers, or Unknown when the write fails |
| Repository.HttpRequestRepositoryImpl.CompleteAllPendingLogs | kiwano-log/src/main/java/com/ehsanmsz/kiwanolog/data/repository/HttpRequestRepositoryImpl.kt:114-122 | every Running row becomes Unknown; a store failure is swallowed and changes nothing; the key counter is unchanged either way |
| Repository.HttpRequestRepositoryImpl.ClearAllRequests | kiwano-log/src/main/java/com/ehsanmsz/kiwanolog/data/repository/HttpRequestRepositoryImpl.kt:124-128 | the table is emptied; a store failure is swallowed and changes nothing; the key counter is kept either way, so keys are not reused after a clear |
| Repository.ResponseWriteCompletes | kiwano-log/src/main/java/com/ehsanmsz/kiwanolog/data/repository/HttpRequestRepositoryImpl.kt:92-112 | a successful response write leaves the row Completed with exactly the logged status, version, times, duration, body and headers, and nothing outside the response columns changed |
| Repository.ExceptionWriteMarksFailed | kiwano-log/src/main/java/com/ehsanmsz/kiwanolog/data/repository/HttpRequestRepositoryImpl.kt:83-90 | a successful exception write leaves the row Failed with the text, its status code as it was, and only exception and state changed |
| Logger.NormalizePath | kiwano-log/src/main/java/com/ehsanmsz/kiwanolog/device/logger/KiwanoLogger.kt:67 | the stored path starts with '/'; a path starting with '/' is kept; any other is prefixed with '/', one character longer |
| Logger.NormalizePathIdempotent | kiwano-log/src/main/java/com/ehsanmsz/kiwanolog/device/logger/KiwanoLogger.kt:67 | normalizing twice is normalizing once |
| Logger.KiwanoLogger.constructor | kiwano-log/src/main/java/com/ehsanmsz/kiwanolog/device/logger/KiwanoLogger.kt:38-41 | constructing the logger runs recovery (Running rows become Unknown) before it can be used |
| Logger.KiwanoLogger.LogRequest | kiwano-log/src/main/java/com/ehsanmsz/kiwanolog/device/logger/KiwanoLogger.kt:55-69 | the repository's insert with the path normalized, all other values forwarded unchanged; the new id is the counter's old value and the counter advances; a failed insert leaves the counter alone |
| Logger.KiwanoLogger.LogRequestException | kiwano-log/src/main/java/com/ehsanmsz/kiwanolog/device/logger/KiwanoLogger.kt:71-79 | the exception write of the throwable's stack trace text on row id; the key counter is unchanged |
| Logger.KiwanoLogger.LogRequestBodyAndHeader | kiwano-log/src/main/java/com/ehsanmsz/kiwanolog/device/logger/KiwanoLogger.kt:81-91 | id and body forwarded unchanged, header entries converted one for one; the key counter is unchanged |
| Logger.KiwanoLogger.LogResponse | kiwano-log/src/main/java/com/ehsanmsz/kiwanolog/device/logger/KiwanoLogger.kt:93-111 | id, status, body, version, times and duration forwarded unchanged, header entries converted one for one; the key counter is unchanged |
| Mapper.ToKiwanoHttpHeaderArray | kiwano-log/src/main/java/com/ehsanmsz/kiwanolog/data/repository/mapper/KiwanoMapper.kt:61-62 | as many headers as entries, each with the entry's key and value list, in order |
| Mapper.DecodeHeaderArray | kiwano-log/src/main/java/com/ehsanmsz/kiwanolog/data/repository/mapper/KiwanoMapper.kt:64-69 | the decoded array, or an empty array when the text does not parse; never an error |
| Mapper.ToKiwanoHttpModel | kiwano-log/src/main/java/com/ehsanmsz/kiwanolog/data/repository/mapper/KiwanoMapper.kt:35-59 | info holds the row's method, url, host, port, path, protocol, status, state, duration, exception and version; null request headers become an empty array, others are decoded; null response headers stay null; the times go to timeMillis; a response part is always present |
| Mapper.StoredRequestDetailIsShown | kiwano-log/src/main/java/com/ehsanmsz/kiwanolog/data/repository/mapper/KiwanoMapper.kt:49-53 | when the JSON decoder reads back what the encoder wrote, the view of a row shows exactly the request headers and body the detail write stored |
| Decimal.DecimalRoundTrip | kiwano-log/src/main/java/com/ehsanmsz/kiwanolog/KiwanoLog.kt:125 | toString() of an integer is read back by the decimal parser, so the Content-Length text determines the length |
| Decimal.DecimalInjective | kiwano-log/src/main/java/com/ehsanmsz/kiwanolog/KiwanoLog.kt:125 | two integers with the same decimal text are equal |
| Headers.Append | kiwano-log/src/main/java/com/ehsanmsz/kiwanolog/KiwanoLog.kt:121-126 | after append the name's values are the old ones followed by the new; a new name is added at the end; an existing one keeps its index, and every entry keeps its name and every other entry is unchanged |
| Headers.AppendContains | kiwano-log/src/main/java/com/ehsanmsz/kiwanolog/KiwanoLog.kt:121-126 | after append, a name is present exactly when it was before or is the appended name (ignoring case) |
| Headers.AppendAllContains | kiwano-log/src/main/java/com/ehsanmsz/kiwanolog/KiwanoLog.kt:117-119 | after appendAll, a name is present exactly when it was in the builder or among the appended entries |
| Headers.AppendAllKeepsDistinct | kiwano-log/src/main/java/com/ehsanmsz/kiwanolog/KiwanoLog.kt:117-119 | appendAll keeps every name at most once in the builder |
| Headers.CopyOfProperties | kiwano-log/src/main/java/com/ehsanmsz/kiwanolog/KiwanoLog.kt:117-119 | the fresh copy has distinct names and contains exactly the names of the existing headers |
| Headers.CopyOfDistinct | kiwano-log/src/main/java/com/ehsanmsz/kiwanolog/KiwanoLog.kt:117-119 | copying well-formed headers gives the same entries back |
| Interceptor.ClassifyBody | kiwano-log/src/main/java/com/ehsanmsz/kiwanolog/KiwanoLog.kt:69-79 | byte-array content gives its text decoded with the content's charset or UTF-8; no content gives null; anything else, also a body that is not OutgoingContent, gives "Body Omitted" |
| Interceptor.AppendIfAbsentLookup | kiwano-log/src/main/java/com/ehsanmsz/kiwanolog/KiwanoLog.kt:121-126 | a conditional append sets the name's values to the new one exactly when the name was absent and the value known, and keeps names distinct |
| Interceptor.AppendIfAbsentOther | kiwano-log/src/main/java/com/ehsanmsz/kiwanolog/KiwanoLog.kt:121-126 | a conditional append leaves every other name's presence and values unchanged |
| Interceptor.AppendWhenMissing | kiwano-log/src/main/java/com/ehsanmsz/kiwanolog/KiwanoLog.kt:121-123 | the source's conditional append on the builder is the AppendIfAbsent step |
| Interceptor.GetHeadersWithContentTypeAndLength | kiwano-log/src/main/java/com/ehsanmsz/kiwanolog/KiwanoLog.kt:111-129 | building the header set in place gives AugmentedHeaders of the inputs |
| Interceptor.HeadersKeepExisting | kiwano-log/src/main/java/com/ehsanmsz/kiwanolog/KiwanoLog.kt:117-119 | every existing header entry is kept, in order, ahead of the added ones |
| Interceptor.HeadersCount | kiwano-log/src/main/java/com/ehsanmsz/kiwanolog/KiwanoLog.kt:117-128 | the result has one more entry for each content header that was absent and known, and no others |
| Interceptor.HeadersContentType | kiwano-log/src/main/java/com/ehsanmsz/kiwanolog/KiwanoLog.kt:121-123 | Content-Type holds the content's type exactly when it was absent and the type known; otherwise it is as in the existing headers |
| Interceptor.HeadersContentLength | kiwano-log/src/main/java/com/ehsanmsz/kiwanolog/KiwanoLog.kt:124-126 | Content-Length holds the decimal text of the length exactly when it was absent and the length known; otherwise it is as in the existing headers |
| Interceptor.HeadersUnchanged | kiwano-log/src/main/java/com/ehsanmsz/kiwanolog/KiwanoLog.kt:117-128 | when neither header is added (present already, or value unknown), the result is the existing header set |
| Interceptor.HeadersWellFormed | kiwano-log/src/main/java/com/ehsanmsz/kiwanolog/KiwanoLog.kt:117-128 | the result names every header at most once |
| Interceptor.UppercaseAscii | kiwano-log/src/main/java/com/ehsanmsz/kiwanolog/KiwanoLog.kt:62 | the protocol name upper-cased letter by letter, same length |
| Interceptor.FormatVersionInjective | kiwano-log/src/main/java/com/ehsanmsz/kiwanolog/KiwanoLog.kt:142 | the "major.minor" text determines major and minor |
| Interceptor.SentRowFields | kiwano-log/src/main/java/com/ehsanmsz/kiwanolog/KiwanoLog.kt:57-107 | after the send hook the row holds the request line as captured, no response data, the body and headers only when captured and stored, the stack trace only when the request threw and it was stored, and the state Running, Failed or Unknown accordingly |
| Interceptor.KiwanoLog.constructor | kiwano-log/src/main/java/com/ehsanmsz/kiwanolog/KiwanoLog.kt:49-52 | building the plugin builds its logger, which runs recovery |
| Interceptor.KiwanoLog.InterceptSend | kiwano-log/src/main/java/com/ehsanmsz/kiwanolog/KiwanoLog.kt:54-108 | an id is attached exactly when the row was created; without one nothing is written and the key counter is unchanged; with one the id was free, it is the counter's old value, the counter advances, and the only change is the new row SentRow; the transport failure is rethrown unchanged |
| Interceptor.KiwanoLog.FinishSend | kiwano-log/src/main/java/com/ehsanmsz/kiwanolog/KiwanoLog.kt:68-107 | once row key exists, the two `try` blocks replace only that row, by FinishedRow of the created row, and leave the key counter alone |
| Interceptor.KiwanoLog.CaptureRequestDetail | kiwano-log/src/main/java/com/ehsanmsz/kiwanolog/KiwanoLog.kt:68-95 | row key gets the classified body and the encoded augmented headers, or becomes Unknown when that write fails |
| Interceptor.KiwanoLog.LogTransportFailure | kiwano-log/src/main/java/com/ehsanmsz/kiwanolog/KiwanoLog.kt:97-107 | row key gets the throwable's stack trace and state Failed, or becomes Unknown when that write fails |
| Interceptor.KiwanoLog.InterceptReceive | kiwano-log/src/main/java/com/ehsanmsz/kiwanolog/KiwanoLog.kt:132-153 | the response is handed on unchanged; with an id the row gets the status, "major.minor" version, response time, duration = response time - request time, decoded body and encoded headers; without an id the logging step fails and writes nothing |

## Left out

- The notification watcher (`observeLogsAndSendNotification`) is left out: it collects and does nothing.
- `lastNotNotifiedRequest` is left out: it has no implementation or query in the source, and no code sets `notified`.
- The plugin plumbing is left out: `Plugin.install`/`prepare`, `Config` and the `kiwanoLog` extensions only register the two hooks.
- `HttpRequestRepositoryProvider` and the Room database behind it are left out. The table is the `rows` map of the DAO class.
- Concurrency is left out. Coroutines, dispatchers and `supervisorScope` are not modelled, and neither are interleavings of background writes. Each launched block runs to completion when it is launched. `Queries.DetailAndResponseCommute` covers only the reordering of the two successful writes, the request detail and the response.
- Reorderings that involve a failed write are not modelled: the `logUnknown` fallback of a failed `logSafe` write does not commute with the response or exception write on the same row, so that row ends Completed/Failed or Unknown depending on which lands last.
- Recovery at logger start is not modelled as a race: `KiwanoLogger`'s `init` (KiwanoLogger.kt:38-41) calls `completeAllPendingLogs`, which launches the bulk update in a coroutine (HttpRequestRepositoryImpl.kt:114-122), so the first insert may land before it and that Running row would be turned Unknown. The model runs recovery to completion in the constructor.
- JSON encoding and decoding, charset decoding and `stackTraceToString` are uninterpreted function parameters.
- Interceptor.KiwanoLog.InterceptReceive: a failing `bodyAsText` is not modelled; the body text is always produced.
- Interceptor.KiwanoLog.InterceptReceive: with no id, `loggingFailed` stands for the exception the attribute accessor throws inside the launched coroutine. Where that exception then goes (the coroutine's uncaught-exception handler) is outside the model.
- Repository.HttpRequestRepositoryImpl.LogSafe: a failure of the fallback `logUnknown` itself is not modelled. It would escape the launched coroutine.
- Headers.NameEquals: header names are compared with ASCII case folding only. Unicode case rules are not modelled.
- Interceptor.UppercaseAscii: only ASCII letters are upper-cased. Protocol names are ASCII.
- Integer widths (Kotlin `Int` and `Long`) are unbounded `int`s. Neither overflow of the key counter nor of `duration` is modelled.
- Interceptor.KiwanoLog.InterceptSend: the request's `url` is passed through to the row, although `KiwanoLog` and `HttpRequestRepositoryImpl.logRequest` omit it (see above).
- The id attribute is the value `attached`, which the send hook returns and the receive hook is given. The ktor attribute map is not modelled.

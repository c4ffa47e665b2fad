/** The record of one captured HTTP request, and the shape in which it is served and streamed. */
module RequestLogRecords {

  /** A point on the time line, in milliseconds since the epoch (`java.time.Instant`). */
  datatype Instant = Instant(epochMillis: int)

  /** One captured HTTP request (`httpMethod` is the source's `method`, a Dafny keyword). */
  datatype RequestLog = RequestLog(
    id: int,
    timestamp: Instant,
    httpMethod: string,
    path: string,
    status: int,
    durationMs: int,
    user: string,
    ip: string
  )

  /** The same record as the query endpoint and the stream render it: the timestamp is text. */
  datatype RequestLogResponse = RequestLogResponse(
    id: int,
    timestamp: string,
    httpMethod: string,
    path: string,
    status: int,
    durationMs: int,
    user: string,
    ip: string
  )
}

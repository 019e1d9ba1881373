/** The values that travel between the worker and the systems around it. */
module Types {
  import opened ErrClass
  import opened Deployment

  type Bytes = string

  /** One artifact file: artifact-relative path, body, MIME type. */
  datatype File = File(path: string, body: Bytes, mimeType: string)

  /** One object to store; `sha` is the content hash kept as object metadata. */
  datatype Object = Object(key: string, body: Bytes, mimeType: string, cacheControl: string, sha: string)

  /** A request payload by what parsing makes of it: no deployment id, an id but schema-invalid, or a
      valid event with its hints and its creation time ("" when absent). */
  datatype Payload =
    | Unparseable
    | Invalid(dep: string)
    | Valid(dep: string, hints: Hints, createdAt: string)

  /** One main-stream entry; attempt is 0 on original publishes, N on re-enqueues. */
  datatype Entry = Entry(payload: Payload, attempt: int)

  /** A delayed retry: the execution it schedules and the instant (epoch milliseconds) it is due. */
  datatype Envelope = Envelope(id: string, dep: string, attempt: int, code: Code, nextAttemptAt: int, payload: Payload)

  /** What a ready event says, apart from its event id, trace id and creation time. */
  datatype ReadyFacts = ReadyFacts(
    dep: string, team: string, site: string, page: string, slug: string, version: string,
    environment: string, renderMode: string, basePath: string, manifestKey: string, digest: string,
    entry: string, filesCount: nat, totalBytes: nat)

  /** A fetch of a stored object: its bytes, its absence, or a storage failure. */
  datatype Fetched = FetchedBytes(body: Bytes) | Absent | FetchFailed(code: Code)
}

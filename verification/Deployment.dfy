/** Deployment records, their statuses, and the worker's view of the deployment service. */
module Deployment {
  import opened Wrappers
  import opened ErrClass

  datatype Status =
    | Pending | ExportQueued | Exporting | ArtifactReady
    | CdnUploading | CdnPurging | Verifying | Active
    | ExportFailed | Cancelled

  /** The worker must not act and may ack. */
  predicate NonActionable(s: Status) {
    s.ArtifactReady? || s.ExportFailed? || s.Cancelled? || s.CdnUploading? || s.CdnPurging? || s.Verifying? || s.Active?
  }

  /** The worker owns the next step. */
  predicate Actionable(s: Status) {
    s.ExportQueued? || s.Exporting?
  }

  /** Every status is exactly one of: actionable, non-actionable, PENDING. */
  lemma StatusesPartition(s: Status)
    ensures (Actionable(s) || NonActionable(s)) <==> !s.Pending?
    ensures !(Actionable(s) && NonActionable(s))
  {
  }

  predicate WorkerOwned(target: Status) {
    target.Exporting? || target.ArtifactReady? || target.ExportFailed?
  }

  /** The record fields an event repeats as hints. */
  datatype Hints = Hints(renderMode: string, version: string, slug: string)

  datatype Record = Record(
    status: Status, team: string, site: string, page: string, slug: string, version: string,
    renderMode: string, environment: string)

  /** The manifest pointer registered with the deployment service. */
  datatype Pointer = Pointer(
    manifestKey: string, basePath: string, digest: string, entry: string, route: string,
    filesCount: nat, totalBytes: nat)

  /** The record is the authority: any hint that differs is a non-retryable validation failure. */
  function Reconcile(rec: Record, hints: Hints): (r: Option<Code>)
    ensures r.None? <==> hints == Hints(rec.renderMode, rec.version, rec.slug)
    ensures r.Some? ==> r.value == VALIDATION_FAILED
  {
    var mismatches :=
      (if hints.renderMode != rec.renderMode then ["renderMode"] else []) +
      (if hints.version != rec.version then ["version"] else []) +
      (if hints.slug != rec.slug then ["slug"] else []);
    if |mismatches| > 0 then Some(VALIDATION_FAILED) else None
  }

  // ---- Transport ----

  /** How a call to the service fails, if it does. */
  datatype Fault =
    | NoFault
    | Rejected(httpStatus: int)   // answered with an error status, nothing done
    | Unreachable                 // no answer, nothing done
    | ReplyLost                   // done, but the answer never arrived

  const DEPLOYMENT_SERVICE_401: Code := "DEPLOYMENT_SERVICE_401"
  const DEPLOYMENT_SERVICE_403: Code := "DEPLOYMENT_SERVICE_403"

  /** HTTP and transport failures by registry code. */
  function Classify(httpStatus: Option<int>): (code: Code)
  {
    match httpStatus
    case None => DEPLOYMENT_SERVICE_TIMEOUT
    case Some(401) => DEPLOYMENT_SERVICE_401
    case Some(403) => DEPLOYMENT_SERVICE_403
    case Some(n) => if n >= 500 then DEPLOYMENT_SERVICE_TIMEOUT else VALIDATION_FAILED
  }

  /** The registry codes of HTTP and transport failures. */
  lemma ClassifyByStatus(httpStatus: int)
    ensures Classify(None) == "DEPLOYMENT_SERVICE_TIMEOUT"
    ensures Classify(Some(401)) == "DEPLOYMENT_SERVICE_401" && Classify(Some(403)) == "DEPLOYMENT_SERVICE_403"
    ensures httpStatus >= 500 ==> Classify(Some(httpStatus)) == "DEPLOYMENT_SERVICE_TIMEOUT"
    ensures httpStatus < 500 && httpStatus != 401 && httpStatus != 403 ==>
              Classify(Some(httpStatus)) == "VALIDATION_FAILED"
  {
  }

  /** Only "no usable answer" is retried: transport failures and 5xx. */
  lemma ClassifyRetriesExactly(httpStatus: Option<int>)
    ensures Retryable(Classify(httpStatus)) <==> httpStatus.None? || httpStatus.value >= 500
  {
    ClassOfDecisiveCodes();
    assert DEPLOYMENT_SERVICE_401[19] == '4' && DEPLOYMENT_SERVICE_403[19] == '4';
    assert DEPLOYMENT_SERVICE_TIMEOUT[19] == 'T';
    assert RENDER_ORIGIN_TIMEOUT[0] == 'R' && RENDER_ORIGIN_5XX[0] == 'R' && STORAGE_TIMEOUT[0] == 'S';
    assert STORAGE_5XX[0] == 'S' && QUEUE_TEMPORARY_FAILURE[0] == 'Q' && ARTIFACT_UPLOAD_TIMEOUT[0] == 'A';
    assert DEPLOYMENT_SERVICE_401[0] == 'D' && DEPLOYMENT_SERVICE_403[0] == 'D';
  }

  datatype TransitionReply = Moved | StatusConflict(current: Status) | Failed(code: Code)

  /** The service's records, changed in place by the worker's calls. */
  class Service {
    var records: map<string, Record>
    var pointers: map<string, Pointer>

    constructor (records: map<string, Record>, pointers: map<string, Pointer>)
      ensures this.records == records && this.pointers == pointers
    {
      this.records, this.pointers := records, pointers;
    }

    /** One compare-and-set status write. The record moves iff it was in `from` and the request got
        through; a mismatch is reported with the current status; a lost reply looks like a timeout. */
    method Transition(dep: string, from: Status, to: Status, fault: Fault) returns (r: TransitionReply)
      requires WorkerOwned(to)
      modifies this`records
      ensures records == if dep in old(records) && old(records)[dep].status == from
                && (fault.NoFault? || fault.ReplyLost?)
                         then old(records)[dep := old(records)[dep].(status := to)] else old(records)
      ensures r.Moved? ==> dep in old(records) && old(records)[dep].status == from && records[dep].status == to
      ensures r.StatusConflict? <==> fault.NoFault? && dep in old(records) && old(records)[dep].status != from
      ensures r.StatusConflict? ==> r.current == old(records)[dep].status
      ensures r.Failed? && records != old(records) ==> Retryable(r.code)
      ensures r.Failed? ==>
                r.code == match fault
                          case NoFault => VALIDATION_FAILED
                          case Rejected(httpStatus) => Classify(Some(httpStatus))
                          case Unreachable => DEPLOYMENT_SERVICE_TIMEOUT
                          case ReplyLost => DEPLOYMENT_SERVICE_TIMEOUT
    {
      if fault.NoFault? || fault.ReplyLost? {
        if dep !in records {
          r := Failed(Classify(if fault.NoFault? then Some(404) else None));
        } else if records[dep].status == from {
          records := records[dep := records[dep].(status := to)];
          r := Moved;
        } else {
          r := StatusConflict(records[dep].status);
        }
        if fault.ReplyLost? {
          ClassOfDecisiveCodes();
          r := Failed(Classify(None));
        }
      } else {
        r := Failed(Classify(if fault.Rejected? then Some(fault.httpStatus) else None));
      }
    }

    /** Registers a pointer: an identical re-post is accepted, a different one refused. */
    method SubmitArtifact(dep: string, pointer: Pointer, fault: Fault) returns (r: Option<Code>)
      modifies this`pointers
      ensures old(pointers).Keys <= pointers.Keys && forall d :: d in old(pointers) ==> pointers[d] == old(pointers)[d]
      ensures forall d :: d in pointers && d !in old(pointers) ==> d == dep && pointers[d] == pointer
      ensures r.None? <==> fault.NoFault? && dep in pointers && pointers[dep] == pointer
      ensures r.Some? ==>
                r.value == match fault
                           case NoFault => VALIDATION_FAILED
                           case Rejected(httpStatus) => Classify(Some(httpStatus))
                           case Unreachable => DEPLOYMENT_SERVICE_TIMEOUT
                           case ReplyLost => DEPLOYMENT_SERVICE_TIMEOUT
    {
      if fault.Rejected? || fault.Unreachable? {
        return Some(Classify(if fault.Rejected? then Some(fault.httpStatus) else None));
      }
      if dep !in pointers {
        pointers := pointers[dep := pointer];
      }
      if fault.ReplyLost? {
        r := Some(Classify(None));
      } else if pointers[dep] != pointer {
        r := Some(VALIDATION_FAILED);
      } else {
        r := None;
      }
    }
  }
}

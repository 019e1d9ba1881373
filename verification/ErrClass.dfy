/** The error registry and its retryable / non-retryable classification. */
module ErrClass {

  /** An error code is a string of the registry; envelope ids rely on it holding no colon. */
  type Code = c: string | ':' !in c witness ""

  const VALIDATION_FAILED: Code := "VALIDATION_FAILED"
  const INVALID_SLUG: Code := "INVALID_SLUG"
  const UNRESOLVED_ASSET_REF: Code := "UNRESOLVED_ASSET_REF"
  const UNSUPPORTED_DYNAMIC_IMAGE_OPTIMIZER: Code := "UNSUPPORTED_DYNAMIC_IMAGE_OPTIMIZER"
  const PATH_TRAVERSAL_DETECTED: Code := "PATH_TRAVERSAL_DETECTED"
  const RENDER_ORIGIN_5XX: Code := "RENDER_ORIGIN_5XX"
  const RENDER_ORIGIN_TIMEOUT: Code := "RENDER_ORIGIN_TIMEOUT"
  const STORAGE_TIMEOUT: Code := "STORAGE_TIMEOUT"
  const STORAGE_5XX: Code := "STORAGE_5XX"
  const ARTIFACT_UPLOAD_TIMEOUT: Code := "ARTIFACT_UPLOAD_TIMEOUT"
  const DEPLOYMENT_SERVICE_TIMEOUT: Code := "DEPLOYMENT_SERVICE_TIMEOUT"
  const QUEUE_TEMPORARY_FAILURE: Code := "QUEUE_TEMPORARY_FAILURE"

  const RETRYABLE: set<Code> := {
    RENDER_ORIGIN_TIMEOUT, RENDER_ORIGIN_5XX, STORAGE_TIMEOUT, STORAGE_5XX,
    QUEUE_TEMPORARY_FAILURE, DEPLOYMENT_SERVICE_TIMEOUT, ARTIFACT_UPLOAD_TIMEOUT
  }

  predicate Retryable(code: Code) {
    code in RETRYABLE
  }

  /** What a failed call hands back: a classified error, a 409 with the current status left to the
      caller, or an error nobody classified. */
  datatype Failure = Classified(code: Code) | Unclassified

  /** Unclassified failures default to the retryable QUEUE_TEMPORARY_FAILURE. */
  function From(failure: Failure): (code: Code)
    ensures failure.Unclassified? ==> Retryable(code)
    ensures failure.Classified? ==> code == failure.code
  {
    match failure
    case Classified(c) => c
    case Unclassified => QUEUE_TEMPORARY_FAILURE
  }

  /** The registry's table: the seven codes that are retried, and the worker's own that are not. */
  lemma RegistryClasses(code: Code)
    ensures Retryable(code) <==>
              || code == "RENDER_ORIGIN_TIMEOUT" || code == "RENDER_ORIGIN_5XX" || code == "STORAGE_TIMEOUT"
              || code == "STORAGE_5XX" || code == "QUEUE_TEMPORARY_FAILURE" || code == "DEPLOYMENT_SERVICE_TIMEOUT"
              || code == "ARTIFACT_UPLOAD_TIMEOUT"
    ensures !Retryable("VALIDATION_FAILED") && !Retryable("INVALID_SLUG") && !Retryable("UNRESOLVED_ASSET_REF")
    ensures !Retryable("UNSUPPORTED_DYNAMIC_IMAGE_OPTIMIZER") && !Retryable("PATH_TRAVERSAL_DETECTED")
  {
    ClassOfDecisiveCodes();
    assert UNRESOLVED_ASSET_REF[0] == 'U' && UNSUPPORTED_DYNAMIC_IMAGE_OPTIMIZER[0] == 'U';
    assert RENDER_ORIGIN_TIMEOUT[0] == 'R' && RENDER_ORIGIN_5XX[0] == 'R' && STORAGE_TIMEOUT[0] == 'S';
    assert STORAGE_5XX[0] == 'S' && QUEUE_TEMPORARY_FAILURE[0] == 'Q' && DEPLOYMENT_SERVICE_TIMEOUT[0] == 'D';
    assert ARTIFACT_UPLOAD_TIMEOUT[0] == 'A';
  }

  /** The codes the ack decisions turn on. */
  lemma ClassOfDecisiveCodes()
    ensures Retryable(QUEUE_TEMPORARY_FAILURE)
    ensures Retryable(DEPLOYMENT_SERVICE_TIMEOUT)
    ensures Retryable(ARTIFACT_UPLOAD_TIMEOUT)
    ensures !Retryable(VALIDATION_FAILED) && !Retryable(INVALID_SLUG) && !Retryable(PATH_TRAVERSAL_DETECTED)
  {
    assert VALIDATION_FAILED[0] == 'V' && INVALID_SLUG[0] == 'I' && PATH_TRAVERSAL_DETECTED[0] == 'P';
    assert RENDER_ORIGIN_TIMEOUT[0] == 'R' && RENDER_ORIGIN_5XX[0] == 'R' && STORAGE_TIMEOUT[0] == 'S';
    assert STORAGE_5XX[0] == 'S' && QUEUE_TEMPORARY_FAILURE[0] == 'Q' && DEPLOYMENT_SERVICE_TIMEOUT[0] == 'D';
    assert ARTIFACT_UPLOAD_TIMEOUT[0] == 'A';
  }
}

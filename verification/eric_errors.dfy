/** The error taxonomy of the native ERiC library wrapper: how raw integer
    return codes and null handles become the exceptions the callers see. */
module EricErrors {
  import opened Wrappers

  /** `GlobalError` is raised as a subclass of `ProcessNotSuccessful`, so an
      `except EricProcessNotSuccessful` also catches it; `NullReturned` is the
      separate exception for a null handle from an allocator. */
  datatype EricError =
    | ProcessNotSuccessful(code: int)
    | GlobalError(code: int)
    | NullReturned

  /** Outcome of a native call that only returns a code. */
  datatype Outcome = Pass | Fail(error: EricError)

  const ERIC_OK: int := 0
  /** ERIC_GLOBAL_UNKNOWN. */
  const ERIC_GLOBAL_UNKNOWN: int := 610001001
  /** ERIC_GLOBAL_STEUERNUMMER_UNGUELTIG: the tax number is not a valid one. */
  const ERIC_GLOBAL_STEUERNUMMER_UNGUELTIG: int := 610001034

  /** ERiC numbers its global errors in the block 610001001..610001999. */
  predicate IsGlobalCode(code: int) {
    610001001 <= code <= 610001999
  }

  /** Python's `isinstance(e, EricProcessNotSuccessful)`. */
  predicate IsProcessNotSuccessful(e: EricError) {
    e.ProcessNotSuccessful? || e.GlobalError?
  }

  /** Classifies a return code: zero passes, every other code, positive or
      negative, raises a `ProcessNotSuccessful` carrying that code, refined to
      `GlobalError` for the global block. */
  function CheckResult(code: int): (r: Outcome)
    ensures r.Pass? <==> code == ERIC_OK
    ensures r.Fail? ==> IsProcessNotSuccessful(r.error) && r.error.code == code
    ensures r.Fail? ==> (r.error.GlobalError? <==> IsGlobalCode(code))
  {
    if code == ERIC_OK then Pass
    else if IsGlobalCode(code) then Fail(GlobalError(code))
    else Fail(ProcessNotSuccessful(code))
  }

  /** A handle returned by an allocator: null raises `NullReturned`, which is
      never a return-code error. */
  function CheckHandle<H>(h: Option<H>): (r: Result<H, EricError>)
    ensures r.Success? <==> h.Some?
    ensures r.Success? ==> r.value == h.value
    ensures r.Failure? ==> r.error == NullReturned && !IsProcessNotSuccessful(r.error)
  {
    match h
    case Some(v) => Success(v)
    case None => Failure(NullReturned)
  }
}

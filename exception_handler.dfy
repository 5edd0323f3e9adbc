/**
  The outermost safety-net wrapper: on verb dispatch it runs the rest of the
  chain and turns any `Exception` escaping it into the processor's error
  response; on the error path it only forwards.

  A PHP call is modelled by its outcome: the value it returned, or what it
  threw. `catch (Exception $e)` catches `Exception` and its subclasses only;
  PHP's `Error` hierarchy (a TypeError, say) is not caught.
 */
module ExceptionHandler {

  /** What a call threw: an `Exception` or an `Error`, carrying its payload. */
  datatype Thrown<X> = ExceptionThrown(exception: X) | ErrorThrown(error: X)

  /** How a call ended. */
  datatype Outcome<R, X> = Returned(response: R) | Raised(thrown: Thrown<X>)

  predicate IsException<R, X>(o: Outcome<R, X>)
  {
    o.Raised? && o.thrown.ExceptionThrown?
  }

  /** The error path: the continuation runs on the request and its outcome is passed on unchanged. */
  function Error<Q, R, X>(execution: Q -> Outcome<R, X>, request: Q): (r: Outcome<R, X>)
    ensures r == execution(request)
  {
    execution(request)
  }

  /**
    Verb dispatch: the continuation runs once on the request; a return comes
    back as it is, a thrown `Exception` is handed with the request to the
    processor's `error`, and an `Error` propagates. The verb name (PHP `$method`) plays no part.
   */
  function ProcessRequest<Q, R, X>(execution: Q -> Outcome<R, X>, request: Q, verb: string,
                                   processorError: (Q, X) -> Outcome<R, X>): (r: Outcome<R, X>)
    ensures execution(request).Returned? ==> r == execution(request)
    ensures IsException(execution(request)) ==>
      r == processorError(request, execution(request).thrown.exception)
    ensures execution(request).Raised? && execution(request).thrown.ErrorThrown? ==> r == execution(request)
  {
    match execution(request)
    case Raised(ExceptionThrown(e)) => processorError(request, e)
    case other => other
  }

  /**
    No `Exception` escapes dispatch unless the processor's own `error` throws
    one; when `error` always returns a response, what comes out is a response
    or an `Error` the continuation threw.
   */
  lemma NoExceptionEscapes<Q, R, X>(execution: Q -> Outcome<R, X>, request: Q, verb: string,
                                    processorError: (Q, X) -> Outcome<R, X>)
    requires forall q: Q, x: X :: processorError(q, x).Returned?
    ensures !IsException(ProcessRequest(execution, request, verb, processorError))
    ensures ProcessRequest(execution, request, verb, processorError).Returned?
         || execution(request).thrown.ErrorThrown?
  {
    var o := execution(request);
    if IsException(o) {
      assert processorError(request, o.thrown.exception).Returned?;
    }
  }

  /**
    The error path and dispatch agree on every outcome except a thrown
    `Exception`, which only dispatch catches.
   */
  lemma ErrorPathVsDispatch<Q, R, X>(execution: Q -> Outcome<R, X>, request: Q, verb: string,
                                     processorError: (Q, X) -> Outcome<R, X>)
    ensures !IsException(execution(request)) ==>
      ProcessRequest(execution, request, verb, processorError) == Error(execution, request)
    ensures IsException(execution(request)) ==> IsException(Error(execution, request))
  {
  }

  /** The verb name given to dispatch does not change its outcome. */
  lemma MethodIgnored<Q, R, X>(execution: Q -> Outcome<R, X>, request: Q, m1: string, m2: string,
                               processorError: (Q, X) -> Outcome<R, X>)
    ensures ProcessRequest(execution, request, m1, processorError)
         == ProcessRequest(execution, request, m2, processorError)
  {
  }
}

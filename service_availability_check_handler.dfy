/**
 * `ServiceAvailabilityCheckHandler`: refuses a request with
 * `ServiceUnavailable` when the configured `ServiceAvailability` says its
 * request id is not being served, and otherwise hands it to the rest of the
 * chain.
 */
module ServiceAvailabilityCheck {
  import opened Base
  import opened Framework

  class ServiceAvailabilityCheckHandler {
    /** `serviceAvailability`: required, but nothing checks that it was set. */
    var serviceAvailability: Option<ServiceAvailability>
    /** `usesInternalRequestId`: `false` unless set. */
    var usesInternalRequestId: bool

    constructor ()
      ensures serviceAvailability == None
      ensures !usesInternalRequestId
    {
      serviceAvailability := None;
      usesInternalRequestId := false;
    }

    /** The request id under check: internal iff `usesInternalRequestId`. */
    function CheckedRequestId(thread: ThreadContext): (r: JString)
      reads this, thread
      ensures usesInternalRequestId ==> r == thread.internalRequestId
      ensures !usesInternalRequestId ==> r == thread.requestId
    {
      if usesInternalRequestId then thread.internalRequestId else thread.requestId
    }

    /** `handleInbound(context)`: `Result.Success` for an available request id. */
    function HandleInbound(thread: ThreadContext, context: ExecutionContext): (r: Outcome<FwResult>)
      reads this, thread
      ensures serviceAvailability.None? ==> r == Thrown(NullPointerException)
      ensures serviceAvailability.Some? ==>
                (r == Returned(Success) <==> serviceAvailability.value(CheckedRequestId(thread)) == Returned(true))
      ensures serviceAvailability.Some? && serviceAvailability.value(CheckedRequestId(thread)) == Returned(false) ==>
                r == Thrown(ServiceUnavailable)
      // an exception of `isAvailable` propagates unchanged
      ensures serviceAvailability.Some? && serviceAvailability.value(CheckedRequestId(thread)).Thrown? ==>
                r == Thrown(serviceAvailability.value(CheckedRequestId(thread)).exception)
    {
      var requestId := if usesInternalRequestId then thread.internalRequestId else thread.requestId;
      match serviceAvailability
      case None => Thrown(NullPointerException)
      case Some(isAvailable) =>
        match isAvailable(requestId)
        case Thrown(e) => Thrown(e)
        case Returned(available) =>
          if !available then Thrown(ServiceUnavailable)
          else Returned(Success)
    }

    /**
     * `handle(inputData, context)`: the inbound check first; the rest of the
     * chain (`next`) runs only when it passes, and its outcome, exception
     * included, is the handler's.
     */
    function Handle<I, R>(inputData: I, thread: ThreadContext, context: ExecutionContext, next: I -> Outcome<R>): (o: Outcome<R>)
      reads this, thread
      ensures HandleInbound(thread, context).Returned? ==> o == next(inputData)
      ensures HandleInbound(thread, context).Thrown? ==> o == Thrown(HandleInbound(thread, context).exception)
    {
      match HandleInbound(thread, context)
      case Thrown(e) => Thrown(e)
      case Returned(_) => next(inputData)
    }

    /** `setServiceAvailability(serviceAvailability)`. */
    method SetServiceAvailability(availability: Option<ServiceAvailability>)
      modifies this
      ensures serviceAvailability == availability
      ensures usesInternalRequestId == old(usesInternalRequestId)
    {
      serviceAvailability := availability;
    }

    /** `setUsesInternalRequestId(usesInternal)`: returns this handler. */
    method SetUsesInternalRequestId(usesInternal: bool) returns (self: ServiceAvailabilityCheckHandler)
      modifies this
      ensures usesInternalRequestId == usesInternal
      ensures serviceAvailability == old(serviceAvailability)
      ensures self == this
    {
      usesInternalRequestId := usesInternal;
      return this;
    }
  }

  /**
   * The handler test: with the default configuration the external request
   * id is checked, and after `setUsesInternalRequestId(true)` the internal one.
   */
  method RequestIdChoiceExample(isAvailable: ServiceAvailability, next: string -> Outcome<string>)
    returns (external: Outcome<string>, internal: Outcome<string>)
    requires isAvailable(Some("example")) == Returned(true) && isAvailable(Some("internal")) == Returned(false)
    ensures external == next("in")
    ensures internal == Thrown(ServiceUnavailable)
  {
    var handler := new ServiceAvailabilityCheckHandler();
    handler.SetServiceAvailability(Some(isAvailable));
    var thread := new ThreadContext(None, Some("example"), Some("internal"));
    external := handler.Handle("in", thread, ExecutionContext(""), next);
    handler := handler.SetUsesInternalRequestId(true);
    internal := handler.Handle("in", thread, ExecutionContext(""), next);
  }
}

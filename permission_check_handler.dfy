/**
 * `PermissionCheckHandler`: the handler that authorises a whole request by
 * its request id.  Ignored request ids pass straight through; otherwise the
 * user's permission is obtained from the factory and either published into
 * the thread context before the rest of the chain runs, or the request is
 * refused with `Forbidden`.
 */
module PermissionCheck {
  import opened Base
  import opened Permissions
  import opened Framework
  import PermissionUtil

  /** The fixed text before the user id in a denial. */
  const DenialLead := "permission denied. userId = ["
  /** The fixed text between the user id and the request id. */
  const DenialMiddle := "], requestId = ["

  /** The message of the `Forbidden` raised for a refused request. */
  function DenialMessage(userId: JString, requestId: JString): string
  {
    DenialLead + Show(userId) + DenialMiddle + Show(requestId) + "]"
  }

  /**
   * Two fields between fixed texts can be read back when the first is free
   * of the character that opens the text after it.
   */
  lemma FieldsReadBack(lead: string, middle: string, close: string, c: char,
                       a1: string, b1: string, a2: string, b2: string)
    requires |middle| > 0 && middle[0] == c
    requires c !in a1 && c !in a2
    requires lead + a1 + middle + b1 + close == lead + a2 + middle + b2 + close
    ensures a1 == a2 && b1 == b2
  {
    var m1 := lead + a1 + middle + b1 + close;
    var m2 := lead + a2 + middle + b2 + close;
    assert m1[|lead|..] == a1 + (middle + b1 + close);
    assert m2[|lead|..] == a2 + (middle + b2 + close);
    SplitAtFirst(c, a1, middle + b1 + close, a2, middle + b2 + close);
    assert (middle + b1 + close)[|middle|..] == b1 + close;
    assert (middle + b2 + close)[|middle|..] == b2 + close;
    assert b1 == (b1 + close)[..|b1|];
    assert b2 == (b2 + close)[..|b2|];
  }

  /**
   * The denial message can be read back: when the rendered user id holds no
   * `]`, equal messages name the same rendered user id and request id.
   * (`Show` renders a `null` id and the id "null" alike.)
   */
  lemma DenialMessageDeterminesIds(user1: JString, request1: JString, user2: JString, request2: JString)
    requires ']' !in Show(user1) && ']' !in Show(user2)
    requires DenialMessage(user1, request1) == DenialMessage(user2, request2)
    ensures Show(user1) == Show(user2)
    ensures Show(request1) == Show(request2)
  {
    assert DenialMiddle[0] == ']';
    FieldsReadBack(DenialLead, DenialMiddle, "]", ']', Show(user1), Show(request1), Show(user2), Show(request2));
  }

  class PermissionCheckHandler {
    /** `permissionFactory`: required, but nothing checks that it was set. */
    var permissionFactory: Option<PermissionFactory>
    /** `ignoreRequestIds`: request ids that are not checked. */
    var ignoreRequestIds: set<JString>
    /** `usesInternalRequestId`: `false` unless set. */
    var usesInternalRequestId: bool

    constructor ()
      ensures permissionFactory == None
      ensures ignoreRequestIds == {}
      ensures !usesInternalRequestId
    {
      permissionFactory := None;
      ignoreRequestIds := {};
      usesInternalRequestId := false;
    }

    /** The request id under check: internal iff `usesInternalRequestId`. */
    function CheckedRequestId(thread: ThreadContext): (r: JString)
      reads this, thread
      ensures usesInternalRequestId ==> r == thread.internalRequestId
      ensures !usesInternalRequestId ==> r == thread.requestId
    {
      if usesInternalRequestId then thread.internalRequestId else thread.requestId
    }

    /**
     * `handle(inputData, context)`.  `next` is the rest of the handler chain
     * (`context.handleNext`); it sees the thread-context entries as they are
     * when it is called, so the published permission is visible to it, and
     * whatever it returns or throws is the handler's outcome.
     */
    method Handle<I, R>(inputData: I, thread: ThreadContext, next: (I, map<string, ContextObject>) -> Outcome<R>)
      returns (o: Outcome<R>)
      modifies thread`objects
      // an ignored id: continue with the input unchanged, nothing asked or published
      ensures CheckedRequestId(thread) in ignoreRequestIds ==>
                thread.objects == old(thread.objects) && o == next(inputData, thread.objects)
      // no factory configured: the dereference fails
      ensures CheckedRequestId(thread) !in ignoreRequestIds && permissionFactory.None? ==>
                thread.objects == old(thread.objects) && o == Thrown(NullPointerException)
      // otherwise the factory is asked with the context user id, set or not
      ensures CheckedRequestId(thread) !in ignoreRequestIds && permissionFactory.Some? ==>
        match permissionFactory.value(thread.userId)
        // the factory's own exception propagates, nothing published
        case Thrown(e) => thread.objects == old(thread.objects) && o == Thrown(e)
        // a factory returning null: the dereference fails
        case Returned(None) => thread.objects == old(thread.objects) && o == Thrown(NullPointerException)
        case Returned(Some(permission)) =>
          match permission.permit(CheckedRequestId(thread))
          // an exception of `permit` propagates, nothing published
          case Thrown(e) => thread.objects == old(thread.objects) && o == Thrown(e)
          case Returned(permitted) =>
            if permitted then
              thread.objects == old(thread.objects)[PermissionUtil.PermissionKey := PermissionObject(Some(permission))] &&
              o == next(inputData, thread.objects)
            else
              thread.objects == old(thread.objects) &&
              o == Thrown(Forbidden(DenialMessage(thread.userId, CheckedRequestId(thread))))
      // a handler that returns has run the chain, and returns the chain's result
      ensures o.Returned? ==> o == next(inputData, thread.objects)
    {
      var requestId := if usesInternalRequestId then thread.internalRequestId else thread.requestId;

      if requestId in ignoreRequestIds {
        return next(inputData, thread.objects);
      }

      var userId := thread.userId;
      if permissionFactory.None? {
        return Thrown(NullPointerException);
      }
      var permission := permissionFactory.value(userId);
      if permission.Thrown? {
        return Thrown(permission.exception);
      }
      if permission.value.None? {
        return Thrown(NullPointerException);
      }

      var permitted := permission.value.value.permit(requestId);
      if permitted.Thrown? {
        return Thrown(permitted.exception);
      }
      if permitted.value {
        PermissionUtil.SetPermission(thread, permission.value);
        return next(inputData, thread.objects);
      } else {
        var message := DenialMessage(userId, requestId);
        return Thrown(Forbidden(message));
      }
    }

    /** `setPermissionFactory(factory)`: replaces the factory; returns this handler. */
    method SetPermissionFactory(factory: Option<PermissionFactory>) returns (self: PermissionCheckHandler)
      modifies this
      ensures permissionFactory == factory
      ensures ignoreRequestIds == old(ignoreRequestIds)
      ensures usesInternalRequestId == old(usesInternalRequestId)
      ensures self == this
    {
      permissionFactory := factory;
      return this;
    }

    /** `setIgnoreRequestIds(requestIds...)`: adds to the ignored ids; returns this handler. */
    method SetIgnoreRequestIds(requestIds: seq<JString>) returns (self: PermissionCheckHandler)
      modifies this
      ensures ignoreRequestIds == old(ignoreRequestIds) + set r | r in requestIds
      ensures permissionFactory == old(permissionFactory)
      ensures usesInternalRequestId == old(usesInternalRequestId)
      ensures self == this
    {
      ignoreRequestIds := ignoreRequestIds + set r | r in requestIds;
      return this;
    }

    /** `setUsesInternalRequestId(usesInternal)`: returns this handler. */
    method SetUsesInternalRequestId(usesInternal: bool) returns (self: PermissionCheckHandler)
      modifies this
      ensures usesInternalRequestId == usesInternal
      ensures permissionFactory == old(permissionFactory)
      ensures ignoreRequestIds == old(ignoreRequestIds)
      ensures self == this
    {
      usesInternalRequestId := usesInternal;
      return this;
    }
  }

  /**
   * The successful run of the handler test: a user whose `BasicPermission`
   * holds the request ids {"aaa"} is let through for the internal id "aaa",
   * and the published permission then permits "aaa" and not "aab".
   */
  method PermittedExample() returns (result: Outcome<string>, published: Outcome<Option<Permission>>)
    ensures result == Returned("ok")
    ensures published.Returned? && published.value.Some?
    ensures published.value.value.permit(Some("aaa")) == Returned(true)
    ensures published.value.value.permit(Some("aab")) == Returned(false)
  {
    var factory: PermissionFactory := _ => Returned(Some(BasicPermission(Some(["aaa"])).AsPermission()));
    var handler := new PermissionCheckHandler();
    handler := handler.SetIgnoreRequestIds([Some("unknown")]);
    handler := handler.SetUsesInternalRequestId(true);
    handler := handler.SetPermissionFactory(Some(factory));
    var thread := new ThreadContext(Some("dummy"), None, Some("aaa"));
    PermitExample();
    result := handler.Handle("param", thread, (input: string, objects: map<string, ContextObject>) => Returned("ok"));
    published := PermissionUtil.GetPermission(thread);
  }

  /** An ignored request id passes for an anonymous user and publishes nothing. */
  method IgnoredExample() returns (result: Outcome<string>, objects: map<string, ContextObject>)
    ensures result == Returned("ok")
    ensures objects == map[]
  {
    var handler := new PermissionCheckHandler();
    handler := handler.SetIgnoreRequestIds([Some("aaa")]);
    handler := handler.SetUsesInternalRequestId(true);
    var thread := new ThreadContext(None, None, Some("aaa"));
    result := handler.Handle("param", thread, (input: string, objects: map<string, ContextObject>) => Returned("ok"));
    objects := thread.objects;
  }

  /**
   * The refused run of the handler test: the permission's set is empty, and
   * the external request id, which is the one checked, was never set.
   */
  method DeniedExample() returns (result: Outcome<string>)
    ensures result == Thrown(Forbidden(DenialMessage(Some("dummy"), None)))
  {
    var factory: PermissionFactory := _ => Returned(Some(BasicPermission(Some([])).AsPermission()));
    var handler := new PermissionCheckHandler();
    handler := handler.SetPermissionFactory(Some(factory));
    var thread := new ThreadContext(Some("dummy"), None, Some("aaa"));
    result := handler.Handle("param", thread, (input: string, objects: map<string, ContextObject>) => Returned("ok"));
  }
}

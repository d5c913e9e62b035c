/**
 * The `Permission` interface, which each authorisation scheme implements,
 * and its implementation `BasicPermission`: the request ids a user may call,
 * held as a `SortedSet<String>` that may itself be `null`, and the null-safe
 * membership test that authorises one request id.
 */
module Permissions {
  import opened Base
  import opened StringOrder

  /** A `SortedSet<String>`: distinct strings in ascending natural order. */
  type SortedStringSet = s: seq<string> | StrictlyAscending(s) witness []

  /**
   * A `Permission` seen through its interface: `permit(requestId)`, which an
   * implementation may answer by throwing, and the value `getRequestIds()`
   * reports.  Any implementation is one of these.
   */
  datatype Permission = Permission(permit: JString -> Outcome<bool>, requestIds: Option<SortedStringSet>)

  /** `new BasicPermission(requestIds)`; the set reference may be `null`. */
  datatype BasicPermission = BasicPermission(requestIds: Option<SortedStringSet>)
  {
    /** `permit(requestId)`: never throws, even for a `null` set or id. */
    predicate Permit(requestId: JString): (permitted: bool)
      ensures permitted ==> requestIds.Some? && requestId.Some?
      ensures requestIds.Some? && requestId.Some? ==> (permitted <==> requestId.value in requestIds.value)
    {
      requestIds.Some? && requestId.Some? && requestId.value in requestIds.value
    }

    /** `getRequestIds()`. */
    function GetRequestIds(): (r: Option<SortedStringSet>)
      ensures r == requestIds
      ensures r.Some? ==> StrictlyAscending(r.value)
    {
      requestIds
    }

    /** This `BasicPermission` as a `Permission`: same answers, same request ids. */
    function AsPermission(): (p: Permission)
      ensures forall requestId :: p.permit(requestId) == Returned(Permit(requestId))
      ensures p.requestIds == GetRequestIds()
    {
      Permission(requestId => Returned(Permit(requestId)), requestIds)
    }
  }

  /** A permission built over a `null` set permits nothing, and `null` is never permitted. */
  lemma PermitNullSafe(p: BasicPermission, requestId: JString)
    ensures p.requestIds.None? ==> !p.Permit(requestId)
    ensures requestId.None? ==> !p.Permit(requestId)
  {
  }

  /** Over a present set, a present id is permitted exactly when it is a member. */
  lemma PermitIffMember(ids: SortedStringSet, requestId: string)
    ensures BasicPermission(Some(ids)).Permit(Some(requestId)) <==> requestId in ids
  {
  }

  /** An empty set permits no request id. */
  lemma EmptyPermitsNothing(requestId: JString)
    ensures !BasicPermission(Some([])).Permit(requestId)
  {
  }

  /**
   * `getRequestIds` returns the set given to the constructor, and that set
   * iterates in strictly ascending order.
   */
  lemma GetRequestIdsAscending(ids: Option<SortedStringSet>)
    ensures BasicPermission(ids).GetRequestIds() == ids
    ensures ids.Some? ==> forall i, j | 0 <= i < j < |ids.value| :: Less(ids.value[i], ids.value[j])
  {
  }

  /** The permission of the handler test: {"aaa"} permits "aaa" and not "aab". */
  lemma PermitExample()
    ensures BasicPermission(Some(["aaa"])).Permit(Some("aaa"))
    ensures !BasicPermission(Some(["aaa"])).Permit(Some("aab"))
  {
  }
}

/**
 * `PermissionUtil`: the one slot of the thread context, under the key
 * "PERMISSION", through which the permission check handler hands the
 * resolved permission to later stages of the same request.
 */
module PermissionUtil {
  import opened Base
  import opened Permissions
  import opened Framework

  /** `PERMISSION_KEY`. */
  const PermissionKey := "PERMISSION"

  /**
   * `getPermission()`: `null` when nothing is stored; the cast to `Permission`
   * fails when something else was stored under the key.
   */
  function GetPermission(thread: ThreadContext): (r: Outcome<Option<Permission>>)
    reads thread
    ensures PermissionKey !in thread.objects ==> r == Returned(None)
    ensures PermissionKey in thread.objects && thread.objects[PermissionKey].PermissionObject?
      ==> r == Returned(thread.objects[PermissionKey].permission)
    ensures r.Thrown? <==> PermissionKey in thread.objects && thread.objects[PermissionKey].OtherObject?
  {
    if PermissionKey !in thread.objects then Returned(None)
    else match thread.objects[PermissionKey]
      case PermissionObject(p) => Returned(p)
      case OtherObject(_) => Thrown(ClassCastException)
  }

  /**
   * `setPermission(permission)`: overwrites whatever the slot held; a later
   * `getPermission` returns exactly this permission, and every other entry
   * of the thread context is left as it was.
   */
  method SetPermission(thread: ThreadContext, permission: Option<Permission>)
    modifies thread`objects
    ensures thread.objects == old(thread.objects)[PermissionKey := PermissionObject(permission)]
    ensures GetPermission(thread) == Returned(permission)
    ensures forall k | k != PermissionKey :: (k in thread.objects <==> k in old(thread.objects))
    ensures forall k | k != PermissionKey && k in old(thread.objects) :: thread.objects[k] == old(thread.objects)[k]
  {
    thread.objects := thread.objects[PermissionKey := PermissionObject(permission)];
  }

  /** The anonymous permission of the accessor test: it permits nothing. */
  const PermitNothing := Permission(_ => Returned(false), None)

  /** The accessor test: what is set is what is got back, for any implementation. */
  method AccessorExample() returns (got: Outcome<Option<Permission>>)
    ensures got == Returned(Some(PermitNothing))
  {
    var thread := new ThreadContext(None, None, None);
    SetPermission(thread, Some(PermitNothing));
    got := GetPermission(thread);
  }
}

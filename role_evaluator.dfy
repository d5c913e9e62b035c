/**
 * `BasicRoleEvaluator`: asks its `UserRoleResolver` for the user's
 * roles, copies them into a set, and scans the required roles
 * with an early return.
 */
module RoleEvaluator {
  import opened Base
  import opened Framework
  import opened Evaluation

  /** The message of the exception raised when no resolver is configured. */
  const NullResolverMessage := "UserRoleResolver is null."

  class BasicRoleEvaluator {
    /** The `userRoleResolver` field; `None` until the setter is called. */
    var userRoleResolver: Option<Resolver>

    constructor ()
      ensures userRoleResolver == None
    {
      userRoleResolver := None;
    }

    /** `checkUserRoleResolverIsNotNull()`. */
    method CheckUserRoleResolverIsNotNull() returns (r: Outcome<()>)
      ensures r.Returned? <==> userRoleResolver.Some?
      ensures r.Thrown? ==> r.exception == IllegalStateException(NullResolverMessage)
    {
      if userRoleResolver.None? {
        return Thrown(IllegalStateException(NullResolverMessage));
      }
      return Returned(());
    }

    /** `evaluateAnyOf(userId, roles, context)`. */
    method EvaluateAnyOf(userId: JString, roles: seq<string>, context: ExecutionContext)
      returns (r: Outcome<bool>)
      ensures r == Evaluate(userRoleResolver, NullResolverMessage, true, userId, roles, context)
    {
      var check := CheckUserRoleResolverIsNotNull();
      if check.Thrown? {
        return Thrown(check.exception);
      }
      var resolved := userRoleResolver.value(userId, context);
      if resolved.Thrown? {
        return Thrown(resolved.exception);
      }
      var userRoles := set t | t in resolved.value;
      for i := 0 to |roles|
        invariant forall k | 0 <= k < i :: roles[k] !in userRoles
      {
        if roles[i] in userRoles {
          return Returned(true);
        }
      }
      return Returned(false);
    }

    /** `evaluateAllOf(userId, roles, context)`. */
    method EvaluateAllOf(userId: JString, roles: seq<string>, context: ExecutionContext)
      returns (r: Outcome<bool>)
      ensures r == Evaluate(userRoleResolver, NullResolverMessage, false, userId, roles, context)
    {
      var check := CheckUserRoleResolverIsNotNull();
      if check.Thrown? {
        return Thrown(check.exception);
      }
      var resolved := userRoleResolver.value(userId, context);
      if resolved.Thrown? {
        return Thrown(resolved.exception);
      }
      var userRoles := set t | t in resolved.value;
      for i := 0 to |roles|
        invariant forall k | 0 <= k < i :: roles[k] in userRoles
      {
        if roles[i] !in userRoles {
          return Returned(false);
        }
      }
      return Returned(true);
    }

    /** `setUserRoleResolver(resolver)`; `null` may be passed again. */
    method SetUserRoleResolver(resolver: Option<Resolver>)
      modifies this
      ensures userRoleResolver == resolver
    {
      userRoleResolver := resolver;
    }
  }
}

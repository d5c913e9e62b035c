/**
 * `BasicAuthorityEvaluator`: asks its `UserAuthorityResolver` for the user's
 * authorities, copies them into a set, and scans the required authorities
 * with an early return.
 */
module AuthorityEvaluator {
  import opened Base
  import opened Framework
  import opened Evaluation

  /** The message of the exception raised when no resolver is configured. */
  const NullResolverMessage := "UserAuthorityResolver is null."

  class BasicAuthorityEvaluator {
    /** The `userAuthorityResolver` field; `None` until the setter is called. */
    var userAuthorityResolver: Option<Resolver>

    constructor ()
      ensures userAuthorityResolver == None
    {
      userAuthorityResolver := None;
    }

    /** `checkUserAuthorityResolverIsNotNull()`. */
    method CheckUserAuthorityResolverIsNotNull() returns (r: Outcome<()>)
      ensures r.Returned? <==> userAuthorityResolver.Some?
      ensures r.Thrown? ==> r.exception == IllegalStateException(NullResolverMessage)
    {
      if userAuthorityResolver.None? {
        return Thrown(IllegalStateException(NullResolverMessage));
      }
      return Returned(());
    }

    /** `evaluateAnyOf(userId, authorities, context)`. */
    method EvaluateAnyOf(userId: JString, authorities: seq<string>, context: ExecutionContext)
      returns (r: Outcome<bool>)
      ensures r == Evaluate(userAuthorityResolver, NullResolverMessage, true, userId, authorities, context)
    {
      var check := CheckUserAuthorityResolverIsNotNull();
      if check.Thrown? {
        return Thrown(check.exception);
      }
      var resolved := userAuthorityResolver.value(userId, context);
      if resolved.Thrown? {
        return Thrown(resolved.exception);
      }
      var usersAuthorities := set t | t in resolved.value;
      for i := 0 to |authorities|
        invariant forall k | 0 <= k < i :: authorities[k] !in usersAuthorities
      {
        if authorities[i] in usersAuthorities {
          return Returned(true);
        }
      }
      return Returned(false);
    }

    /** `evaluateAllOf(userId, authorities, context)`. */
    method EvaluateAllOf(userId: JString, authorities: seq<string>, context: ExecutionContext)
      returns (r: Outcome<bool>)
      ensures r == Evaluate(userAuthorityResolver, NullResolverMessage, false, userId, authorities, context)
    {
      var check := CheckUserAuthorityResolverIsNotNull();
      if check.Thrown? {
        return Thrown(check.exception);
      }
      var resolved := userAuthorityResolver.value(userId, context);
      if resolved.Thrown? {
        return Thrown(resolved.exception);
      }
      var usersAuthorities := set t | t in resolved.value;
      for i := 0 to |authorities|
        invariant forall k | 0 <= k < i :: authorities[k] in usersAuthorities
      {
        if authorities[i] !in usersAuthorities {
          return Returned(false);
        }
      }
      return Returned(true);
    }

    /** `setUserAuthorityResolver(resolver)`; `null` may be passed again. */
    method SetUserAuthorityResolver(resolver: Option<Resolver>)
      modifies this
      ensures userAuthorityResolver == resolver
    {
      userAuthorityResolver := resolver;
    }
  }
}

/**
 * `AuthorityUtil`: programmatic authority checks for the current user,
 * delegated to the component registered as "authorityEvaluator".  Unlike the
 * interceptor it does not check that the component exists, so a missing one
 * surfaces as a `NullPointerException` at the call.
 */
module AuthorityUtil {
  import opened Base
  import opened Framework
  import opened Evaluation
  import AuthorityEvaluator

  /** The name the evaluator is registered under. */
  const EvaluatorName := "authorityEvaluator"

  /** `obtainAuthorityEvaluator()` followed by the call on it. */
  function CallEvaluator(repository: SystemRepository, anyOf: bool, userId: JString,
                         authorities: seq<string>, context: ExecutionContext): Outcome<bool>
  {
    match GetAuthorityEvaluator(repository, EvaluatorName)
    case NotRegistered => Thrown(NullPointerException)
    case WrongType => Thrown(ClassCastException)
    case Registered(evaluator) =>
      if anyOf then evaluator.evaluateAnyOf(userId, authorities, context)
      else evaluator.evaluateAllOf(userId, authorities, context)
  }

  /** `checkAuthorityAllOf(authorities, context)`: the evaluator's all-of answer, unchanged. */
  function CheckAuthorityAllOf(repository: SystemRepository, userId: JString,
                               authorities: seq<string>, context: ExecutionContext): (r: Outcome<bool>)
    ensures GetAuthorityEvaluator(repository, EvaluatorName).Registered? ==>
              r == GetAuthorityEvaluator(repository, EvaluatorName).component.evaluateAllOf(userId, authorities, context)
    ensures EvaluatorName !in repository.components ==> r == Thrown(NullPointerException)
    ensures GetAuthorityEvaluator(repository, EvaluatorName).WrongType? ==> r == Thrown(ClassCastException)
  {
    CallEvaluator(repository, false, userId, authorities, context)
  }

  /** `checkAuthorityAnyOf(authorities, context)`: the evaluator's any-of answer, unchanged. */
  function CheckAuthorityAnyOf(repository: SystemRepository, userId: JString,
                               authorities: seq<string>, context: ExecutionContext): (r: Outcome<bool>)
    ensures GetAuthorityEvaluator(repository, EvaluatorName).Registered? ==>
              r == GetAuthorityEvaluator(repository, EvaluatorName).component.evaluateAnyOf(userId, authorities, context)
    ensures EvaluatorName !in repository.components ==> r == Thrown(NullPointerException)
    ensures GetAuthorityEvaluator(repository, EvaluatorName).WrongType? ==> r == Thrown(ClassCastException)
  {
    CallEvaluator(repository, true, userId, authorities, context)
  }

  /** `checkAuthority(authority, context)`: all-of over the one authority. */
  function CheckAuthority(repository: SystemRepository, userId: JString,
                          authority: string, context: ExecutionContext): (r: Outcome<bool>)
    ensures r == CheckAuthorityAllOf(repository, userId, [authority], context)
  {
    CallEvaluator(repository, false, userId, [authority], context)
  }

  /** A repository whose "authorityEvaluator" is a `BasicAuthorityEvaluator` with this resolver. */
  function WithBasicEvaluator(resolve: Resolver): SystemRepository
  {
    SystemRepository(map[EvaluatorName := AuthorityEvaluatorComponent(
      BasicEvaluator(Some(resolve), AuthorityEvaluator.NullResolverMessage))])
  }

  /**
   * Over a basic evaluator, `checkAuthority(a)` holds exactly when `a` is among
   * the user's resolved authorities, and the collection forms answer all-of
   * and any-of over them; an exception of the resolver reaches the caller.
   */
  lemma ChecksWithBasicEvaluator(resolve: Resolver, userId: JString, authority: string,
                                 authorities: seq<string>, context: ExecutionContext)
    ensures resolve(userId, context).Returned? ==>
              (CheckAuthority(WithBasicEvaluator(resolve), userId, authority, context)
                 == Returned(authority in resolve(userId, context).value))
    ensures resolve(userId, context).Returned? ==>
              (CheckAuthorityAllOf(WithBasicEvaluator(resolve), userId, authorities, context)
                 == Returned(AllOf(Granted(resolve(userId, context).value), authorities)))
    ensures resolve(userId, context).Returned? ==>
              (CheckAuthorityAnyOf(WithBasicEvaluator(resolve), userId, authorities, context)
                 == Returned(AnyOf(Granted(resolve(userId, context).value), authorities)))
    // the resolver's exception reaches the caller of every form unchanged
    ensures resolve(userId, context).Thrown? ==>
              (CheckAuthority(WithBasicEvaluator(resolve), userId, authority, context)
                 == CheckAuthorityAllOf(WithBasicEvaluator(resolve), userId, authorities, context)
                 == CheckAuthorityAnyOf(WithBasicEvaluator(resolve), userId, authorities, context)
                 == Thrown(resolve(userId, context).exception))
  {
    assert GetAuthorityEvaluator(WithBasicEvaluator(resolve), EvaluatorName)
        == Registered(BasicEvaluator(Some(resolve), AuthorityEvaluator.NullResolverMessage));
    if resolve(userId, context).Returned? {
      SingleRequired(Granted(resolve(userId, context).value), authority);
    }
  }
}

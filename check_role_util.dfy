/**
 * `CheckRoleUtil`: programmatic role checks for the current user,
 * delegated to the component registered as "roleEvaluator".  Unlike the
 * interceptor it does not check that the component exists, so a missing one
 * surfaces as a `NullPointerException` at the call.
 */
module CheckRoleUtil {
  import opened Base
  import opened Framework
  import opened Evaluation
  import RoleEvaluator

  /** The name the evaluator is registered under. */
  const EvaluatorName := "roleEvaluator"

  /** `obtainRoleEvaluator()` followed by the call on it. */
  function CallEvaluator(repository: SystemRepository, anyOf: bool, userId: JString,
                         roles: seq<string>, context: ExecutionContext): Outcome<bool>
  {
    match GetRoleEvaluator(repository, EvaluatorName)
    case NotRegistered => Thrown(NullPointerException)
    case WrongType => Thrown(ClassCastException)
    case Registered(evaluator) =>
      if anyOf then evaluator.evaluateAnyOf(userId, roles, context)
      else evaluator.evaluateAllOf(userId, roles, context)
  }

  /** `checkRoleAllOf(roles, context)`: the evaluator's all-of answer, unchanged. */
  function CheckRoleAllOf(repository: SystemRepository, userId: JString,
                               roles: seq<string>, context: ExecutionContext): (r: Outcome<bool>)
    ensures GetRoleEvaluator(repository, EvaluatorName).Registered? ==>
              r == GetRoleEvaluator(repository, EvaluatorName).component.evaluateAllOf(userId, roles, context)
    ensures EvaluatorName !in repository.components ==> r == Thrown(NullPointerException)
    ensures GetRoleEvaluator(repository, EvaluatorName).WrongType? ==> r == Thrown(ClassCastException)
  {
    CallEvaluator(repository, false, userId, roles, context)
  }

  /** `checkRoleAnyOf(roles, context)`: the evaluator's any-of answer, unchanged. */
  function CheckRoleAnyOf(repository: SystemRepository, userId: JString,
                               roles: seq<string>, context: ExecutionContext): (r: Outcome<bool>)
    ensures GetRoleEvaluator(repository, EvaluatorName).Registered? ==>
              r == GetRoleEvaluator(repository, EvaluatorName).component.evaluateAnyOf(userId, roles, context)
    ensures EvaluatorName !in repository.components ==> r == Thrown(NullPointerException)
    ensures GetRoleEvaluator(repository, EvaluatorName).WrongType? ==> r == Thrown(ClassCastException)
  {
    CallEvaluator(repository, true, userId, roles, context)
  }

  /** `checkRole(role, context)`: all-of over the one role. */
  function CheckRole(repository: SystemRepository, userId: JString,
                     role: string, context: ExecutionContext): (r: Outcome<bool>)
    ensures r == CheckRoleAllOf(repository, userId, [role], context)
  {
    CallEvaluator(repository, false, userId, [role], context)
  }

  /** A repository whose "roleEvaluator" is a `BasicRoleEvaluator` with this resolver. */
  function WithBasicEvaluator(resolve: Resolver): SystemRepository
  {
    SystemRepository(map[EvaluatorName := RoleEvaluatorComponent(
      BasicEvaluator(Some(resolve), RoleEvaluator.NullResolverMessage))])
  }

  /**
   * Over a basic evaluator, `checkRole(r)` holds exactly when `r` is among
   * the user's resolved roles, and the collection forms answer all-of
   * and any-of over them; an exception of the resolver reaches the caller.
   */
  lemma ChecksWithBasicEvaluator(resolve: Resolver, userId: JString, role: string,
                                 roles: seq<string>, context: ExecutionContext)
    ensures resolve(userId, context).Returned? ==>
              (CheckRole(WithBasicEvaluator(resolve), userId, role, context)
                 == Returned(role in resolve(userId, context).value))
    ensures resolve(userId, context).Returned? ==>
              (CheckRoleAllOf(WithBasicEvaluator(resolve), userId, roles, context)
                 == Returned(AllOf(Granted(resolve(userId, context).value), roles)))
    ensures resolve(userId, context).Returned? ==>
              (CheckRoleAnyOf(WithBasicEvaluator(resolve), userId, roles, context)
                 == Returned(AnyOf(Granted(resolve(userId, context).value), roles)))
    // the resolver's exception reaches the caller of every form unchanged
    ensures resolve(userId, context).Thrown? ==>
              (CheckRole(WithBasicEvaluator(resolve), userId, role, context)
                 == CheckRoleAllOf(WithBasicEvaluator(resolve), userId, roles, context)
                 == CheckRoleAnyOf(WithBasicEvaluator(resolve), userId, roles, context)
                 == Thrown(resolve(userId, context).exception))
  {
    assert GetRoleEvaluator(WithBasicEvaluator(resolve), EvaluatorName)
        == Registered(BasicEvaluator(Some(resolve), RoleEvaluator.NullResolverMessage));
    if resolve(userId, context).Returned? {
      SingleRequired(Granted(resolve(userId, context).value), role);
    }
  }
}

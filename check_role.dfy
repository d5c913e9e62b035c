/**
 * The `@CheckRole` annotation and its interceptor `CheckRole.Impl`:
 * before an action method runs, the evaluator registered as
 * "roleEvaluator" decides, all-of or any-of, whether the context user
 * holds the declared roles; the method runs only when it says yes.
 */
module CheckRole {
  import opened Base
  import opened Framework
  import opened Evaluation
  import RoleEvaluator

  /** The name the evaluator is registered under. */
  const EvaluatorName := "roleEvaluator"

  /** The message raised when no evaluator is registered. */
  const MissingEvaluatorMessage := "The component of \"roleEvaluator\" is not found."

  /** `@CheckRole(value = ..., anyOf = ...)`; `anyOf` defaults to `false`. */
  datatype Annotation = Annotation(value: seq<string>, anyOf: bool := false)

  /** An annotation that does not set `anyOf` asks for all of its roles. */
  lemma AnyOfDefaultsToFalse(value: seq<string>)
    ensures !Annotation(value).anyOf
  {
  }

  /** The message of the `Forbidden` raised on denial. */
  function DenialMessage(userId: JString, roles: seq<string>): string
  {
    "User has no role. userId=[" + Show(userId) + "], roles=[" + Join(", ", roles) + "]"
  }

  /** The evaluator call the annotation selects: any-of when `anyOf`, all-of otherwise. */
  function Verdict(evaluator: Evaluator, annotation: Annotation, userId: JString,
                   context: ExecutionContext): Outcome<bool>
  {
    if annotation.anyOf then evaluator.evaluateAnyOf(userId, annotation.value, context)
    else evaluator.evaluateAllOf(userId, annotation.value, context)
  }

  /** The first half of `handle`: look the evaluator up, then ask it. */
  function Decision(annotation: Annotation, repository: SystemRepository, userId: JString,
                    context: ExecutionContext): Outcome<bool>
  {
    match GetRoleEvaluator(repository, EvaluatorName)
    case NotRegistered => Thrown(IllegalStateException(MissingEvaluatorMessage))
    case WrongType => Thrown(ClassCastException)
    case Registered(evaluator) => Verdict(evaluator, annotation, userId, context)
  }

  /**
   * `CheckRole.Impl.handle(param, context)`.  `userId` is the thread
   * context's user id and `original` the intercepted handler, which may
   * itself throw.
   */
  function Handle<I, R>(annotation: Annotation, repository: SystemRepository, userId: JString,
                        param: I, context: ExecutionContext, original: (I, ExecutionContext) -> Outcome<R>): (o: Outcome<R>)
    // a missing evaluator is a configuration error, raised before anything is evaluated
    ensures EvaluatorName !in repository.components ==>
              o == Thrown(IllegalStateException(MissingEvaluatorMessage))
    // a component of another type fails its cast
    ensures GetRoleEvaluator(repository, EvaluatorName).WrongType? ==> o == Thrown(ClassCastException)
    // the registered evaluator is asked any-of when `anyOf`, all-of otherwise, and decides
    ensures GetRoleEvaluator(repository, EvaluatorName).Registered? ==>
      var evaluator := repository.components[EvaluatorName].roleEvaluator;
      var verdict := if annotation.anyOf then evaluator.evaluateAnyOf(userId, annotation.value, context)
                     else evaluator.evaluateAllOf(userId, annotation.value, context);
      // on yes the method runs with the same param and context, and its outcome is the result
      (verdict == Returned(true) ==> o == original(param, context)) &&
      // on no, a Forbidden naming the user and the declared roles
      (verdict == Returned(false) ==> o == Thrown(Forbidden(DenialMessage(userId, annotation.value)))) &&
      // an exception of the evaluator propagates unchanged
      (verdict.Thrown? ==> o == Thrown(verdict.exception))
  {
    match Decision(annotation, repository, userId, context)
    case Thrown(e) => Thrown(e)
    case Returned(authorized) =>
      if !authorized then Thrown(Forbidden(DenialMessage(userId, annotation.value)))
      else original(param, context)
  }

  /** A repository whose "roleEvaluator" is a `BasicRoleEvaluator` with this resolver. */
  function WithBasicEvaluator(resolver: Option<Resolver>): SystemRepository
  {
    SystemRepository(map[EvaluatorName := RoleEvaluatorComponent(
      BasicEvaluator(resolver, RoleEvaluator.NullResolverMessage))])
  }

  /**
   * Over a basic evaluator, the method runs exactly when the user's resolved
   * roles contain all (or, with `anyOf`, some) of the declared ones;
   * otherwise the request is refused; a missing resolver surfaces as the
   * evaluator's configuration error, and an exception of the resolver as itself.
   */
  lemma HandleWithBasicEvaluator<I, R>(annotation: Annotation, resolver: Option<Resolver>, userId: JString,
                                       param: I, context: ExecutionContext, original: (I, ExecutionContext) -> Outcome<R>)
    ensures var o := Handle(annotation, WithBasicEvaluator(resolver), userId, param, context, original);
      match resolver
      case None => o == Thrown(IllegalStateException(RoleEvaluator.NullResolverMessage))
      case Some(resolve) =>
        match resolve(userId, context)
        case Thrown(e) => o == Thrown(e)
        case Returned(resolved) =>
          var granted := Granted(resolved);
          var authorized := if annotation.anyOf then AnyOf(granted, annotation.value) else AllOf(granted, annotation.value);
          (authorized ==> o == original(param, context)) &&
          (!authorized ==> o == Thrown(Forbidden(DenialMessage(userId, annotation.value))))
  {
    var repository := WithBasicEvaluator(resolver);
    assert GetRoleEvaluator(repository, EvaluatorName)
        == Registered(BasicEvaluator(resolver, RoleEvaluator.NullResolverMessage));
  }

  /** The denial message does not depend on the policy that refused. */
  lemma DenialSameForBothPolicies<I, R>(value: seq<string>, repository: SystemRepository, userId: JString,
                                        param: I, context: ExecutionContext, original: (I, ExecutionContext) -> Outcome<R>)
    requires Decision(Annotation(value, true), repository, userId, context) == Returned(false)
    requires Decision(Annotation(value, false), repository, userId, context) == Returned(false)
    ensures Handle(Annotation(value, true), repository, userId, param, context, original)
         == Handle(Annotation(value, false), repository, userId, param, context, original)
         == Thrown(Forbidden(DenialMessage(userId, value)))
  {
  }

  /** The message of the interceptor test: roles joined with ", ". */
  lemma DenialMessageExample()
    ensures DenialMessage(Some("test-user"), ["FOO", "BAR"])
         == "User has no role. userId=[test-user], roles=[FOO, BAR]"
  {
  }
}

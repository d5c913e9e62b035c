/**
 * The `@CheckAuthority` annotation and its interceptor `CheckAuthority.Impl`:
 * before an action method runs, the evaluator registered as
 * "authorityEvaluator" decides, all-of or any-of, whether the context user
 * holds the declared authorities; the method runs only when it says yes.
 */
module CheckAuthority {
  import opened Base
  import opened Framework
  import opened Evaluation
  import AuthorityEvaluator

  /** The name the evaluator is registered under. */
  const EvaluatorName := "authorityEvaluator"

  /** The message raised when no evaluator is registered. */
  const MissingEvaluatorMessage := "The component of \"authorityEvaluator\" is not found."

  /** `@CheckAuthority(value = ..., anyOf = ...)`; `anyOf` defaults to `false`. */
  datatype Annotation = Annotation(value: seq<string>, anyOf: bool := false)

  /** An annotation that does not set `anyOf` asks for all of its authorities. */
  lemma AnyOfDefaultsToFalse(value: seq<string>)
    ensures !Annotation(value).anyOf
  {
  }

  /** The message of the `Forbidden` raised on denial. */
  function DenialMessage(userId: JString, authorities: seq<string>): string
  {
    "User has no authority. userId=[" + Show(userId) + "], authorities=[" + Join(", ", authorities) + "]"
  }

  /** The evaluator call the annotation selects: any-of when `anyOf`, all-of otherwise. */
  function Verdict(evaluator: Evaluator, annotation: Annotation, userId: JString,
                   context: ExecutionContext): Outcome<bool>
  {
    if annotation.anyOf then evaluator.evaluateAnyOf(userId, annotation.value, context)
    else evaluator.evaluateAllOf(userId, annotation.value, context)
  }

  /** The first half of `handle`: look the evaluator up, then ask it. */
  function Decision(annotation: Annotation, repository: SystemRepository, userId: JString,
                    context: ExecutionContext): Outcome<bool>
  {
    match GetAuthorityEvaluator(repository, EvaluatorName)
    case NotRegistered => Thrown(IllegalStateException(MissingEvaluatorMessage))
    case WrongType => Thrown(ClassCastException)
    case Registered(evaluator) => Verdict(evaluator, annotation, userId, context)
  }

  /**
   * `CheckAuthority.Impl.handle(param, context)`.  `userId` is the thread
   * context's user id and `original` the intercepted handler, which may
   * itself throw.
   */
  function Handle<I, R>(annotation: Annotation, repository: SystemRepository, userId: JString,
                        param: I, context: ExecutionContext, original: (I, ExecutionContext) -> Outcome<R>): (o: Outcome<R>)
    // a missing evaluator is a configuration error, raised before anything is evaluated
    ensures EvaluatorName !in repository.components ==>
              o == Thrown(IllegalStateException(MissingEvaluatorMessage))
    // a component of another type fails its cast
    ensures GetAuthorityEvaluator(repository, EvaluatorName).WrongType? ==> o == Thrown(ClassCastException)
    // the registered evaluator is asked any-of when `anyOf`, all-of otherwise, and decides
    ensures GetAuthorityEvaluator(repository, EvaluatorName).Registered? ==>
      var evaluator := repository.components[EvaluatorName].authorityEvaluator;
      var verdict := if annotation.anyOf then evaluator.evaluateAnyOf(userId, annotation.value, context)
                     else evaluator.evaluateAllOf(userId, annotation.value, context);
      // on yes the method runs with the same param and context, and its outcome is the result
      (verdict == Returned(true) ==> o == original(param, context)) &&
      // on no, a Forbidden naming the user and the declared authorities
      (verdict == Returned(false) ==> o == Thrown(Forbidden(DenialMessage(userId, annotation.value)))) &&
      // an exception of the evaluator propagates unchanged
      (verdict.Thrown? ==> o == Thrown(verdict.exception))
  {
    match Decision(annotation, repository, userId, context)
    case Thrown(e) => Thrown(e)
    case Returned(authorized) =>
      if !authorized then Thrown(Forbidden(DenialMessage(userId, annotation.value)))
      else original(param, context)
  }

  /** A repository whose "authorityEvaluator" is a `BasicAuthorityEvaluator` with this resolver. */
  function WithBasicEvaluator(resolver: Option<Resolver>): SystemRepository
  {
    SystemRepository(map[EvaluatorName := AuthorityEvaluatorComponent(
      BasicEvaluator(resolver, AuthorityEvaluator.NullResolverMessage))])
  }

  /**
   * Over a basic evaluator, the method runs exactly when the user's resolved
   * authorities contain all (or, with `anyOf`, some) of the declared ones;
   * otherwise the request is refused; a missing resolver surfaces as the
   * evaluator's configuration error, and an exception of the resolver as itself.
   */
  lemma HandleWithBasicEvaluator<I, R>(annotation: Annotation, resolver: Option<Resolver>, userId: JString,
                                       param: I, context: ExecutionContext, original: (I, ExecutionContext) -> Outcome<R>)
    ensures var o := Handle(annotation, WithBasicEvaluator(resolver), userId, param, context, original);
      match resolver
      case None => o == Thrown(IllegalStateException(AuthorityEvaluator.NullResolverMessage))
      case Some(resolve) =>
        match resolve(userId, context)
        case Thrown(e) => o == Thrown(e)
        case Returned(resolved) =>
          var granted := Granted(resolved);
          var authorized := if annotation.anyOf then AnyOf(granted, annotation.value) else AllOf(granted, annotation.value);
          (authorized ==> o == original(param, context)) &&
          (!authorized ==> o == Thrown(Forbidden(DenialMessage(userId, annotation.value))))
  {
    var repository := WithBasicEvaluator(resolver);
    assert GetAuthorityEvaluator(repository, EvaluatorName)
        == Registered(BasicEvaluator(resolver, AuthorityEvaluator.NullResolverMessage));
  }

  /** The denial message does not depend on the policy that refused. */
  lemma DenialSameForBothPolicies<I, R>(value: seq<string>, repository: SystemRepository, userId: JString,
                                        param: I, context: ExecutionContext, original: (I, ExecutionContext) -> Outcome<R>)
    requires Decision(Annotation(value, true), repository, userId, context) == Returned(false)
    requires Decision(Annotation(value, false), repository, userId, context) == Returned(false)
    ensures Handle(Annotation(value, true), repository, userId, param, context, original)
         == Handle(Annotation(value, false), repository, userId, param, context, original)
         == Thrown(Forbidden(DenialMessage(userId, value)))
  {
  }

  /** The message of the interceptor test: authorities joined with ", ". */
  lemma DenialMessageExample()
    ensures DenialMessage(Some("test-user"), ["FOO", "BAR"])
         == "User has no authority. userId=[test-user], authorities=[FOO, BAR]"
  {
  }
}

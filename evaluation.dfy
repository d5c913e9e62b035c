/**
 * The decision shared by `BasicAuthorityEvaluator` and `BasicRoleEvaluator`:
 * the resolver's collection is copied into a set, and the required tokens are
 * tested against it either all-of or any-of.  A missing resolver is a
 * configuration error raised before the resolver could be asked, and an
 * exception of the resolver propagates unchanged.
 */
module Evaluation {
  import opened Base
  import opened Framework

  /** `new HashSet<String>(resolved)`: the distinct tokens of the collection. */
  function Granted(resolved: seq<string>): (g: set<string>)
    ensures forall t :: t in g <==> t in resolved
  {
    set t | t in resolved
  }

  /** Every required token is granted. */
  predicate AllOf(granted: set<string>, required: seq<string>)
  {
    forall i | 0 <= i < |required| :: required[i] in granted
  }

  /** Some required token is granted. */
  predicate AnyOf(granted: set<string>, required: seq<string>)
  {
    exists i | 0 <= i < |required| :: required[i] in granted
  }

  /**
   * What one `evaluateAnyOf` (`anyOf`) or `evaluateAllOf` (`!anyOf`) call of a
   * basic evaluator completes with, given its resolver field.
   */
  function Evaluate(resolver: Option<Resolver>, nullMessage: string, anyOf: bool,
                    userId: JString, required: seq<string>, context: ExecutionContext): Outcome<bool>
  {
    match resolver
    case None => Thrown(IllegalStateException(nullMessage))
    case Some(resolve) =>
      match resolve(userId, context)
      case Thrown(e) => Thrown(e)
      case Returned(resolved) =>
        var granted := Granted(resolved);
        Returned(if anyOf then AnyOf(granted, required) else AllOf(granted, required))
  }

  /** A basic evaluator seen through its interface. */
  function BasicEvaluator(resolver: Option<Resolver>, nullMessage: string): Evaluator
  {
    Evaluator(
      (userId, required, context) => Evaluate(resolver, nullMessage, true, userId, required, context),
      (userId, required, context) => Evaluate(resolver, nullMessage, false, userId, required, context))
  }

  /** All-of holds exactly when the required tokens form a subset of the granted ones. */
  lemma AllOfIffSubset(granted: set<string>, required: seq<string>)
    ensures AllOf(granted, required) <==> (set t | t in required) <= granted
  {
    if !AllOf(granted, required) {
      var i :| 0 <= i < |required| && required[i] !in granted;
      assert required[i] in (set t | t in required);
    }
  }

  /** Any-of holds exactly when the required and granted tokens intersect. */
  lemma AnyOfIffIntersects(granted: set<string>, required: seq<string>)
    ensures AnyOf(granted, required) <==> (set t | t in required) * granted != {}
  {
    if AnyOf(granted, required) {
      var i :| 0 <= i < |required| && required[i] in granted;
      assert required[i] in (set t | t in required) * granted;
    } else {
      forall t | t in (set t | t in required) ensures t !in granted {
        var i :| 0 <= i < |required| && required[i] == t;
      }
    }
  }

  /** With nothing required, all-of is vacuously true and any-of is false. */
  lemma EmptyRequired(granted: set<string>)
    ensures AllOf(granted, [])
    ensures !AnyOf(granted, [])
  {
  }

  /** A single required token: both policies reduce to membership. */
  lemma SingleRequired(granted: set<string>, token: string)
    ensures AllOf(granted, [token]) <==> token in granted
    ensures AnyOf(granted, [token]) <==> token in granted
  {
    assert [token][0] == token;
  }

  /** Reordering (or permuting) the required tokens does not change either policy. */
  lemma RequiredOrderIrrelevant(granted: set<string>, required: seq<string>, permuted: seq<string>)
    requires multiset(required) == multiset(permuted)
    ensures AllOf(granted, required) == AllOf(granted, permuted)
    ensures AnyOf(granted, required) == AnyOf(granted, permuted)
  {
    forall t ensures t in required <==> t in permuted {
      assert t in required <==> t in multiset(required);
      assert t in permuted <==> t in multiset(permuted);
    }
    AllOfIffSubset(granted, required);
    AllOfIffSubset(granted, permuted);
    AnyOfIffIntersects(granted, required);
    AnyOfIffIntersects(granted, permuted);
    assert (set t | t in required) == (set t | t in permuted);
  }

  /**
   * Only the distinct tokens the resolver returns matter: two resolvers whose
   * collections hold the same tokens, in any order and with any repetition,
   * give the same answers, and so do two that throw the same exception.
   */
  lemma ResolvedOrderIrrelevant(resolve: Resolver, other: Resolver, nullMessage: string, anyOf: bool,
                                userId: JString, required: seq<string>, context: ExecutionContext)
    requires resolve(userId, context).Thrown? ==> other(userId, context) == resolve(userId, context)
    requires resolve(userId, context).Returned? ==>
               other(userId, context).Returned? &&
               (forall t :: t in resolve(userId, context).value <==> t in other(userId, context).value)
    ensures Evaluate(Some(resolve), nullMessage, anyOf, userId, required, context)
         == Evaluate(Some(other), nullMessage, anyOf, userId, required, context)
  {
    if resolve(userId, context).Returned? {
      assert Granted(resolve(userId, context).value) == Granted(other(userId, context).value);
    }
  }

  /** A missing resolver is a configuration error whatever the user and the tokens. */
  lemma MissingResolverFails(nullMessage: string, anyOf: bool, userId: JString,
                             required: seq<string>, context: ExecutionContext)
    ensures Evaluate(None, nullMessage, anyOf, userId, required, context)
         == Thrown(IllegalStateException(nullMessage))
  {
  }

  /**
   * With a resolver, evaluation returns exactly when the resolver does, and
   * its answer is all-of or any-of over the tokens the resolver gives for
   * exactly this user and context; the resolver's exception passes through.
   */
  lemma EvaluateDecides(resolve: Resolver, nullMessage: string, anyOf: bool, userId: JString,
                        required: seq<string>, context: ExecutionContext)
    ensures var r := Evaluate(Some(resolve), nullMessage, anyOf, userId, required, context);
      (r.Returned? <==> resolve(userId, context).Returned?) &&
      (resolve(userId, context).Thrown? ==> r == Thrown(resolve(userId, context).exception)) &&
      (r.Returned? && anyOf ==>
         (r.value <==> exists i | 0 <= i < |required| :: required[i] in resolve(userId, context).value)) &&
      (r.Returned? && !anyOf ==>
         (r.value <==> forall i | 0 <= i < |required| :: required[i] in resolve(userId, context).value))
  {
  }

  /** The scenarios of the evaluator tests. */
  lemma EvaluationExamples()
    ensures AllOf({"FOO", "BAR", "FIZZ", "BUZZ"}, ["FOO", "BAR"])
    ensures !AllOf({"BAR", "FIZZ"}, ["FOO", "BAR"])
    ensures AnyOf({"FIZZ", "BAR", "BUZZ"}, ["FOO", "BAR"])
    ensures !AnyOf({"FIZZ", "BUZZ"}, ["FOO", "BAR"])
  {
    assert ["FOO", "BAR"][1] == "BAR";
    assert ["FOO", "BAR"][0] == "FOO";
  }
}

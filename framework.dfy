/**
 * The collaborators that the access-control code consumes from the
 * surrounding framework, as explicit values: the execution context, the
 * thread context (as a mutable object), the component registry
 * (`SystemRepository`), and the interfaces the core calls through
 * (resolvers, evaluators, the permission factory, service availability).
 * These carry no logic of the core; they give it something to call.
 */
module Framework {
  import opened Base
  import opened Permissions

  /** `ExecutionContext`: only passed along, never inspected by the core. */
  datatype ExecutionContext = ExecutionContext(name: string)

  /**
   * `UserAuthorityResolver.resolve` / `UserRoleResolver.resolve`: the tokens a
   * user holds, never `null` (an empty collection when there are none), or the
   * exception the implementation throws (a failing store, say).
   */
  type Resolver = (JString, ExecutionContext) -> Outcome<seq<string>>

  /** One `evaluate...` method of `AuthorityEvaluator` or `RoleEvaluator`. */
  type EvaluateMethod = (JString, seq<string>, ExecutionContext) -> Outcome<bool>

  /** The `AuthorityEvaluator` and `RoleEvaluator` interfaces (same shape). */
  datatype Evaluator = Evaluator(evaluateAnyOf: EvaluateMethod, evaluateAllOf: EvaluateMethod)

  /** `PermissionFactory.getPermission(userId)`; an implementation may return `null` or throw. */
  type PermissionFactory = JString -> Outcome<Option<Permission>>

  /** `ServiceAvailability.isAvailable(requestId)`; an implementation may throw. */
  type ServiceAvailability = JString -> Outcome<bool>

  /** `nablarch.fw.Result.Success`, what an inbound check returns when it passes. */
  datatype FwResult = Success

  /** A value stored in the thread context under a key. */
  datatype ContextObject =
    | PermissionObject(permission: Option<Permission>)
    | OtherObject(description: string)

  /** The thread-local `ThreadContext` of one request, as one object. */
  class ThreadContext {
    /** `getUserId()`. */
    var userId: JString
    /** `getRequestId()`: the request id sent by the client. */
    var requestId: JString
    /** `getInternalRequestId()`: the request id after internal forwarding. */
    var internalRequestId: JString
    /** The entries of `getObject` / `setObject`. */
    var objects: map<string, ContextObject>

    constructor (userId: JString, requestId: JString, internalRequestId: JString)
      ensures this.userId == userId && this.requestId == requestId
      ensures this.internalRequestId == internalRequestId
      ensures objects == map[]
    {
      this.userId := userId;
      this.requestId := requestId;
      this.internalRequestId := internalRequestId;
      objects := map[];
    }
  }

  /** A component registered in the `SystemRepository`, by its Java type. */
  datatype Component =
    | AuthorityEvaluatorComponent(authorityEvaluator: Evaluator)
    | RoleEvaluatorComponent(roleEvaluator: Evaluator)
    | ServiceAvailabilityComponent(serviceAvailability: ServiceAvailability)
    | OtherComponent(description: string)

  /** The `SystemRepository`: components by name. */
  datatype SystemRepository = SystemRepository(components: map<string, Component>)

  /**
   * What `SystemRepository.get(name)` gives once cast to the expected type:
   * `null` for an unregistered name, a `ClassCastException` for a component
   * of another type.
   */
  datatype Lookup<T> = NotRegistered | Registered(component: T) | WrongType

  function GetAuthorityEvaluator(repository: SystemRepository, name: string): (r: Lookup<Evaluator>)
    ensures r.NotRegistered? <==> name !in repository.components
    ensures r.Registered? <==> name in repository.components && repository.components[name].AuthorityEvaluatorComponent?
    ensures r.Registered? ==> r.component == repository.components[name].authorityEvaluator
  {
    if name !in repository.components then NotRegistered
    else match repository.components[name]
      case AuthorityEvaluatorComponent(e) => Registered(e)
      case _ => WrongType
  }

  function GetRoleEvaluator(repository: SystemRepository, name: string): (r: Lookup<Evaluator>)
    ensures r.NotRegistered? <==> name !in repository.components
    ensures r.Registered? <==> name in repository.components && repository.components[name].RoleEvaluatorComponent?
    ensures r.Registered? ==> r.component == repository.components[name].roleEvaluator
  {
    if name !in repository.components then NotRegistered
    else match repository.components[name]
      case RoleEvaluatorComponent(e) => Registered(e)
      case _ => WrongType
  }

  function GetServiceAvailability(repository: SystemRepository, name: string): (r: Lookup<ServiceAvailability>)
    ensures r.NotRegistered? <==> name !in repository.components
    ensures r.Registered? <==> name in repository.components && repository.components[name].ServiceAvailabilityComponent?
    ensures r.Registered? ==> r.component == repository.components[name].serviceAvailability
  {
    if name !in repository.components then NotRegistered
    else match repository.components[name]
      case ServiceAvailabilityComponent(s) => Registered(s)
      case _ => WrongType
  }
}

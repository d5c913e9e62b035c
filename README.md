# nablarch-common-auth access control, modelled in Dafny

This project models the access-control core of Nablarch's `nablarch-common-auth` library and proves properties of the model. The core has four parts.

- **Request-level permission check.** `PermissionCheckHandler` reads the request id from the thread context (the internal id or the one the client sent). Ignored ids go straight on. Otherwise it takes the user's `Permission` from a `PermissionFactory`. If that permission permits the id, it is published under the thread-context key `"PERMISSION"` (`PermissionUtil`) before the rest of the chain runs. If not, the request is refused with `Forbidden`.
- **Service availability.** `ServiceAvailabilityCheckHandler` refuses a request with `ServiceUnavailable` when the configured `ServiceAvailability` says its request id is not being served. `ServiceAvailabilityUtil` asks the component registered as `"serviceAvailability"` the same question.
- **Authority and role checks.** The `@CheckAuthority` and `@CheckRole` interceptors, and the programmatic `AuthorityUtil` and `CheckRoleUtil`, ask the evaluator registered as `"authorityEvaluator"` or `"roleEvaluator"`. `BasicAuthorityEvaluator` and `BasicRoleEvaluator` copy the tokens their resolver returns into a set. They then test the required tokens all-of or any-of, returning as soon as the answer is known.
- **Settings report.** `CheckRoleLogger` formats the `@CheckRole` settings of the action methods as tab-separated rows. It sorts the rows and logs them under a title and a header.

Java `null` is `Option.None`. A Java call that may throw completes with an `Outcome`: `Returned(value)` or `Thrown(exception)`. The `SystemRepository` is a map from component names to components, and a component of the wrong type gives `ClassCastException`. The thread context is a class whose fields the handlers read and update. Resolvers, factories, permissions, availabilities, evaluators, the intercepted method and the next handler of a chain are function values. Each of them completes with an `Outcome`, because the implementation behind a Java interface may throw. The core lets such an exception through unchanged, and the contracts say so.

Module by module:

| module | contents |
|---|---|
| `Base` | `Option`, `Outcome` and `Exception`; Java's rendering of a nullable String; `StringUtil.join` and the split that undoes it; a flat-map over lists |
| `StringOrder` | `String.compareTo` as a total order; the insertion sort standing for `Collections.sort`, proved equal to a reference sort |
| `Permissions` | the `Permission` interface as a value of its two methods, and its implementation `BasicPermission` over a `SortedSet<String>` (a strictly ascending sequence) |
| `Framework` | the values the core receives from the framework |
| `Evaluation` | the decision the two basic evaluators share |
| `AuthorityEvaluator`, `RoleEvaluator` | the evaluator classes, each loop proved against `Evaluation.Evaluate` |
| `CheckAuthority`, `CheckRole` | the annotations and their interceptors |
| `AuthorityUtil`, `CheckRoleUtil` | the static check utilities |
| `PermissionUtil`, `PermissionCheck` | the thread-context slot and the permission check handler |
| `ServiceAvailabilityUtil`, `ServiceAvailabilityCheck` | the utility and the service availability handler |
| `CheckRoleLogger` | the settings report: target methods, rows, sorting and the logged message |

Where the code and its doc comments disagree, the model follows the code:

- **Default of `usesInternalRequestId`.** The doc comments say the default is `true` (`PermissionCheckHandler.java:115`, `ServiceAvailabilityCheckHandler.java:65`). The fields are initialised to `false`, so both constructors here start with `false`.
- **Users without an id.** The comment of `PermissionCheckHandler.handle` says that a request with no user id set skips the check (`PermissionCheckHandler.java:54-55`). The code has no such branch. It asks the factory with whatever the user id is, `null` included, and so does the model.
- **Missing permission factory.** The factory is documented as required (`PermissionCheckHandler.java:25-26`), but nothing checks that it is set or that it returns a permission. The code simply dereferences both, so the model gives a `NullPointerException`. Likewise, an unset `ServiceAvailability` in `ServiceAvailabilityCheckHandler` gives a `NullPointerException`. `AuthorityUtil` and `CheckRoleUtil` also give a `NullPointerException` when no evaluator is registered. Only the interceptors check for the evaluator, with an `IllegalStateException`.

## Model

| member | source | states |
|---|---|---|
| Base.BooleanToString | src/main/java/nablarch/common/authorization/role/CheckRoleLogger.java:161-165 | `Boolean.toString` gives "true" or "false", and "true" exactly for `true` |
| Base.SplitJoin | src/main/java/nablarch/common/authorization/role/CheckRoleLogger.java:171-175 | joining fields with a one-character separator that none contains and splitting on it gives the fields back, so a row determines its fields |
| Base.FlatMapMember | src/main/java/nablarch/common/authorization/role/CheckRoleLogger.java:117-130 | an element is added by the nested loops exactly when it comes from some element of the input |
| Base.FlatMapPermutation | src/main/java/nablarch/common/authorization/role/CheckRoleLogger.java:117-130 | processing the same elements in another order adds the same elements in another order |
| StringOrder.LessEqReflexive | src/main/java/nablarch/common/authorization/role/CheckRoleLogger.java:132 | the natural String order is reflexive |
| StringOrder.LessEqAntisymmetric | src/main/java/nablarch/common/authorization/role/CheckRoleLogger.java:132 | strings in both orders are equal |
| StringOrder.LessEqTransitive | src/main/java/nablarch/common/authorization/role/CheckRoleLogger.java:132 | the natural String order is transitive |
| StringOrder.LessEqTotal | src/main/java/nablarch/common/authorization/role/CheckRoleLogger.java:132 | any two strings are comparable |
| StringOrder.InsertPermutes | src/main/java/nablarch/common/authorization/role/CheckRoleLogger.java:132 | inserting an element adds exactly that element |
| StringOrder.InsertSorted | src/main/java/nablarch/common/authorization/role/CheckRoleLogger.java:132 | inserting into a sorted list keeps it sorted |
| StringOrder.SortSpecSortedPermutation | src/main/java/nablarch/common/authorization/role/CheckRoleLogger.java:132 | the reference sort is sorted and a permutation of its input |
| StringOrder.SortedUnique | src/main/java/nablarch/common/authorization/role/CheckRoleLogger.java:132 | two sorted permutations of the same strings are equal, so the sorted output is unique |
| StringOrder.Sort | src/main/java/nablarch/common/authorization/role/CheckRoleLogger.java:132 | `Collections.sort`: the result is sorted, a permutation of the input, and equal to the reference sort |
| Permissions.PermitNullSafe | src/main/java/nablarch/common/permission/BasicPermission.java:33-35 | a `null` request-id set permits nothing, and a `null` request id is never permitted |
| Permissions.PermitIffMember | src/main/java/nablarch/common/permission/BasicPermission.java:33-35 | over a present set, a present id is permitted exactly when it is a member |
| Permissions.EmptyPermitsNothing | src/main/java/nablarch/common/permission/BasicPermission.java:33-35 | an empty set permits no id |
| Permissions.GetRequestIdsAscending | src/main/java/nablarch/common/permission/BasicPermission.java:17-44 | `getRequestIds` returns the constructor's set, which iterates in strictly ascending order |
| Permissions.PermitExample | src/test/java/nablarch/common/permission/PermissionCheckHandlerTest.java:143-144 | {"aaa"} permits "aaa" and not "aab" |
| Permissions.BasicPermission.Permit | src/main/java/nablarch/common/permission/BasicPermission.java:33-35 | `permit` is false for a `null` set or a `null` id, and otherwise true exactly when the id is in the set |
| Permissions.BasicPermission.GetRequestIds | src/main/java/nablarch/common/permission/BasicPermission.java:41-43 | `getRequestIds` returns the set given to the constructor, `null` included, in strictly ascending order |
| Permissions.BasicPermission.AsPermission | src/main/java/nablarch/common/permission/BasicPermission.java:12-44 | seen through the `Permission` interface, a `BasicPermission` answers `permit` as its own test and reports its own request ids |
| Framework.GetAuthorityEvaluator | src/main/java/nablarch/common/authorization/CheckAuthority.java:71 | the lookup is `null` exactly for an absent name and succeeds exactly for an `AuthorityEvaluator`, returning the registered one |
| Framework.GetRoleEvaluator | src/main/java/nablarch/common/authorization/role/CheckRole.java:74 | the lookup is `null` exactly for an absent name and succeeds exactly for a `RoleEvaluator`, returning the registered one |
| Framework.GetServiceAvailability | src/main/java/nablarch/common/availability/ServiceAvailabilityUtil.java:34 | the lookup is `null` exactly for an absent name and succeeds exactly for a `ServiceAvailability`, returning the registered one |
| Evaluation.Granted | src/main/java/nablarch/common/authorization/BasicAuthorityEvaluator.java:24 | the copied set holds exactly the resolved tokens |
| Evaluation.AllOfIffSubset | src/main/java/nablarch/common/authorization/BasicAuthorityEvaluator.java:33-44 | all-of holds exactly when the required tokens are a subset of the granted set |
| Evaluation.AnyOfIffIntersects | src/main/java/nablarch/common/authorization/BasicAuthorityEvaluator.java:20-31 | any-of holds exactly when required and granted tokens intersect |
| Evaluation.EmptyRequired | src/main/java/nablarch/common/authorization/BasicAuthorityEvaluator.java:25-43 | with nothing required, all-of is true and any-of is false |
| Evaluation.SingleRequired | src/main/java/nablarch/common/authorization/role/AuthorityUtil.java:32-35 | for one required token both policies reduce to membership |
| Evaluation.RequiredOrderIrrelevant | src/main/java/nablarch/common/authorization/role/BasicRoleEvaluator.java:25-42 | permuting the required tokens changes neither answer |
| Evaluation.ResolvedOrderIrrelevant | src/main/java/nablarch/common/authorization/role/BasicRoleEvaluator.java:24 | resolvers returning the same tokens, in any order and with any repetition, or throwing the same exception, give the same answers |
| Evaluation.MissingResolverFails | src/main/java/nablarch/common/authorization/role/BasicRoleEvaluator.java:49-53 | without a resolver, evaluation fails with the configuration error whatever the input |
| Evaluation.EvaluateDecides | src/main/java/nablarch/common/authorization/BasicAuthorityEvaluator.java:20-44 | with a resolver, evaluation returns exactly when the resolver does, and then answers all-of or any-of over the tokens resolved for exactly this user and context; the resolver's exception passes through unchanged |
| Evaluation.EvaluationExamples | src/test/java/nablarch/common/authorization/BasicAuthorityEvaluatorTest.java:51-117 | the all-of and any-of scenarios of the evaluator test |
| AuthorityEvaluator.BasicAuthorityEvaluator.constructor | src/main/java/nablarch/common/authorization/BasicAuthorityEvaluator.java:18 | a new evaluator has no resolver |
| AuthorityEvaluator.BasicAuthorityEvaluator.CheckUserAuthorityResolverIsNotNull | src/main/java/nablarch/common/authorization/BasicAuthorityEvaluator.java:49-53 | returns exactly when a resolver is set, and otherwise throws `IllegalStateException("UserAuthorityResolver is null.")` |
| AuthorityEvaluator.BasicAuthorityEvaluator.EvaluateAnyOf | src/main/java/nablarch/common/authorization/BasicAuthorityEvaluator.java:20-31 | the early-return loop completes as the any-of evaluation over the resolver field, a resolver exception included |
| AuthorityEvaluator.BasicAuthorityEvaluator.EvaluateAllOf | src/main/java/nablarch/common/authorization/BasicAuthorityEvaluator.java:33-44 | the early-return loop completes as the all-of evaluation over the resolver field, a resolver exception included |
| AuthorityEvaluator.BasicAuthorityEvaluator.SetUserAuthorityResolver | src/main/java/nablarch/common/authorization/BasicAuthorityEvaluator.java:59-61 | the resolver field becomes the argument, `null` allowed |
| RoleEvaluator.BasicRoleEvaluator.constructor | src/main/java/nablarch/common/authorization/role/BasicRoleEvaluator.java:18 | a new evaluator has no resolver |
| RoleEvaluator.BasicRoleEvaluator.CheckUserRoleResolverIsNotNull | src/main/java/nablarch/common/authorization/role/BasicRoleEvaluator.java:49-53 | returns exactly when a resolver is set, and otherwise throws `IllegalStateException("UserRoleResolver is null.")` |
| RoleEvaluator.BasicRoleEvaluator.EvaluateAnyOf | src/main/java/nablarch/common/authorization/role/BasicRoleEvaluator.java:20-31 | the early-return loop completes as the any-of evaluation over the resolver field, a resolver exception included |
| RoleEvaluator.BasicRoleEvaluator.EvaluateAllOf | src/main/java/nablarch/common/authorization/role/BasicRoleEvaluator.java:33-44 | the early-return loop completes as the all-of evaluation over the resolver field, a resolver exception included |
| RoleEvaluator.BasicRoleEvaluator.SetUserRoleResolver | src/main/java/nablarch/common/authorization/role/BasicRoleEvaluator.java:59-61 | the resolver field becomes the argument, `null` allowed |
| CheckAuthority.AnyOfDefaultsToFalse | src/main/java/nablarch/common/authorization/CheckAuthority.java:60 | an annotation that does not set `anyOf` asks for all of its authorities |
| CheckAuthority.Handle | src/main/java/nablarch/common/authorization/CheckAuthority.java:70-93 | a missing evaluator is an `IllegalStateException` and one of another type a `ClassCastException`; the registered evaluator is asked any-of exactly when `anyOf` is set; on yes the method runs with the same arguments and its outcome, exception included, is the result; a no is `Forbidden` naming the user and authorities; evaluator exceptions propagate |
| CheckAuthority.HandleWithBasicEvaluator | src/main/java/nablarch/common/authorization/CheckAuthority.java:70-93 | over a basic evaluator, the method runs exactly when the resolved authorities satisfy the annotation's policy, and is refused otherwise; a resolver exception propagates |
| CheckAuthority.DenialSameForBothPolicies | src/main/java/nablarch/common/authorization/CheckAuthority.java:87-90 | the refusal does not depend on the policy that refused |
| CheckAuthority.DenialMessageExample | src/test/java/nablarch/common/authorization/role/CheckAuthorityImplTest.java:141 | the message of the interceptor test |
| CheckAuthority.DenialMessage | src/main/java/nablarch/common/authorization/CheckAuthority.java:87-88 | the `Forbidden` text: the user id as `String.valueOf` renders it, and the authorities joined with ", " |
| CheckRole.AnyOfDefaultsToFalse | src/main/java/nablarch/common/authorization/role/CheckRole.java:63 | an annotation that does not set `anyOf` asks for all of its roles |
| CheckRole.Handle | src/main/java/nablarch/common/authorization/role/CheckRole.java:73-96 | a missing evaluator is an `IllegalStateException` and one of another type a `ClassCastException`; the registered evaluator is asked any-of exactly when `anyOf` is set; on yes the method runs with the same arguments and its outcome, exception included, is the result; a no is `Forbidden` naming the user and roles; evaluator exceptions propagate |
| CheckRole.HandleWithBasicEvaluator | src/main/java/nablarch/common/authorization/role/CheckRole.java:73-96 | over a basic evaluator, the method runs exactly when the resolved roles satisfy the annotation's policy, and is refused otherwise; a resolver exception propagates |
| CheckRole.DenialSameForBothPolicies | src/main/java/nablarch/common/authorization/role/CheckRole.java:90-93 | the refusal does not depend on the policy that refused |
| CheckRole.DenialMessageExample | src/test/java/nablarch/common/authorization/role/CheckRoleImplTest.java:141 | the message of the interceptor test |
| CheckRole.DenialMessage | src/main/java/nablarch/common/authorization/role/CheckRole.java:90-91 | the `Forbidden` text: the user id as `String.valueOf` renders it, and the roles joined with ", " |
| AuthorityUtil.CheckAuthorityAllOf | src/main/java/nablarch/common/authorization/role/AuthorityUtil.java:43-46 | the registered evaluator's all-of answer, unchanged; a `NullPointerException` when none is registered and a `ClassCastException` for a component of another type |
| AuthorityUtil.CheckAuthorityAnyOf | src/main/java/nablarch/common/authorization/role/AuthorityUtil.java:54-57 | the registered evaluator's any-of answer, unchanged; a `NullPointerException` when none is registered and a `ClassCastException` for a component of another type |
| AuthorityUtil.CheckAuthority | src/main/java/nablarch/common/authorization/role/AuthorityUtil.java:32-35 | the all-of check over the single authority |
| AuthorityUtil.ChecksWithBasicEvaluator | src/main/java/nablarch/common/authorization/role/AuthorityUtil.java:32-57 | over a basic evaluator, `checkAuthority(a)` holds exactly when `a` is resolved, and the collection forms are all-of and any-of; a resolver exception reaches the caller of every form |
| CheckRoleUtil.CheckRoleAllOf | src/main/java/nablarch/common/authorization/role/CheckRoleUtil.java:43-46 | the registered evaluator's all-of answer, unchanged; a `NullPointerException` when none is registered and a `ClassCastException` for a component of another type |
| CheckRoleUtil.CheckRoleAnyOf | src/main/java/nablarch/common/authorization/role/CheckRoleUtil.java:54-57 | the registered evaluator's any-of answer, unchanged; a `NullPointerException` when none is registered and a `ClassCastException` for a component of another type |
| CheckRoleUtil.CheckRole | src/main/java/nablarch/common/authorization/role/CheckRoleUtil.java:32-35 | the all-of check over the single role |
| CheckRoleUtil.ChecksWithBasicEvaluator | src/main/java/nablarch/common/authorization/role/CheckRoleUtil.java:32-57 | over a basic evaluator, `checkRole(r)` holds exactly when `r` is resolved, and the collection forms are all-of and any-of; a resolver exception reaches the caller of every form |
| PermissionUtil.GetPermission | src/main/java/nablarch/common/permission/PermissionUtil.java:32-34 | `null` when the slot is empty, the stored permission when there is one, and a failed cast exactly when something else is stored |
| PermissionUtil.SetPermission | src/main/java/nablarch/common/permission/PermissionUtil.java:44-46 | the slot is overwritten, a later `getPermission` returns exactly this permission, and every other entry is unchanged |
| PermissionUtil.AccessorExample | src/test/java/nablarch/common/permission/PermissionUtilTest.java:34-44 | an anonymous `Permission` that is set is the one got back |
| PermissionCheck.DenialMessageDeterminesIds | src/main/java/nablarch/common/permission/PermissionCheckHandler.java:82-85 | the refusal can be read back: when the rendered user ids hold no `]`, equal messages name the same rendered user id and the same rendered request id |
| PermissionCheck.DenialMessage | src/main/java/nablarch/common/permission/PermissionCheckHandler.java:82-85 | the `Forbidden` text, the user id and the request id each rendered as `String.valueOf` does, `null` included |
| PermissionCheck.PermissionCheckHandler.constructor | src/main/java/nablarch/common/permission/PermissionCheckHandler.java:38-44 | no factory, no ignored ids, external request ids |
| PermissionCheck.PermissionCheckHandler.CheckedRequestId | src/main/java/nablarch/common/permission/PermissionCheckHandler.java:67-69 | the internal request id exactly when `usesInternalRequestId` |
| PermissionCheck.PermissionCheckHandler.Handle | src/main/java/nablarch/common/permission/PermissionCheckHandler.java:66-89 | ignored ids continue untouched; a missing factory or permission is a `NullPointerException`; an exception of `getPermission` or `permit` propagates with nothing published; a permitted id publishes the permission and then continues; a refused id is `Forbidden` with nothing published; a handler that returns has run the chain and returns its result; this holds for any `Permission` implementation |
| PermissionCheck.PermissionCheckHandler.SetPermissionFactory | src/main/java/nablarch/common/permission/PermissionCheckHandler.java:97-100 | replaces the factory only, and returns the handler itself |
| PermissionCheck.PermissionCheckHandler.SetIgnoreRequestIds | src/main/java/nablarch/common/permission/PermissionCheckHandler.java:107-110 | adds the ids to those already ignored, changes nothing else, and returns the handler itself |
| PermissionCheck.PermissionCheckHandler.SetUsesInternalRequestId | src/main/java/nablarch/common/permission/PermissionCheckHandler.java:121-124 | sets the flag only, and returns the handler itself |
| PermissionCheck.PermittedExample | src/test/java/nablarch/common/permission/PermissionCheckHandlerTest.java:114-145 | the permitted run of the handler test: the chain's "ok" is returned, and the published permission permits "aaa" and not "aab" |
| PermissionCheck.IgnoredExample | src/test/java/nablarch/common/permission/PermissionCheckHandlerTest.java:32-52 | an ignored id passes for an anonymous user and publishes nothing |
| PermissionCheck.DeniedExample | src/test/java/nablarch/common/permission/PermissionCheckHandlerTest.java:87-108 | the test's refusal by an empty permission. The test sets no external request id and expects only `Forbidden`; the exact message, naming the user and a `null` request id, is what the model gives for that scenario |
| ServiceAvailabilityCheck.ServiceAvailabilityCheckHandler.constructor | src/main/java/nablarch/common/availability/ServiceAvailabilityCheckHandler.java:29-34 | no availability set, external request ids |
| ServiceAvailabilityCheck.ServiceAvailabilityCheckHandler.CheckedRequestId | src/main/java/nablarch/common/availability/ServiceAvailabilityCheckHandler.java:82-84 | the internal request id exactly when `usesInternalRequestId` |
| ServiceAvailabilityCheck.ServiceAvailabilityCheckHandler.HandleInbound | src/main/java/nablarch/common/availability/ServiceAvailabilityCheckHandler.java:81-94 | `Success` exactly when the availability admits the checked request id, `ServiceUnavailable` when it refuses it, its own exception when it throws, and a `NullPointerException` with no availability set |
| ServiceAvailabilityCheck.ServiceAvailabilityCheckHandler.Handle | src/main/java/nablarch/common/availability/ServiceAvailabilityCheckHandler.java:47-50 | when the inbound check passes, the outcome is the chain's on the same input; otherwise the inbound exception propagates |
| ServiceAvailabilityCheck.ServiceAvailabilityCheckHandler.SetServiceAvailability | src/main/java/nablarch/common/availability/ServiceAvailabilityCheckHandler.java:57-60 | replaces the availability only |
| ServiceAvailabilityCheck.ServiceAvailabilityCheckHandler.SetUsesInternalRequestId | src/main/java/nablarch/common/availability/ServiceAvailabilityCheckHandler.java:71-74 | sets the flag only, and returns the handler itself |
| ServiceAvailabilityCheck.RequestIdChoiceExample | src/test/java/nablarch/common/availability/ServiceAvailabilityCheckHandlerTest.java:60-140 | by default the external id decides and the chain runs; after `setUsesInternalRequestId(true)` the internal id decides and the request is refused |
| ServiceAvailabilityUtil.GetServiceAvailability | src/main/java/nablarch/common/availability/ServiceAvailabilityUtil.java:33-40 | an absent component is an `IllegalArgumentException` naming it, a component of another type a `ClassCastException`; otherwise it returns the registered `ServiceAvailability` |
| ServiceAvailabilityUtil.IsAvailable | src/main/java/nablarch/common/availability/ServiceAvailabilityUtil.java:48-50 | the registered component's answer for the request id, or its exception, unchanged; the `IllegalArgumentException` when it is absent and a `ClassCastException` for a component of another type |
| CheckRoleLogger.TargetMethods | src/main/java/nablarch/common/authorization/role/CheckRoleLogger.java:235-255 | a method is reported exactly when it is declared, its class matches the pattern, and it is public and not static; each reported method occurs as often as it was found |
| CheckRoleLogger.IsTargetMethod | src/main/java/nablarch/common/authorization/role/CheckRoleLogger.java:252-255 | a method is a target exactly when it is public and not static |
| CheckRoleLogger.Unannotated | src/main/java/nablarch/common/authorization/role/CheckRoleLogger.java:149-153 | the settings of a method without `@CheckRole`: that method, an empty role and an empty anyOf |
| CheckRoleLogger.Annotated | src/main/java/nablarch/common/authorization/role/CheckRoleLogger.java:161-165 | the settings of one declared role: that method and role, and an anyOf that is "true" or "false", "true" exactly when the annotation's `anyOf` is set |
| CheckRoleLogger.FormatMethodSignature | src/main/java/nablarch/common/authorization/role/CheckRoleLogger.java:189-195 | the loop builds the name followed by the parameter type names, comma-separated, in parentheses |
| CheckRoleLogger.Format | src/main/java/nablarch/common/authorization/role/CheckRoleLogger.java:171-175 | the row of class, signature, role and anyOf, tab-separated |
| CheckRoleLogger.RoleRows | src/main/java/nablarch/common/authorization/role/CheckRoleLogger.java:124-128 | one row per declared role |
| CheckRoleLogger.RoleRowsIndex | src/main/java/nablarch/common/authorization/role/CheckRoleLogger.java:124-128 | the j-th row of an annotated method is the row of its j-th role |
| CheckRoleLogger.FormatMethodSettings | src/main/java/nablarch/common/authorization/role/CheckRoleLogger.java:114-135 | the nested loops and the sort give the sorted permutation of the rows the methods contribute |
| CheckRoleLogger.Initialize | src/main/java/nablarch/common/authorization/role/CheckRoleLogger.java:74-89 | nothing is logged unless debug is enabled; otherwise title, header and the sorted rows of the target methods |
| CheckRoleLogger.HeaderText | src/main/java/nablarch/common/authorization/role/CheckRoleLogger.java:68 | the header is "class\tsignature\trole\tanyOf" |
| CheckRoleLogger.RowsOfMethods | src/main/java/nablarch/common/authorization/role/CheckRoleLogger.java:117-130 | a row is in the report exactly when some target method contributes it |
| CheckRoleLogger.UnannotatedSingleRow | src/main/java/nablarch/common/authorization/role/CheckRoleLogger.java:120-122 | a method without `@CheckRole` gives exactly one row: class, signature and two empty fields |
| CheckRoleLogger.AnnotatedRowPerRole | src/main/java/nablarch/common/authorization/role/CheckRoleLogger.java:123-128 | an annotated method gives one row per declared role, each ending with the role and "true" or "false" |
| CheckRoleLogger.ReportOrderIndependent | src/main/java/nablarch/common/authorization/role/CheckRoleLogger.java:117-132 | the sorted report does not depend on the order in which the methods are found |
| CheckRoleLogger.DeclaredOrderIndependent | src/main/java/nablarch/common/authorization/role/CheckRoleLogger.java:83-88 | the logged rows do not depend on the order in which the scanning finds the declared methods |
| CheckRoleLogger.MessageLines | src/main/java/nablarch/common/authorization/role/CheckRoleLogger.java:86-88 | with a one-character line separator that no line contains, the message splits into the title, the header and the rows; with no rows, which is what is logged when no target method is found, it splits into the title, the header and one empty line |
| CheckRoleLogger.Message | src/main/java/nablarch/common/authorization/role/CheckRoleLogger.java:86-88 | the logged text: the title, the header and the rows, one per line |
| CheckRoleLogger.SignatureExample | src/test/java/nablarch/common/authorization/role/CheckRoleLoggerTest.java:66 | the signature of the test's `publicMethodWithAnnotationMultipleArg(String, int, List)` |

## Left out

- Logging: the `logInfo` of a refused permission, the trace log of an unavailable service and the `logDebug` itself. Only the logged string is modelled (`CheckRoleLogger.Initialize` returns it).
- The framework itself: `SystemRepository`, the thread-local `ThreadContext`, `ExecutionContext.handleNext`, `Interceptor.Impl` and the chain. They become parameters, a class and function values. The next handler is a pure function of its input, and for the permission check also of the thread-context entries it sees.
- Thread-locality and concurrency: one `ThreadContext` object stands for the current thread's context.
- `Builder.concat` and `StringUtil.join` are not part of this model. They are taken to behave like `+` and an ordinary join.
- Reflective class-path scanning: `findTargetMethods`, `TargetMethodFinder.process`, `getTargetMethods`, class loading and `getDeclaredMethods`. The methods arrive as a list of descriptors, and the class-name regular expression (default `^.*Action$`) is an abstract predicate. The `HashSet` of classes has no fixed order; `CheckRoleLogger.ReportOrderIndependent` shows that the sorted report does not depend on the order in which methods are found, and `CheckRoleLogger.DeclaredOrderIndependent` shows the same for the order of the declared methods.
- `setTargetPackage` and `setTargetClassPattern` of `CheckRoleLogger`: they only feed the scanning, which is left out.
- `null` elements inside the collections: the resolvers' results and the annotations' values are sequences of strings without `null`. The ignored request ids and the request id under check may be `null`.
- `null` required tokens: `AuthorityUtil.CheckAuthority` and `CheckRoleUtil.CheckRole` take a `string`, and the collection forms and the evaluators take a `seq<string>`. So the model cannot pass a `null` authority or role, nor a collection holding `null`. In Java, `checkAuthority(null, ...)` passes `Collections.singletonList(null)` on (`AuthorityUtil.java:32-35`), and the basic evaluators answer `false` for such a token, provided the resolver returns no `null`. A `null` element among the collection forms' arguments likewise makes all-of `false`, and any-of passes over it. None of this is modelled.
- `null` collection arguments: `checkAuthorityAllOf(null, ...)` and the other collection forms of `AuthorityUtil` and `CheckRoleUtil`, and `setIgnoreRequestIds((String[]) null)`, throw a `NullPointerException` in Java. The model's collection arguments are sequences, which cannot be `null`, so these calls cannot be expressed.
- BasicPermission: the Java class keeps the caller's `SortedSet` by reference (`BasicPermission.java:23-24`). The model keeps a copy of its contents, so changes made through another reference after construction are not seen. `contains` follows the set's own comparator, for example a case-insensitive `TreeSet`. The model assumes the natural String order and tests membership by exact equality.
- StringOrder.LessEq: orders strings by Unicode scalar value, whereas `String.compareTo` compares UTF-16 code units. The two differ only on characters outside the Basic Multilingual Plane.
- The number of calls made to a resolver or factory is not observable in the model, because they are pure functions.
- The exception hierarchy of Java: exceptions are values compared by class and message. `Forbidden` and `ServiceUnavailable` are results of the framework, raised as exceptions.

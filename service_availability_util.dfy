/**
 * `ServiceAvailabilityUtil`: asks the `ServiceAvailability` registered as
 * "serviceAvailability" whether a request id is being served, looking it up
 * again on every call.
 */
module ServiceAvailabilityUtil {
  import opened Base
  import opened Framework

  /** `SERVICE_AVAILABILITY_NAME`. */
  const ServiceAvailabilityName := "serviceAvailability"

  /** The message raised when nothing is registered under the name. */
  const NotRegisteredMessage := "specified " + ServiceAvailabilityName + " is not registered in SystemRepository."

  /** `getServiceAvailability()`: the registered component, or an `IllegalArgumentException`. */
  function GetServiceAvailability(repository: SystemRepository): (r: Outcome<ServiceAvailability>)
    ensures ServiceAvailabilityName !in repository.components ==>
              r == Thrown(IllegalArgumentException(NotRegisteredMessage))
    ensures r.Returned? <==> Framework.GetServiceAvailability(repository, ServiceAvailabilityName).Registered?
    ensures r.Returned? ==> r.value == repository.components[ServiceAvailabilityName].serviceAvailability
    ensures Framework.GetServiceAvailability(repository, ServiceAvailabilityName).WrongType? ==> r == Thrown(ClassCastException)
  {
    match Framework.GetServiceAvailability(repository, ServiceAvailabilityName)
    case NotRegistered => Thrown(IllegalArgumentException(NotRegisteredMessage))
    case WrongType => Thrown(ClassCastException)
    case Registered(availability) => Returned(availability)
  }

  /**
   * `isAvailable(requestId)`: the registered component's answer for this
   * request id, or its exception, unchanged, in the repository as it is at
   * the call.
   */
  function IsAvailable(repository: SystemRepository, requestId: JString): (r: Outcome<bool>)
    ensures ServiceAvailabilityName in repository.components &&
            repository.components[ServiceAvailabilityName].ServiceAvailabilityComponent? ==>
              r == repository.components[ServiceAvailabilityName].serviceAvailability(requestId)
    ensures ServiceAvailabilityName !in repository.components ==>
              r == Thrown(IllegalArgumentException(NotRegisteredMessage))
    ensures Framework.GetServiceAvailability(repository, ServiceAvailabilityName).WrongType? ==> r == Thrown(ClassCastException)
  {
    match GetServiceAvailability(repository)
    case Thrown(e) => Thrown(e)
    case Returned(availability) => availability(requestId)
  }
}

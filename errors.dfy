/**
 * The API's typed errors. Every error is an HTTP status code plus a detail
 * string; the service's own exception family also carries a machine-readable
 * error code and, for validation errors, the offending field and value.
 */
module Errors {

  import opened Wrappers

  datatype ApiError = ApiError(
    statusCode: int,
    detail: string,
    errorCode: Option<string>,
    field: Option<string>,
    value: Option<string>)

  /** Fixed messages used by the authentication layer and the services. */
  const InvalidToken := "Invalid or malformed access token"
  const UserNotFound := "User not found"
  /** The enrollment messages, written around the phrases the handlers look for. */
  const StudentAlreadyEnrolled := "Student is " + "already enrolled" + " in this course"
  const StudentNotEnrolled := "Student is " + "not enrolled" + " in this course"

  /** A bare framework HTTP error: status and detail, no error code. */
  function HttpError(statusCode: int, detail: string): (e: ApiError)
    ensures e.statusCode == statusCode && e.detail == detail
    ensures e.errorCode == None && e.field == None && e.value == None
  {
    ApiError(statusCode, detail, None, None, None)
  }

  /** The base of the service's exception family. */
  function ScorixError(statusCode: int, detail: string, errorCode: Option<string> := None,
                       field: Option<string> := None, value: Option<string> := None): (e: ApiError)
    ensures e.statusCode == statusCode && e.detail == detail
    ensures e.errorCode == errorCode && e.field == field && e.value == value
  {
    ApiError(statusCode, detail, errorCode, field, value)
  }

  /** 422 naming the field; the field and the offending value (as text) are kept on the error. */
  function ValidationError(field: string, value: string, message: string): (e: ApiError)
    ensures e.statusCode == 422 && e.errorCode == Some("VALIDATION_ERROR")
    ensures e.field == Some(field) && e.value == Some(value)
    ensures e.detail == "Validation error in field '" + field + "': " + message
  {
    ScorixError(422, "Validation error in field '" + field + "': " + message,
                Some("VALIDATION_ERROR"), Some(field), Some(value))
  }

  /** 401 whose detail is the message, "Authentication failed" when none is given. */
  function AuthenticationError(message: string := "Authentication failed"): (e: ApiError)
    ensures e.statusCode == 401 && e.errorCode == Some("AUTHENTICATION_ERROR")
    ensures e.detail == message && e.field == None && e.value == None
  {
    ScorixError(401, message, Some("AUTHENTICATION_ERROR"))
  }

  /** Python truthiness of an optional string: present and non-empty. */
  predicate Truthy(s: Option<string>) {
    s.Some? && s.value != ""
  }

  /** 403 naming the required role, and the current role only when one (non-empty) is supplied. */
  function AuthorizationError(requiredRole: string, currentRole: Option<string> := None): (e: ApiError)
    ensures e.statusCode == 403 && e.errorCode == Some("AUTHORIZATION_ERROR")
    ensures Truthy(currentRole) ==>
      e.detail == "Access denied. Required role: " + requiredRole + ", Current role: " + currentRole.value
    ensures !Truthy(currentRole) ==> e.detail == "Access denied. Required role: " + requiredRole
  {
    var detail :=
      if Truthy(currentRole) then
        "Access denied. Required role: " + requiredRole + ", Current role: " + currentRole.value
      else
        "Access denied. Required role: " + requiredRole;
    ScorixError(403, detail, Some("AUTHORIZATION_ERROR"))
  }

  /** 404 "<type> with ID '<id>' not found". */
  function ResourceNotFoundError(resourceType: string, resourceId: string): (e: ApiError)
    ensures e.statusCode == 404 && e.errorCode == Some("RESOURCE_NOT_FOUND")
    ensures e.detail == resourceType + " with ID '" + resourceId + "' not found"
  {
    ScorixError(404, resourceType + " with ID '" + resourceId + "' not found", Some("RESOURCE_NOT_FOUND"))
  }

  /** 409; the field and value appear in the detail but are not stored on the error. */
  function DuplicateResourceError(resourceType: string, field: string, value: string): (e: ApiError)
    ensures e.statusCode == 409 && e.errorCode == Some("DUPLICATE_RESOURCE")
    ensures e.detail == resourceType + " with " + field + " '" + value + "' already exists"
    ensures e.field == None && e.value == None
  {
    ScorixError(409, resourceType + " with " + field + " '" + value + "' already exists",
                Some("DUPLICATE_RESOURCE"))
  }

  /** 400 whose detail is the message. */
  function BusinessLogicError(message: string): (e: ApiError)
    ensures e.statusCode == 400 && e.errorCode == Some("BUSINESS_LOGIC_ERROR") && e.detail == message
  {
    ScorixError(400, message, Some("BUSINESS_LOGIC_ERROR"))
  }

  /** 500 "Database <operation> failed: <message>". */
  function DatabaseError(operation: string, message: string): (e: ApiError)
    ensures e.statusCode == 500 && e.errorCode == Some("DATABASE_ERROR")
    ensures e.detail == "Database " + operation + " failed: " + message
  {
    ScorixError(500, "Database " + operation + " failed: " + message, Some("DATABASE_ERROR"))
  }

  /**
   * Supplying a current role only ever appends ", Current role: <role>" to the
   * detail of the error without one; status and code do not change.
   */
  lemma AuthorizationDetailExtends(requiredRole: string, currentRole: Option<string>)
    ensures var withRole := AuthorizationError(requiredRole, currentRole);
            var without := AuthorizationError(requiredRole);
            withRole.statusCode == without.statusCode && withRole.errorCode == without.errorCode
            && (Truthy(currentRole) ==> withRole.detail == without.detail + ", Current role: " + currentRole.value)
            && (!Truthy(currentRole) ==> withRole.detail == without.detail)
  {
  }
}

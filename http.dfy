/**
 * What the controllers see of a request and what they return: the caller's
 * authentication (its name and whether it holds ROLE_ADMIN) and a response
 * entity (a status code and a body).
 */
module Http {
  import opened Errors
  import opened Entities

  datatype Auth = Auth(name: string, isAdmin: bool)

  datatype Body<T> =
    | Value(value: T)            // a JSON body built from a DTO or a list of DTOs
    | Text(text: string)         // a plain message
    | Failure(error: ServiceError)  // the message of a caught RuntimeException
    | Empty                      // build(): no body
    | Invalid                    // Bean Validation rejected the @Valid request body

  datatype Response<T> = Response(status: int, body: Body<T>)

  const OK := 200
  const CREATED := 201
  const BAD_REQUEST := 400
  const UNAUTHORIZED := 401
  const FORBIDDEN := 403
  const NOT_FOUND := 404

  function OkResponse<T>(v: T): Response<T> { Response(OK, Value(v)) }
  function Forbidden<T>(text: string): Response<T> { Response(FORBIDDEN, Text(text)) }
  function NotFoundResponse<T>(): Response<T> { Response(NOT_FOUND, Empty) }
  function Unauthorized<T>(): Response<T> { Response(UNAUTHORIZED, Empty) }
  function BadRequestResponse<T>(e: ServiceError): Response<T> { Response(BAD_REQUEST, Failure(e)) }

  /**
   * The visibility rule every controller applies to a user's data: the user
   * is public, is the caller, or the caller is an admin.
   */
  predicate CanSee(target: User, auth: Auth)
  {
    target.isPublic || target.username == auth.name || auth.isAdmin
  }
}

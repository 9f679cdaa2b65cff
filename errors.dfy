/**
 * The runtime exceptions the services throw, and the one the database raises
 * when a commit would leave a foreign key dangling. Each is kept as the
 * arguments of its constructor; the controllers turn any of them into a 400
 * response that carries the exception.
 */
module Errors {

  datatype ServiceError =
    | NotFound(resource: string, field: string, value: int)
    | BadRequest(message: string)
    | DuplicateResource(resource: string, field: string, text: string)
    | ConstraintViolation(table: string, key: int)  // a commit refused by a foreign key of `table`
}

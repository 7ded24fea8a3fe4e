/** The answers a handler sends, with the HTTP status each one carries. */
module Http {

  datatype Response<+T> =
    | Created(value: T)                   // 201 with the new record
    | Ok(value: T)                        // 200 with the record(s)
    | ValidationFailed(params: set<string>) // 400 `{ errors }`: the body fields a validator refused
    | InvalidUpdates                      // 400 `{ message: 'Invalid updates' }`
    | NotFound(message: string)           // 404 `{ message }`
    | ServerError                         // 500 `{ message: 'Server error' }`
  {
    function Status(): nat {
      match this
      case Created(_) => 201
      case Ok(_) => 200
      case ValidationFailed(_) => 400
      case InvalidUpdates => 400
      case NotFound(_) => 404
      case ServerError => 500
    }
  }

  const ProjectNotFoundOrAccessDenied: string := "Project not found or access denied"
  const ProjectNotFound: string := "Project not found"
  const TaskNotFound: string := "Task not found"
  const AutomationNotFound: string := "Automation not found"
  const AccessDenied: string := "Access denied"
}

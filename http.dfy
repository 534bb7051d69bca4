// The error responses the API handlers raise, with their HTTP status codes.
module Http {

  datatype ApiError =
    | NotFound
    | PermissionDenied(detail: string)
    | ValidationError(field: string, detail: string)
    | ServerError(detail: string)
  {
    function StatusCode(): nat {
      match this
      case NotFound => 404
      case PermissionDenied(_) => 403
      case ValidationError(_, _) => 400
      case ServerError(_) => 500
    }
  }

  const Ok: nat := 200
  const Created: nat := 201
  const Accepted: nat := 202
}

// Optional values and the error values of src/error.rs.
module Results {

  datatype Option<+T> = None | Some(value: T)

  // The variants of AppError that the modelled code returns. Panic stands for
  // an `unwrap` on a missing value, which ends the request without a reply.
  datatype AppError =
    | NotFound
    | Forbidden
    | Conflict
    | Validation
    | Unauthorized
    | Internal
    | Database
    | Panic

  datatype Result<+T> = Ok(value: T) | Err(error: AppError)
}

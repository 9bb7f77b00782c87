/** The answers of the hosted auth and database service, as the API modules
    receive them, and the two guards every module applies to them. */
module Backend {
  import opened Wrappers

  /** What an API call throws: an error object the service returned, passed on
      unchanged, or a `new Error(message)` raised by the module itself. */
  datatype Error = Service(message: string) | Thrown(message: string)

  const NotAuthenticated: string := "Not authenticated"

  /** The user an access token resolves to. */
  datatype AuthUser = AuthUser(id: string, email: string)

  /** The answer to `auth.getUser()`: an error, or data whose `user` may be null. */
  type Identity = Result<Option<AuthUser>, Error>

  /** `if (error || !data) throw error || new Error(missing)` after a single-row
      call: the row, the service's error, or `missing` when there is no row. */
  function RowOr<T>(answer: Result<Option<T>, Error>, missing: string): (r: Result<T, Error>)
    ensures r.Success? <==> answer.Success? && answer.value.Some?
    ensures r.Success? ==> r.value == answer.value.value
    ensures answer.Failure? ==> r.error == answer.error
    ensures answer == Success(None) ==> r.error == Thrown(missing)
  {
    match answer
    case Failure(e) => Failure(e)
    case Success(None) => Failure(Thrown(missing))
    case Success(Some(row)) => Success(row)
  }

  /** `if (error || !data.user) throw error || new Error('Not authenticated')`. */
  function RequireUser(identity: Identity): Result<AuthUser, Error> {
    RowOr(identity, NotAuthenticated)
  }
}

/** What every pipeline operation returns: either the plain object
    `{code, message, success, data?}` it builds itself, or an error that a
    collaborator threw and the operation's `catch (error) { return error }`
    hands back unchanged. */
module Responses {
  import opened Wrappers
  import opened Collaborators

  /** The `http-status` constants the pipeline uses. */
  const OK: int := 200
  const CREATED: int := 201
  const BAD_REQUEST: int := 400
  const NOT_FOUND: int := 404
  const INTERNAL_SERVER_ERROR: int := 500

  /** The public view of a user returned by `getProfile`: it has no field
      for the password hash, only a mask. */
  datatype ProfileView = ProfileView(
    userId: string,
    name: string,
    email: string,
    bio: string,
    picture: Option<string>,
    password: string,
    phoneNumber: string)

  datatype Data = NoData | AccessToken(accessToken: Token) | ProfileData(profile: ProfileView)

  /** Errors thrown by code outside the pipeline and returned as they are:
      Mongoose rejecting a `create`, `bcrypt.compareSync` given no hash,
      and the `TypeError` of reading `length` of `undefined`. */
  datatype Thrown = StoreRejected | IllegalArguments | LengthOfUndefined

  datatype Outcome =
    | Reply(code: int, message: string, success: bool, data: Data)
    | Raised(error: Thrown)
  {
    predicate Succeeded() {
      Reply? && success
    }
  }

  /** A failure object thrown by the pipeline itself. */
  function Failed(code: int, message: string): Outcome {
    Reply(code, message, false, NoData)
  }

  /** The token payload `{email, sub, accType}` built from a stored user. */
  function Issue(email: string, sub: string, accType: string): Token {
    GenerateToken(Claims(email, sub, accType))
  }
}

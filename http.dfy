/**
 * What a handler sends back: a status code and a JSON (or text) body. Each
 * `Body` constructor is one of the payload shapes the controllers build; the
 * key the source uses (`error` or `message`) is kept, since the two 401s of
 * login differ only in it.
 */
module Http {
  import opened Records

  const OK: nat := 200
  const CREATED: nat := 201
  const BAD_REQUEST: nat := 400
  const UNAUTHORIZED: nat := 401
  const FORBIDDEN: nat := 403
  const NOT_FOUND: nat := 404
  const CONFLICT: nat := 409

  datatype Verb = GET | POST | PUT | DELETE

  /** One entry of the validator's error array: the field checked and its message. */
  datatype FieldError = FieldError(field: string, msg: string)

  datatype Body =
    | Text(text: string)                          // res.send(text)
    | Message(message: string)                    // { message }
    | Error(error: string)                        // { error }
    | Errors(errors: seq<FieldError>)             // { errors: errors.array() }
    | LoggedIn(accessToken: string, refreshToken: string, id: UserId,
               name: string, email: string, message: string)
    | AccessToken(accessToken: string)            // { accessToken }
    | UserWithMessage(message: string, user: User) // { message, user }
    | UserOnly(user: User)                        // { user }
    | UserList(users: map<UserId, User>)          // { users }
    | PostOnly(post: Post)                        // the post document itself
    | PostList(posts: map<PostId, Post>)          // the array of post documents

  datatype Response = Response(status: nat, body: Body)
}

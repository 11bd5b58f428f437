/**
 * The two document kinds the controllers work on, as plain values: a user and
 * a blog post. The database gives every document an ObjectId; the model uses
 * the ObjectId's string form as the key of an in-memory table.
 */
module Records {

  /** The string form of a user's ObjectId (what `toString()` and the token payload carry). */
  type UserId = string

  /** The string form of a blog post's ObjectId. */
  type PostId = string

  datatype Option<+T> = None | Some(value: T)

  /**
   * A salted one-way password hash, kept symbolic: it records the salt and the
   * secret it was computed from. Nothing in the model reads `secret` except
   * `Matches`, which plays the part of bcrypt's compare.
   */
  datatype Digest = Digest(salt: string, secret: string)

  /** bcrypt's hash: the digest of `plain` under `salt`, which it carries for the compare. */
  function Hash(plain: string, salt: string): (d: Digest)
    ensures d.salt == salt
  {
    Digest(salt, plain)
  }

  /**
   * bcrypt's compare (and the user schema's `comparePassword`): hash `plain`
   * again under the salt the digest carries and compare.
   */
  predicate Matches(plain: string, d: Digest)
    ensures Matches(plain, d) <==> Hash(plain, d.salt) == d
  {
    d.secret == plain
  }

  /** A digest is matched by the password it was made from and by no other. */
  lemma MatchesOnlyItsPassword(plain: string, salt: string, p: string)
    ensures Matches(p, Hash(plain, salt)) <==> p == plain
  {
  }

  /**
   * A user document: display name, e-mail, the password digest and the
   * current refresh token, `None` when the user is logged out (the source
   * writes `null` there).
   */
  datatype User = User(name: string, email: string, password: Digest, refreshToken: Option<string>)

  /** A blog post document; `author` is the id of the user who created it. */
  datatype Post = Post(title: string, content: string, author: UserId, createdAt: int, updatedAt: int)
}

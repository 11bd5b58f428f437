/**
 * The JSON Web Tokens the service issues, reduced to what its decisions use:
 * which secret signed a token and which user id its payload names.
 *
 * A signed token is written as the secret's literal, a dot, and the payload's
 * user id. That is not the real JWT layout and it is not unforgeable; what
 * the model keeps is the one property the handlers rely on: verifying with a
 * secret accepts exactly the tokens signed with that secret, and gives back
 * their payload.
 */
module Tokens {
  import opened Records

  /** The two signing secrets: access tokens and refresh tokens. */
  datatype Key = AccessKey | RefreshKey

  /** The literal each secret is in the source (the access one is written out three times). */
  function Secret(k: Key): string
  {
    match k
    case AccessKey => "process.env.Secret_Key"
    case RefreshKey => "refresh_secret_key"
  }

  /** A token payload: `{ userId }`. */
  datatype Claims = Claims(userId: UserId)

  function Prefix(k: Key): string
  {
    Secret(k) + "."
  }

  /** `jwt.sign(claims, Secret(k))`: verifying the token with the same secret gives back its payload. */
  function Sign(k: Key, c: Claims): (t: string)
    ensures Verify(t, k) == Some(c)
  {
    var p := Prefix(k);
    var t := p + c.userId;
    assert t[..|p|] == p && t[|p|..] == c.userId;
    t
  }

  /**
   * `jwt.verify(t, Secret(k))`: the payload when `k` signed `t`, otherwise an
   * error. A token it accepts is `k`'s tag followed by the payload it returns.
   */
  function Verify(t: string, k: Key): (r: Option<Claims>)
    ensures r.Some? ==> t == Prefix(k) + r.value.userId
  {
    var p := Prefix(k);
    if |p| <= |t| && t[..|p|] == p then
      assert t == t[..|p|] + t[|p|..];
      Some(Claims(t[|p|..]))
    else None
  }

  /** Verification with `k` accepts exactly the tokens `k` signed, both directions. */
  lemma VerifyExactlySigned(t: string, k: Key, c: Claims)
    ensures Verify(t, k) == Some(c) <==> t == Sign(k, c)
  {
  }

  /** A token signed with one secret never verifies under the other. */
  lemma KeysSeparate(k: Key, k': Key, c: Claims)
    requires k != k'
    ensures Verify(Sign(k, c), k') == None
  {
    var t := Sign(k, c);
    var p' := Prefix(k');
    assert t[0] == Secret(k)[0];
    if |p'| <= |t| {
      assert t[..|p'|][0] == Secret(k)[0] != p'[0];
    }
  }

  /** Signing is injective: two equal tokens come from one secret and one payload. */
  lemma SignInjective(k: Key, k': Key, c: Claims, c': Claims)
    requires Sign(k, c) == Sign(k', c')
    ensures k == k' && c == c'
  {
    if k != k' {
      KeysSeparate(k', k, c');
    }
    var p := Prefix(k);
    assert c.userId == Sign(k, c)[|p|..];
    assert c'.userId == Sign(k', c')[|p|..];
  }
}

/**
 * The `isUserAuthorized` middleware: find the authorization header, strip
 * "Bearer ", verify the rest with the access secret, and either answer 401
 * or attach the decoded payload to the request and hand it on.
 */
module Auth {
  import opened Records
  import opened Http
  import opened Tokens

  /**
   * The two header entries the middleware reads; an absent header is "".
   * `lower` is `req.headers.authorization`, `upper` is
   * `req.headers.Authorization`. Node's HTTP parser lower-cases header
   * names, so a request that comes in over HTTP always has `upper == ""`;
   * the model keeps the field so the middleware's fallback can be stated.
   */
  datatype Headers = Headers(lower: string, upper: string)

  /** `authorization || Authorization`: the first that is present and non-empty, else "". */
  function AuthHeader(h: Headers): (v: string)
    ensures v == "" <==> h.lower == "" && h.upper == ""
    ensures h.lower != "" ==> v == h.lower
    ensures h.lower == "" ==> v == h.upper
  {
    if h.lower != "" then h.lower else h.upper
  }

  predicate OccursAt(s: string, pat: string, i: nat)
  {
    i + |pat| <= |s| && s[i..i + |pat|] == pat
  }

  /** JavaScript's `indexOf` starting at `from`: the first position `>= from` where `pat` occurs. */
  function IndexOfFrom(s: string, pat: string, from: nat): (r: Option<nat>)
    requires from <= |s|
    ensures r.Some? ==> from <= r.value && OccursAt(s, pat, r.value)
    ensures r.Some? ==> forall j :: from <= j < r.value ==> !OccursAt(s, pat, j)
    ensures r.None? ==> forall j :: from <= j ==> !OccursAt(s, pat, j)
    decreases |s| - from
  {
    if OccursAt(s, pat, from) then Some(from)
    else if from == |s| then None
    else IndexOfFrom(s, pat, from + 1)
  }

  function IndexOf(s: string, pat: string): (r: Option<nat>)
    ensures r.Some? ==> OccursAt(s, pat, r.value) && forall j :: 0 <= j < r.value ==> !OccursAt(s, pat, j)
    ensures r.None? <==> forall j :: 0 <= j ==> !OccursAt(s, pat, j)
  {
    IndexOfFrom(s, pat, 0)
  }

  /** `s.replace(pat, rep)` with a string pattern: only the first occurrence is replaced. */
  function ReplaceFirst(s: string, pat: string, rep: string): string
  {
    match IndexOf(s, pat)
    case None => s
    case Some(i) => s[..i] + rep + s[i + |pat|..]
  }

  const BEARER := "Bearer "

  /**
   * The token the middleware verifies: the header with its first "Bearer "
   * removed. Putting "Bearer " back where it first occurred restores the header.
   */
  function BearerToken(header: string): (t: string)
    ensures IndexOf(header, BEARER).None? ==> t == header
    ensures IndexOf(header, BEARER).Some? ==>
      var i := IndexOf(header, BEARER).value;
      i <= |t| && t[..i] + BEARER + t[i..] == header
  {
    var t := ReplaceFirst(header, BEARER, "");
    if IndexOf(header, BEARER).Some? then
      var i := IndexOf(header, BEARER).value;
      assert t[..i] == header[..i] && t[i..] == header[i + |BEARER|..];
      assert header == header[..i] + header[i..i + |BEARER|] + header[i + |BEARER|..];
      t
    else t
  }

  /** A header of the form "Bearer " + t yields t, whatever t holds. */
  lemma StripsBearerPrefix(t: string)
    ensures BearerToken(BEARER + t) == t
  {
    var s := BEARER + t;
    assert OccursAt(s, BEARER, 0);
    assert s[|BEARER|..] == t;
  }

  /** A header that does not contain "Bearer " anywhere is passed on unchanged. */
  lemma KeepsHeaderWithoutBearer(header: string)
    requires forall j :: 0 <= j ==> !OccursAt(header, BEARER, j)
    ensures BearerToken(header) == header
  {
  }

  /**
   * "Bearer " is removed wherever it first occurs, not only at the front:
   * "x" + "Bearer " + "y" yields "xy".
   */
  lemma StripsInnerBearer()
    ensures BearerToken("xBearer y") == "xy"
  {
    var s := "xBearer y";
    assert s[0..|BEARER|][0] == 'x' != BEARER[0];
    assert OccursAt(s, BEARER, 1);
    assert IndexOf(s, BEARER) == Some(1);
  }

  /** What the middleware decides: answer now, or go on with the decoded payload. */
  datatype Gate = Reject(response: Response) | Proceed(user: Claims)

  const MISSING_HEADERS := Response(UNAUTHORIZED, Text("Unauthorized: Missing Headers"))
  const INVALID_TOKEN := Response(UNAUTHORIZED, Message("Invalid token"))

  /** The decision `isUserAuthorized` takes for a request with headers `h`. */
  function Authenticate(h: Headers): (g: Gate)
    ensures g.Reject? ==> g.response.status == UNAUTHORIZED
    ensures AuthHeader(h) == "" ==> g == Reject(MISSING_HEADERS)
    ensures g.Proceed? <==> AuthHeader(h) != "" && Verify(BearerToken(AuthHeader(h)), AccessKey).Some?
    ensures g.Proceed? ==> Sign(AccessKey, g.user) == BearerToken(AuthHeader(h))
  {
    var header := AuthHeader(h);
    if header == "" then Reject(MISSING_HEADERS)
    else
      match Verify(BearerToken(header), AccessKey)
      case None => Reject(INVALID_TOKEN)
      case Some(c) =>
        VerifyExactlySigned(BearerToken(header), AccessKey, c);
        Proceed(c)
  }

  /** The user id the middleware attaches to the request; "" when it refuses the request. */
  function Requester(h: Headers): (id: UserId)
    ensures Authenticate(h).Proceed? ==> Sign(AccessKey, Claims(id)) == BearerToken(AuthHeader(h))
  {
    if Authenticate(h).Proceed? then Authenticate(h).user.userId else ""
  }

  /** An access token presented as "Bearer " + token lets the request through as its user. */
  lemma AcceptsAccessToken(h: Headers, c: Claims)
    requires AuthHeader(h) == BEARER + Sign(AccessKey, c)
    ensures Authenticate(h) == Proceed(c)
  {
    StripsBearerPrefix(Sign(AccessKey, c));
  }

  /** A refresh token is refused with 401 however it is presented, since only the access secret is tried. */
  lemma RejectsRefreshToken(h: Headers, c: Claims)
    requires BearerToken(AuthHeader(h)) == Sign(RefreshKey, c)
    ensures Authenticate(h) == Reject(if AuthHeader(h) == "" then MISSING_HEADERS else INVALID_TOKEN)
  {
    KeysSeparate(RefreshKey, AccessKey, c);
  }

  /** The request object, as far as the middleware touches it. */
  class Request {
    const headers: Headers
    var user: Option<Claims>

    constructor (headers: Headers)
      ensures this.headers == headers && user == None
    {
      this.headers := headers;
      user := None;
    }
  }

  /**
   * `isUserAuthorized(req, res, next)`. `response` is what it sends, if it
   * sends anything; `nextCalls` counts the calls of `next`.
   */
  method IsUserAuthorized(req: Request) returns (response: Option<Response>, nextCalls: nat)
    modifies req`user
    ensures Authenticate(req.headers).Reject? ==>
      response == Some(Authenticate(req.headers).response) && nextCalls == 0 && req.user == old(req.user)
    ensures Authenticate(req.headers).Proceed? ==>
      response == None && nextCalls == 1 && req.user == Some(Authenticate(req.headers).user)
  {
    var header := AuthHeader(req.headers);
    if header == "" {
      return Some(MISSING_HEADERS), 0;
    }
    var token := BearerToken(header);
    var decoded := Verify(token, AccessKey);
    if decoded.None? {
      return Some(INVALID_TOKEN), 0;
    }
    req.user := decoded;
    response, nextCalls := None, 1;
  }
}

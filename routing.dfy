/**
 * Express's matching of a request against a router's routes, as the two
 * routers use it: routes are tried in the order they were registered and
 * the first whose verb and path pattern match handles the request.
 *
 * A path is the list of its segments below the router's mount point
 * (`/api/v1/user/all` is `["all"]` for the user router). A literal segment
 * matches itself; a `:param` segment matches any non-empty segment.
 */
module Routing {
  import opened Records
  import opened Http

  datatype Seg = Lit(text: string) | Param

  predicate SegMatches(p: Seg, s: string)
  {
    match p
    case Lit(t) => s == t
    case Param => s != "" && '/' !in s
  }

  predicate PathMatches(pattern: seq<Seg>, path: seq<string>)
  {
    |pattern| == |path| && forall i :: 0 <= i < |path| ==> SegMatches(pattern[i], path[i])
  }

  /** The `:id` parameter of a route that ends in one: the path's last segment ("" for an empty path). */
  function IdSegment(path: seq<string>): (id: string)
    ensures |path| > 0 ==> id == path[|path| - 1]
  {
    if |path| == 0 then "" else path[|path| - 1]
  }

  /** One registration `router.verb(pattern, [isUserAuthorized,] ..., handler)`. */
  datatype Route<H> = Route(verb: Verb, pattern: seq<Seg>, guarded: bool, handler: H)

  predicate RouteMatches<H>(r: Route<H>, verb: Verb, path: seq<string>)
  {
    r.verb == verb && PathMatches(r.pattern, path)
  }

  /** The first route at or after `from` that matches. */
  function FirstMatchFrom<H>(routes: seq<Route<H>>, verb: Verb, path: seq<string>, from: nat): (r: Option<nat>)
    requires from <= |routes|
    ensures r.Some? ==> from <= r.value < |routes| && RouteMatches(routes[r.value], verb, path)
    ensures r.Some? ==> forall j :: from <= j < r.value ==> !RouteMatches(routes[j], verb, path)
    ensures r.None? ==> forall j :: from <= j < |routes| ==> !RouteMatches(routes[j], verb, path)
    decreases |routes| - from
  {
    if from == |routes| then None
    else if RouteMatches(routes[from], verb, path) then Some(from)
    else FirstMatchFrom(routes, verb, path, from + 1)
  }

  /** The route that handles `verb path`, or `None` when the request falls through the router. */
  function Resolve<H>(routes: seq<Route<H>>, verb: Verb, path: seq<string>): (r: Option<Route<H>>)
    ensures r.Some? <==> exists i :: 0 <= i < |routes| && RouteMatches(routes[i], verb, path)
    ensures r.Some? ==> exists i :: 0 <= i < |routes| && routes[i] == r.value && RouteMatches(r.value, verb, path)
                          && forall j :: 0 <= j < i ==> !RouteMatches(routes[j], verb, path)
  {
    match FirstMatchFrom(routes, verb, path, 0)
    case None => None
    case Some(i) => Some(routes[i])
  }

  /** A route that matches wins when no earlier route matches. */
  lemma ResolvesTo<H>(routes: seq<Route<H>>, verb: Verb, path: seq<string>, i: nat)
    requires i < |routes| && RouteMatches(routes[i], verb, path)
    requires forall j :: 0 <= j < i ==> !RouteMatches(routes[j], verb, path)
    ensures Resolve(routes, verb, path) == Some(routes[i])
  {
    assert FirstMatchFrom(routes, verb, path, 0) == Some(i);
  }
}

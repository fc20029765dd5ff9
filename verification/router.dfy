/** Express routing: routes are tried in registration order and the first one whose
    method and path pattern match handles the request.  A `:param` segment matches
    any single non-empty path segment; a literal segment matches regardless of letter case,
    since routers are created case-insensitive. */
module Router {
  import opened Wrappers
  import Text

  datatype Method = GET | POST | PUT | PATCH | DELETE

  datatype Segment = Lit(text: string) | Param

  datatype Route<H> = Route(verb: Method, pattern: seq<Segment>, handler: H)

  /** The route patterns are ASCII, and a case-insensitive match never pairs a non-ASCII
      character with an ASCII one, so folding the ASCII letters is exact. */
  predicate SegmentMatches(seg: Segment, part: string)
  {
    match seg
    case Lit(t) => Text.FoldAscii(part) == Text.FoldAscii(t)
    case Param => |part| > 0
  }

  predicate Matches<H>(r: Route<H>, m: Method, path: seq<string>)
  {
    && r.verb == m
    && |r.pattern| == |path|
    && forall i :: 0 <= i < |path| ==> SegmentMatches(r.pattern[i], path[i])
  }

  /** Index of the first route that matches, if any. */
  function FirstMatch<H>(table: seq<Route<H>>, m: Method, path: seq<string>): (r: Option<nat>)
    ensures r.Some? ==> r.value < |table| && Matches(table[r.value], m, path)
    ensures r.Some? ==> forall j :: 0 <= j < r.value ==> !Matches(table[j], m, path)
    ensures r.None? ==> forall j :: 0 <= j < |table| ==> !Matches(table[j], m, path)
  {
    if |table| == 0 then None
    else if Matches(table[0], m, path) then Some(0)
    else match FirstMatch(table[1..], m, path)
      case None => None
      case Some(k) => Some(k + 1)
  }

  /** The handler that receives the request, or None for a 404 from Express itself. */
  function Resolve<H>(table: seq<Route<H>>, m: Method, path: seq<string>): Option<H>
  {
    match FirstMatch(table, m, path)
    case None => None
    case Some(k) => Some(table[k].handler)
  }
}

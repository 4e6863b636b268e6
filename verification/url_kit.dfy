/** The WHATWG URL parser, which the handlers reach through `new URL(...)`, taken as a
    parameter: the model does not re-implement URL parsing. Each parse returns None where
    `new URL` throws a TypeError ("Invalid URL"). */
module UrlKit {
  import opened Wrappers

  /** The parts of a parsed URL the handlers read. `searchParams` is the query string
      decoded as application/x-www-form-urlencoded name-value pairs, in order. */
  datatype UrlRecord = UrlRecord(
    href: string,
    origin: string,
    hostname: string,
    searchParams: seq<(string, string)>)

  /** `parse(u)` is `new URL(u)`; `parseAgainst(ref, base)` is `new URL(ref, base)`
      (reference resolution of RFC 3986, section 5.2, as the URL Standard performs it). */
  datatype UrlKit = UrlKit(
    parse: string -> Option<UrlRecord>,
    parseAgainst: (string, string) -> Option<UrlRecord>)

  /** `url.searchParams.get(name)`: the value of the first pair named `name`, or None
      (JavaScript's `null`). */
  function SearchParam(u: UrlRecord, name: string): (r: Option<string>)
    ensures r.Some? <==> exists k :: 0 <= k < |u.searchParams| && u.searchParams[k].0 == name
    ensures r.Some? ==> exists k :: 0 <= k < |u.searchParams| && u.searchParams[k] == (name, r.value)
                                    && forall j :: 0 <= j < k ==> u.searchParams[j].0 != name
  {
    FirstValue(u.searchParams, name)
  }

  function FirstValue(pairs: seq<(string, string)>, name: string): (r: Option<string>)
    ensures r.Some? <==> exists k :: 0 <= k < |pairs| && pairs[k].0 == name
    ensures r.Some? ==> exists k :: 0 <= k < |pairs| && pairs[k] == (name, r.value)
                                    && forall j :: 0 <= j < k ==> pairs[j].0 != name
  {
    if pairs == [] then None
    else if pairs[0].0 == name then
      assert pairs[0] == (name, pairs[0].1);
      Some(pairs[0].1)
    else
      var r := FirstValue(pairs[1..], name);
      assert forall k :: 1 <= k < |pairs| ==> pairs[k] == pairs[1..][k - 1];
      r
  }
}

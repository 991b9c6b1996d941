/** The parts of a Workers `Request` and `Response` the three workers look
    at: the method, the decoded path and query of the URL, and the status,
    headers and body of the answer. */
module Http {
  import opened Wrappers

  /** A request: its method (`verb`), `url.pathname` and the `url.searchParams`
      pairs in order. */
  datatype Request = Request(verb: string, path: string, query: seq<(string, string)>)

  /** A response with a body of type `B`. */
  datatype Response<B> = Response(status: int, headers: seq<(string, string)>, body: B)

  /** `URLSearchParams.get(name)`: the value of the first pair with that
      name, or `null`. */
  function QueryGet(query: seq<(string, string)>, name: string): (r: Option<string>)
    ensures r.None? <==> forall i | 0 <= i < |query| :: query[i].0 != name
    ensures r.Some? ==> exists i | 0 <= i < |query| :: (&& query[i] == (name, r.value)
                                                       && forall k | 0 <= k < i :: query[k].0 != name)
  {
    if query == [] then None
    else if query[0].0 == name then Some(query[0].1)
    else
      var r := QueryGet(query[1..], name);
      assert forall k | 0 <= k < |query[1..]| :: query[1..][k] == query[k + 1];
      r
  }

  /** The JavaScript `a || b` on an optional string: `b` when `a` is `null`
      or the empty string. */
  function OrDefault(a: Option<string>, b: string): string {
    if a.Some? && a.value != "" then a.value else b
  }
}

/** Locations the application navigates to: a path plus query parameters,
    as written in the `router.push` and `redirect` calls of the forms. */
module Navigation {
  import opened Common

  datatype Location = Location(path: string, query: seq<(string, string)>)

  /** The literal URL string of a location: `path?k1=v1&k2=v2`. */
  function Href(loc: Location): string
  {
    loc.path + (if loc.query == [] then "" else "?" + QueryString(loc.query))
  }

  function QueryString(query: seq<(string, string)>): string
  {
    if query == [] then ""
    else
      query[0].0 + "=" + query[0].1
      + (if |query| == 1 then "" else "&" + QueryString(query[1..]))
  }

  /** A location with one parameter is written `path?key=value`. */
  lemma HrefOneParam(path: string, key: string, value: string)
    ensures Href(Location(path, [(key, value)])) == path + "?" + key + "=" + value
  {
  }

  /** `URLSearchParams.get(key)`: the value of the first parameter named
      `key`, or `null` when there is none. */
  function SearchParam(query: seq<(string, string)>, key: string): (r: Option<string>)
    ensures r.None? <==> forall i :: 0 <= i < |query| ==> query[i].0 != key
    ensures r.Some? ==> exists i :: 0 <= i < |query| && query[i] == (key, r.value)
                                   && forall j :: 0 <= j < i ==> query[j].0 != key
  {
    if query == [] then None
    else if query[0].0 == key then Some(query[0].1)
    else SearchParam(query[1..], key)
  }
}

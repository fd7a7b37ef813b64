/**
 * URL query parameters (`URLSearchParams`) as a map from name to value;
 * each name is taken to occur at most once.
 */
module SearchParams {
  import opened Wrappers

  type Params = map<string, string>

  /** `params.get(key)`: the value, or `None` for JavaScript's `null`. */
  function Get(params: Params, key: string): (r: Option<string>)
    ensures r.Some? <==> key in params
    ensures r.Some? ==> r.value == params[key]
  {
    if key in params then Some(params[key]) else None
  }

  /** `params.get(key)` used as a condition: present and not the empty string. */
  predicate Present(params: Params, key: string) {
    key in params && params[key] != ""
  }

  /** `params.get(key) || undefined`: the value when it is truthy. */
  function Truthy(params: Params, key: string): (r: Option<string>)
    ensures r.Some? <==> Present(params, key)
    ensures r.Some? ==> r.value == params[key] && r.value != ""
  {
    if Present(params, key) then Some(params[key]) else None
  }

  /** Outside `keys`, the two parameter maps hold the same entries. */
  ghost predicate SameElsewhere(p: Params, q: Params, keys: set<string>) {
    forall k :: k !in keys ==> (k in p <==> k in q) && (k in p ==> p[k] == q[k])
  }
}

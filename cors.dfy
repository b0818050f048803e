/** The CORS decision for requests to the chat endpoint. */
module Cors {
  /**
   * `resolveCorsOrigin`: the value of `Access-Control-Allow-Origin`, or ""
   * to reject. A request without an origin, or an allow-list containing the
   * wildcard, gets "*"; otherwise only a listed origin is echoed back.
   */
  function ResolveCorsOrigin(origin: string, allowed: seq<string>): (r: string)
    ensures r == "" <==> origin != "" && "*" !in allowed && origin !in allowed
    ensures r == "*" || r == origin || r == ""
    ensures r != "*" && r != "" ==> origin in allowed && "*" !in allowed
    ensures origin == "" || "*" in allowed ==> r == "*"
  {
    if origin == "" then "*"
    else if "*" in allowed then "*"
    else if origin in allowed then origin
    else ""
  }

  /** A wildcard allow-list gives "*" for every origin, with or without an origin header. */
  lemma WildcardAllowsEveryOrigin(allowed: seq<string>, origin: string)
    requires "*" in allowed
    ensures ResolveCorsOrigin(origin, allowed) == "*"
  {
  }

  /** Without a wildcard, a present origin is echoed exactly when it is listed, and rejected otherwise. */
  lemma ListedOriginsOnly(allowed: seq<string>, origin: string)
    requires "*" !in allowed && origin != ""
    ensures origin in allowed ==> ResolveCorsOrigin(origin, allowed) == origin
    ensures origin !in allowed ==> ResolveCorsOrigin(origin, allowed) == ""
  {
  }
}

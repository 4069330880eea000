/**
 * The endpoint paths and the URL builder of the client (the endpoints.go
 * snapshot): `scheme://host/endpoint`, the generic syntax of section 3 of
 * RFC 3986, with the scheme chosen by the client's useSSL switch.
 */
module Endpoints {
  import opened Types

  const LeaguesEndpoint: string := "/leagues"
  const LeagueRulesEndpoint: string := "/league-rules"
  const LaddersEndpoint: string := "/ladders"
  const PvpMatchesEndpoint: string := "/pvp-matches"
  const StashTabsEndpoint: string := "/public-stash-tabs"

  const HttpProtocol: string := "http"
  const HttpsProtocol: string := "https"

  /** The five endpoint paths. */
  function AllEndpoints(): (es: seq<string>)
    ensures |es| == 5
    ensures forall i, j :: 0 <= i < j < |es| ==> es[i] != es[j]
    ensures forall i :: 0 <= i < |es| ==> |es[i]| > 1 && es[i][0] == '/'
  {
    [LeaguesEndpoint, LeagueRulesEndpoint, LaddersEndpoint, PvpMatchesEndpoint, StashTabsEndpoint]
  }

  /**
   * formatURL: https when the client uses SSL, http otherwise; the host follows
   * "://" and the endpoint ends the URL.
   */
  function FormatURL(c: Client, endpoint: string): (url: string)
    ensures var scheme := if c.useSSL then "https" else "http";
            && |url| == |scheme| + 3 + |c.host| + |endpoint|
            && url[..|scheme|] == scheme
            && url[|scheme|..|scheme| + 3] == "://"
            && url[|scheme| + 3..|scheme| + 3 + |c.host|] == c.host
            && url[|url| - |endpoint|..] == endpoint
  {
    if c.useSSL then HttpsProtocol + "://" + c.host + endpoint
    else HttpProtocol + "://" + c.host + endpoint
  }

  /**
   * `url` reads as `base`, then the separator, then `rest`: how the endpoint
   * methods append a resource ID ('/') or a query string ('?') to an endpoint URL.
   */
  predicate Appended(url: string, base: string, sep: char, rest: string)
  {
    && |url| == |base| + 1 + |rest|
    && url[..|base|] == base
    && url[|base|] == sep
    && url[|base| + 1..] == rest
  }

  lemma AppendedConcat(base: string, sep: char, rest: string)
    ensures Appended(base + [sep] + rest, base, sep, rest)
  {
    var url := base + [sep] + rest;
    assert url[..|base|] == base;
    assert url[|base| + 1..] == rest;
  }

  /**
   * `url` reads as `base`, '/', `id`, '?', then `query`: the shape of a ladder
   * page request.
   */
  predicate ResourceQuery(url: string, base: string, id: string, query: string)
  {
    && |url| == |base| + 1 + |id| + 1 + |query|
    && url[..|base|] == base
    && url[|base|] == '/'
    && url[|base| + 1..|base| + 1 + |id|] == id
    && url[|base| + 1 + |id|] == '?'
    && url[|base| + 2 + |id|..] == query
  }

  lemma ResourceQueryConcat(base: string, id: string, query: string)
    ensures ResourceQuery(base + "/" + id + "?" + query, base, id, query)
  {
    var url := base + "/" + id + "?" + query;
    assert url[..|base|] == base;
    assert url[|base| + 1..|base| + 1 + |id|] == id;
    assert url[|base| + 2 + |id|..] == query;
  }

  /** The URL the routes test expects with SSL off. */
  lemma FormatURLExampleHttp()
    ensures FormatURL(Client("api.pathofexile.com", false, ""), LaddersEndpoint)
            == "http://api.pathofexile.com/ladders"
  {
  }
}

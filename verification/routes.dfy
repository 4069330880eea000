/**
 * The routes.go snapshot of the endpoint paths and the URL builder: the
 * protocol starts as "https" and becomes "http" when SSL is off. It reads only
 * the client's useSSL and host and, being a function of a client value, cannot
 * change the client.
 */
module Routes {
  import opened Types
  import Endpoints

  const LeaguesEndpoint: string := "/leagues"
  const LaddersEndpoint: string := "/ladders"
  const StashTabsEndpoint: string := "/public-stash-tabs"
  const PvpMatchesEndpoint: string := "/pvp-matches"
  const LeagueRulesEndpoint: string := "/league-rules"

  /** The five endpoint paths, in the order routes.go declares them. */
  function AllEndpoints(): (es: seq<string>)
    ensures |es| == 5
    ensures forall i, j :: 0 <= i < j < |es| ==> es[i] != es[j]
    ensures forall i :: 0 <= i < |es| ==> |es[i]| > 1 && es[i][0] == '/'
  {
    [LeaguesEndpoint, LaddersEndpoint, StashTabsEndpoint, PvpMatchesEndpoint, LeagueRulesEndpoint]
  }

  /** The scheme formatURL settles on. */
  function Protocol(useSSL: bool): (p: string)
    ensures p == "https" <==> useSSL
    ensures p == "http" <==> !useSSL
  {
    var protocol := "https";
    if !useSSL then "http" else protocol
  }

  /** formatURL: `protocol://host` followed by the endpoint. */
  function FormatURL(c: Client, endpoint: string): (url: string)
    ensures var p := Protocol(c.useSSL);
            && |url| == |p| + 3 + |c.host| + |endpoint|
            && url[..|p| + 3] == p + "://"
            && url[|p| + 3..] == c.host + endpoint
  {
    Protocol(c.useSSL) + "://" + c.host + endpoint
  }

  /**
   * The two snapshots agree: same paths for the same endpoints, and the same URL
   * for every client and endpoint.
   */
  lemma SnapshotsAgree(c: Client, endpoint: string)
    ensures FormatURL(c, endpoint) == Endpoints.FormatURL(c, endpoint)
    ensures multiset(AllEndpoints()) == multiset(Endpoints.AllEndpoints())
  {
    var es, fs := AllEndpoints(), Endpoints.AllEndpoints();
    assert es == [fs[0], fs[2], fs[4], fs[3], fs[1]];
  }
}

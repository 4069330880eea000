/**
 * League rules (the league_rules.go snapshot): the list of all rules and a
 * single rule by ID.
 */
module LeagueRules {
  import opened Errors
  import opened Types
  import Endpoints

  /** The rule to fetch; the ID is required. */
  datatype GetLeagueRuleOptions = GetLeagueRuleOptions(id: string)

  /** validateLeagueRuleOptions: only the empty ID is refused. */
  function ValidateLeagueRuleOptions(o: GetLeagueRuleOptions): (r: Option<Error>)
    ensures r.None? <==> o.id != ""
    ensures r.Some? ==> r.value == InvalidLeagueRuleID
  {
    if o.id == "" then Some(InvalidLeagueRuleID) else None
  }

  /**
   * GetLeagueRule, with `get` standing for the request and the decoding of its
   * body: an empty ID fails before any request; otherwise the rule endpoint URL,
   * a '/', and the ID are requested.
   */
  function GetLeagueRule(c: Client, o: GetLeagueRuleOptions, get: string -> Result<LeagueRule>): (r: Result<LeagueRule>)
    ensures o.id == "" ==> r == Failure(InvalidLeagueRuleID)
    ensures o.id != "" ==> exists url ::
              Endpoints.Appended(url, Endpoints.FormatURL(c, Endpoints.LeagueRulesEndpoint), '/', o.id)
              && r == get(url)
  {
    match ValidateLeagueRuleOptions(o)
    case Some(e) => Failure(e)
    case None =>
      var base := Endpoints.FormatURL(c, Endpoints.LeagueRulesEndpoint);
      Endpoints.AppendedConcat(base, '/', o.id);
      get(base + "/" + o.id)
  }

  /** Appended fixes the URL: the single-rule request goes to exactly one address. */
  lemma AppendedUnique(url1: string, url2: string, base: string, sep: char, rest: string)
    requires Endpoints.Appended(url1, base, sep, rest) && Endpoints.Appended(url2, base, sep, rest)
    ensures url1 == url2
  {
    assert url1 == url1[..|base|] + [url1[|base|]] + url1[|base| + 1..];
    assert url2 == url2[..|base|] + [url2[|base|]] + url2[|base| + 1..];
  }

  /** GetLeagueRules: the bare rules endpoint; the result is whatever `get` gives for it. */
  function GetLeagueRules(c: Client, get: string -> Result<seq<LeagueRule>>): (r: Result<seq<LeagueRule>>)
    ensures r == get(Endpoints.FormatURL(c, Endpoints.LeagueRulesEndpoint))
  {
    get(Endpoints.FormatURL(c, Endpoints.LeagueRulesEndpoint))
  }
}

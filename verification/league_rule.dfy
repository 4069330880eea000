/**
 * A single league rule (the league_rule.go snapshot, an older copy of the
 * single-rule half of league_rules.go).
 */
module LeagueRuleSnapshot {
  import opened Errors
  import opened Types
  import Endpoints
  import LeagueRules

  /** The rule to fetch; the ID is required. */
  datatype GetLeagueRuleOptions = GetLeagueRuleOptions(id: string)

  /** validateLeagueRuleOptions: only the empty ID is refused. */
  function ValidateLeagueRuleOptions(o: GetLeagueRuleOptions): (r: Option<Error>)
    ensures r.None? <==> o.id != ""
    ensures r.Some? ==> r.value == InvalidLeagueRuleID
  {
    if o.id == "" then Some(InvalidLeagueRuleID) else None
  }

  /** GetLeagueRule up to the request: the validation error, or the URL it requests. */
  function GetLeagueRuleRequest(c: Client, o: GetLeagueRuleOptions): (r: Result<string>)
    ensures r.Failure? <==> o.id == ""
    ensures r.Failure? ==> r.error == InvalidLeagueRuleID
    ensures r.Success? ==> Endpoints.Appended(r.value, Endpoints.FormatURL(c, Endpoints.LeagueRulesEndpoint), '/', o.id)
  {
    match ValidateLeagueRuleOptions(o)
    case Some(e) => Failure(e)
    case None =>
      var base := Endpoints.FormatURL(c, Endpoints.LeagueRulesEndpoint);
      Endpoints.AppendedConcat(base, '/', o.id);
      Success(base + "/" + o.id)
  }

  /** The two snapshots make the same request and fail the same way. */
  lemma {:induction false} SnapshotsAgree(c: Client, id: string, get: string -> Result<LeagueRule>)
    ensures ValidateLeagueRuleOptions(GetLeagueRuleOptions(id)) ==
              LeagueRules.ValidateLeagueRuleOptions(LeagueRules.GetLeagueRuleOptions(id))
    ensures var req := GetLeagueRuleRequest(c, GetLeagueRuleOptions(id));
            LeagueRules.GetLeagueRule(c, LeagueRules.GetLeagueRuleOptions(id), get) ==
              match req
              case Failure(e) => Failure(e)
              case Success(url) => get(url)
  {
    var req := GetLeagueRuleRequest(c, GetLeagueRuleOptions(id));
    if id != "" {
      var base := Endpoints.FormatURL(c, Endpoints.LeagueRulesEndpoint);
      var url :| Endpoints.Appended(url, base, '/', id)
                 && LeagueRules.GetLeagueRule(c, LeagueRules.GetLeagueRuleOptions(id), get) == get(url);
      LeagueRules.AppendedUnique(url, req.value, base, '/', id);
    }
  }
}

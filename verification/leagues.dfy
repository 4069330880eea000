/**
 * The league list (leagues.go): option validation, the query string, the
 * request, and the search for the current challenge league.
 */
module Leagues {
  import opened Errors
  import opened Types
  import Query
  import Domains
  import Endpoints

  /** validLeagueTypes. */
  const ValidLeagueTypes: set<string> := {"main", "event", "season"}

  /** The largest page the API serves, compact and full. */
  const MaxCompactLimit := 230
  const MaxLimit := 50

  /** All fields optional; the season is needed when the type is "season". */
  datatype GetLeaguesOptions = GetLeaguesOptions(leagueType: string, realm: string, season: string,
                                                 compact: bool, limit: int, offset: int)

  /** The zero value GetLeaguesOptions{}. */
  const NoOptions := GetLeaguesOptions("", "", "", false, 0, 0)

  /** The guarded adds of toQueryParams, in the order it makes them. */
  function Guards(o: GetLeaguesOptions): seq<Query.Guarded>
  {
    [ Query.Guarded(o.leagueType != "", Query.Pair("type", o.leagueType)),
      Query.Guarded(o.realm != "", Query.Pair("realm", o.realm)),
      Query.Guarded(o.leagueType == "season" && o.season != "", Query.Pair("season", o.season)),
      Query.Guarded(o.compact, Query.Pair("compact", "1")),
      Query.Guarded(o.limit != 0, Query.Pair("limit", Query.Itoa(o.limit))),
      Query.Guarded(o.offset != 0, Query.Pair("offset", Query.Itoa(o.offset))) ]
  }

  function QueryValues(o: GetLeaguesOptions): (u: Query.Values)
    ensures Query.Keys(u) <= {"type", "realm", "season", "compact", "limit", "offset"}
    ensures Query.UnreservedKeys(u)
    ensures Query.Lookup(u, "type") == if o.leagueType != "" then Some(o.leagueType) else None
    ensures Query.Lookup(u, "realm") == if o.realm != "" then Some(o.realm) else None
    ensures Query.Lookup(u, "season") ==
              if o.leagueType == "season" && o.season != "" then Some(o.season) else None
    ensures Query.Lookup(u, "compact") == if o.compact then Some("1") else None
    ensures Query.Lookup(u, "limit") == if o.limit != 0 then Some(Query.Itoa(o.limit)) else None
    ensures Query.Lookup(u, "offset") == if o.offset != 0 then Some(Query.Itoa(o.offset)) else None
  {
    GuardFacts(o);
    Query.Present(Guards(o))
  }

  lemma GuardsDistinct(o: GetLeaguesOptions)
    ensures Query.DistinctKeys(Guards(o))
    ensures forall i :: 0 <= i < |Guards(o)| ==> Query.AllUnreserved(Guards(o)[i].pair.key)
    ensures forall i :: 0 <= i < |Guards(o)| ==> Guards(o)[i].pair.key in {"type", "realm", "season", "compact", "limit", "offset"}
  {
  }

  lemma GuardFacts(o: GetLeaguesOptions)
    ensures var u := Query.Present(Guards(o));
            && Query.Keys(u) <= {"type", "realm", "season", "compact", "limit", "offset"}
            && Query.UnreservedKeys(u)
            && Query.Lookup(u, "type") == (if o.leagueType != "" then Some(o.leagueType) else None)
            && Query.Lookup(u, "realm") == (if o.realm != "" then Some(o.realm) else None)
            && Query.Lookup(u, "season") ==
                 (if o.leagueType == "season" && o.season != "" then Some(o.season) else None)
            && Query.Lookup(u, "compact") == (if o.compact then Some("1") else None)
            && Query.Lookup(u, "limit") == (if o.limit != 0 then Some(Query.Itoa(o.limit)) else None)
            && Query.Lookup(u, "offset") == (if o.offset != 0 then Some(Query.Itoa(o.offset)) else None)
  {
    var g := Guards(o);
    GuardsDistinct(o);
    Query.PresentKeys(g);
    Query.LookupPresent(g, 0);
    Query.LookupPresent(g, 1);
    Query.LookupPresent(g, 2);
    Query.LookupPresent(g, 3);
    Query.LookupPresent(g, 4);
    Query.LookupPresent(g, 5);
  }

  /**
   * ToQueryParams: type and realm when set, season only for a season league
   * that names one, compact=1 for compact listings, limit and offset when
   * non-zero; nothing else, keys in sorted order.
   */
  function ToQueryParams(o: GetLeaguesOptions): (q: string)
    ensures var p := Query.Parse(q);
            && Query.Keys(p) <= {"type", "realm", "season", "compact", "limit", "offset"}
            && Query.SortedByKey(p)
            && |p| == |QueryValues(o)|
            && Query.Lookup(p, "type") == (if o.leagueType != "" then Some(Query.Escape(o.leagueType)) else None)
            && Query.Lookup(p, "realm") == (if o.realm != "" then Some(Query.Escape(o.realm)) else None)
            && Query.Lookup(p, "season") ==
                 (if o.leagueType == "season" && o.season != "" then Some(Query.Escape(o.season)) else None)
            && Query.Lookup(p, "compact") == (if o.compact then Some("1") else None)
            && Query.Lookup(p, "limit") == (if o.limit != 0 then Some(Query.Itoa(o.limit)) else None)
            && Query.Lookup(p, "offset") == (if o.offset != 0 then Some(Query.Itoa(o.offset)) else None)
  {
    QueryKeyFacts(o);
    QueryTextFacts(o);
    QueryNumberFacts(o);
    Query.Encode(QueryValues(o))
  }

  lemma QueryKeyFacts(o: GetLeaguesOptions)
    ensures var p := Query.Parse(Query.Encode(QueryValues(o)));
            && Query.Keys(p) <= {"type", "realm", "season", "compact", "limit", "offset"}
            && Query.SortedByKey(p)
            && |p| == |QueryValues(o)|
  {
    var g := Guards(o);
    GuardsDistinct(o);
    Query.PresentKeys(g);
    Query.EncodedKeys(Query.Present(g));
  }

  lemma QueryTextFacts(o: GetLeaguesOptions)
    ensures var p := Query.Parse(Query.Encode(QueryValues(o)));
            && Query.Lookup(p, "type") == (if o.leagueType != "" then Some(Query.Escape(o.leagueType)) else None)
            && Query.Lookup(p, "realm") == (if o.realm != "" then Some(Query.Escape(o.realm)) else None)
            && Query.Lookup(p, "season") ==
                 (if o.leagueType == "season" && o.season != "" then Some(Query.Escape(o.season)) else None)
  {
    var g := Guards(o);
    GuardsDistinct(o);
    Query.EncodedPresent(g, 0);
    Query.EncodedPresent(g, 1);
    Query.EncodedPresent(g, 2);
  }

  lemma QueryNumberFacts(o: GetLeaguesOptions)
    ensures var p := Query.Parse(Query.Encode(QueryValues(o)));
            && Query.Lookup(p, "compact") == (if o.compact then Some("1") else None)
            && Query.Lookup(p, "limit") == (if o.limit != 0 then Some(Query.Itoa(o.limit)) else None)
            && Query.Lookup(p, "offset") == (if o.offset != 0 then Some(Query.Itoa(o.offset)) else None)
  {
    var g := Guards(o);
    GuardsDistinct(o);
    assert Query.Escape("1") == "1";
    Query.EncodedPresent(g, 3);
    Query.EncodedPresent(g, 4);
    Query.EncodedPresent(g, 5);
  }

  /**
   * validateGetLeaguesOptions: the checks in order (type, realm, season, limit
   * sign, compact limit, full limit, offset sign); the first that fails decides
   * the error.
   */
  function ValidateGetLeaguesOptions(o: GetLeaguesOptions): (r: Option<Error>)
    ensures var typeOk := o.leagueType == "" || o.leagueType in ValidLeagueTypes;
            var realmOk := o.realm == "" || o.realm in Domains.ValidRealms;
            var seasonOk := !(o.leagueType == "season" && o.season == "");
            var limitOk := 0 <= o.limit && o.limit <= (if o.compact then MaxCompactLimit else MaxLimit);
            && (r.None? <==> typeOk && realmOk && seasonOk && limitOk && o.offset >= 0)
            && (r == Some(InvalidLeagueType) <==> !typeOk)
            && (r == Some(InvalidRealm) <==> typeOk && !realmOk)
            && (r == Some(InvalidSeason) <==> typeOk && realmOk && !seasonOk)
            && (r == Some(InvalidLimit) <==> typeOk && realmOk && seasonOk && !limitOk)
            && (r == Some(InvalidOffset) <==> typeOk && realmOk && seasonOk && limitOk && o.offset < 0)
  {
    if o.leagueType != "" && o.leagueType !in ValidLeagueTypes then Some(InvalidLeagueType)
    else if o.realm != "" && o.realm !in Domains.ValidRealms then Some(InvalidRealm)
    else if o.leagueType == "season" && o.season == "" then Some(InvalidSeason)
    else if o.limit < 0 then Some(InvalidLimit)
    else if o.compact && o.limit > MaxCompactLimit then Some(InvalidLimit)
    else if !o.compact && o.limit > MaxLimit then Some(InvalidLimit)
    else if o.offset < 0 then Some(InvalidOffset)
    else None
  }

  /**
   * GetLeagues up to the request: the validation error, with no request made,
   * or the URL it requests, which is the bare leagues endpoint.
   */
  function GetLeaguesRequest(c: Client, o: GetLeaguesOptions): (r: Result<string>)
    ensures r.Failure? <==> ValidateGetLeaguesOptions(o).Some?
    ensures r.Failure? ==> Some(r.error) == ValidateGetLeaguesOptions(o)
    ensures r.Success? ==> r.value == Endpoints.FormatURL(c, Endpoints.LeaguesEndpoint)
  {
    match ValidateGetLeaguesOptions(o)
    case Some(e) => Failure(e)
    case None => Success(Endpoints.FormatURL(c, Endpoints.LeaguesEndpoint))
  }

  /**
   * The options only gate the request: any two option values that pass
   * validation make the same request, whatever their query strings say.
   */
  lemma OptionsNotSent(c: Client, o1: GetLeaguesOptions, o2: GetLeaguesOptions)
    requires ValidateGetLeaguesOptions(o1).None? && ValidateGetLeaguesOptions(o2).None?
    ensures GetLeaguesRequest(c, o1) == GetLeaguesRequest(c, o2)
  {
  }

  /**
   * GetLeagues, with `fetch` standing for the cached, rate-limited GET and the
   * JSON decoding of its body: a validation error is returned before `fetch`
   * is consulted.
   */
  function GetLeagues(c: Client, o: GetLeaguesOptions, fetch: string -> Result<seq<League>>): (r: Result<seq<League>>)
    ensures ValidateGetLeaguesOptions(o).Some? ==> r == Failure(ValidateGetLeaguesOptions(o).value)
    ensures ValidateGetLeaguesOptions(o).None? ==> r == fetch(Endpoints.FormatURL(c, Endpoints.LeaguesEndpoint))
  {
    match GetLeaguesRequest(c, o)
    case Failure(e) => Failure(e)
    case Success(url) => fetch(url)
  }

  /** Whether a league has a time limit (an end time other than the zero time). */
  predicate IsChallenge(l: League)
  {
    l.endTime != 0
  }

  /**
   * GetCurrentChallengeLeague: fetches all leagues with the zero options and
   * returns the first one with an end time; a fetch error is returned as is,
   * and a list without any time-limited league is an error.
   */
  method GetCurrentChallengeLeague(c: Client, fetch: string -> Result<seq<League>>) returns (r: Result<League>)
    ensures var all := fetch(Endpoints.FormatURL(c, Endpoints.LeaguesEndpoint));
            && (all.Failure? ==> r == Failure(all.error))
            && (all.Success? && r.Success? ==>
                  exists i :: 0 <= i < |all.value| && all.value[i] == r.value && IsChallenge(r.value)
                           && forall j :: 0 <= j < i ==> !IsChallenge(all.value[j]))
            && (all.Success? && r.Failure? ==>
                  r.error == ChallengeLeagueNotFound && forall j :: 0 <= j < |all.value| ==> !IsChallenge(all.value[j]))
  {
    var leagues := GetLeagues(c, NoOptions, fetch);
    if leagues.Failure? {
      return Failure(leagues.error);
    }
    var ls := leagues.value;
    for i := 0 to |ls|
      invariant forall j :: 0 <= j < i ==> !IsChallenge(ls[j])
    {
      if ls[i].endTime != 0 {
        return Success(ls[i]);
      }
    }
    return Failure(ChallengeLeagueNotFound);
  }
}

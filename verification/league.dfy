/**
 * A single league (league.go): option validation, the query string and the
 * request the client makes.
 */
module League {
  import opened Errors
  import opened Types
  import Query
  import Domains
  import Endpoints

  /** The league to fetch (required) and an optional realm. */
  datatype GetLeagueOptions = GetLeagueOptions(id: string, realm: string)

  function QueryValues(o: GetLeagueOptions): (u: Query.Values)
    ensures Query.Keys(u) <= {"realm"} && |u| <= 1
    ensures Query.Lookup(u, "realm") == if o.realm != "" then Some(o.realm) else None
  {
    if o.realm != "" then [Query.Pair("realm", o.realm)] else []
  }

  /** toQueryParams: `realm=<realm>` when a realm is set, the empty string otherwise. */
  function ToQueryParams(o: GetLeagueOptions): (q: string)
    ensures q == if o.realm == "" then "" else "realm=" + Query.Escape(o.realm)
    ensures |Query.Parse(q)| == if o.realm == "" then 0 else 1
    ensures Query.Lookup(Query.Parse(q), "realm") == if o.realm != "" then Some(Query.Escape(o.realm)) else None
    ensures o.realm != "" ==> Query.Keys(Query.Parse(q)) == {"realm"}
  {
    QueryFacts(o);
    QueryText(o);
    Query.Encode(QueryValues(o))
  }

  /** The encoded query as text: one escaped `realm` field, or nothing. */
  lemma QueryText(o: GetLeagueOptions)
    ensures var q := Query.Encode(QueryValues(o));
            && q == (if o.realm == "" then "" else "realm=" + Query.Escape(o.realm))
            && |Query.Parse(q)| == |QueryValues(o)|
  {
    if o.realm == "" {
      Query.EncodeNone();
    } else {
      RealmField(Query.Pair("realm", o.realm));
    }
  }

  /** The `realm` pair alone is encoded as the single field `realm=<escaped value>`. */
  lemma RealmField(p: Query.Pair)
    requires p.key == "realm"
    ensures Query.Encode([p]) == "realm=" + Query.Escape(p.value)
    ensures |Query.Parse(Query.Encode([p]))| == 1
  {
    assert Query.AllUnreserved(p.key) by {
      Query.PlainIsUnreserved("realm");
    }
    Query.EncodeOne(p);
    assert p.key + "=" == "realm=";
  }

  /** A realm written in unreserved characters goes out as `realm=<realm>`, as league_test.go expects for `test`. */
  lemma QueryOfPlainRealm(realm: string)
    requires realm != "" && Query.AllUnreserved(realm)
    ensures ToQueryParams(GetLeagueOptions("", realm)) == "realm=" + realm
  {
  }

  /** The realm `test` of league_test.go gives the query `realm=test`. */
  lemma QueryOfRealmTest()
    ensures ToQueryParams(GetLeagueOptions("", "test")) == "realm=test"
  {
    RealmTestText(ToQueryParams(GetLeagueOptions("", "test")));
  }

  lemma RealmTestText(q: string)
    requires q == "realm=" + Query.Escape("test")
    ensures q == "realm=test"
  {
    assert Query.AllUnreserved("test");
    assert "realm=" + "test" == "realm=test";
  }

  lemma QueryFacts(o: GetLeagueOptions)
    ensures var p := Query.Parse(Query.Encode(QueryValues(o)));
            && Query.Lookup(p, "realm") == (if o.realm != "" then Some(Query.Escape(o.realm)) else None)
            && (o.realm != "" ==> Query.Keys(p) == {"realm"})
  {
    QueryLookupFact(o);
    if o.realm != "" {
      QueryKeysFact(o);
    }
  }

  lemma QueryKeysFact(o: GetLeagueOptions)
    requires o.realm != ""
    ensures Query.Keys(Query.Parse(Query.Encode(QueryValues(o)))) == {"realm"}
  {
    var u := QueryValues(o);
    Query.PlainIsUnreserved("realm");
    assert u == [Query.Pair("realm", o.realm)] && Query.UnreservedKeys(u);
    Query.EncodedKeys(u);
    assert "realm" in Query.Keys(u);
  }

  lemma QueryLookupFact(o: GetLeagueOptions)
    ensures Query.Lookup(Query.Parse(Query.Encode(QueryValues(o))), "realm") ==
            (if o.realm != "" then Some(Query.Escape(o.realm)) else None)
  {
    Query.PlainIsUnreserved("realm");
    Query.LookupEncoded(QueryValues(o), "realm");
  }

  /**
   * validateGetLeagueOptions: the ID is required; a realm, when given, must be
   * one of the known realms.
   */
  function ValidateGetLeagueOptions(o: GetLeagueOptions): (r: Option<Error>)
    ensures r == Some(InvalidLeagueID) <==> o.id == ""
    ensures r == Some(InvalidRealm) <==> o.id != "" && o.realm != "" && o.realm !in Domains.ValidRealms
    ensures r.None? <==> o.id != "" && (o.realm == "" || o.realm in Domains.ValidRealms)
  {
    if o.id == "" then Some(InvalidLeagueID)
    else if o.realm != "" && o.realm !in Domains.ValidRealms then Some(InvalidRealm)
    else None
  }

  /**
   * GetLeague up to the request: the validation error, with no request made, or
   * the URL `formatURL("/leagues") + "/" + ID` it requests.
   */
  function GetLeagueRequest(c: Client, o: GetLeagueOptions): (r: Result<string>)
    ensures r.Failure? <==> ValidateGetLeagueOptions(o).Some?
    ensures r.Failure? ==> Some(r.error) == ValidateGetLeagueOptions(o)
    ensures r.Success? ==>
              Endpoints.Appended(r.value, Endpoints.FormatURL(c, Endpoints.LeaguesEndpoint), '/', o.id)
  {
    match ValidateGetLeagueOptions(o)
    case Some(e) => Failure(e)
    case None =>
      var base := Endpoints.FormatURL(c, Endpoints.LeaguesEndpoint);
      Endpoints.AppendedConcat(base, '/', o.id);
      Success(base + "/" + o.id)
  }
}

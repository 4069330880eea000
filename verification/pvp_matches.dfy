/** PvP matches (pvp_matches.go): the optional filters and the request URL. */
module PvpMatches {
  import opened Errors
  import opened Types
  import Query
  import Endpoints

  /** All filters optional. */
  datatype GetPVPMatchesOptions = GetPVPMatchesOptions(matchType: string, season: string, realm: string)

  /** The guarded adds of ToQueryParams, in the order it makes them. */
  function Guards(o: GetPVPMatchesOptions): seq<Query.Guarded>
  {
    [ Query.Guarded(o.matchType != "", Query.Pair("type", o.matchType)),
      Query.Guarded(o.season != "", Query.Pair("season", o.season)),
      Query.Guarded(o.realm != "", Query.Pair("realm", o.realm)) ]
  }

  /** The keys ToQueryParams may use. */
  const QueryKeys: set<string> := {"type", "season", "realm"}

  lemma GuardsDistinct(o: GetPVPMatchesOptions)
    ensures Query.DistinctKeys(Guards(o))
    ensures forall i :: 0 <= i < |Guards(o)| ==>
              Guards(o)[i].pair.key in QueryKeys && Query.AllUnreserved(Guards(o)[i].pair.key)
  {
    assert Query.AllUnreserved("type") && Query.AllUnreserved("season") && Query.AllUnreserved("realm");
  }

  /**
   * ToQueryParams: each of type, season and realm exactly when it is set, no
   * other key, keys in sorted order; no filter at all gives the empty string.
   */
  function ToQueryParams(o: GetPVPMatchesOptions): (q: string)
    ensures o == GetPVPMatchesOptions("", "", "") <==> q == ""
    ensures Query.Keys(Query.Parse(q)) <= QueryKeys
    ensures Query.SortedByKey(Query.Parse(q))
    ensures |Query.Parse(q)| == |Query.Present(Guards(o))|
    ensures Query.Lookup(Query.Parse(q), "type") == if o.matchType != "" then Some(Query.Escape(o.matchType)) else None
    ensures Query.Lookup(Query.Parse(q), "season") == if o.season != "" then Some(Query.Escape(o.season)) else None
    ensures Query.Lookup(Query.Parse(q), "realm") == if o.realm != "" then Some(Query.Escape(o.realm)) else None
  {
    QueryKeyFacts(o);
    QueryLookupFacts(o);
    QueryEmptyFacts(o);
    Query.Encode(Query.Present(Guards(o)))
  }

  lemma QueryKeyFacts(o: GetPVPMatchesOptions)
    ensures var p := Query.Parse(Query.Encode(Query.Present(Guards(o))));
            Query.Keys(p) <= QueryKeys && Query.SortedByKey(p) && |p| == |Query.Present(Guards(o))|
  {
    GuardsDistinct(o);
    Query.EncodedGuardKeys(Guards(o), QueryKeys);
  }

  lemma QueryLookupFacts(o: GetPVPMatchesOptions)
    ensures var p := Query.Parse(Query.Encode(Query.Present(Guards(o))));
            && Query.Lookup(p, "type") == (if o.matchType != "" then Some(Query.Escape(o.matchType)) else None)
            && Query.Lookup(p, "season") == (if o.season != "" then Some(Query.Escape(o.season)) else None)
            && Query.Lookup(p, "realm") == (if o.realm != "" then Some(Query.Escape(o.realm)) else None)
  {
    GuardsDistinct(o);
    QueryLookupAt(o, 0);
    QueryLookupAt(o, 1);
    QueryLookupAt(o, 2);
  }

  lemma QueryLookupAt(o: GetPVPMatchesOptions, i: int)
    requires 0 <= i < 3
    ensures var g := Guards(o);
            Query.Lookup(Query.Parse(Query.Encode(Query.Present(g))), g[i].pair.key) ==
              if g[i].present then Some(Query.Escape(g[i].pair.value)) else None
  {
    GuardsDistinct(o);
    Query.EncodedPresent(Guards(o), i);
  }

  lemma QueryEmptyFacts(o: GetPVPMatchesOptions)
    ensures o == GetPVPMatchesOptions("", "", "") <==> Query.Encode(Query.Present(Guards(o))) == ""
  {
    QueryLookupFacts(o);
    if o == GetPVPMatchesOptions("", "", "") {
      Query.PresentNone(Guards(o));
    }
  }

  /**
   * The PvP matches test's filters (a type and a season, no realm), when written
   * in unreserved characters, go out season first: `season=<S>&type=<T>`.
   */
  lemma QueryOfTypeAndSeason(t: string, s: string)
    requires t != "" && s != "" && Query.AllUnreserved(t) && Query.AllUnreserved(s)
    ensures ToQueryParams(GetPVPMatchesOptions(t, s, "")) == "season=" + s + "&type=" + t
  {
    var pt := Query.Pair("type", t);
    var ps := Query.Pair("season", s);
    assert ToQueryParams(GetPVPMatchesOptions(t, s, "")) == Query.Encode([pt, ps]) by {
      PresentTypeAndSeason(t, s);
    }
    assert Query.Encode([pt, ps]) == "season" + "=" + s + "&" + "type" + "=" + t by {
      SeasonBeforeType();
      Query.EncodeSwapped(pt, ps);
    }
    FieldsRead(s, t);
  }

  lemma FieldsRead(s: string, t: string)
    ensures "season" + "=" + s + "&" + "type" + "=" + t == "season=" + s + "&type=" + t
  {
  }

  lemma SeasonBeforeType()
    ensures Query.AllUnreserved("type") && Query.AllUnreserved("season") && !Query.KeyLe("type", "season")
  {
  }

  lemma PresentTypeAndSeason(t: string, s: string)
    requires t != "" && s != ""
    ensures Query.Present(Guards(GetPVPMatchesOptions(t, s, ""))) == [Query.Pair("type", t), Query.Pair("season", s)]
  {
    var g := Guards(GetPVPMatchesOptions(t, s, ""));
    assert g[2..][1..] == [];
    assert Query.Present(g[2..]) == [];
    assert g[1..][1..] == g[2..];
    assert Query.Present(g[1..]) == [Query.Pair("season", s)];
  }

  /** GetPVPMatches' URL: the PvP endpoint URL, '?', then the query, even an empty one. */
  function GetPVPMatchesURL(c: Client, o: GetPVPMatchesOptions): (url: string)
    ensures Endpoints.Appended(url, Endpoints.FormatURL(c, Endpoints.PvpMatchesEndpoint), '?', ToQueryParams(o))
  {
    var base := Endpoints.FormatURL(c, Endpoints.PvpMatchesEndpoint);
    Endpoints.AppendedConcat(base, '?', ToQueryParams(o));
    base + "?" + ToQueryParams(o)
  }
}

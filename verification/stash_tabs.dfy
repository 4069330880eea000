/**
 * Public stash tabs (stash_tabs.go): the change-ID query, the stash request and
 * the request for the latest change ID on the poe.ninja host.
 */
module StashTabs {
  import opened Errors
  import opened Types
  import Query
  import Endpoints

  /** The change ID to start from; empty asks for the oldest stashes. */
  datatype GetStashOptions = GetStashOptions(id: string)

  /** toQueryParams: `id=<ID>` when an ID is given, the empty string otherwise. */
  function ToQueryParams(o: GetStashOptions): (q: string)
    ensures q == if o.id == "" then "" else "id=" + Query.Escape(o.id)
    ensures |Query.Parse(q)| == if o.id == "" then 0 else 1
    ensures o.id == "" <==> q == ""
    ensures Query.Keys(Query.Parse(q)) <= {"id"}
    ensures Query.Lookup(Query.Parse(q), "id") == if o.id != "" then Some(Query.Escape(o.id)) else None
  {
    QueryFacts(o);
    QueryText(o);
    Query.Encode(Query.Present(Guards(o)))
  }

  /** The encoded query as text: one escaped `id` field, or nothing. */
  lemma QueryText(o: GetStashOptions)
    ensures var u := Query.Present(Guards(o));
            && Query.Encode(u) == (if o.id == "" then "" else "id=" + Query.Escape(o.id))
            && |Query.Parse(Query.Encode(u))| == (if o.id == "" then 0 else 1)
  {
    var p := Query.Pair("id", o.id);
    if o.id == "" {
      assert Query.Present(Guards(o)) == [];
      Query.EncodeNone();
    } else {
      assert Query.Present(Guards(o)) == [p];
      Query.PlainIsUnreserved("id");
      Query.EncodeOne(p);
    }
  }

  function Guards(o: GetStashOptions): seq<Query.Guarded>
  {
    [Query.Guarded(o.id != "", Query.Pair("id", o.id))]
  }

  lemma QueryFacts(o: GetStashOptions)
    ensures var q := Query.Encode(Query.Present(Guards(o)));
            && (o.id == "" <==> q == "")
            && Query.Keys(Query.Parse(q)) <= {"id"}
            && Query.Lookup(Query.Parse(q), "id") == (if o.id != "" then Some(Query.Escape(o.id)) else None)
  {
    QueryLookupFacts(o);
    QueryKeyFacts(o);
    var q := Query.Encode(Query.Present(Guards(o)));
    if o.id == "" {
      assert Query.Present(Guards(o)) == [];
    } else {
      assert Query.Parse(q) != [];
    }
  }

  lemma QueryLookupFacts(o: GetStashOptions)
    ensures var q := Query.Encode(Query.Present(Guards(o)));
            Query.Lookup(Query.Parse(q), "id") == (if o.id != "" then Some(Query.Escape(o.id)) else None)
  {
    Query.EncodedPresent(Guards(o), 0);
  }

  lemma QueryKeyFacts(o: GetStashOptions)
    ensures Query.Keys(Query.Parse(Query.Encode(Query.Present(Guards(o))))) <= {"id"}
  {
    var g := Guards(o);
    Query.PresentKeys(g);
    Query.EncodedKeys(Query.Present(g));
  }

  /**
   * An ID written in unreserved characters goes out as `id=<ID>` exactly, as
   * the stash tabs test expects for ID 1234.
   */
  lemma QueryOfPlainID(id: string)
    requires id != "" && Query.AllUnreserved(id)
    ensures ToQueryParams(GetStashOptions(id)) == "id=" + id
  {
    var p := Query.Pair("id", id);
    assert Query.Present(Guards(GetStashOptions(id))) == [p];
    Query.EncodeSingle(p);
  }

  /**
   * GetStashes up to the request: the stash endpoint URL, '?', then the query,
   * the '?' written even when the query is empty.
   */
  function GetStashesURL(c: Client, o: GetStashOptions): (url: string)
    ensures Endpoints.Appended(url, Endpoints.FormatURL(c, Endpoints.StashTabsEndpoint), '?', ToQueryParams(o))
  {
    var base := Endpoints.FormatURL(c, Endpoints.StashTabsEndpoint);
    Endpoints.AppendedConcat(base, '?', ToQueryParams(o));
    base + "?" + ToQueryParams(o)
  }

  /** strings.HasPrefix. */
  predicate HasPrefix(s: string, prefix: string)
  {
    |prefix| <= |s| && s[..|prefix|] == prefix
  }

  /** The loopback address that switches the poe.ninja request to plain http. */
  const LocalNinjaHost: string := "127.0.0.1"

  /** The poe.ninja path that reports the latest change ID. */
  const StatsPath: string := "/api/Data/GetStats"

  /**
   * GetLatestStashID's URL: http for a host starting with the loopback address,
   * https for any other; the host follows "://" and the stats path ends the URL.
   */
  function LatestStashURL(ninjaHost: string): (url: string)
    ensures var scheme := if HasPrefix(ninjaHost, LocalNinjaHost) then "http" else "https";
            && |url| == |scheme| + 3 + |ninjaHost| + |StatsPath|
            && url[..|scheme|] == scheme
            && url[|scheme|..|scheme| + 3] == "://"
            && url[|scheme| + 3..|scheme| + 3 + |ninjaHost|] == ninjaHost
            && url[|url| - |StatsPath|..] == StatsPath
  {
    if HasPrefix(ninjaHost, LocalNinjaHost) then "http://" + ninjaHost + StatsPath
    else "https://" + ninjaHost + StatsPath
  }

  /**
   * GetLatestStashID, with `get` standing for the request and `decode` for
   * reading next_change_id out of the body: a request error is returned
   * before anything is decoded.
   */
  function GetLatestStashID(c: Client, get: string -> Result<string>, decode: string -> Result<string>): (r: Result<string>)
    ensures var resp := get(LatestStashURL(c.ninjaHost));
            && (resp.Failure? ==> r == Failure(resp.error))
            && (resp.Success? ==> r == decode(resp.value))
  {
    match get(LatestStashURL(c.ninjaHost))
    case Failure(e) => Failure(e)
    case Success(body) => decode(body)
  }
}

/**
 * Ladders (the older ladders.go snapshot): the same paging as ladder.go, with
 * public limit and offset, another order of adds in the query, and no option
 * validation before a page is requested.
 */
module LaddersApi {
  import opened Errors
  import opened Types
  import Query
  import Endpoints
  import opened Pagination

  /**
   * All fields optional except the ID; GetLadder overrides the limit and, for
   * the sub-pages, the offset.
   */
  datatype GetLadderOptions = GetLadderOptions(
    id: string, realm: string, limit: int, offset: int, ladderType: string, uniqueIDs: bool,
    accountName: string, labyrinthDifficulty: string, labyrinthStartTime: int)

  /** The keys ToQueryParams can emit. */
  const QueryKeys: set<string> :=
    {"realm", "limit", "offset", "type", "track", "accountName", "difficulty", "start"}

  /** The guarded adds of ToQueryParams, in the order it makes them. */
  function Guards(o: GetLadderOptions): seq<Query.Guarded>
  {
    [ Query.Guarded(o.realm != "", Query.Pair("realm", o.realm)),
      Query.Guarded(o.limit != 0, Query.Pair("limit", Query.Itoa(o.limit))),
      Query.Guarded(o.offset != 0, Query.Pair("offset", Query.Itoa(o.offset))),
      Query.Guarded(o.ladderType != "", Query.Pair("type", o.ladderType)),
      Query.Guarded(true, Query.Pair("track", Query.FormatBool(o.uniqueIDs))),
      Query.Guarded(o.accountName != "" && o.ladderType == "league", Query.Pair("accountName", o.accountName)),
      Query.Guarded(o.labyrinthDifficulty != "" && o.ladderType == "labyrinth",
                    Query.Pair("difficulty", o.labyrinthDifficulty)),
      Query.Guarded(o.labyrinthStartTime != 0 && o.ladderType == "labyrinth",
                    Query.Pair("start", Query.Itoa(o.labyrinthStartTime))) ]
  }

  lemma GuardsDistinct(o: GetLadderOptions)
    ensures Query.DistinctKeys(Guards(o))
    ensures forall i :: 0 <= i < |Guards(o)| ==>
              Guards(o)[i].pair.key in QueryKeys && Query.AllUnreserved(Guards(o)[i].pair.key)
  {
  }

  /** What the encoded query says about the key of the i-th add. */
  lemma QueryLookupAt(o: GetLadderOptions, i: int)
    requires 0 <= i < |Guards(o)|
    ensures var g := Guards(o);
            Query.Lookup(Query.Parse(Query.Encode(Query.Present(g))), g[i].pair.key) ==
              if g[i].present then Some(Query.Escape(g[i].pair.value)) else None
  {
    GuardsDistinct(o);
    Query.EncodedPresent(Guards(o), i);
  }

  /**
   * ToQueryParams: the same keys and values as the ladder.go snapshot (track
   * always; realm, type, limit, offset when set; account name only for a
   * league ladder; difficulty and start only for a labyrinth ladder), sorted.
   */
  function ToQueryParams(o: GetLadderOptions): (q: string)
    ensures var p := Query.Parse(q);
            && Query.Keys(p) <= QueryKeys
            && Query.SortedByKey(p)
            && |p| == |Query.Present(Guards(o))|
            && Query.Lookup(p, "track") == Some(Query.FormatBool(o.uniqueIDs))
            && Query.Lookup(p, "realm") == (if o.realm != "" then Some(Query.Escape(o.realm)) else None)
            && Query.Lookup(p, "type") == (if o.ladderType != "" then Some(Query.Escape(o.ladderType)) else None)
            && Query.Lookup(p, "accountName") ==
                 (if o.accountName != "" && o.ladderType == "league"
                  then Some(Query.Escape(o.accountName)) else None)
            && Query.Lookup(p, "difficulty") ==
                 (if o.labyrinthDifficulty != "" && o.ladderType == "labyrinth"
                  then Some(Query.Escape(o.labyrinthDifficulty)) else None)
            && Query.Lookup(p, "start") ==
                 (if o.labyrinthStartTime != 0 && o.ladderType == "labyrinth"
                  then Some(Query.Itoa(o.labyrinthStartTime)) else None)
            && Query.Lookup(p, "limit") == (if o.limit != 0 then Some(Query.Itoa(o.limit)) else None)
            && Query.Lookup(p, "offset") == (if o.offset != 0 then Some(Query.Itoa(o.offset)) else None)
  {
    QueryKeyFacts(o);
    QueryRealmFact(o);
    QueryLimitFact(o);
    QueryOffsetFact(o);
    QueryTypeFact(o);
    QueryTrackFact(o);
    QueryAccountNameFact(o);
    QueryDifficultyFact(o);
    QueryStartFact(o);
    Query.Encode(Query.Present(Guards(o)))
  }

  lemma QueryKeyFacts(o: GetLadderOptions)
    ensures var p := Query.Parse(Query.Encode(Query.Present(Guards(o))));
            Query.Keys(p) <= QueryKeys && Query.SortedByKey(p) && |p| == |Query.Present(Guards(o))|
  {
    GuardsDistinct(o);
    Query.EncodedGuardKeys(Guards(o), QueryKeys);
  }

  // One lemma per key: the lookups are cheap one at a time and costly together.

  lemma QueryRealmFact(o: GetLadderOptions)
    ensures Query.Lookup(Query.Parse(Query.Encode(Query.Present(Guards(o)))), "realm") ==
            (if o.realm != "" then Some(Query.Escape(o.realm)) else None)
  {
    QueryLookupAt(o, 0);
  }

  lemma QueryLimitFact(o: GetLadderOptions)
    ensures Query.Lookup(Query.Parse(Query.Encode(Query.Present(Guards(o)))), "limit") ==
            (if o.limit != 0 then Some(Query.Itoa(o.limit)) else None)
  {
    QueryLookupAt(o, 1);
  }

  lemma QueryOffsetFact(o: GetLadderOptions)
    ensures Query.Lookup(Query.Parse(Query.Encode(Query.Present(Guards(o)))), "offset") ==
            (if o.offset != 0 then Some(Query.Itoa(o.offset)) else None)
  {
    QueryLookupAt(o, 2);
  }

  lemma QueryTypeFact(o: GetLadderOptions)
    ensures Query.Lookup(Query.Parse(Query.Encode(Query.Present(Guards(o)))), "type") ==
            (if o.ladderType != "" then Some(Query.Escape(o.ladderType)) else None)
  {
    QueryLookupAt(o, 3);
  }

  lemma QueryTrackFact(o: GetLadderOptions)
    ensures Query.Lookup(Query.Parse(Query.Encode(Query.Present(Guards(o)))), "track") ==
            Some(Query.FormatBool(o.uniqueIDs))
  {
    QueryLookupAt(o, 4);
  }

  lemma QueryAccountNameFact(o: GetLadderOptions)
    ensures Query.Lookup(Query.Parse(Query.Encode(Query.Present(Guards(o)))), "accountName") ==
            (if o.accountName != "" && o.ladderType == "league" then Some(Query.Escape(o.accountName)) else None)
  {
    QueryLookupAt(o, 5);
  }

  lemma QueryDifficultyFact(o: GetLadderOptions)
    ensures Query.Lookup(Query.Parse(Query.Encode(Query.Present(Guards(o)))), "difficulty") ==
            (if o.labyrinthDifficulty != "" && o.ladderType == "labyrinth" then Some(Query.Escape(o.labyrinthDifficulty)) else None)
  {
    QueryLookupAt(o, 6);
  }

  lemma QueryStartFact(o: GetLadderOptions)
    ensures Query.Lookup(Query.Parse(Query.Encode(Query.Present(Guards(o)))), "start") ==
            (if o.labyrinthStartTime != 0 && o.ladderType == "labyrinth" then Some(Query.Itoa(o.labyrinthStartTime)) else None)
  {
    QueryLookupAt(o, 7);
  }

  /**
   * The query of a league ladder whose realm and account name are written in
   * unreserved characters, with a limit and an offset: exactly the six fields
   * accountName, limit, offset, realm, track and type, in that order.
   */
  lemma LeagueLadderQuery(o: GetLadderOptions)
    requires o.ladderType == "league" && o.realm != "" && o.accountName != "" && o.limit != 0 && o.offset != 0
    requires Query.AllUnreserved(o.realm) && Query.AllUnreserved(o.accountName)
    ensures ToQueryParams(o) == Query.Join(LeagueFields(o))
  {
    var f := LeagueFields(o);
    LeaguePresent(o);
    LeagueFieldsOrdered(o);
    Query.EncodeInOrder(Query.Present(Guards(o)), f);
  }

  function LeagueFields(o: GetLadderOptions): Query.Values
  {
    [ Query.Pair("accountName", o.accountName), Query.Pair("limit", Query.Itoa(o.limit)),
      Query.Pair("offset", Query.Itoa(o.offset)), Query.Pair("realm", o.realm),
      Query.Pair("track", Query.FormatBool(o.uniqueIDs)), Query.Pair("type", "league") ]
  }

  lemma LeaguePresent(o: GetLadderOptions)
    requires o.ladderType == "league" && o.realm != "" && o.accountName != "" && o.limit != 0 && o.offset != 0
    ensures multiset(Query.Present(Guards(o))) == multiset(LeagueFields(o))
  {
    var f := LeagueFields(o);
    LeagueAdds(o);
    Query.SamePairs(Query.Present(Guards(o)), f);
  }

  /** The adds the guards make for these options, in the order the source makes them. */
  lemma LeagueAdds(o: GetLadderOptions)
    requires o.ladderType == "league" && o.realm != "" && o.accountName != "" && o.limit != 0 && o.offset != 0
    ensures var f := LeagueFields(o);
            Query.Present(Guards(o)) == [f[3], f[1], f[2], f[5], f[4], f[0]]
  {
    var f := LeagueFields(o);
    var g := Guards(o);
    Query.PresentEight(g);
    assert Query.Made(g[0]) == [f[3]] && Query.Made(g[1]) == [f[1]] && Query.Made(g[2]) == [f[2]];
    assert Query.Made(g[3]) == [f[5]] && Query.Made(g[4]) == [f[4]] && Query.Made(g[5]) == [f[0]];
    assert Query.Made(g[6]) == [] && Query.Made(g[7]) == [];
  }

  lemma LeagueFieldsOrdered(o: GetLadderOptions)
    requires Query.AllUnreserved(o.realm) && Query.AllUnreserved(o.accountName)
    ensures Query.StrictlySorted(LeagueFields(o))
    ensures forall i :: 0 <= i < |LeagueFields(o)| ==>
              Query.AllUnreserved(LeagueFields(o)[i].key) && Query.AllUnreserved(LeagueFields(o)[i].value)
  {
    var f := LeagueFields(o);
    Query.LadderKeyOrder();
    forall i | 0 <= i < |f| - 1 ensures Query.KeyLe(f[i].key, f[i + 1].key) && f[i].key != f[i + 1].key {
      if i == 0 { } else if i == 1 { } else if i == 2 { } else if i == 3 { }
    }
    Query.LadderKeysUnreserved();
    assert Query.AllUnreserved("league");
    forall i | 0 <= i < |f| ensures Query.AllUnreserved(f[i].key) && Query.AllUnreserved(f[i].value) {
      if i == 0 { } else if i == 1 { } else if i == 2 { } else if i == 3 { } else if i == 4 { }
    }
  }

  /** The options of the league-ladder test in ladders_test.go. */
  const LeagueTest := GetLadderOptions("", "sony", 200, 200, "league", true, "testaccount", "", 0)

  /** The fields that test expects in the query, in order. */
  const LeagueTestPairs: Query.Values :=
    [ Query.Pair("accountName", "testaccount"), Query.Pair("limit", "200"),
      Query.Pair("offset", "200"), Query.Pair("realm", "sony"),
      Query.Pair("track", "true"), Query.Pair("type", "league") ]

  lemma LeagueTestFields()
    ensures LeagueFields(LeagueTest) == LeagueTestPairs
  {
    Query.ItoaLiteral200();
  }

  /** The query of the league-ladder test is the one it expects. */
  lemma LeagueTestQuery()
    ensures ToQueryParams(LeagueTest) == Query.Join(LeagueTestPairs)
  {
    assert Query.AllUnreserved("sony") && Query.AllUnreserved("testaccount");
    LeagueLadderQuery(LeagueTest);
    LeagueTestFields();
  }

  /**
   * The query of a labyrinth ladder whose realm and difficulty are written in
   * unreserved characters, with a start time, a limit and an offset: exactly
   * the seven fields difficulty, limit, offset, realm, start, track and type.
   */
  lemma LabyrinthLadderQuery(o: GetLadderOptions)
    requires o.ladderType == "labyrinth" && o.realm != "" && o.labyrinthDifficulty != ""
    requires o.labyrinthStartTime != 0 && o.limit != 0 && o.offset != 0
    requires Query.AllUnreserved(o.realm) && Query.AllUnreserved(o.labyrinthDifficulty)
    ensures ToQueryParams(o) == Query.Join(LabyrinthFields(o))
  {
    LabyrinthPresent(o);
    LabyrinthFieldsOrdered(o);
    Query.EncodeInOrder(Query.Present(Guards(o)), LabyrinthFields(o));
  }

  function LabyrinthFields(o: GetLadderOptions): Query.Values
  {
    [ Query.Pair("difficulty", o.labyrinthDifficulty), Query.Pair("limit", Query.Itoa(o.limit)),
      Query.Pair("offset", Query.Itoa(o.offset)), Query.Pair("realm", o.realm),
      Query.Pair("start", Query.Itoa(o.labyrinthStartTime)),
      Query.Pair("track", Query.FormatBool(o.uniqueIDs)), Query.Pair("type", "labyrinth") ]
  }

  lemma LabyrinthPresent(o: GetLadderOptions)
    requires o.ladderType == "labyrinth" && o.realm != "" && o.labyrinthDifficulty != ""
    requires o.labyrinthStartTime != 0 && o.limit != 0 && o.offset != 0
    ensures multiset(Query.Present(Guards(o))) == multiset(LabyrinthFields(o))
  {
    var f := LabyrinthFields(o);
    LabyrinthAdds(o);
    Query.SamePairs(Query.Present(Guards(o)), f);
  }

  /** The adds the guards make for these options, in the order the source makes them. */
  lemma LabyrinthAdds(o: GetLadderOptions)
    requires o.ladderType == "labyrinth" && o.realm != "" && o.labyrinthDifficulty != ""
    requires o.labyrinthStartTime != 0 && o.limit != 0 && o.offset != 0
    ensures var f := LabyrinthFields(o);
            Query.Present(Guards(o)) == [f[3], f[1], f[2], f[6], f[5], f[0], f[4]]
  {
    var f := LabyrinthFields(o);
    var g := Guards(o);
    Query.PresentEight(g);
    assert Query.Made(g[0]) == [f[3]] && Query.Made(g[1]) == [f[1]] && Query.Made(g[2]) == [f[2]];
    assert Query.Made(g[3]) == [f[6]] && Query.Made(g[4]) == [f[5]] && Query.Made(g[5]) == [];
    assert Query.Made(g[6]) == [f[0]] && Query.Made(g[7]) == [f[4]];
  }

  lemma LabyrinthFieldsOrdered(o: GetLadderOptions)
    requires Query.AllUnreserved(o.realm) && Query.AllUnreserved(o.labyrinthDifficulty)
    ensures Query.StrictlySorted(LabyrinthFields(o))
    ensures forall i :: 0 <= i < |LabyrinthFields(o)| ==>
              Query.AllUnreserved(LabyrinthFields(o)[i].key) && Query.AllUnreserved(LabyrinthFields(o)[i].value)
  {
    var f := LabyrinthFields(o);
    Query.LadderKeyOrder();
    forall i | 0 <= i < |f| - 1 ensures Query.KeyLe(f[i].key, f[i + 1].key) && f[i].key != f[i + 1].key {
      if i == 0 { } else if i == 1 { } else if i == 2 { } else if i == 3 { } else if i == 4 { }
    }
    Query.LadderKeysUnreserved();
    assert Query.AllUnreserved("labyrinth");
    forall i | 0 <= i < |f| ensures Query.AllUnreserved(f[i].key) && Query.AllUnreserved(f[i].value) {
      if i == 0 { } else if i == 1 { } else if i == 2 { } else if i == 3 { } else if i == 4 { } else if i == 5 { }
    }
  }

  /** The options of the labyrinth-ladder test in ladders_test.go. */
  const LabyrinthTest := GetLadderOptions("", "xbox", 200, 400, "labyrinth", false, "", "Normal", 1565283600)

  /** The fields that test expects in the query, in order. */
  const LabyrinthTestPairs: Query.Values :=
    [ Query.Pair("difficulty", "Normal"), Query.Pair("limit", "200"),
      Query.Pair("offset", "400"), Query.Pair("realm", "xbox"),
      Query.Pair("start", "1565283600"), Query.Pair("track", "false"),
      Query.Pair("type", "labyrinth") ]

  lemma LabyrinthTestFields()
    ensures LabyrinthFields(LabyrinthTest) == LabyrinthTestPairs
  {
    Query.ItoaLiteral200(); Query.ItoaLiteralStart();
  }

  /** The query of the labyrinth-ladder test is the one it expects. */
  lemma LabyrinthTestQuery()
    ensures ToQueryParams(LabyrinthTest) == Query.Join(LabyrinthTestPairs)
  {
    assert Query.AllUnreserved("xbox") && Query.AllUnreserved("Normal");
    LabyrinthLadderQuery(LabyrinthTest);
    LabyrinthTestFields();
  }

  /** The page URL: the ladders endpoint URL, '/', the ID, '?', then the query. */
  function PageURL(c: Client, o: GetLadderOptions): (url: string)
    ensures Endpoints.ResourceQuery(url, Endpoints.FormatURL(c, Endpoints.LaddersEndpoint), o.id, ToQueryParams(o))
  {
    var base := Endpoints.FormatURL(c, Endpoints.LaddersEndpoint);
    Endpoints.ResourceQueryConcat(base, o.id, ToQueryParams(o));
    base + "/" + o.id + "?" + ToQueryParams(o)
  }

  /**
   * getLadderPage, with `get` standing for the request and the decoding of
   * its body: there is no validation, so every page is requested.
   */
  function GetLadderPage(c: Client, o: GetLadderOptions, get: string -> Result<Ladder>): (r: Result<Ladder>)
    ensures r == get(PageURL(c, o))
  {
    get(PageURL(c, o))
  }

  /** The page at `offset`, with every other option as given. */
  function PageAt(c: Client, o: GetLadderOptions, get: string -> Result<Ladder>): int -> Result<Ladder>
  {
    offset => GetLadderPage(c, o.(offset := offset), get)
  }

  /** The probe page: the caller's options with the limit forced to 200. */
  function FirstPage(c: Client, opts: GetLadderOptions, get: string -> Result<Ladder>): Result<Ladder>
  {
    GetLadderPage(c, opts.(limit := PageSize), get)
  }

  /** What GetLadder returns, assembled as in the ladder.go snapshot. */
  function GetLadderResult(c: Client, opts: GetLadderOptions, get: string -> Result<Ladder>): Result<Ladder>
  {
    Assemble(FirstPage(c, opts, get), PageAt(c, opts.(limit := PageSize), get))
  }

  /**
   * GetLadder: the probe page tells the ladder's size; the remaining pages are
   * requested at offsets 200, 400, ... below that size, one after another.
   * `requested` lists the offsets asked for.
   */
  method GetLadder(c: Client, opts: GetLadderOptions, get: string -> Result<Ladder>)
    returns (r: Result<Ladder>, ghost requested: seq<int>)
    ensures r == GetLadderResult(c, opts, get)
    ensures requested == [opts.offset] + (if FirstPage(c, opts, get).Success?
                                          then SubPageOffsets(FirstPage(c, opts, get).value.totalEntries) else [])
  {
    var o := opts.(limit := PageSize);
    var first := GetLadderPage(c, o, get);
    requested := [o.offset];
    if first.Failure? {
      return Failure(first.error), requested;
    }
    var size := first.value.totalEntries;
    if size <= PageSize {
      return first, requested + SubPageOffsets(size);
    }
    var rest;
    ghost var offsets;
    rest, offsets := FetchSubPages(size, PageAt(c, o, get));
    requested := requested + offsets;
    if rest.Failure? {
      return Failure(rest.error), requested;
    }
    return Success(first.value.(entries := rest.value)), requested;
  }

  /**
   * Without validation, every sub-page of a large ladder is requested, at
   * offsets beyond 15000 too, and a ladder whose requests all succeed comes
   * back with every sub-page's entries.
   */
  lemma LargeLadderRequested(c: Client, opts: GetLadderOptions, get: string -> Result<Ladder>)
    requires forall url :: get(url).Success?
    requires FirstPage(c, opts, get).value.totalEntries > PageSize
    ensures var probe := FirstPage(c, opts, get).value;
            var pages := SubPages(probe.totalEntries, PageAt(c, opts.(limit := PageSize), get));
            && (forall k :: 0 <= k < |pages| ==> pages[k].Success?)
            && GetLadderResult(c, opts, get) == Success(probe.(entries := Flatten(pages)))
  {
    var probe := FirstPage(c, opts, get).value;
    AssembleFromSubPages(probe, PageAt(c, opts.(limit := PageSize), get));
  }
}

/** The two ladder snapshots build the same query for the same request. */
module LadderSnapshots {
  import opened Errors
  import Query
  import LadderApi
  import LaddersApi

  /** The same request in the ladder.go snapshot's options. */
  function AsLadderOptions(o: LaddersApi.GetLadderOptions): LadderApi.GetLadderOptions
  {
    LadderApi.GetLadderOptions(o.id, o.realm, o.ladderType, o.uniqueIDs, o.accountName,
                               o.labyrinthDifficulty, o.labyrinthStartTime, o.limit, o.offset)
  }

  /** The encoded adds of either snapshot's ToQueryParams. */
  function Sent(o: LaddersApi.GetLadderOptions): Query.Values
  {
    Query.Parse(Query.Encode(Query.Present(LaddersApi.Guards(o))))
  }

  function SentByLadder(o: LaddersApi.GetLadderOptions): Query.Values
  {
    Query.Parse(Query.Encode(Query.Present(LadderApi.Guards(AsLadderOptions(o)))))
  }

  /**
   * Both snapshots send the same value (or none) under every key, so they
   * build the same query for the same request.
   */
  lemma SnapshotQueriesAgree(o: LaddersApi.GetLadderOptions, k: string)
    ensures Query.Lookup(Sent(o), k) == Query.Lookup(SentByLadder(o), k)
  {
    if k == "realm" {
      AgreeRealm(o, k);
    } else if k == "limit" {
      AgreeLimit(o, k);
    } else if k == "offset" {
      AgreeOffset(o, k);
    } else if k == "type" {
      AgreeType(o, k);
    } else if k == "track" {
      AgreeTrack(o, k);
    } else if k == "accountName" {
      AgreeAccountName(o, k);
    } else if k == "difficulty" {
      AgreeDifficulty(o, k);
    } else if k == "start" {
      AgreeStart(o, k);
    } else {
      AgreeElsewhere(o, k);
    }
  }

  lemma AgreeElsewhere(o: LaddersApi.GetLadderOptions, k: string)
    requires k !in LadderApi.QueryKeys
    ensures Query.Lookup(Sent(o), k) == None && Query.Lookup(SentByLadder(o), k) == None
  {
    LaddersApi.QueryKeyFacts(o);
    LadderApi.QueryKeyFacts(AsLadderOptions(o));
    Query.LookupNone(Sent(o), k);
    Query.LookupNone(SentByLadder(o), k);
  }

  lemma AgreeRealm(o: LaddersApi.GetLadderOptions, k: string)
    requires k == "realm"
    ensures Query.Lookup(Sent(o), k) == Query.Lookup(SentByLadder(o), k)
  {
    LaddersApi.QueryRealmFact(o);
    LadderApi.QueryRealmFact(AsLadderOptions(o));
  }

  lemma AgreeLimit(o: LaddersApi.GetLadderOptions, k: string)
    requires k == "limit"
    ensures Query.Lookup(Sent(o), k) == Query.Lookup(SentByLadder(o), k)
  {
    LaddersApi.QueryLimitFact(o);
    LadderApi.QueryLimitFact(AsLadderOptions(o));
  }

  lemma AgreeOffset(o: LaddersApi.GetLadderOptions, k: string)
    requires k == "offset"
    ensures Query.Lookup(Sent(o), k) == Query.Lookup(SentByLadder(o), k)
  {
    LaddersApi.QueryOffsetFact(o);
    LadderApi.QueryOffsetFact(AsLadderOptions(o));
  }

  lemma AgreeType(o: LaddersApi.GetLadderOptions, k: string)
    requires k == "type"
    ensures Query.Lookup(Sent(o), k) == Query.Lookup(SentByLadder(o), k)
  {
    LaddersApi.QueryTypeFact(o);
    LadderApi.QueryTypeFact(AsLadderOptions(o));
  }

  lemma AgreeTrack(o: LaddersApi.GetLadderOptions, k: string)
    requires k == "track"
    ensures Query.Lookup(Sent(o), k) == Query.Lookup(SentByLadder(o), k)
  {
    LaddersApi.QueryTrackFact(o);
    LadderApi.QueryTrackFact(AsLadderOptions(o));
  }

  lemma AgreeAccountName(o: LaddersApi.GetLadderOptions, k: string)
    requires k == "accountName"
    ensures Query.Lookup(Sent(o), k) == Query.Lookup(SentByLadder(o), k)
  {
    LaddersApi.QueryAccountNameFact(o);
    LadderApi.QueryAccountNameFact(AsLadderOptions(o));
  }

  lemma AgreeDifficulty(o: LaddersApi.GetLadderOptions, k: string)
    requires k == "difficulty"
    ensures Query.Lookup(Sent(o), k) == Query.Lookup(SentByLadder(o), k)
  {
    LaddersApi.QueryDifficultyFact(o);
    LadderApi.QueryDifficultyFact(AsLadderOptions(o));
  }

  lemma AgreeStart(o: LaddersApi.GetLadderOptions, k: string)
    requires k == "start"
    ensures Query.Lookup(Sent(o), k) == Query.Lookup(SentByLadder(o), k)
  {
    LaddersApi.QueryStartFact(o);
    LadderApi.QueryStartFact(AsLadderOptions(o));
  }
}

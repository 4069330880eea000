/**
 * Ladders (the ladder.go snapshot): option validation, the query string, one
 * page request, and GetLadder's paging over the whole ladder.
 */
module LadderApi {
  import opened Errors
  import opened Types
  import Query
  import Domains
  import Endpoints
  import opened Pagination

  const DefaultLadderType: string := "league"
  const LabyrinthLadderType: string := "labyrinth"
  const PvpLadderType: string := "pvp"

  /** March 1, 2016, the day before 3.2.0: no labyrinth ladder starts earlier. */
  const EarliestLabyrinthTime: int := 1456790400

  /** The largest offset the API serves: 200 entries times 75 pages. */
  const MaxOffset: int := PageSize * MaxPages

  /**
   * All fields optional except the ID; limit and offset are internal and set by
   * GetLadder.
   */
  datatype GetLadderOptions = GetLadderOptions(
    id: string, realm: string, ladderType: string, uniqueIDs: bool, accountName: string,
    labyrinthDifficulty: string, labyrinthStartTime: int, limit: int, offset: int)

  /** The keys toQueryParams can emit. */
  const QueryKeys: set<string> :=
    {"realm", "type", "track", "accountName", "difficulty", "start", "limit", "offset"}

  /** The guarded adds of toQueryParams, in the order it makes them. */
  function Guards(o: GetLadderOptions): seq<Query.Guarded>
  {
    [ Query.Guarded(o.realm != "", Query.Pair("realm", o.realm)),
      Query.Guarded(o.ladderType != "", Query.Pair("type", o.ladderType)),
      Query.Guarded(true, Query.Pair("track", Query.FormatBool(o.uniqueIDs))),
      Query.Guarded(o.accountName != "" && o.ladderType == DefaultLadderType, Query.Pair("accountName", o.accountName)),
      Query.Guarded(o.labyrinthDifficulty != "" && o.ladderType == LabyrinthLadderType,
                    Query.Pair("difficulty", o.labyrinthDifficulty)),
      Query.Guarded(o.labyrinthStartTime != 0 && o.ladderType == LabyrinthLadderType,
                    Query.Pair("start", Query.Itoa(o.labyrinthStartTime))),
      Query.Guarded(o.limit != 0, Query.Pair("limit", Query.Itoa(o.limit))),
      Query.Guarded(o.offset != 0, Query.Pair("offset", Query.Itoa(o.offset))) ]
  }

  lemma GuardsDistinct(o: GetLadderOptions)
    ensures Query.DistinctKeys(Guards(o))
    ensures forall i :: 0 <= i < |Guards(o)| ==>
              Guards(o)[i].pair.key in QueryKeys && Query.AllUnreserved(Guards(o)[i].pair.key)
  {
  }

  /** What the encoded query says about the key of the i-th add. */
  lemma QueryLookupAt(o: GetLadderOptions, i: int)
    requires 0 <= i < |Guards(o)|
    ensures var g := Guards(o);
            Query.Lookup(Query.Parse(Query.Encode(Query.Present(g))), g[i].pair.key) ==
              if g[i].present then Some(Query.Escape(g[i].pair.value)) else None
  {
    GuardsDistinct(o);
    Query.EncodedPresent(Guards(o), i);
  }

  /**
   * toQueryParams: track always; realm and type when set; the account name
   * only for a league ladder, difficulty and start time only for a labyrinth
   * ladder; limit and offset when non-zero; no other key, keys in sorted order.
   */
  function ToQueryParams(o: GetLadderOptions): (q: string)
    ensures var p := Query.Parse(q);
            && Query.Keys(p) <= QueryKeys
            && Query.SortedByKey(p)
            && |p| == |Query.Present(Guards(o))|
            && Query.Lookup(p, "track") == Some(Query.FormatBool(o.uniqueIDs))
            && Query.Lookup(p, "realm") == (if o.realm != "" then Some(Query.Escape(o.realm)) else None)
            && Query.Lookup(p, "type") == (if o.ladderType != "" then Some(Query.Escape(o.ladderType)) else None)
            && Query.Lookup(p, "accountName") ==
                 (if o.accountName != "" && o.ladderType == DefaultLadderType
                  then Some(Query.Escape(o.accountName)) else None)
            && Query.Lookup(p, "difficulty") ==
                 (if o.labyrinthDifficulty != "" && o.ladderType == LabyrinthLadderType
                  then Some(Query.Escape(o.labyrinthDifficulty)) else None)
            && Query.Lookup(p, "start") ==
                 (if o.labyrinthStartTime != 0 && o.ladderType == LabyrinthLadderType
                  then Some(Query.Itoa(o.labyrinthStartTime)) else None)
            && Query.Lookup(p, "limit") == (if o.limit != 0 then Some(Query.Itoa(o.limit)) else None)
            && Query.Lookup(p, "offset") == (if o.offset != 0 then Some(Query.Itoa(o.offset)) else None)
  {
    QueryKeyFacts(o);
    QueryRealmFact(o);
    QueryTypeFact(o);
    QueryTrackFact(o);
    QueryAccountNameFact(o);
    QueryDifficultyFact(o);
    QueryStartFact(o);
    QueryLimitFact(o);
    QueryOffsetFact(o);
    Query.Encode(Query.Present(Guards(o)))
  }

  lemma QueryKeyFacts(o: GetLadderOptions)
    ensures var p := Query.Parse(Query.Encode(Query.Present(Guards(o))));
            Query.Keys(p) <= QueryKeys && Query.SortedByKey(p) && |p| == |Query.Present(Guards(o))|
  {
    GuardsDistinct(o);
    Query.EncodedGuardKeys(Guards(o), QueryKeys);
  }

  // One lemma per key: the lookups are cheap one at a time and costly together.

  lemma QueryRealmFact(o: GetLadderOptions)
    ensures Query.Lookup(Query.Parse(Query.Encode(Query.Present(Guards(o)))), "realm") ==
            (if o.realm != "" then Some(Query.Escape(o.realm)) else None)
  {
    QueryLookupAt(o, 0);
  }

  lemma QueryTypeFact(o: GetLadderOptions)
    ensures Query.Lookup(Query.Parse(Query.Encode(Query.Present(Guards(o)))), "type") ==
            (if o.ladderType != "" then Some(Query.Escape(o.ladderType)) else None)
  {
    QueryLookupAt(o, 1);
  }

  lemma QueryTrackFact(o: GetLadderOptions)
    ensures Query.Lookup(Query.Parse(Query.Encode(Query.Present(Guards(o)))), "track") ==
            Some(Query.FormatBool(o.uniqueIDs))
  {
    QueryLookupAt(o, 2);
  }

  lemma QueryAccountNameFact(o: GetLadderOptions)
    ensures Query.Lookup(Query.Parse(Query.Encode(Query.Present(Guards(o)))), "accountName") ==
            (if o.accountName != "" && o.ladderType == DefaultLadderType then Some(Query.Escape(o.accountName)) else None)
  {
    QueryLookupAt(o, 3);
  }

  lemma QueryDifficultyFact(o: GetLadderOptions)
    ensures Query.Lookup(Query.Parse(Query.Encode(Query.Present(Guards(o)))), "difficulty") ==
            (if o.labyrinthDifficulty != "" && o.ladderType == LabyrinthLadderType then Some(Query.Escape(o.labyrinthDifficulty)) else None)
  {
    QueryLookupAt(o, 4);
  }

  lemma QueryStartFact(o: GetLadderOptions)
    ensures Query.Lookup(Query.Parse(Query.Encode(Query.Present(Guards(o)))), "start") ==
            (if o.labyrinthStartTime != 0 && o.ladderType == LabyrinthLadderType then Some(Query.Itoa(o.labyrinthStartTime)) else None)
  {
    QueryLookupAt(o, 5);
  }

  lemma QueryLimitFact(o: GetLadderOptions)
    ensures Query.Lookup(Query.Parse(Query.Encode(Query.Present(Guards(o)))), "limit") ==
            (if o.limit != 0 then Some(Query.Itoa(o.limit)) else None)
  {
    QueryLookupAt(o, 6);
  }

  lemma QueryOffsetFact(o: GetLadderOptions)
    ensures Query.Lookup(Query.Parse(Query.Encode(Query.Present(Guards(o)))), "offset") ==
            (if o.offset != 0 then Some(Query.Itoa(o.offset)) else None)
  {
    QueryLookupAt(o, 7);
  }

  /**
   * The query of a league ladder whose realm and account name are written in
   * unreserved characters, with a limit and an offset: exactly the six fields
   * accountName, limit, offset, realm, track and type, in that order.
   */
  lemma LeagueLadderQuery(o: GetLadderOptions)
    requires o.ladderType == DefaultLadderType && o.realm != "" && o.accountName != "" && o.limit != 0 && o.offset != 0
    requires Query.AllUnreserved(o.realm) && Query.AllUnreserved(o.accountName)
    ensures ToQueryParams(o) == Query.Join(LeagueFields(o))
  {
    var f := LeagueFields(o);
    LeaguePresent(o);
    LeagueFieldsOrdered(o);
    Query.EncodeInOrder(Query.Present(Guards(o)), f);
  }

  function LeagueFields(o: GetLadderOptions): Query.Values
  {
    [ Query.Pair("accountName", o.accountName), Query.Pair("limit", Query.Itoa(o.limit)),
      Query.Pair("offset", Query.Itoa(o.offset)), Query.Pair("realm", o.realm),
      Query.Pair("track", Query.FormatBool(o.uniqueIDs)), Query.Pair("type", DefaultLadderType) ]
  }

  lemma LeaguePresent(o: GetLadderOptions)
    requires o.ladderType == DefaultLadderType && o.realm != "" && o.accountName != "" && o.limit != 0 && o.offset != 0
    ensures multiset(Query.Present(Guards(o))) == multiset(LeagueFields(o))
  {
    var f := LeagueFields(o);
    LeagueAdds(o);
    Query.SamePairs(Query.Present(Guards(o)), f);
  }

  /** The adds the guards make for these options, in the order the source makes them. */
  lemma LeagueAdds(o: GetLadderOptions)
    requires o.ladderType == DefaultLadderType && o.realm != "" && o.accountName != "" && o.limit != 0 && o.offset != 0
    ensures var f := LeagueFields(o);
            Query.Present(Guards(o)) == [f[3], f[5], f[4], f[0], f[1], f[2]]
  {
    var f := LeagueFields(o);
    var g := Guards(o);
    Query.PresentEight(g);
    assert Query.Made(g[0]) == [f[3]] && Query.Made(g[1]) == [f[5]] && Query.Made(g[2]) == [f[4]];
    assert Query.Made(g[3]) == [f[0]] && Query.Made(g[4]) == [] && Query.Made(g[5]) == [];
    assert Query.Made(g[6]) == [f[1]] && Query.Made(g[7]) == [f[2]];
  }

  lemma LeagueFieldsOrdered(o: GetLadderOptions)
    requires Query.AllUnreserved(o.realm) && Query.AllUnreserved(o.accountName)
    ensures Query.StrictlySorted(LeagueFields(o))
    ensures forall i :: 0 <= i < |LeagueFields(o)| ==>
              Query.AllUnreserved(LeagueFields(o)[i].key) && Query.AllUnreserved(LeagueFields(o)[i].value)
  {
    var f := LeagueFields(o);
    Query.LadderKeyOrder();
    forall i | 0 <= i < |f| - 1 ensures Query.KeyLe(f[i].key, f[i + 1].key) && f[i].key != f[i + 1].key {
      if i == 0 { } else if i == 1 { } else if i == 2 { } else if i == 3 { }
    }
    Query.LadderKeysUnreserved();
    assert Query.AllUnreserved("league");
    forall i | 0 <= i < |f| ensures Query.AllUnreserved(f[i].key) && Query.AllUnreserved(f[i].value) {
      if i == 0 { } else if i == 1 { } else if i == 2 { } else if i == 3 { } else if i == 4 { }
    }
  }

  /** The options of the league-ladder test in ladder_test.go. */
  const LeagueTest := GetLadderOptions("", "sony", "league", true, "testaccount", "", 0, 200, 200)

  /** The fields that test expects in the query, in order. */
  const LeagueTestPairs: Query.Values :=
    [ Query.Pair("accountName", "testaccount"), Query.Pair("limit", "200"),
      Query.Pair("offset", "200"), Query.Pair("realm", "sony"),
      Query.Pair("track", "true"), Query.Pair("type", "league") ]

  lemma LeagueTestFields()
    ensures LeagueFields(LeagueTest) == LeagueTestPairs
  {
    Query.ItoaLiteral200();
  }

  /** The query of the league-ladder test is the one it expects. */
  lemma LeagueTestQuery()
    ensures ToQueryParams(LeagueTest) == Query.Join(LeagueTestPairs)
  {
    assert Query.AllUnreserved("sony") && Query.AllUnreserved("testaccount");
    LeagueLadderQuery(LeagueTest);
    LeagueTestFields();
  }

  /**
   * The query of a labyrinth ladder whose realm and difficulty are written in
   * unreserved characters, with a start time, a limit and an offset: exactly
   * the seven fields difficulty, limit, offset, realm, start, track and type.
   */
  lemma LabyrinthLadderQuery(o: GetLadderOptions)
    requires o.ladderType == LabyrinthLadderType && o.realm != "" && o.labyrinthDifficulty != ""
    requires o.labyrinthStartTime != 0 && o.limit != 0 && o.offset != 0
    requires Query.AllUnreserved(o.realm) && Query.AllUnreserved(o.labyrinthDifficulty)
    ensures ToQueryParams(o) == Query.Join(LabyrinthFields(o))
  {
    LabyrinthPresent(o);
    LabyrinthFieldsOrdered(o);
    Query.EncodeInOrder(Query.Present(Guards(o)), LabyrinthFields(o));
  }

  function LabyrinthFields(o: GetLadderOptions): Query.Values
  {
    [ Query.Pair("difficulty", o.labyrinthDifficulty), Query.Pair("limit", Query.Itoa(o.limit)),
      Query.Pair("offset", Query.Itoa(o.offset)), Query.Pair("realm", o.realm),
      Query.Pair("start", Query.Itoa(o.labyrinthStartTime)),
      Query.Pair("track", Query.FormatBool(o.uniqueIDs)), Query.Pair("type", LabyrinthLadderType) ]
  }

  lemma LabyrinthPresent(o: GetLadderOptions)
    requires o.ladderType == LabyrinthLadderType && o.realm != "" && o.labyrinthDifficulty != ""
    requires o.labyrinthStartTime != 0 && o.limit != 0 && o.offset != 0
    ensures multiset(Query.Present(Guards(o))) == multiset(LabyrinthFields(o))
  {
    var f := LabyrinthFields(o);
    LabyrinthAdds(o);
    Query.SamePairs(Query.Present(Guards(o)), f);
  }

  /** The adds the guards make for these options, in the order the source makes them. */
  lemma LabyrinthAdds(o: GetLadderOptions)
    requires o.ladderType == LabyrinthLadderType && o.realm != "" && o.labyrinthDifficulty != ""
    requires o.labyrinthStartTime != 0 && o.limit != 0 && o.offset != 0
    ensures var f := LabyrinthFields(o);
            Query.Present(Guards(o)) == [f[3], f[6], f[5], f[0], f[4], f[1], f[2]]
  {
    var f := LabyrinthFields(o);
    var g := Guards(o);
    Query.PresentEight(g);
    assert Query.Made(g[0]) == [f[3]] && Query.Made(g[1]) == [f[6]] && Query.Made(g[2]) == [f[5]];
    assert Query.Made(g[3]) == [] && Query.Made(g[4]) == [f[0]] && Query.Made(g[5]) == [f[4]];
    assert Query.Made(g[6]) == [f[1]] && Query.Made(g[7]) == [f[2]];
  }

  lemma LabyrinthFieldsOrdered(o: GetLadderOptions)
    requires Query.AllUnreserved(o.realm) && Query.AllUnreserved(o.labyrinthDifficulty)
    ensures Query.StrictlySorted(LabyrinthFields(o))
    ensures forall i :: 0 <= i < |LabyrinthFields(o)| ==>
              Query.AllUnreserved(LabyrinthFields(o)[i].key) && Query.AllUnreserved(LabyrinthFields(o)[i].value)
  {
    var f := LabyrinthFields(o);
    Query.LadderKeyOrder();
    forall i | 0 <= i < |f| - 1 ensures Query.KeyLe(f[i].key, f[i + 1].key) && f[i].key != f[i + 1].key {
      if i == 0 { } else if i == 1 { } else if i == 2 { } else if i == 3 { } else if i == 4 { }
    }
    Query.LadderKeysUnreserved();
    assert Query.AllUnreserved("labyrinth");
    forall i | 0 <= i < |f| ensures Query.AllUnreserved(f[i].key) && Query.AllUnreserved(f[i].value) {
      if i == 0 { } else if i == 1 { } else if i == 2 { } else if i == 3 { } else if i == 4 { } else if i == 5 { }
    }
  }

  /** The options of the labyrinth-ladder test in ladder_test.go. */
  const LabyrinthTest := GetLadderOptions("", "xbox", "labyrinth", false, "", "Normal", 1565283600, 200, 400)

  /** The fields that test expects in the query, in order. */
  const LabyrinthTestPairs: Query.Values :=
    [ Query.Pair("difficulty", "Normal"), Query.Pair("limit", "200"),
      Query.Pair("offset", "400"), Query.Pair("realm", "xbox"),
      Query.Pair("start", "1565283600"), Query.Pair("track", "false"),
      Query.Pair("type", "labyrinth") ]

  lemma LabyrinthTestFields()
    ensures LabyrinthFields(LabyrinthTest) == LabyrinthTestPairs
  {
    Query.ItoaLiteral200(); Query.ItoaLiteralStart();
  }

  /** The query of the labyrinth-ladder test is the one it expects. */
  lemma LabyrinthTestQuery()
    ensures ToQueryParams(LabyrinthTest) == Query.Join(LabyrinthTestPairs)
  {
    assert Query.AllUnreserved("xbox") && Query.AllUnreserved("Normal");
    LabyrinthLadderQuery(LabyrinthTest);
    LabyrinthTestFields();
  }


  /**
   * validateGetLadderOptions: the checks in order (ID, realm, type, then for a
   * labyrinth ladder its difficulty and start time, then limit, then offset);
   * the first that fails decides the error.
   */
  function ValidateGetLadderOptions(o: GetLadderOptions): (r: Option<Error>)
    ensures var idOk := o.id != "";
            var realmOk := o.realm == "" || o.realm in Domains.ValidRealms;
            var typeOk := o.ladderType == "" || o.ladderType in Domains.ValidLadderTypes;
            var lab := o.ladderType == LabyrinthLadderType;
            var difficultyOk := !lab || o.labyrinthDifficulty == "" ||
                                o.labyrinthDifficulty in Domains.ValidLabyrinthDifficulties;
            var startOk := !lab || o.labyrinthStartTime == 0 || o.labyrinthStartTime >= EarliestLabyrinthTime;
            var limitOk := 1 <= o.limit <= PageSize;
            var offsetOk := 0 <= o.offset <= MaxOffset;
            && (r == Some(MissingID) <==> !idOk)
            && (r == Some(InvalidRealm) <==> idOk && !realmOk)
            && (r == Some(InvalidLadderType) <==> idOk && realmOk && !typeOk)
            && (r == Some(InvalidDifficulty) <==> idOk && realmOk && typeOk && !difficultyOk)
            && (r == Some(InvalidLabyrinthStartTime) <==> idOk && realmOk && typeOk && difficultyOk && !startOk)
            && (r == Some(InvalidLimit) <==> idOk && realmOk && typeOk && difficultyOk && startOk && !limitOk)
            && (r == Some(InvalidOffset) <==>
                  idOk && realmOk && typeOk && difficultyOk && startOk && limitOk && !offsetOk)
            && (r.None? <==> idOk && realmOk && typeOk && difficultyOk && startOk && limitOk && offsetOk)
  {
    if o.id == "" then Some(MissingID)
    else if o.realm != "" && o.realm !in Domains.ValidRealms then Some(InvalidRealm)
    else if o.ladderType != "" && o.ladderType !in Domains.ValidLadderTypes then Some(InvalidLadderType)
    else if o.ladderType == LabyrinthLadderType && o.labyrinthDifficulty != ""
            && o.labyrinthDifficulty !in Domains.ValidLabyrinthDifficulties then Some(InvalidDifficulty)
    else if o.ladderType == LabyrinthLadderType && o.labyrinthStartTime < 0 then Some(InvalidLabyrinthStartTime)
    else if o.ladderType == LabyrinthLadderType && 0 < o.labyrinthStartTime < EarliestLabyrinthTime
    then Some(InvalidLabyrinthStartTime)
    else if o.limit < 1 || o.limit > PageSize then Some(InvalidLimit)
    else if o.offset < 0 || o.offset > MaxOffset then Some(InvalidOffset)
    else None
  }

  /** The page URL: the ladders endpoint URL, '/', the ID, '?', then the query. */
  function PageURL(c: Client, o: GetLadderOptions): (url: string)
    ensures Endpoints.ResourceQuery(url, Endpoints.FormatURL(c, Endpoints.LaddersEndpoint), o.id, ToQueryParams(o))
  {
    var base := Endpoints.FormatURL(c, Endpoints.LaddersEndpoint);
    Endpoints.ResourceQueryConcat(base, o.id, ToQueryParams(o));
    base + "/" + o.id + "?" + ToQueryParams(o)
  }

  /**
   * getLadderPage, with `get` standing for the request and the decoding of
   * its body: invalid options fail before any request.
   */
  function GetLadderPage(c: Client, o: GetLadderOptions, get: string -> Result<Ladder>): (r: Result<Ladder>)
    ensures ValidateGetLadderOptions(o).Some? ==> r == Failure(ValidateGetLadderOptions(o).value)
    ensures ValidateGetLadderOptions(o).None? ==> r == get(PageURL(c, o))
  {
    match ValidateGetLadderOptions(o)
    case Some(e) => Failure(e)
    case None => get(PageURL(c, o))
  }

  /** The page at `offset`, with every other option as given. */
  function PageAt(c: Client, o: GetLadderOptions, get: string -> Result<Ladder>): int -> Result<Ladder>
  {
    offset => GetLadderPage(c, o.(offset := offset), get)
  }

  /** The probe page: the caller's options with the limit forced to 200. */
  function FirstPage(c: Client, opts: GetLadderOptions, get: string -> Result<Ladder>): Result<Ladder>
  {
    GetLadderPage(c, opts.(limit := PageSize), get)
  }

  /**
   * What GetLadder returns: the probe page fetched with the caller's options,
   * the sub-pages with the same options at offsets 200, 400, ...
   */
  function GetLadderResult(c: Client, opts: GetLadderOptions, get: string -> Result<Ladder>): Result<Ladder>
  {
    Assemble(FirstPage(c, opts, get), PageAt(c, opts.(limit := PageSize), get))
  }

  function GetLadderCorrectedResult(c: Client, opts: GetLadderOptions, get: string -> Result<Ladder>): Result<Ladder>
  {
    AssembleCorrected(FirstPage(c, opts, get), PageAt(c, opts.(limit := PageSize), get))
  }

  /** The offsets GetLadder requests, in the order the model requests them. */
  function RequestedOffsets(c: Client, opts: GetLadderOptions, get: string -> Result<Ladder>): seq<int>
  {
    match FirstPage(c, opts, get)
    case Failure(_) => [opts.offset]
    case Success(first) => [opts.offset] + SubPageOffsets(first.totalEntries)
  }

  /**
   * GetLadder: the first page (200 entries at the given offset) tells the
   * ladder's size; the remaining pages are requested at offsets 200, 400, ...
   * below that size. `requested` lists the offsets asked for.
   */
  method GetLadder(c: Client, opts: GetLadderOptions, get: string -> Result<Ladder>)
    returns (r: Result<Ladder>, ghost requested: seq<int>)
    ensures r == GetLadderResult(c, opts, get)
    ensures requested == RequestedOffsets(c, opts, get)
  {
    var o := opts.(limit := PageSize);
    var first := GetLadderPage(c, o, get);
    requested := [o.offset];
    if first.Failure? {
      return Failure(first.error), requested;
    }
    var size := first.value.totalEntries;
    if size <= PageSize {
      return first, requested + SubPageOffsets(size);
    }
    var rest;
    ghost var offsets;
    rest, offsets := FetchSubPages(size, PageAt(c, o, get));
    requested := requested + offsets;
    if rest.Failure? {
      return Failure(rest.error), requested;
    }
    return Success(first.value.(entries := rest.value)), requested;
  }

  /** GetLadder with the first page's entries kept (see GetLadderCorrectedResult). */
  method GetLadderCorrected(c: Client, opts: GetLadderOptions, get: string -> Result<Ladder>)
    returns (r: Result<Ladder>)
    ensures r == GetLadderCorrectedResult(c, opts, get)
  {
    var o := opts.(limit := PageSize);
    var first := GetLadderPage(c, o, get);
    if first.Failure? {
      return Failure(first.error);
    }
    var size := first.value.totalEntries;
    if size <= PageSize {
      return first;
    }
    var rest;
    ghost var offsets;
    rest, offsets := FetchSubPages(size, PageAt(c, o, get));
    if rest.Failure? {
      return Failure(rest.error);
    }
    return Success(first.value.(entries := first.value.entries + rest.value));
  }

  /** Moving a valid request to another offset in range keeps it valid. */
  lemma ValidAtOffset(o: GetLadderOptions, x: int)
    requires ValidateGetLadderOptions(o).None?
    ensures 0 <= x <= MaxOffset ==> ValidateGetLadderOptions(o.(offset := x)).None?
    ensures x > MaxOffset ==> ValidateGetLadderOptions(o.(offset := x)) == Some(InvalidOffset)
  {
  }

  /**
   * The sub-pages that fail validation are those after the 75th, and their
   * errors fit the channel of capacity 75 exactly when the ladder holds at
   * most 30200 entries.
   */
  lemma FailingSubPages(total: int)
    requires total > PageSize * (MaxPages + 1)
    ensures forall k :: 0 <= k < |SubPageOffsets(total)| ==> (SubPageOffsets(total)[k] > MaxOffset <==> k >= MaxPages)
    ensures SubPageCount(total) - MaxPages <= MaxPages <==> total <= PageSize * (2 * MaxPages + 1)
  {
  }

  /**
   * A ladder of more than 15200 entries cannot be fetched: even when every
   * request succeeds, the sub-page at offset 15200 fails validation.
   */
  lemma LargeLadderFails(c: Client, opts: GetLadderOptions, get: string -> Result<Ladder>)
    requires forall url :: get(url).Success?
    requires FirstPage(c, opts, get).Success?
    requires FirstPage(c, opts, get).value.totalEntries > PageSize * (MaxPages + 1)
    ensures GetLadderResult(c, opts, get) == Failure(InvalidOffset)
  {
    var o := opts.(limit := PageSize);
    var probe := FirstPage(c, opts, get).value;
    var page := PageAt(c, o, get);
    var pages := SubPages(probe.totalEntries, page);
    SubPagesUpToLimit(c, o, get, probe.totalEntries);
    AssembleFromSubPages(probe, page);
    assert pages[MaxPages].Failure? && (forall j :: 0 <= j < MaxPages ==> pages[j].Success?);
  }

  /** The sub-pages of a valid request: those up to offset 15000 are requested, the next is refused. */
  lemma SubPagesUpToLimit(c: Client, o: GetLadderOptions, get: string -> Result<Ladder>, total: int)
    requires forall url :: get(url).Success?
    requires ValidateGetLadderOptions(o).None?
    requires total > PageSize * (MaxPages + 1)
    ensures var pages := SubPages(total, PageAt(c, o, get));
            && |pages| > MaxPages
            && (forall j :: 0 <= j < MaxPages ==> pages[j].Success?)
            && pages[MaxPages] == Failure(InvalidOffset)
  {
    var pages := SubPages(total, PageAt(c, o, get));
    forall j | 0 <= j < MaxPages
      ensures pages[j].Success?
    {
      ValidAtOffset(o, PageSize * (j + 1));
    }
    ValidAtOffset(o, PageSize * (MaxPages + 1));
  }
}

# poeapi core, modelled in Dafny

This project models the sequential core of `poeapi`, a Go client for the Path of Exile web API:

- **Request building.** The option validators, the `url.Values` query builders and `formatURL` of every endpoint file (ladders, leagues, league rules, stash tabs, PvP matches, client options).
- **Ladder pagination.** `GetLadder` probes the first page, then fetches the sub-pages at offsets 200, 400, … and joins them on a first-error-wins basis.
- **The LRU response cache and the DNS address ring** of `cache.go`.
- **`janklimiter`**, the fixed-interval request limiter.
- **`getJSON`**, which maps status codes to errors and retries on 429.

Files that are snapshots of the same code at different times become separate modules, each with a lemma relating it to the other:

- `ladder.go`: `LadderApi`; `ladders.go`: `LaddersApi` (related by `LadderSnapshots`);
- `endpoints.go`: `Endpoints`; `routes.go`: `Routes`;
- `league_rules.go`: `LeagueRules`; `league_rule.go`: `LeagueRuleSnapshot`.

The shared modules are:

- `Errors`: the sentinel errors, plus Option/Result wrappers.
- `Types`: the client fields and the ladder values.
- `Domains`: the realm, ladder-type and difficulty sets.
- `Query`: `url.Values.Add`/`Encode`, `QueryEscape`, `strconv.Itoa` and `FormatBool`, plus a reference `Parse` used as the inverse of `Encode`.
- `Pagination`: the offset arithmetic and page joining shared by both `GetLadder` snapshots.

Where the source changes state in place, the model is imperative:

- The LRU cache is a class. Its recency list is a `seq<Entry>` with the front at index 0, and its index is a `map` from keys to element identities.
- The DNS ring is an `array` with a cursor.
- The limiter is a class whose `Wait` overwrites `lastRequest`.
- `GetLadder` fetches the sub-pages in a `while` loop.

Each method is proved against a pure function of the old state. The lemmas about those functions carry the properties.

The outside world appears as parameters:

- an HTTP GET is a function from URL to `Result`;
- `net.LookupHost` is its result;
- the clock is an integer count of nanoseconds;
- each round of `getJSON` is an `Attempt` holding the limiter's and the transport's outcome.

## Model

| member | source | states |
|---|---|---|
| Query.LookupPresent | pvp_matches.go:19-28 | after a run of guarded `Add`s with distinct keys, a key reads back its value exactly when its guard held, and is absent otherwise |
| Query.LookupAbsent | pvp_matches.go:19-28 | a key that no `Add` uses is absent from the values |
| Query.PresentNone | pvp_matches.go:19-28 | when no guard holds, the values are empty |
| Query.PresentKeys | pvp_matches.go:19-28 | every stored pair comes from an `Add` whose guard held, so the keys are among the added keys |
| Query.SortByKey | ladder.go:80 | the pairs `Encode` writes are sorted by key and are a permutation of the values |
| Query.SortKeepsLookup | ladder.go:80 | sorting does not change what any key reads |
| Query.InsertSorted | ladder.go:80 | inserting a pair into a sorted list keeps it sorted |
| Query.InsertLookup | ladder.go:80 | after an insertion, the pair's key reads the inserted value and every other key reads as before |
| Query.EscapeChar | league.go:27 | one character: an unreserved one is kept, a space becomes `+`, and any other becomes `PercentEncode` of its UTF-8 bytes, 3 to 12 characters starting with `%` |
| Query.Escape | league.go:27 | escaped text consists only of unreserved characters, `+` and `%`; unreserved text is left unchanged; the output is at least as long as the input and at most 12 times as long |
| Query.EscapeOne | league.go:27 | a one-character string escapes as `EscapeChar` says |
| Query.EscapeAppend | league.go:27 | escaping works character by character: the escape of s + t is the escape of s followed by the escape of t |
| Query.EscapeKeepsOnlyUnreserved | league.go:27 | converse: escaped text made only of unreserved characters came from that same text |
| Query.EscapeInjectiveAtUnreserved | league.go:27 | only an unreserved string escapes to itself |
| Query.PercentEncode | league.go:27 | each byte becomes three characters, so the output is three times as long, made of `%`, digits and letters |
| Query.PercentEncodeTriples | league.go:27 | the i-th byte is written at position 3i as `%` followed by its two upper-case hexadecimal digits |
| Query.PercentEncodeAt | league.go:27 | the same for one byte: the three characters at 3i are `%` and the byte's two upper-case hexadecimal digits |
| Query.ParseJoin | ladder.go:80 | `Parse` inverts the `k=v` / `&` join when no key or value contains a separator |
| Query.Encode | ladder.go:80 | parsing the encoded string gives back the escaped pairs sorted by key (the round trip with `Parse`) |
| Query.LookupEncoded | ladder.go:80 | for an unreserved key, the encoded query reads back the escaped first value stored under that key |
| Query.EncodedPresent | pvp_matches.go:19-29 | the encoded query carries a guarded key, with its escaped value, exactly when its guard held |
| Query.EncodedKeys | ladder.go:80 | the encoded query has the same keys and the same number of pairs as the values, in sorted order |
| Query.EncodedGuardKeys | ladder.go:57-80 | the keys of an encoded guarded query are among the keys that the builder can add, are sorted, and there is one field for each add that was made |
| Query.PresentAppend | ladder.go:57-79 | the adds of two runs leave the first run's pairs followed by the second's |
| Query.PresentEight | ladder.go:57-79 | eight guarded adds in a row leave, in order, the pair of each add whose guard held |
| Query.SortedUnique | ladder.go:80 | two key-sorted lists holding the same pairs, one with no key twice, are the same list: the order `Encode` writes is determined |
| Query.SamePairs | ladder.go:80 | two lists of equal length, neither with a key twice, where each pair of the first is in the second, hold the same pairs |
| Query.EncodeInOrder | ladder.go:80 | pairs in unreserved characters whose strictly sorted order is `s` are encoded as the fields of `s` joined with `&` |
| Query.LadderKeyOrder | ladder.go:80 | `accountName`, `difficulty`, `limit`, `offset`, `realm`, `start`, `track`, `type` is the order in which `sort.Strings` puts the ladder query keys |
| Query.ItoaLiteral200 | ladder.go:75 | `strconv.Itoa` writes 200 as `200` and 400 as `400` |
| Query.ItoaLiteralStart | ladder.go:72 | `strconv.Itoa` writes 1565283600 as `1565283600` |
| Query.EncodeSingle | league.go:22-27 | one unreserved pair encodes to `key=value` |
| Query.EncodeNone | stash_tabs.go:18-22 | no values encode to the empty string |
| Query.EncodeOne | league.go:22-27 | one pair with an unreserved key encodes to `key=` and the escaped value, a single field |
| Query.EncodeSwapped | pvp_matches.go:20-29 | two pairs added out of key order come out in key order, joined by `&` |
| Query.FormatBool | ladder.go:64 | `strconv.FormatBool` gives text that needs no escaping |
| Query.NatToDecimal | ladder.go:75 | decimal digits with no leading zero |
| Query.DecimalRoundTrip | ladder.go:75 | reading the digits back gives the number |
| Query.Itoa | ladder.go:72 | `strconv.Itoa` gives text that needs no escaping |
| Query.ItoaRoundTrip | ladder.go:75 | `Itoa` is inverted by reading the optional sign and the digits |
| Endpoints.AllEndpoints | endpoints.go:5-10 | the five endpoint paths are distinct and each starts with `/` |
| Endpoints.FormatURL | endpoints.go:19-24 | the URL is the scheme (`https` exactly when SSL is on), then `://`, then the host, then the endpoint |
| Endpoints.AppendedConcat | league.go:46 | a URL built as base + separator + rest has that shape |
| Endpoints.ResourceQueryConcat | ladder.go:174-175 | a URL built as base `/` id `?` query has that shape |
| Endpoints.FormatURLExampleHttp | endpoints.go:23 | without SSL the official host and `/ladders` give `http://api.pathofexile.com/ladders` |
| Routes.AllEndpoints | routes.go:5-11 | the five endpoint paths are distinct and each starts with `/` |
| Routes.Protocol | routes.go:17-20 | `https` exactly when `useSSL` is set, and `http` exactly when it is not |
| Routes.FormatURL | routes.go:16-23 | the URL is the protocol, then `://`, then the host followed by the endpoint |
| Routes.SnapshotsAgree | routes.go:16-23 | both `formatURL` snapshots build the same URL, and both declare the same set of endpoints |
| ClientOptions.ValidateOptions | options.go:19-30 | the host is checked first, then the rate, then the stash-tab rate; each error is returned exactly when its check is the first to fail |
| ClientOptions.DefaultOptions | options.go:12-17 | the default options pass validation and use SSL |
| League.QueryValues | league.go:22-26 | the only key is `realm`, present exactly when the realm is set |
| League.ToQueryParams | league.go:22-28 | the query is exactly `""` for an empty realm and exactly `realm=` followed by the escaped realm otherwise, so it holds one field at most; `realm` reads back escaped |
| League.QueryText | league.go:22-27 | the encoding of the added values is that text, and it parses into as many fields as values were added |
| League.RealmField | league.go:24-27 | the `realm` pair alone encodes to `realm=` and its escaped value, a single field |
| League.QueryOfPlainRealm | league.go:22-28 | a realm in unreserved characters gives the query `realm=<realm>` |
| League.QueryOfRealmTest | league_test.go:74-82 | the realm `test` gives the query `realm=test` |
| League.QueryFacts | league.go:22-27 | the encoded query's `realm` entry and key set, as `ToQueryParams` promises |
| League.ValidateGetLeagueOptions | league.go:30-40 | an empty ID gives `ErrInvalidLeagueID`, then an unknown non-empty realm gives `ErrInvalidRealm`; the options are valid in every other case |
| League.GetLeagueRequest | league.go:42-46 | a validation error is returned in place of a request; otherwise the URL is the leagues endpoint followed by `/` and the ID |
| Leagues.QueryValues | leagues.go:31-50 | each key is present exactly under its guard: `type` and `realm` when set; `season` when the type is `season` and a season is given; `compact=1`; `limit` and `offset` when non-zero |
| Leagues.GuardsDistinct | leagues.go:31-50 | the six adds use distinct, unreserved keys |
| Leagues.GuardFacts | leagues.go:31-50 | the per-key presence rules of `QueryValues`, over the guarded adds |
| Leagues.ToQueryParams | leagues.go:31-52 | the encoded query has sorted keys drawn from the six, each present under its guard with its escaped value, and one field for each add made, so no key appears twice |
| Leagues.QueryKeyFacts | leagues.go:51 | the encoded keys are among the six, are sorted, and there is one field for each add made |
| Leagues.QueryTextFacts | leagues.go:33-41 | `type`, `realm` and `season` read back escaped, under their guards |
| Leagues.QueryNumberFacts | leagues.go:42-50 | `compact`, `limit` and `offset` read back under their guards |
| Leagues.ValidateGetLeaguesOptions | leagues.go:54-81 | the checks run in order (type, realm, season, limit with its compact/full bound, offset); each error is returned exactly when its check is the first to fail, and nil otherwise |
| Leagues.GetLeaguesRequest | leagues.go:84-88 | a validation error is returned without a request; otherwise the request goes to the bare leagues endpoint |
| Leagues.OptionsNotSent | leagues.go:84-88 | any two valid option values produce the same request, so the options never reach the server |
| Leagues.GetLeagues | leagues.go:84-92 | a validation error comes back without a fetch; otherwise the fetch result of the leagues URL is returned |
| Leagues.GetCurrentChallengeLeague | leagues.go:106-118 | a fetch error is returned; otherwise the result is the first league with an end time, or `ChallengeLeagueNotFound` when there is none |
| LeagueRules.ValidateLeagueRuleOptions | league_rules.go:32-37 | valid exactly when the ID is non-empty; otherwise `ErrInvalidLeagueRuleID` |
| LeagueRules.GetLeagueRule | league_rules.go:40-46 | an empty ID fails without a request; otherwise the result is that of fetching the endpoint followed by `/` and the ID |
| LeagueRules.AppendedUnique | league_rules.go:45 | the URL shape determines the URL |
| LeagueRules.GetLeagueRules | league_rules.go:9-10 | the list is fetched from the bare endpoint |
| LeagueRuleSnapshot.ValidateLeagueRuleOptions | league_rule.go:15-20 | valid exactly when the ID is non-empty; otherwise `ErrInvalidLeagueRuleID` |
| LeagueRuleSnapshot.GetLeagueRuleRequest | league_rule.go:23-28 | an empty ID fails first; otherwise the URL is the endpoint followed by `/` and the ID |
| LeagueRuleSnapshot.SnapshotsAgree | league_rule.go:15-29 | both snapshots validate alike and fetch the same URL |
| StashTabs.ToQueryParams | stash_tabs.go:17-23 | the query is exactly `""` for an empty ID and exactly `id=` followed by the escaped ID otherwise, so it holds one field at most; `id` reads back escaped |
| StashTabs.QueryText | stash_tabs.go:17-23 | the encoding of the guarded add is that text, with no field or exactly one |
| StashTabs.QueryFacts | stash_tabs.go:17-23 | the encoded guarded add: empty exactly for an empty ID, and with only the key `id` |
| StashTabs.QueryLookupFacts | stash_tabs.go:19-22 | `id` reads back escaped exactly when it is set |
| StashTabs.QueryKeyFacts | stash_tabs.go:17-23 | no key other than `id` appears |
| StashTabs.QueryOfPlainID | stash_tabs.go:17-22 | an unreserved ID gives the query `id=<ID>` |
| StashTabs.GetStashesURL | stash_tabs.go:26-28 | the URL is the stash endpoint, then `?`, then the query, even when the query is empty |
| StashTabs.LatestStashURL | stash_tabs.go:50-55 | the scheme is `http` exactly when the host starts with `127.0.0.1`; it is followed by `://`, the host, and `/api/Data/GetStats` |
| StashTabs.GetLatestStashID | stash_tabs.go:48-69 | a fetch error is returned before decoding; otherwise the decoded response is returned |
| PvpMatches.GuardsDistinct | pvp_matches.go:18-28 | the three adds use distinct keys drawn from `type`, `season` and `realm` |
| PvpMatches.ToQueryParams | pvp_matches.go:18-30 | each of `type`, `season` and `realm` appears, escaped, exactly when it is set; no other key appears; keys are sorted, with one field for each add made; the query is empty exactly for empty options |
| PvpMatches.QueryKeyFacts | pvp_matches.go:18-29 | the encoded keys are among the three, are sorted, and there is one field for each add made |
| PvpMatches.QueryLookupFacts | pvp_matches.go:20-28 | the three fields read back escaped, each under its guard |
| PvpMatches.QueryLookupAt | pvp_matches.go:20-28 | any one guarded add reads back under its guard |
| PvpMatches.QueryEmptyFacts | pvp_matches.go:18-29 | the query is empty exactly when all three fields are empty |
| PvpMatches.QueryOfTypeAndSeason | pvp_matches.go:18-29 | a type and a season give `season=…&type=…`, in sorted order and not in the order they were added |
| PvpMatches.PresentTypeAndSeason | pvp_matches.go:20-25 | the adds store `type`, then `season` |
| PvpMatches.SeasonBeforeType | pvp_matches.go:29 | `season` sorts before `type`, and both keys need no escaping |
| PvpMatches.GetPVPMatchesURL | pvp_matches.go:33-35 | the URL is the PvP endpoint, then `?`, then the query |
| Pagination.SubPageCount | ladder.go:136 | no sub-page for a total of 200 or less; otherwise n sub-pages with 200·n < total ≤ 200·(n+1) |
| Pagination.SubPageOffsets | ladder.go:136 | the k-th offset is 200·(k+1) |
| Pagination.OffsetsAreMultiplesBelow | ladder.go:136 | an offset is requested exactly when it is a multiple of 200, at least 200 and below the total |
| Pagination.SubPageCountIsCeilingLessOne | ladder.go:136 | there are ⌈total/200⌉ − 1 sub-pages |
| Pagination.SubPagesFitChannel | ladder.go:13 | a total of at most 15200 needs at most 75 sub-pages, the capacity of the error channel |
| Pagination.SubPages | ladder.go:136-142 | the k-th sub-page is the page fetched at offset 200·(k+1) |
| Pagination.CollectPrefixStep | ladder.go:142-158 | joining one more page: a failure so far stays; a failing page fails; a good page's entries are appended |
| Pagination.CollectAllSucceed | ladder.go:147-149 | when all pages succeed, the join is their entries concatenated in order |
| Pagination.CollectFirstFailure | ladder.go:143-158 | when some page fails, the join fails with the first failing page's error |
| Pagination.CollectFails | ladder.go:155-159 | the join fails exactly when some page fails |
| Pagination.FirstFailure | ladder.go:155-159 | the first failing page exists and every page before it succeeds |
| Pagination.FlattenSnoc | ladder.go:148 | appending a page appends its entries |
| Pagination.FlattenFullPages | ladder.go:148 | when every sub-page is full, the sub-pages hold total − 200 entries |
| Pagination.AssembleFromSubPages | ladder.go:116-167 | for a probe of more than 200 entries: if all sub-pages succeed, the result is the probe's metadata with only the sub-pages' entries; otherwise it is the first failing sub-page's error and no ladder |
| Pagination.AssembleDropsProbe | ladder.go:165-166 | as written, a full probe and full sub-pages give a ladder with total − 200 entries: the probe's own entries are missing |
| Pagination.AssembleCorrectedComplete | ladder.go:165-166 | with the probe's entries kept, the ladder holds total entries: the probe's, then the sub-pages' |
| Pagination.FetchSubPages | ladder.go:136-153 | the loop requests offsets 200, 400, … below the total, in order, and returns the first-error-wins join of the sub-pages |
| LadderApi.GuardsDistinct | ladder.go:56-79 | the eight adds use distinct, unreserved keys from the ladder key set |
| LadderApi.QueryLookupAt | ladder.go:56-80 | any one guarded add reads back from the encoded query under its guard |
| LadderApi.ToQueryParams | ladder.go:56-80 | keys are sorted and drawn from the eight. `track` is always present. `realm` and `type` appear when set. `accountName` appears only for the `league` type, and `difficulty`/`start` only for `labyrinth`. `limit`/`offset` appear when non-zero. There is one field for each add made, so no key appears twice |
| LadderApi.QueryKeyFacts | ladder.go:56-80 | the encoded keys are among the eight, are sorted, and there is one field for each add made |
| LadderApi.LeagueLadderQuery | ladder.go:56-80 | a league ladder with an unreserved realm and account name, a limit and an offset gives exactly the fields `accountName`, `limit`, `offset`, `realm`, `track`, `type`, in that order, joined with `&` |
| LadderApi.LeagueAdds | ladder.go:57-79 | for such options the adds leave realm, type, track, accountName, limit, offset, in the order the builder makes them |
| LadderApi.LeagueTestQuery | ladder_test.go:7-15 | the test's options give the fields of `accountName=testaccount&limit=200&offset=200&realm=sony&track=true&type=league`, in that order |
| LadderApi.LabyrinthLadderQuery | ladder.go:56-80 | a labyrinth ladder with an unreserved realm and difficulty, a start time, a limit and an offset gives exactly the fields `difficulty`, `limit`, `offset`, `realm`, `start`, `track`, `type`, in that order, joined with `&` |
| LadderApi.LabyrinthAdds | ladder.go:57-79 | for such options the adds leave realm, type, track, difficulty, start, limit, offset, in the order the builder makes them |
| LadderApi.LabyrinthTestQuery | ladder_test.go:27-36 | the test's options give the fields of `difficulty=Normal&limit=200&offset=400&realm=xbox&start=1565283600&track=false&type=labyrinth`, in that order |
| LadderApi.QueryRealmFact | ladder.go:58-60 | `realm` is present, escaped, exactly when set |
| LadderApi.QueryTypeFact | ladder.go:61-63 | `type` is present, escaped, exactly when set |
| LadderApi.QueryTrackFact | ladder.go:64 | `track` is always present, as `true`/`false` |
| LadderApi.QueryAccountNameFact | ladder.go:65-67 | `accountName` is present exactly when it is set and the type is `league` |
| LadderApi.QueryDifficultyFact | ladder.go:68-70 | `difficulty` is present exactly when it is set and the type is `labyrinth` |
| LadderApi.QueryStartFact | ladder.go:71-73 | `start` is present, in decimal, exactly when it is non-zero and the type is `labyrinth` |
| LadderApi.QueryLimitFact | ladder.go:74-76 | `limit` is present, in decimal, exactly when non-zero |
| LadderApi.QueryOffsetFact | ladder.go:77-79 | `offset` is present, in decimal, exactly when non-zero |
| LadderApi.ValidateGetLadderOptions | ladder.go:83-114 | checks run in order. A missing ID comes first. Then an unknown realm, an unknown type, and (for labyrinth only) an unknown difficulty or a start time below 0 or in (0, 1456790400). Then a limit outside 1..200, then an offset outside 0..15000. Each error is returned exactly when its check is the first to fail, and nil otherwise |
| LadderApi.PageURL | ladder.go:174-175 | the page URL is the ladders endpoint, then `/`, the ID, `?`, and the query |
| LadderApi.GetLadderPage | ladder.go:170-176 | a validation error is returned without a request; otherwise the result of fetching the page URL is returned |
| LadderApi.GetLadder | ladder.go:116-168 | the loop version returns the assembled ladder: the probe at limit 200 (a probe error is returned as is), the probe itself when the total is ≤ 200, and otherwise the first-error-wins join of the sub-pages. It requests the probe's offset and then the sub-page offsets |
| LadderApi.GetLadderCorrected | ladder.go:116-168 | the same fetches, with the probe's entries kept in front of the sub-pages' |
| LadderApi.ValidAtOffset | ladder.go:109 | valid options stay valid at any offset up to 15000, and fail with `ErrInvalidOffset` beyond it |
| LadderApi.SubPagesUpToLimit | ladder.go:136-144 | with every fetch succeeding, the first 75 sub-pages succeed and the 76th fails validation |
| LadderApi.FailingSubPages | ladder.go:133-144 | for more than 15200 entries, the sub-pages past the 75th are exactly those above offset 15000; their number fits the 75-slot error channel exactly when the ladder holds at most 30200 entries |
| LadderApi.LargeLadderFails | ladder.go:136-158 | a ladder of more than 15200 entries fails with `ErrInvalidOffset`, even when every fetch succeeds |
| LaddersApi.GuardsDistinct | ladders.go:51-74 | the eight adds use distinct, unreserved keys |
| LaddersApi.QueryLookupAt | ladders.go:51-75 | any one guarded add reads back from the encoded query under its guard |
| LaddersApi.ToQueryParams | ladders.go:51-75 | the same per-key rules as the newer snapshot (track always; accountName only for `league`; difficulty/start only for `labyrinth`; limit/offset when non-zero), with sorted keys and one field for each add made, so no key appears twice |
| LaddersApi.QueryKeyFacts | ladders.go:51-75 | the encoded keys are among the eight, are sorted, and there is one field for each add made |
| LaddersApi.LeagueLadderQuery | ladders.go:51-75 | a league ladder with an unreserved realm and account name, a limit and an offset gives exactly the fields `accountName`, `limit`, `offset`, `realm`, `track`, `type`, in that order, joined with `&` |
| LaddersApi.LeagueAdds | ladders.go:52-74 | for such options the adds leave realm, limit, offset, type, track, accountName, in the order the builder makes them |
| LaddersApi.LeagueTestQuery | ladders_test.go:7-15 | the test's options give the fields of `accountName=testaccount&limit=200&offset=200&realm=sony&track=true&type=league`, in that order |
| LaddersApi.LabyrinthLadderQuery | ladders.go:51-75 | a labyrinth ladder with an unreserved realm and difficulty, a start time, a limit and an offset gives exactly the fields `difficulty`, `limit`, `offset`, `realm`, `start`, `track`, `type`, in that order, joined with `&` |
| LaddersApi.LabyrinthAdds | ladders.go:52-74 | for such options the adds leave realm, limit, offset, type, track, difficulty, start, in the order the builder makes them |
| LaddersApi.LabyrinthTestQuery | ladders_test.go:27-36 | the test's options give the fields of `difficulty=Normal&limit=200&offset=400&realm=xbox&start=1565283600&track=false&type=labyrinth`, in that order |
| LaddersApi.QueryRealmFact | ladders.go:53-55 | `realm` is present, escaped, exactly when set |
| LaddersApi.QueryLimitFact | ladders.go:56-58 | `limit` is present exactly when non-zero |
| LaddersApi.QueryOffsetFact | ladders.go:59-61 | `offset` is present exactly when non-zero |
| LaddersApi.QueryTypeFact | ladders.go:62-64 | `type` is present exactly when set |
| LaddersApi.QueryTrackFact | ladders.go:65 | `track` is always present |
| LaddersApi.QueryAccountNameFact | ladders.go:66-68 | `accountName` is present only for the `league` type |
| LaddersApi.QueryDifficultyFact | ladders.go:69-71 | `difficulty` is present only for the `labyrinth` type |
| LaddersApi.QueryStartFact | ladders.go:72-74 | `start` is present only for the `labyrinth` type |
| LaddersApi.PageURL | ladders.go:79-80 | the page URL is the ladders endpoint, then `/`, the ID, `?`, and the query |
| LaddersApi.GetLadderPage | ladders.go:78-84 | the result of fetching the page URL is returned, with no validation |
| LaddersApi.GetLadder | ladders.go:96-146 | the loop version returns the assembled ladder (probe at limit 200, short-circuit at ≤ 200, first-error-wins sub-pages) and requests the probe's offset and then the sub-page offsets |
| LaddersApi.LargeLadderRequested | ladders.go:116-145 | without validation, every sub-page of a large ladder is fetched, beyond 15000 too, and the result carries every sub-page's entries |
| LadderSnapshots.SnapshotQueriesAgree | ladders.go:51-75 | for the same options, both snapshots' encoded queries read the same under every key |
| LadderSnapshots.AgreeElsewhere | ladders.go:51-75 | neither snapshot sends a key outside the eight |
| LruCache.Find | cache.go:17 | the position of the element with a given identity, or −1 when no element has it |
| LruCache.Promote | cache.go:45-46 | MoveToFront: the element comes first with its new value, those before it shift back by one, and those after it stay |
| LruCache.Without | cache.go:80 | removing an element keeps the others in order |
| LruCache.MoveKeepsLinked | cache.go:45-46 | moving an element to the front keeps the index pointing at live elements with matching keys |
| LruCache.RemoveKeepsLinked | cache.go:79-83 | removeElement unlinks the element and drops its key, so the index never points at a removed element |
| LruCache.RemoveOldestKeepsLinked | cache.go:72-77 | removeOldest keeps the index linked and shortens a non-empty list by one |
| LruCache.PushedKeepsValid | cache.go:48-53 | the push and then the eviction keep the list within capacity and the index linked |
| LruCache.AddKeepsValid | cache.go:40-54 | after any Add, as written, the list holds at most `size` elements and the index points only at live elements |
| LruCache.TouchKeepsValues | cache.go:58-70 | Get changes no value that any key reads. A present key moves to the front without the length changing. An absent key leaves the cache unchanged |
| LruCache.NewKeyStored | cache.go:48-50 | from a cache holding one element per key, Add of a key not already present puts it at the front, and a following Get returns the new value |
| LruCache.NewKeyEvictsOldest | cache.go:51-53 | from a full cache holding one element per key, a new key evicts exactly the back key; every other key reads as before |
| LruCache.DuplicateAddLosesValue | cache.go:44-53 | as written, with capacity 1, Add(k, a) then Add(k, b) leaves Get(k) returning `""` |
| LruCache.DuplicateAddLosesLaterKey | cache.go:44-53 | as written, with capacity 2, after Add(k, a), Add(k, b), Add(j, x) the index has lost k while a stale element for k is still listed, and a following Add(k, c) leaves Get(k) returning `""` |
| LruCache.AddExistingDuplicates | cache.go:44-50 | as written, Add of a present key leaves two elements with that key at the front |
| LruCache.CorrectedStores | cache.go:44-47 | Add that only moves and updates a present key keeps the cache within capacity with one element per key, and Get then returns the value |
| LruCache.Cache.constructor | cache.go:31-35 | a new cache has its size and an empty list and index |
| LruCache.Cache.Add | cache.go:40-54 | the new state is the as-written Add step, and the cache invariant holds |
| LruCache.Cache.PushFront | cache.go:48-53 | pushes a fresh element, indexes it, and evicts the oldest element past capacity |
| LruCache.Cache.Get | cache.go:58-70 | returns the key's value, or `""` when absent, and moves the element to the front |
| LruCache.Cache.RemoveOldest | cache.go:72-77 | removes the back element, if any |
| LruCache.Cache.RemoveElement | cache.go:79-83 | removes the element and deletes its key from the index |
| LruCache.Cache.AddCorrected | cache.go:40-54 | the corrected Add step: the invariant and cleanliness are kept, and the key reads back the value |
| LruCache.NewCache | cache.go:27-37 | a size ≤ 0 gives `ErrInvalidCacheSize`; otherwise a fresh, empty cache of that size |
| DnsRing.IPAt | cache.go:93-98 | the current slot's address, or `ErrInvalidAddress` when the slot holds something other than a string |
| DnsRing.NextCursor | cache.go:96-100 | the cursor stays put on a slot that holds no address and otherwise moves to the next slot, wrapping at the end; it stays inside the ring |
| DnsRing.CallsInOrder | cache.go:93-101 | successive calls over address slots return them in ring order |
| DnsRing.FullTurn | cache.go:110-116 | over a ring built from K addresses, K calls return them in resolution order, the cursor is back at the start, and further calls repeat the sequence |
| DnsRing.StuckOnOther | cache.go:95-98 | a slot that is not an address yields `ErrInvalidAddress` on every call, and the ring does not advance |
| DnsRing.CallsSplit | cache.go:100 | a + b calls are a calls followed by b calls from where the cursor was left |
| DnsRing.DnsCache.constructor | cache.go:116 | a new cache holds the ring, positioned at its first slot |
| DnsRing.DnsCache.GetIP | cache.go:93-102 | returns the value at the cursor and advances exactly as `NextCursor` says |
| DnsRing.NewDnsCache | cache.go:104-117 | a lookup error is returned; otherwise the ring holds the addresses in resolution order, with the cursor at the first |
| JankLimiter.Millis | janklimiter.go:14 | the interval in milliseconds is between 0 and 1000 for positive rates; it is 0 above 1000 requests per second, and at least 1 otherwise |
| JankLimiter.MillisTruncates | janklimiter.go:14 | the quotient is truncated: q·rate ≤ 1000 < (q+1)·rate, and it is odd in the rate |
| JankLimiter.Interval | janklimiter.go:14 | for a positive rate, between 0 and one second; at least 1 ms up to 1000 requests per second, and 0 above that |
| JankLimiter.Since | janklimiter.go:16 | the elapsed time, saturated to the range of a Duration |
| JankLimiter.SleepFor | janklimiter.go:16-19 | the sleep is exactly interval − elapsed when the interval has not passed, and 0 otherwise |
| JankLimiter.SpacedByInterval | janklimiter.go:16-21 | with a clock that never runs backwards, the time a wait records is at least one interval after the previous request |
| JankLimiter.NoSleepWhenIdle | janklimiter.go:17-19 | once the interval has passed, the wait records the current time without sleeping |
| JankLimiter.Limiter.constructor | janklimiter.go:24-29 | stores both rates, with a zero last-request time |
| JankLimiter.Limiter.Wait | janklimiter.go:13-22 | sleeps exactly the rest of the interval or not at all, then records the time after the sleep; only `lastRequest` changes |
| Request.Settle | request.go:13-52 | a limiter error comes first, then a transport error unchanged. Then 200 gives the body (or its read error), 400 `ErrBadRequest`, 404 `ErrNotFound`, 500 `ErrServerFailure`, and any other status `ErrUnknownFailure`. It succeeds exactly on a 200 whose body was read |
| Request.GetJSON | request.go:35-39 | the back-off is a whole number of 5-second timeouts |
| Request.FirstSettled | request.go:35-39 | the first attempt that does not answer 429; every attempt before it does |
| Request.GetJSONFirstSettled | request.go:35-39 | the call answers as the first attempt that is not a 429, after five seconds of back-off for each 429 before it |
| Request.NeverRateLimited | request.go:35-39 | a 429 is never what `getJSON` returns: it yields no `ErrRateLimited` unless an input carries it |

## Left out

- **`ratelimiter.go`.** The token-bucket limiter (`c.limiter.Wait()` in `getJSON`) is floating-point arithmetic over wall-clock timers. It appears only as the limiter's outcome in `Request.Attempt`.
- **Concurrency in `GetLadder`.** The goroutines, `sync.WaitGroup`, mutex and error channel are not modelled. The model fetches the sub-pages sequentially in offset order, and the error it returns is the first failure in offset order. In Go the page entries arrive in nondeterministic order, the returned error is whichever was sent first, and the `wg.Add` call inside the goroutine races with `wg.Wait`. The `Pagination.SubPagesFitChannel` bound is the only statement about the channel.
- **`LadderApi.LargeLadderFails`** states the result for ladders over 15200 entries. With validation, the 76th sub-page and every later one fail. Up to 30200 entries there are at most 75 such failures, they fit the error channel, and Go returns `ErrInvalidOffset` as the lemma says. Above 30200 entries Go sends more than 75 errors into the channel of capacity 75, which blocks the extra goroutines and `wg.Wait`; the model cannot express that deadlock and returns the error there too (`LadderApi.FailingSubPages` states the threshold).
- **I/O.** HTTP requests, `ioutil.ReadAll`, JSON decoding (`parse*Response`) and `fmt.Println` are not modelled. A fetch is a function from URL to `Result`, and decoding is a parameter of `StashTabs.GetLatestStashID`.
- **DNS resolution.** `net.LookupHost` is the `lookup` parameter of `DnsRing.NewDnsCache`. An empty lookup result makes Go build a nil ring, on which `getIP` panics. `DnsRing.DnsCache.GetIP` therefore requires a non-empty ring.
- **The nil check in `Get`.** The check of a nil entry in `Get` (cache.go:64-66) cannot fire, since every element holds an entry. The model has no such case.
- **Locks.** The cache's lock is not modelled; every operation is atomic.
- **`Request.GetJSON`** requires some attempt that does not answer 429. If every attempt answered 429, Go would recurse without end.
- **Rate 0.** `JankLimiter.Limiter.Wait` requires a non-zero rate, since Go's integer division by zero panics.
- **Wall-clock time.** The clock reading and the scheduler's overshoot after a sleep are parameters.
- **`request_test.go` and 429.** The test expects `ErrRateLimited` for a 429 response, but `request.go` retries. The model follows `request.go`.
- **Options in `GetLeagues`.** `GetLeagues` validates its options but never sends them (`Leagues.OptionsNotSent`). This is modelled as written.
- **`LruCache.NewKeyEvictsOldest`** proves, for any state, what the eviction test in `cache_test.go` checks at capacity 10 with keys "1" to "9". The literal test run is not unfolded.
- **Escaping.** `Query.Escape` works on Unicode scalar values. Go strings may hold bytes that are not valid UTF-8, and `QueryEscape` escapes such bytes one at a time; the model cannot express those strings.
- **Client wiring.** client.go's constructor and the example programs are not part of this model.

## Findings

| source | as written | input that shows it | evidently intended | confidence | as-written member | corrected member |
|---|---|---|---|---|---|---|
| ladder.go:165-166 | `entries` starts empty and only the sub-pages are appended; the probe page's entries are discarded (the same in ladders.go:143-144) | a ladder of 201 or more entries, with a full first page of 200 | the returned ladder holds all `TotalEntries` entries, the probe page's first | not executed | Pagination.AssembleDropsProbe | Pagination.AssembleCorrectedComplete |
| cache.go:44-53 | Add of a present key moves and updates its element, then also pushes a second element for the key; evicting the stale one later deletes the live index entry (cache.go:81-82) | capacity 1: Add("k", "a"), Add("k", "b"), Get("k") returns "" | Add of a present key updates it in place and returns, as in the LRU it is based on | not executed | LruCache.DuplicateAddLosesValue | LruCache.CorrectedStores |
| cache.go:44-53 | the stale element left by a duplicate Add outlives its key's index entry; when it is evicted after the key has been added again, removeElement (cache.go:81-82) deletes the new entry too | capacity 2: Add("k", "a"), Add("k", "b"), Add("j", "x"), Add("k", "c"), Get("k") returns "" | every Add leaves one element per key, so a key just added reads back its value | not executed | LruCache.DuplicateAddLosesLaterKey | LruCache.CorrectedStores |

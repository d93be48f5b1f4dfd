# Mock NHL play-by-play and MoneyPuck statistics endpoints, in Dafny

The test server of gameDataEmulator stands in for two external sports-data
feeds during integration tests:

- the **play-by-play feed** (`/v1/gamecenter/{gameID}[/play-by-play]`) serves
  a fixed list of ten one-play responses round-robin. One cursor is shared by
  every request, whatever game is asked for;
- the **statistics feed** (`/moneypuck/gameData/20242025/{gameID}.csv`) looks
  the game ID up in a fixed table and serves a two-line CSV document. A game
  the table does not know gets the default row `2.50,2.50`.

Files:

- `models.dfy` (module `Models`) mirrors the records of
  `internal/models/play.go` as datatypes: `Play(typeDescKey)` and
  `PlayByPlayResponse(plays)`.
- `text.dfy` (module `Text`) has `Split`, which cuts a string at a separator
  character, with lemmas for its piece count and for the cases the CSV proofs use.
- `services.dfy` (module `Services`) models `internal/services/testdata.go`.
  - The play-by-play server is a class. Its field `currentEvent` is mutable and
    its list `events` is a constant. `Valid()` says the cursor indexes the list.
    `HandlePlayByPlay` returns the selected response and the extracted game ID
    instead of writing them to an HTTP response and a log.
  - The statistics server never changes its table, so it is a datatype value.
    `HandleStats` is a function from the path to the CSV text.
  - Both path extractors cut by length only, as the Go code does. A path too
    short for the cut makes Go panic, so it is a precondition here. Lemmas show
    that the prefix text and the `.csv` extension are never compared.

The statistics document has two fields, the expected goals of each team. The
table maps a game ID to the pair `[homeExpectedGoals, awayExpectedGoals]`
(testdata.go:21). The header is `homeTeamExpectedGoals,awayTeamExpectedGoals`
(testdata.go:94-95) and the default row is `2.50,2.50` (testdata.go:90). There
are no goal or shoot-out columns.

Go's `%` truncates toward zero and Dafny's is Euclidean. The cursor and the
list length are never negative, so the two agree there.

## Model

| member | source | states |
|---|---|---|
| Services.FixtureEvents | internal/services/testdata.go:28-39 | the fixture has exactly ten responses; the first is the faceoff, the last is the game end, and each holds exactly one play |
| Services.TestPlayByPlayServer.constructor | internal/services/testdata.go:25-41 | a new server has its cursor at 0 over the fixture list, and its invariant holds |
| Services.TestPlayByPlayServer.HandlePlayByPlay | internal/services/testdata.go:55-74 | one request returns the response under the old cursor and advances the cursor by one modulo the list length; the cursor invariant is kept; nothing but the cursor changes; the returned game ID is the one extracted from the path |
| Services.PlayByPlayGameId | internal/services/testdata.go:60-63 | the game ID is the path without its first 15 characters, less a trailing "/play-by-play" exactly when something precedes that suffix, in which case the ID is non-empty |
| Services.PlayByPlayGameIdWithSuffix | internal/services/testdata.go:60-63 | a path of prefix, non-empty game ID and "/play-by-play" yields that game ID |
| Services.PlayByPlayGameIdBare | internal/services/testdata.go:60-63 | a path of prefix and an ID that does not end in the suffix yields that ID unchanged |
| Services.PlayByPlayGameIdIgnoresPrefixText | internal/services/testdata.go:60-61 | any 15 leading characters give the same game ID as the real prefix, and a remainder that is exactly "/play-by-play" is kept because the guard demands idx > 0 |
| Services.ServeInOrder | internal/services/testdata.go:68-70 | requests served one after another get the responses at the starting cursor plus k, modulo the list length, whatever their paths; afterwards the cursor has moved on by the number of requests |
| Services.FreshServerRoundRobin | internal/services/testdata.go:25-70 | a fresh server answers its k-th request (counting from 0) with fixture response k mod 10; the first answer is the faceoff and the eleventh repeats the first |
| Services.StatsGameId | internal/services/testdata.go:82-83 | the game ID is the path without its first 29 and its last 4 characters: the path is exactly those 29 characters, the ID and those 4 characters |
| Services.StatsGameIdRoundTrip | internal/services/testdata.go:82-83 | any 29 characters, a game ID and any 4 characters give back exactly that game ID, so neither the prefix text nor the extension is checked |
| Services.LookupStats | internal/services/testdata.go:88-91 | a stored game ID yields its stored row; any other game ID yields the default row 2.50,2.50 |
| Services.StatsCsv | internal/services/testdata.go:94-95 | the document starts with the fixed header line and ends in a newline; when both fields are free of commas and newlines it reads back as exactly two lines, the two column names and the row's two fields |
| Services.TestStatsServer.HandleStats | internal/services/testdata.go:77-99 | every document starts with the fixed header line and ends in a newline; for a table whose fields are free of commas and newlines it reads back as exactly the header and the looked-up row of the game ID in the path |
| Services.NewTestStatsServer | internal/services/testdata.go:44-52 | the table knows exactly the three games 2024030411, 2024030412 and 2024030413; 2024030412 is 3.12,2.94; every row can be served and read back |
| Services.FixtureStatsServed | internal/services/testdata.go:46-95 | for every game ID, the document served for its path reads back as the header and the stored row, or the default row for an unknown game |
| Services.DocumentForGame | internal/services/testdata.go:82-95 | for any well-formed table and any game ID, the path for that ID is served the header line, then the stored or default row joined by a comma, then a newline |
| Services.KnownGameDocument | internal/services/testdata.go:82-95 | the path for game 2024030412 is served exactly the header line and the line 3.12,2.94 |
| Services.UnknownGameDocument | internal/services/testdata.go:82-95 | the path for the unknown game 9999999999 is served exactly the header line and the default line 2.50,2.50 |

## Left out

- The `sync.Mutex` of both servers (testdata.go:56-57, 78-79) is not modelled; each handler call is one atomic method call. `ServeInOrder` stands for the order the lock imposes on concurrent requests.
- The `log.Printf` calls (testdata.go:65-66, 85) are not modelled. The play-by-play game ID, which is only logged, is returned by `HandlePlayByPlay` instead.
- HTTP and JSON plumbing (content-type headers, `json.NewEncoder(w).Encode`, `w.Write`) is not modelled; the handlers return the response value and the CSV text.
- `cmd/testserver/main.go` is not part of this model: environment-variable port selection, goroutine start-up, `http.ListenAndServe` and router wiring are process glue.
- Go strings are byte strings and the model uses `seq<char>`; the two agree on ASCII paths. Paths with multi-byte characters would be cut at other places.
- Panics are not modelled as outcomes: a play-by-play path shorter than 15 characters, a statistics path shorter than 33 characters, and a stored statistics row with fewer than two fields (`TestStatsServer.Valid`) are preconditions instead.

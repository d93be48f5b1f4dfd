/**
 The two mock endpoints of the test server: a play-by-play feed that serves a
 fixed list of one-play responses round-robin, and a statistics feed that
 answers a per-game CSV document from a fixed table, with a default row for
 unknown games.
 */
module Services {
  import opened Models
  import opened Text

  // ---------------------------------------------------------------------------
  // Play-by-play feed
  // ---------------------------------------------------------------------------

  /** The leading part of every play-by-play path; only its length is used. */
  const GameCenterPrefix: string := "/v1/gamecenter/"

  /** The optional trailing part of a play-by-play path. */
  const PlayByPlaySuffix: string := "/play-by-play"

  /** A response that reports the single play `tag`. */
  function OnePlay(tag: string): PlayByPlayResponse {
    PlayByPlayResponse([Play(tag)])
  }

  /** The fixture the play-by-play feed cycles through: ten one-play
      responses, from the opening faceoff to the end of the game. */
  function FixtureEvents(): (events: seq<PlayByPlayResponse>)
    ensures |events| == 10
    ensures events[0] == OnePlay("faceoff") && events[9] == OnePlay("game-end")
    ensures forall i :: 0 <= i < |events| ==> |events[i].plays| == 1
  {
    [ PlayByPlayResponse([Play("faceoff")]),
      PlayByPlayResponse([Play("shot-on-goal")]),
      PlayByPlayResponse([Play("blocked-shot")]),
      PlayByPlayResponse([Play("missed-shot")]),
      PlayByPlayResponse([Play("goal")]),
      PlayByPlayResponse([Play("hit")]),
      PlayByPlayResponse([Play("takeaway")]),
      PlayByPlayResponse([Play("giveaway")]),
      PlayByPlayResponse([Play("penalty")]),
      PlayByPlayResponse([Play("game-end")]) ]
  }

  /** True when `rest` is longer than the play-by-play suffix and ends with it. */
  predicate EndsWithPlayByPlay(rest: string) {
    |rest| > |PlayByPlaySuffix| && rest[|rest| - |PlayByPlaySuffix|..] == PlayByPlaySuffix
  }

  /** The game ID of a play-by-play path: the path without its first
      |GameCenterPrefix| characters, and without a trailing "/play-by-play"
      when something precedes it. The prefix text itself is not compared. */
  function PlayByPlayGameId(path: string): (gameId: string)
    requires |path| >= |GameCenterPrefix|
    ensures var rest := path[|GameCenterPrefix|..];
      if EndsWithPlayByPlay(rest) then gameId != "" && rest == gameId + PlayByPlaySuffix
      else gameId == rest
  {
    var rest := path[|GameCenterPrefix|..];
    var idx := |rest| - |PlayByPlaySuffix|;
    if idx > 0 && rest[idx..] == PlayByPlaySuffix then rest[..idx] else rest
  }

  /** A path built from a non-empty game ID and the suffix yields that game ID. */
  lemma PlayByPlayGameIdWithSuffix(id: string)
    requires id != ""
    ensures PlayByPlayGameId(GameCenterPrefix + id + PlayByPlaySuffix) == id
  {
  }

  /** A path whose remainder does not end in the suffix yields the remainder. */
  lemma PlayByPlayGameIdBare(id: string)
    requires !EndsWithPlayByPlay(id)
    ensures PlayByPlayGameId(GameCenterPrefix + id) == id
  {
  }

  /** Only the length of the prefix matters: any |GameCenterPrefix| leading
      characters give the same game ID, and "/v1/gamecenter//play-by-play"
      keeps "/play-by-play" as its game ID. */
  lemma PlayByPlayGameIdIgnoresPrefixText(prefix: string, rest: string)
    requires |prefix| == |GameCenterPrefix|
    ensures PlayByPlayGameId(prefix + rest) == PlayByPlayGameId(GameCenterPrefix + rest)
    ensures PlayByPlayGameId(prefix + PlayByPlaySuffix) == PlayByPlaySuffix
  {
  }

  /** The play-by-play feed: a cursor into a fixed list of responses. One
      instance serves every request; its mutex makes each request one atomic
      step, which is what a single method call is here. */
  class TestPlayByPlayServer {
    var currentEvent: int
    const events: seq<PlayByPlayResponse>

    /** The cursor always indexes the (hence non-empty) list of responses. */
    predicate Valid()
      reads this
    {
      0 <= currentEvent < |events|
    }

    /** A fresh server, about to serve the first fixture response. */
    constructor ()
      ensures Valid()
      ensures currentEvent == 0 && events == FixtureEvents()
    {
      currentEvent := 0;
      events := FixtureEvents();
    }

    /** Serves one request: the response under the cursor, after which the
        cursor moves on by one, wrapping at the end of the list. The game ID
        comes from the path but does not choose the response; it is returned
        because it is what the request is logged under. */
    method HandlePlayByPlay(path: string) returns (response: PlayByPlayResponse, gameId: string)
      requires Valid()
      requires |path| >= |GameCenterPrefix|
      modifies this`currentEvent
      ensures Valid()
      ensures response == events[old(currentEvent)]
      ensures currentEvent == (old(currentEvent) + 1) % |events|
      ensures gameId == PlayByPlayGameId(path)
    {
      gameId := PlayByPlayGameId(path);
      response := events[currentEvent];
      currentEvent := (currentEvent + 1) % |events|;
    }
  }

  /** The remainder of x divided by n is the r of any x == q * n + r with
      0 <= r < n. */
  lemma ModUnique(x: int, n: int, q: int, r: int)
    requires n > 0 && 0 <= r < n && x == q * n + r
    ensures x % n == r
  {
    var q', r' := x / n, x % n;
    assert x == q' * n + r';
    assert (q - q') * n == r' - r;
    if q - q' >= 1 {
      assert false;
    } else if q - q' <= -1 {
      assert false;
    }
  }

  /** Moving a cursor that sits at a mod n on by one, wrapping, leaves it at
      (a + 1) mod n. */
  lemma AdvanceWraps(a: nat, n: nat)
    requires n > 0
    ensures (a % n + 1) % n == (a + 1) % n
  {
    var q, r := a / n, a % n;
    if r + 1 < n {
      ModUnique(a + 1, n, q, r + 1);
      ModUnique(r + 1, n, 0, r + 1);
    } else {
      ModUnique(a + 1, n, q + 1, 0);
      ModUnique(r + 1, n, 1, 0);
    }
  }

  /** Requests handed to `server` one after another, as its mutex serialises
      them: the k-th gets the response k places after the starting cursor,
      modulo the list length, whatever the paths are. */
  method ServeInOrder(server: TestPlayByPlayServer, paths: seq<string>)
      returns (served: seq<PlayByPlayResponse>)
    requires server.Valid()
    requires forall k :: 0 <= k < |paths| ==> |paths[k]| >= |GameCenterPrefix|
    modifies server`currentEvent
    ensures server.Valid()
    ensures |served| == |paths|
    ensures forall k :: 0 <= k < |paths| ==>
      served[k] == server.events[(old(server.currentEvent) + k) % |server.events|]
    ensures server.currentEvent == (old(server.currentEvent) + |paths|) % |server.events|
  {
    var start := server.currentEvent;
    var n := |server.events|;
    served := [];
    var i := 0;
    while i < |paths|
      invariant 0 <= i <= |paths|
      invariant server.Valid()
      invariant |served| == i
      invariant forall k :: 0 <= k < i ==> served[k] == server.events[(start + k) % n]
      invariant server.currentEvent == (start + i) % n
    {
      var response, gameId := server.HandlePlayByPlay(paths[i]);
      AdvanceWraps(start + i, n);
      served := served + [response];
      i := i + 1;
    }
  }

  /** The requests a fresh server receives are answered round-robin over the
      fixture: the k-th (0-indexed) gets fixture response k mod 10, so the
      first is the faceoff and the eleventh repeats it. */
  method FreshServerRoundRobin(paths: seq<string>) returns (served: seq<PlayByPlayResponse>)
    requires forall k :: 0 <= k < |paths| ==> |paths[k]| >= |GameCenterPrefix|
    ensures |served| == |paths|
    ensures forall k :: 0 <= k < |paths| ==> served[k] == FixtureEvents()[k % 10]
    ensures |paths| > 0 ==> served[0] == OnePlay("faceoff")
    ensures |paths| > 10 ==> served[10] == served[0]
  {
    var server := new TestPlayByPlayServer();
    served := ServeInOrder(server, paths);
    assert |server.events| == 10;
    assert forall k :: 0 <= k < |paths| ==> served[k] == server.events[k % 10];
    if |paths| > 10 {
      assert served[10] == server.events[0];
    }
  }

  // ---------------------------------------------------------------------------
  // Statistics feed
  // ---------------------------------------------------------------------------

  /** The leading part of every statistics path; only its length is used. */
  const StatsPrefix: string := "/moneypuck/gameData/20242025/"

  /** The extension of every statistics path; only its length is used. */
  const CsvExtension: string := ".csv"

  /** The two columns of the statistics document, in order. */
  const StatsColumns: seq<string> := ["homeTeamExpectedGoals", "awayTeamExpectedGoals"]

  /** The first line of every statistics document, without its newline. */
  const StatsHeader: string := "homeTeamExpectedGoals,awayTeamExpectedGoals"

  /** The row served for a game the table does not know. */
  const DefaultStats: seq<string> := ["2.50", "2.50"]

  /** The game ID of a statistics path: what lies between its first
      |StatsPrefix| characters and its last |CsvExtension| characters. Neither
      the prefix text nor the extension text is compared. */
  function StatsGameId(path: string): (gameId: string)
    requires |path| >= |StatsPrefix| + |CsvExtension|
    ensures |gameId| == |path| - |StatsPrefix| - |CsvExtension|
    ensures path == path[..|StatsPrefix|] + gameId + path[|path| - |CsvExtension|..]
  {
    var rest := path[|StatsPrefix|..];
    rest[..|rest| - |CsvExtension|]
  }

  /** Any path made of |StatsPrefix| characters, a game ID and |CsvExtension|
      characters yields exactly that game ID. */
  lemma StatsGameIdRoundTrip(prefix: string, id: string, extension: string)
    requires |prefix| == |StatsPrefix| && |extension| == |CsvExtension|
    ensures StatsGameId(prefix + id + extension) == id
  {
  }

  /** The statistics row for `gameId`: the stored one, or the default. */
  function LookupStats(stats: map<string, seq<string>>, gameId: string): (fields: seq<string>)
    ensures gameId in stats ==> fields == stats[gameId]
    ensures gameId !in stats ==> fields == DefaultStats
  {
    if gameId in stats then stats[gameId] else DefaultStats
  }

  /** The statistics document for a row: the header line, then the row's first
      two fields joined by a comma, each line ending in a newline. When both
      fields are free of commas and newlines, it reads back as exactly two
      records, the column names and those two fields. */
  function StatsCsv(fields: seq<string>): (csv: string)
    requires |fields| >= 2
    ensures |csv| > |StatsHeader| + 1 && csv[..|StatsHeader| + 1] == StatsHeader + "\n"
    ensures csv[|csv| - 1] == '\n'
    ensures CsvSafe(fields[0]) && CsvSafe(fields[1]) ==>
      CsvRecords(csv) == [StatsColumns, fields[..2]]
  {
    var csv := StatsHeader + "\n" + fields[0] + "," + fields[1] + "\n";
    assert csv[..|StatsHeader| + 1] == StatsHeader + "\n";
    if CsvSafe(fields[0]) && CsvSafe(fields[1]) then
      StatsDocumentReadsBack(fields[0], fields[1]);
      assert fields[..2] == [fields[0], fields[1]];
      csv
    else
      csv
  }

  /** A field that can be written into the document and read back unchanged. */
  predicate CsvSafe(field: string) {
    ',' !in field && '\n' !in field
  }

  /** Reads a CSV document back: its newline-terminated lines, each split at
      commas. */
  function CsvRecords(doc: string): seq<seq<string>> {
    var pieces := Split(doc, '\n');
    var lines := if pieces[|pieces| - 1] == "" then pieces[..|pieces| - 1] else pieces;
    seq(|lines|, i requires 0 <= i < |lines| => Split(lines[i], ','))
  }

  /** A document made of two comma-joined lines of safe fields, each ending
      in a newline, reads back as exactly those two records. */
  lemma TwoLineDocumentReadsBack(h0: string, h1: string, f0: string, f1: string)
    requires CsvSafe(h0) && CsvSafe(h1) && CsvSafe(f0) && CsvSafe(f1)
    ensures CsvRecords(h0 + "," + h1 + "\n" + f0 + "," + f1 + "\n") == [[h0, h1], [f0, f1]]
  {
    var header, row := h0 + "," + h1, f0 + "," + f1;
    var doc := h0 + "," + h1 + "\n" + f0 + "," + f1 + "\n";
    NoNewlineInRow(h0, h1);
    NoNewlineInRow(f0, f1);
    assert doc == header + ['\n'] + (row + "\n");
    SplitAfterPiece(header, '\n', row + "\n");
    assert row + "\n" == row + ['\n'] + "";
    SplitAfterPiece(row, '\n', "");
    var pieces := Split(doc, '\n');
    assert pieces == [header, row, ""];
    RowFields(h0, h1);
    RowFields(f0, f1);
    var lines := pieces[..|pieces| - 1];
    assert lines == [header, row];
    var records := CsvRecords(doc);
    assert |records| == 2 && records[0] == Split(header, ',') && records[1] == Split(row, ',');
  }

  /** Two safe fields joined by a comma hold no newline. */
  lemma NoNewlineInRow(f0: string, f1: string)
    requires CsvSafe(f0) && CsvSafe(f1)
    ensures '\n' !in f0 + "," + f1
  {
  }

  /** A data line of two safe fields splits back into those fields. */
  lemma RowFields(f0: string, f1: string)
    requires CsvSafe(f0) && CsvSafe(f1)
    ensures Split(f0 + "," + f1, ',') == [f0, f1]
  {
    assert f0 + "," + f1 == f0 + [','] + f1;
    SplitAfterPiece(f0, ',', f1);
    SplitWithoutSeparator(f1, ',');
  }

  /** The header line is the column names joined by a comma, and neither
      name holds a comma or a newline. */
  lemma StatsHeaderIsColumns()
    ensures |StatsColumns| == 2 && CsvSafe(StatsColumns[0]) && CsvSafe(StatsColumns[1])
    ensures StatsHeader == StatsColumns[0] + "," + StatsColumns[1]
  {
  }

  /** The header line and a data line of two safe fields read back as the
      column names and those fields. */
  lemma StatsDocumentReadsBack(f0: string, f1: string)
    requires CsvSafe(f0) && CsvSafe(f1)
    ensures CsvRecords(StatsHeader + "\n" + f0 + "," + f1 + "\n") == [StatsColumns, [f0, f1]]
  {
    StatsHeaderIsColumns();
    var h0, h1 := StatsColumns[0], StatsColumns[1];
    assert StatsHeader + "\n" + f0 + "," + f1 + "\n" == h0 + "," + h1 + "\n" + f0 + "," + f1 + "\n";
    TwoLineDocumentReadsBack(h0, h1, f0, f1);
    assert StatsColumns == [h0, h1];
  }

  /** The statistics feed: a fixed table from game ID to statistics row. The
      handler never changes it, so the server is a value. */
  datatype TestStatsServer = TestStatsServer(stats: map<string, seq<string>>)
  {
    /** Every stored row has the two fields the document is built from. */
    predicate Valid() {
      forall id :: id in stats ==> |stats[id]| >= 2
    }

    /** Every stored row's two fields survive being written into the document. */
    predicate Serializable() {
      forall id :: id in stats ==> |stats[id]| >= 2 && CsvSafe(stats[id][0]) && CsvSafe(stats[id][1])
    }

    /** Serves one request: the fixed header line, then the row for the game ID
        in the path (the stored one, else the default), ending in a newline;
        when the table is serializable, the document reads back as exactly
        those two records. */
    function HandleStats(path: string): (csv: string)
      requires Valid()
      requires |path| >= |StatsPrefix| + |CsvExtension|
      ensures |csv| > |StatsHeader| + 1 && csv[..|StatsHeader| + 1] == StatsHeader + "\n"
      ensures csv[|csv| - 1] == '\n'
      ensures Serializable() ==>
        CsvRecords(csv) == [StatsColumns, LookupStats(stats, StatsGameId(path))[..2]]
    {
      var id := StatsGameId(path);
      assert Serializable() && id in stats ==>
        CsvSafe(stats[id][0]) && CsvSafe(stats[id][1]);
      assert CsvSafe(DefaultStats[0]) && CsvSafe(DefaultStats[1]);
      StatsCsv(LookupStats(stats, id))
    }
  }

  /** The statistics server with its three known games. */
  function NewTestStatsServer(): (server: TestStatsServer)
    ensures server.Valid() && server.Serializable()
    ensures server.stats.Keys == {"2024030411", "2024030412", "2024030413"}
    ensures server.stats["2024030412"] == ["3.12", "2.94"]
  {
    TestStatsServer(map[
      "2024030411" := ["2.35", "1.87"],
      "2024030412" := ["3.12", "2.94"],
      "2024030413" := ["1.95", "2.68"]
    ])
  }

  /** A request for a stored game reads back as the header and that game's
      row; any other game ID reads back as the header and the default row. */
  lemma FixtureStatsServed(id: string)
    ensures var server := NewTestStatsServer();
      CsvRecords(server.HandleStats(StatsPrefix + id + CsvExtension))
        == [StatsColumns, if id in server.stats then server.stats[id] else DefaultStats]
  {
    var server := NewTestStatsServer();
    StatsGameIdRoundTrip(StatsPrefix, id, CsvExtension);
    var fields := LookupStats(server.stats, id);
    if id in server.stats {
      assert |fields| == 2 && fields[..2] == fields;
    } else {
      assert fields[..2] == DefaultStats;
    }
  }

  /** The document the statistics server serves for the path of game `id`
      is the header line followed by that game's row (or the default row). */
  lemma DocumentForGame(server: TestStatsServer, id: string)
    requires server.Valid()
    ensures var fields := LookupStats(server.stats, id);
      server.HandleStats(StatsPrefix + id + CsvExtension)
        == StatsHeader + "\n" + fields[0] + "," + fields[1] + "\n"
  {
    StatsGameIdRoundTrip(StatsPrefix, id, CsvExtension);
  }

  /** The document served for a stored game carries that game's row. */
  lemma KnownGameDocument(path: string)
    requires path == "/moneypuck/gameData/20242025/2024030412.csv"
    ensures NewTestStatsServer().HandleStats(path)
      == "homeTeamExpectedGoals,awayTeamExpectedGoals\n3.12,2.94\n"
  {
    assert path == StatsPrefix + "2024030412" + CsvExtension;
    DocumentForGame(NewTestStatsServer(), "2024030412");
  }

  /** The document served for an unknown game carries the default row. */
  lemma UnknownGameDocument(path: string)
    requires path == "/moneypuck/gameData/20242025/9999999999.csv"
    ensures NewTestStatsServer().HandleStats(path)
      == "homeTeamExpectedGoals,awayTeamExpectedGoals\n2.50,2.50\n"
  {
    assert path == StatsPrefix + "9999999999" + CsvExtension;
    DocumentForGame(NewTestStatsServer(), "9999999999");
  }
}

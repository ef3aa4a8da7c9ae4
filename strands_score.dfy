/** The StrandsScore table: one row per posted block, the read queries over it
    (as filters and group-bys over the row sequence) and the table object that
    inserts, overwrites and reprocesses rows. Time is an integer millisecond
    clock passed in as `now`. */
module StrandsScore {
  import opened Wrappers
  import opened Sorting
  import opened ScoreParser

  /** The user name under which the bot's own scores are stored. */
  const BOT_USER: string := "Strands Bot"

  /** `interval '7 days'` in milliseconds. */
  const WEEK_MS: int := 7 * 24 * 60 * 60 * 1000

  datatype Row = Row(id: nat, game: int, user: string, userTag: string, userId: string,
                     message: Message, score: nat, guild: string, channel: string, date: int)

  /** One `GROUP BY Username` line: the number of rows and the sum of their scores. */
  datatype Summary = Summary(user: string, games: nat, totalScore: nat)

  predicate InChannel(r: Row, guild: string, channel: string) {
    r.guild == guild && r.channel == channel
  }

  predicate Locates(r: Row, user: string, game: int, guild: string, channel: string) {
    r.user == user && r.game == game && InChannel(r, guild, channel)
  }

  /** Posted strictly after `now` minus seven days. */
  predicate Recent(r: Row, now: int) {
    r.date > now - WEEK_MS
  }

  /** A row the player lists look at: this channel, not the bot, inside the window. */
  predicate CountsAsPlayer(r: Row, guild: string, channel: string, now: int) {
    InChannel(r, guild, channel) && r.user != BOT_USER && Recent(r, now)
  }

  /** Every row carries the score its message yields. */
  ghost predicate Scored(rows: seq<Row>) {
    forall i :: 0 <= i < |rows| ==> rows[i].score == ProcessScore(rows[i].message)
  }

  ghost predicate UniqueIds(rows: seq<Row>) {
    forall i, j :: 0 <= i < j < |rows| ==> rows[i].id != rows[j].id
  }

  // ---------------------------------------------------------------- lookups

  /** `getScore`: the first row posted by `user` for `game` in this channel. */
  function FindScore(rows: seq<Row>, user: string, game: int, guild: string, channel: string)
    : (o: Option<Row>)
    ensures o.None? <==> forall i :: 0 <= i < |rows| ==> !Locates(rows[i], user, game, guild, channel)
    ensures o.Some? ==> o.value in rows && Locates(o.value, user, game, guild, channel)
  {
    if rows == [] then None
    else if Locates(rows[0], user, game, guild, channel) then Some(rows[0])
    else
      var o := FindScore(rows[1..], user, game, guild, channel);
      assert forall i :: 1 <= i < |rows| ==> rows[i] == rows[1..][i - 1];
      o
  }

  /** The names of `s` in first-occurrence order, each once (`DISTINCT`). */
  function Distinct(s: seq<string>): (d: seq<string>)
    ensures forall i, j :: 0 <= i < j < |d| ==> d[i] != d[j]
    ensures forall x :: x in d <==> x in s
    ensures |d| <= |s|
  {
    if s == [] then []
    else
      var d := Distinct(s[..|s| - 1]);
      assert s == s[..|s| - 1] + [s[|s| - 1]];
      if s[|s| - 1] in d then d else d + [s[|s| - 1]]
  }

  /** The user names of the rows that count as players, with repetitions. */
  function PlayerNames(rows: seq<Row>, guild: string, channel: string, now: int)
    : (names: seq<string>)
    ensures forall u :: u in names <==>
      exists i :: 0 <= i < |rows| && rows[i].user == u && CountsAsPlayer(rows[i], guild, channel, now)
  {
    if rows == [] then []
    else
      var rest := PlayerNames(rows[1..], guild, channel, now);
      assert forall i :: 1 <= i < |rows| ==> rows[i] == rows[1..][i - 1];
      if CountsAsPlayer(rows[0], guild, channel, now) then [rows[0].user] + rest else rest
  }

  /** The user names of the rows for `game` that count as players, with repetitions. */
  function GamePlayerNames(rows: seq<Row>, game: int, guild: string, channel: string, now: int)
    : (names: seq<string>)
    ensures forall u :: u in names <==>
      exists i :: 0 <= i < |rows| && rows[i].user == u && rows[i].game == game
                  && CountsAsPlayer(rows[i], guild, channel, now)
  {
    if rows == [] then []
    else
      var rest := GamePlayerNames(rows[1..], game, guild, channel, now);
      assert forall i :: 1 <= i < |rows| ==> rows[i] == rows[1..][i - 1];
      if rows[0].game == game && CountsAsPlayer(rows[0], guild, channel, now)
      then [rows[0].user] + rest else rest
  }

  /** `getTotalPlayers`: everyone but the bot who posted here in the last seven days. */
  function TotalPlayers(rows: seq<Row>, guild: string, channel: string, now: int): seq<string> {
    Distinct(PlayerNames(rows, guild, channel, now))
  }

  /** `getPlayersForGame`: as `TotalPlayers`, restricted to one game. */
  function PlayersForGame(rows: seq<Row>, game: int, guild: string, channel: string, now: int)
    : seq<string>
  {
    Distinct(GamePlayerNames(rows, game, guild, channel, now))
  }

  /** What the player lists hold, once each. */
  lemma PlayerLists(rows: seq<Row>, game: int, guild: string, channel: string, now: int)
    ensures forall u :: u in TotalPlayers(rows, guild, channel, now) <==>
      exists i :: 0 <= i < |rows| && rows[i].user == u && CountsAsPlayer(rows[i], guild, channel, now)
    ensures forall u :: u in PlayersForGame(rows, game, guild, channel, now) ==>
      u in TotalPlayers(rows, guild, channel, now)
    ensures BOT_USER !in TotalPlayers(rows, guild, channel, now)
    ensures BOT_USER !in PlayersForGame(rows, game, guild, channel, now)
    ensures forall i, j :: 0 <= i < j < |TotalPlayers(rows, guild, channel, now)| ==>
      TotalPlayers(rows, guild, channel, now)[i] != TotalPlayers(rows, guild, channel, now)[j]
  {
  }

  /** The rows `keep` accepts, in table order (a `WHERE` clause). */
  function Where(rows: seq<Row>, keep: Row -> bool): (o: seq<Row>)
    ensures forall r :: r in o <==> r in rows && keep(r)
    ensures |o| <= |rows|
  {
    if rows == [] then []
    else
      var rest := Where(rows[1..], keep);
      assert forall r :: r in rows <==> r == rows[0] || r in rows[1..];
      if keep(rows[0]) then [rows[0]] + rest else rest
  }

  /** `getPlayerInfoForGame`: the non-bot rows of one game in this channel, with no
      seven-day window. */
  function PlayerInfoForGame(rows: seq<Row>, game: int, guild: string, channel: string)
    : (o: seq<Row>)
    ensures forall r :: r in o <==>
      r in rows && r.game == game && InChannel(r, guild, channel) && r.user != BOT_USER
  {
    Where(rows, (r: Row) => r.game == game && InChannel(r, guild, channel) && r.user != BOT_USER)
  }

  // ------------------------------------------------------------ game scores

  /** `ORDER BY Score ASC, Date`. */
  predicate ScoreThenDate(a: Row, b: Row) {
    a.score < b.score || (a.score == b.score && a.date <= b.date)
  }

  function GameRows(rows: seq<Row>, game: int, guild: string, channel: string): (o: seq<Row>)
    ensures forall r :: r in o <==> r in rows && r.game == game && InChannel(r, guild, channel)
  {
    Where(rows, (r: Row) => r.game == game && InChannel(r, guild, channel))
  }

  /** `getGameScores`: every row of the game in this channel, best score first. */
  function GameScores(rows: seq<Row>, game: int, guild: string, channel: string): (o: seq<Row>)
    ensures multiset(o) == multiset(GameRows(rows, game, guild, channel))
    ensures forall r :: r in o <==> r in rows && r.game == game && InChannel(r, guild, channel)
    ensures Sorted(o, ScoreThenDate)
  {
    var g := GameRows(rows, game, guild, channel);
    SortBySorted(g, ScoreThenDate);
    var o := SortBy(g, ScoreThenDate);
    assert forall r :: r in o <==> r in multiset(g);
    o
  }

  // -------------------------------------------------------------- summaries

  /** How many rows `user` has. */
  function Count(rows: seq<Row>, user: string): nat {
    if rows == [] then 0
    else Count(rows[..|rows| - 1], user) + (if rows[|rows| - 1].user == user then 1 else 0)
  }

  /** The sum of the scores of `user`'s rows. */
  function SumScores(rows: seq<Row>, user: string): nat {
    if rows == [] then 0
    else SumScores(rows[..|rows| - 1], user)
         + (if rows[|rows| - 1].user == user then rows[|rows| - 1].score else 0)
  }

  predicate HasUser(g: seq<Summary>, user: string) {
    exists i :: 0 <= i < |g| && g[i].user == user
  }

  function UserOf(s: Summary): string {
    s.user
  }

  /** The position of `user`'s group, or -1. */
  function FindUser(g: seq<Summary>, user: string): (k: int)
    ensures -1 <= k < |g|
    ensures k == -1 <==> !HasUser(g, user)
    ensures 0 <= k ==> g[k].user == user
  {
    if g == [] then -1
    else if g[0].user == user then 0
    else
      var k := FindUser(g[1..], user);
      assert forall i :: 1 <= i < |g| ==> g[i] == g[1..][i - 1];
      if k == -1 then -1 else k + 1
  }

  /** Counts one more row into its user's group, opening the group if needed. */
  function Tally(g: seq<Summary>, r: Row): seq<Summary> {
    var k := FindUser(g, r.user);
    if k == -1 then g + [Summary(r.user, 1, r.score)]
    else g[k := Summary(r.user, g[k].games + 1, g[k].totalScore + r.score)]
  }

  /** `GROUP BY Username` with `COUNT(*)` and `SUM(Score)`, one pass over the rows. */
  function GroupBy(rows: seq<Row>): seq<Summary> {
    if rows == [] then [] else Tally(GroupBy(rows[..|rows| - 1]), rows[|rows| - 1])
  }

  /** The groups are exactly the users present, once each, with their own counts. */
  ghost predicate GroupsOf(g: seq<Summary>, rows: seq<Row>) {
    && DistinctBy(g, UserOf)
    && (forall u :: HasUser(g, u) <==> exists j :: 0 <= j < |rows| && rows[j].user == u)
    && (forall i :: 0 <= i < |g| ==>
          g[i].games == Count(rows, g[i].user) && g[i].games > 0
          && g[i].totalScore == SumScores(rows, g[i].user))
  }

  lemma {:induction false} AbsentUser(rows: seq<Row>, user: string)
    requires forall j :: 0 <= j < |rows| ==> rows[j].user != user
    ensures Count(rows, user) == 0 && SumScores(rows, user) == 0
  {
    if rows != [] {
      AbsentUser(rows[..|rows| - 1], user);
    }
  }

  lemma TallyGroups(g: seq<Summary>, rows: seq<Row>)
    requires rows != []
    requires GroupsOf(g, rows[..|rows| - 1])
    ensures GroupsOf(Tally(g, rows[|rows| - 1]), rows)
  {
    var prev, r := rows[..|rows| - 1], rows[|rows| - 1];
    assert forall j :: 0 <= j < |prev| ==> prev[j] == rows[j];
    var o := Tally(g, r);
    var k := FindUser(g, r.user);
    if k == -1 {
      assert !exists j :: 0 <= j < |prev| && prev[j].user == r.user;
      AbsentUser(prev, r.user);
      forall u ensures HasUser(o, u) <==> exists j :: 0 <= j < |rows| && rows[j].user == u {
        if u == r.user { assert o[|g|].user == u; }
        if HasUser(g, u) {
          var i :| 0 <= i < |g| && g[i].user == u;
          assert o[i].user == u;
        }
      }
    } else {
      forall i | 0 <= i < |o| && i != k ensures o[i].user != r.user {
        assert g[i].user != g[k].user;
      }
      forall u ensures HasUser(o, u) <==> HasUser(g, u) {
        if HasUser(g, u) {
          var i :| 0 <= i < |g| && g[i].user == u;
          assert o[i].user == u;
        }
        if HasUser(o, u) {
          var i :| 0 <= i < |o| && o[i].user == u;
          assert g[i].user == u;
        }
      }
    }
  }

  /** Grouping yields one group per user present, holding that user's row count
      and score sum. */
  lemma {:induction false} GroupByGroups(rows: seq<Row>)
    ensures GroupsOf(GroupBy(rows), rows)
  {
    if rows != [] {
      GroupByGroups(rows[..|rows| - 1]);
      TallyGroups(GroupBy(rows[..|rows| - 1]), rows);
    }
  }

  /** `ROUND(SUM(Score)/COUNT(*), 2) AS Average`, kept exact. */
  function Average(s: Summary): real {
    if s.games == 0 then 0.0 else s.totalScore as real / s.games as real
  }

  /** `ORDER BY Average ASC`. */
  predicate AverageLe(a: Summary, b: Summary) {
    Average(a) <= Average(b)
  }

  /** A reordering of groups is still one group per user with that user's totals. */
  lemma PermutedGroups(g: seq<Summary>, o: seq<Summary>, rows: seq<Row>)
    requires GroupsOf(g, rows) && multiset(o) == multiset(g) && DistinctBy(o, UserOf)
    ensures GroupsOf(o, rows)
  {
    forall i | 0 <= i < |o|
      ensures o[i].games == Count(rows, o[i].user) && o[i].games > 0
              && o[i].totalScore == SumScores(rows, o[i].user)
    {
      assert o[i] in multiset(g);
      var k :| 0 <= k < |g| && g[k] == o[i];
    }
    forall u ensures HasUser(o, u) <==> HasUser(g, u) {
      if HasUser(o, u) {
        var i :| 0 <= i < |o| && o[i].user == u;
        assert o[i] in multiset(g);
        var k :| 0 <= k < |g| && g[k] == o[i];
      }
      if HasUser(g, u) {
        var k :| 0 <= k < |g| && g[k].user == u;
        assert g[k] in multiset(o);
        var i :| 0 <= i < |o| && o[i] == g[k];
      }
    }
  }

  /** The per-user summaries of `rows`, lowest average first. */
  function Summarize(rows: seq<Row>): (o: seq<Summary>)
    ensures GroupsOf(o, rows)
    ensures Sorted(o, AverageLe)
  {
    var g := GroupBy(rows);
    GroupByGroups(rows);
    SortBySorted(g, AverageLe);
    SortByDistinctBy(g, AverageLe, UserOf);
    PermutedGroups(g, SortBy(g, AverageLe), rows);
    SortBy(g, AverageLe)
  }

  function ChannelRows(rows: seq<Row>, guild: string, channel: string): (o: seq<Row>)
    ensures forall r :: r in o <==> r in rows && InChannel(r, guild, channel)
  {
    Where(rows, (r: Row) => InChannel(r, guild, channel))
  }

  /** `getPlayerSummaries`: every user of this channel, bot included, over all time. */
  function PlayerSummaries(rows: seq<Row>, guild: string, channel: string): (o: seq<Summary>)
    ensures GroupsOf(o, ChannelRows(rows, guild, channel))
    ensures Sorted(o, AverageLe)
  {
    Summarize(ChannelRows(rows, guild, channel))
  }

  function RecentRows(rows: seq<Row>, guild: string, channel: string, now: int): (o: seq<Row>)
    ensures forall r :: r in o <==> r in rows && InChannel(r, guild, channel) && Recent(r, now)
  {
    Where(rows, (r: Row) => InChannel(r, guild, channel) && Recent(r, now))
  }

  /** `getLast7DaysSummaries`: as `PlayerSummaries`, over the last seven days. */
  function Last7DaysSummaries(rows: seq<Row>, guild: string, channel: string, now: int)
    : (o: seq<Summary>)
    ensures GroupsOf(o, RecentRows(rows, guild, channel, now))
    ensures Sorted(o, AverageLe)
  {
    Summarize(RecentRows(rows, guild, channel, now))
  }

  /** The rows of this channel whose game was published last month; `lastMonthGames`
      holds the numbers of the registry's games dated in that month. */
  function MonthRows(rows: seq<Row>, guild: string, channel: string, lastMonthGames: set<int>)
    : (o: seq<Row>)
    ensures forall r :: r in o <==> r in rows && InChannel(r, guild, channel) && r.game in lastMonthGames
  {
    Where(rows, (r: Row) => InChannel(r, guild, channel) && r.game in lastMonthGames)
  }

  /** The groups with at least `least` games (`WHERE games >= 10`). */
  function Regulars(g: seq<Summary>, least: nat): (o: seq<Summary>)
    ensures forall s :: s in o <==> s in g && s.games >= least
    ensures DistinctBy(g, UserOf) ==> DistinctBy(o, UserOf)
  {
    if g == [] then []
    else
      var rest := Regulars(g[1..], least);
      assert forall s :: s in g <==> s == g[0] || s in g[1..];
      assert DistinctBy(g, UserOf) ==> DistinctBy(g[1..], UserOf) && forall s :: s in g[1..] ==> s.user != g[0].user by {
        if DistinctBy(g, UserOf) {
          forall i, j | 0 <= i < j < |g[1..]| ensures g[1..][i].user != g[1..][j].user {
            assert g[1..][i] == g[i + 1] && g[1..][j] == g[j + 1];
          }
          forall s | s in g[1..] ensures s.user != g[0].user {
            var k :| 0 <= k < |g[1..]| && g[1..][k] == s;
            assert g[k + 1] == s;
          }
        }
      }
      if g[0].games >= least then
        assert forall i :: 1 <= i < |[g[0]] + rest| ==> ([g[0]] + rest)[i] in rest;
        [g[0]] + rest
      else rest
  }

  /** `getLastMonthSummaries`: the last month's summaries of the users with at least
      ten games in it, lowest average first. */
  function LastMonthSummaries(rows: seq<Row>, guild: string, channel: string, lastMonthGames: set<int>)
    : (o: seq<Summary>)
    ensures DistinctBy(o, UserOf) && Sorted(o, AverageLe)
    ensures forall u :: HasUser(o, u) <==> Count(MonthRows(rows, guild, channel, lastMonthGames), u) >= 10
    ensures forall i :: 0 <= i < |o| ==>
      && o[i].games == Count(MonthRows(rows, guild, channel, lastMonthGames), o[i].user)
      && o[i].totalScore == SumScores(MonthRows(rows, guild, channel, lastMonthGames), o[i].user)
  {
    var month := MonthRows(rows, guild, channel, lastMonthGames);
    var g := GroupBy(month);
    GroupByGroups(month);
    var kept := Regulars(g, 10);
    SortBySorted(kept, AverageLe);
    SortByDistinctBy(kept, AverageLe, UserOf);
    var o := SortBy(kept, AverageLe);
    MonthlyRegulars(g, kept, o, month);
    o
  }

  lemma MonthlyRegulars(g: seq<Summary>, kept: seq<Summary>, o: seq<Summary>, month: seq<Row>)
    requires GroupsOf(g, month)
    requires forall s :: s in kept <==> s in g && s.games >= 10
    requires multiset(o) == multiset(kept)
    ensures forall u :: HasUser(o, u) <==> Count(month, u) >= 10
    ensures forall i :: 0 <= i < |o| ==>
      o[i].games == Count(month, o[i].user) && o[i].totalScore == SumScores(month, o[i].user)
  {
    forall i | 0 <= i < |o|
      ensures o[i].games == Count(month, o[i].user) && o[i].totalScore == SumScores(month, o[i].user)
    {
      assert o[i] in multiset(kept);
      var k :| 0 <= k < |g| && g[k] == o[i];
    }
    forall u ensures HasUser(o, u) <==> Count(month, u) >= 10 {
      if HasUser(o, u) {
        var i :| 0 <= i < |o| && o[i].user == u;
        assert o[i] in multiset(kept);
        var k :| 0 <= k < |g| && g[k] == o[i];
      }
      if Count(month, u) >= 10 {
        PresentUser(month, u);
        assert HasUser(g, u);
        var k :| 0 <= k < |g| && g[k].user == u;
        assert g[k] in kept;
        assert g[k] in multiset(o);
        var i :| 0 <= i < |o| && o[i] == g[k];
      }
    }
  }

  /** A user with rows has some. */
  lemma {:induction false} PresentUser(rows: seq<Row>, user: string)
    requires Count(rows, user) > 0
    ensures exists j :: 0 <= j < |rows| && rows[j].user == user
  {
    var n := |rows| - 1;
    if rows[n].user != user {
      PresentUser(rows[..n], user);
      var j :| 0 <= j < n && rows[..n][j].user == user;
      assert rows[j].user == user;
    }
  }

  // ------------------------------------------------------------ table state

  /** `r` with a new message and the score that message yields; nothing else changes. */
  function Rescored(r: Row, m: Message): Row {
    r.(message := m, score := ProcessScore(m))
  }

  /** The table after `reprocessScores`: every stored message has its escaped line
      breaks turned into real ones and is scored again. */
  function Reprocessed(rows: seq<Row>): (o: seq<Row>)
    ensures |o| == |rows|
  {
    seq(|rows|, i requires 0 <= i < |rows| => Rescored(rows[i], Unescape(rows[i].message)))
  }

  /** Reprocessing leaves every score of a consistently scored table as it was, and
      keeps the table consistently scored. */
  lemma ReprocessKeepsScores(rows: seq<Row>)
    requires Scored(rows)
    ensures Scored(Reprocessed(rows))
    ensures forall i :: 0 <= i < |rows| ==> Reprocessed(rows)[i].score == rows[i].score
  {
    forall i | 0 <= i < |rows| ensures Reprocessed(rows)[i].score == rows[i].score {
      UnescapeKeepsScore(rows[i].message);
    }
  }

  /** Reprocessing twice is reprocessing once. */
  lemma ReprocessTwice(rows: seq<Row>)
    ensures Reprocessed(Reprocessed(rows)) == Reprocessed(rows)
  {
    forall i | 0 <= i < |rows| ensures Reprocessed(Reprocessed(rows))[i] == Reprocessed(rows)[i] {
      UnescapeIdempotent(rows[i].message);
    }
  }

  /** A score inserted for a user and game is found by the lookup afterwards. */
  lemma CreatedIsFound(rows: seq<Row>, r: Row)
    ensures FindScore(rows + [r], r.user, r.game, r.guild, r.channel).Some?
  {
    assert (rows + [r])[|rows|] == r;
  }

  /** The table after `UPDATE ... WHERE id = $3`. */
  function Updated(rows: seq<Row>, id: nat, m: Message): (o: seq<Row>)
    ensures |o| == |rows|
    ensures forall i :: 0 <= i < |rows| && rows[i].id != id ==> o[i] == rows[i]
    ensures forall i :: 0 <= i < |rows| && rows[i].id == id ==> o[i] == Rescored(rows[i], m)
  {
    seq(|rows|, i requires 0 <= i < |rows| => if rows[i].id == id then Rescored(rows[i], m) else rows[i])
  }

  /** An update keeps the ids and the scoring consistent. */
  lemma UpdatedKeepsTable(rows: seq<Row>, id: nat, m: Message)
    ensures forall i :: 0 <= i < |rows| ==> Updated(rows, id, m)[i].id == rows[i].id
    ensures Scored(rows) ==> Scored(Updated(rows, id, m))
  {
  }

  /** The StrandsScore table: its rows in insertion order and the next serial id. */
  class ScoreTable {
    var rows: seq<Row>
    var nextId: nat

    ghost predicate Valid()
      reads this
    {
      && UniqueIds(rows)
      && (forall i :: 0 <= i < |rows| ==> rows[i].id < nextId)
      && Scored(rows)
    }

    constructor ()
      ensures Valid() && rows == [] && nextId == 1
    {
      rows := [];
      nextId := 1;
    }

    /** `createScore`: appends a row; there is no uniqueness check, so a second
        score for the same user and game is stored beside the first. */
    method CreateScore(user: string, userTag: string, userId: string, message: Message,
                       game: int, timestamp: int, guild: string, channel: string)
      returns (id: nat)
      requires Valid()
      modifies this
      ensures Valid()
      ensures id == old(nextId) && nextId == old(nextId) + 1
      ensures rows == old(rows) + [Row(id, game, user, userTag, userId, message,
                                       ProcessScore(message), guild, channel, timestamp)]
    {
      id := nextId;
      rows := rows + [Row(id, game, user, userTag, userId, message,
                          ProcessScore(message), guild, channel, timestamp)];
      nextId := nextId + 1;
    }

    /** `updateScore`: the row with this id gets the new message and its score;
        every other row stays as it was. */
    method UpdateScore(id: nat, message: Message)
      requires Valid()
      modifies this
      ensures Valid() && nextId == old(nextId)
      ensures rows == Updated(old(rows), id, message)
    {
      UpdatedKeepsTable(rows, id, message);
      rows := Updated(rows, id, message);
    }

    /** `reprocessScores`: rewrites every stored message, one update per row. */
    method ReprocessScores()
      requires Valid()
      modifies this
      ensures Valid() && nextId == old(nextId)
      ensures rows == Reprocessed(old(rows))
    {
      var all := rows;
      var i := 0;
      while i < |all|
        invariant 0 <= i <= |all| == |rows|
        invariant Valid() && nextId == old(nextId)
        invariant forall k :: 0 <= k < |rows| ==> rows[k].id == all[k].id
        invariant forall k :: 0 <= k < i ==> rows[k] == Reprocessed(all)[k]
        invariant forall k :: i <= k < |rows| ==> rows[k] == all[k]
      {
        ghost var before := rows;
        UpdateScore(all[i].id, Unescape(all[i].message));
        assert forall k :: 0 <= k < |rows| && k != i ==> before[k].id != all[i].id;
        i := i + 1;
      }
    }
  }
}

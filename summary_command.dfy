/** `StrandsSummaryCommand.execute`: the leaderboard posted each day and on
    request. It joins the overall and seven-day summaries into table rows, picks
    the leaders, finds today's winners among the latest game's scores, and marks
    the latest game as summarised. The table is kept as row values; the
    box-drawing layout and the image search are not modelled. */
module SummaryCommand {
  import opened Wrappers
  import opened Config
  import opened StrandsScore
  import opened StrandsGame
  import opened Sorting
  import opened Invocations

  /** One line of the table: display name, games played, overall average and the
      seven-day average (blank when the user has not played in seven days). */
  datatype TableRow = TableRow(name: string, games: nat, average: real, sevenDay: Option<real>)

  datatype Report = Report(
    table: seq<TableRow>,
    overallLeader: Option<string>,
    sevenDayLeader: Option<string>,
    /** `undefined` in the posted text when there are none. */
    winners: Option<seq<string>>,
    footer: Option<string>)

  // ------------------------------------------------------------ seven days

  /** The entry a user-keyed accumulator holds for `user` after folding `day7`:
      the last one with that user name. */
  function LastEntry(day7: seq<Summary>, user: string): (e: Option<Summary>)
    ensures e.Some? ==> e.value in day7 && e.value.user == user
    ensures e.None? <==> !HasUser(day7, user)
  {
    if day7 == [] then None
    else if day7[|day7| - 1].user == user then Some(day7[|day7| - 1])
    else
      var e := LastEntry(day7[..|day7| - 1], user);
      assert forall i :: 0 <= i < |day7| - 1 ==> day7[..|day7| - 1][i] == day7[i];
      e
  }

  /** With one entry per user, as `GROUP BY` guarantees, the accumulator holds
      that user's only entry. */
  lemma LastEntryUnique(day7: seq<Summary>, i: nat)
    requires DistinctBy(day7, UserOf) && i < |day7|
    ensures LastEntry(day7, day7[i].user) == Some(day7[i])
  {
    var e := LastEntry(day7, day7[i].user);
    assert HasUser(day7, day7[i].user);
    var k :| 0 <= k < |day7| && day7[k] == e.value;
    assert UserOf(day7[k]) == UserOf(day7[i]);
  }

  /** `sum7dayByUser`: the seven-day entries keyed by user name. */
  method SevenDayByUser(day7: seq<Summary>) returns (acc: map<string, Summary>)
    ensures forall u :: LastEntry(day7, u) == if u in acc then Some(acc[u]) else None
  {
    acc := map[];
    var i := 0;
    while i < |day7|
      invariant 0 <= i <= |day7|
      invariant forall u :: LastEntry(day7[..i], u) == if u in acc then Some(acc[u]) else None
    {
      assert day7[..i + 1][..i] == day7[..i];
      acc := acc[day7[i].user := day7[i]];
      i := i + 1;
    }
    assert day7[..i] == day7;
  }

  function SevenDayAverage(day7: seq<Summary>, user: string): Option<real> {
    match LastEntry(day7, user)
    case None => None
    case Some(e) => Some(Average(e))
  }

  /** The table: one row per overall summary, in the same order. */
  method BuildTable(settings: Settings, overall: seq<Summary>, day7: seq<Summary>)
    returns (table: seq<TableRow>)
    ensures |table| == |overall|
    ensures forall i :: 0 <= i < |table| ==>
      && table[i].name == DisplayName(settings, overall[i].user)
      && table[i].games == overall[i].games
      && table[i].average == Average(overall[i])
      && table[i].sevenDay == SevenDayAverage(day7, overall[i].user)
  {
    var byUser := SevenDayByUser(day7);
    table := [];
    var i := 0;
    while i < |overall|
      invariant 0 <= i <= |overall| && |table| == i
      invariant forall k :: 0 <= k < i ==>
        && table[k].name == DisplayName(settings, overall[k].user)
        && table[k].games == overall[k].games
        && table[k].average == Average(overall[k])
        && table[k].sevenDay == SevenDayAverage(day7, overall[k].user)
    {
      var row := overall[i];
      var sevenDay: Option<real> := None;
      if row.user in byUser {
        sevenDay := Some(Average(byUser[row.user]));
      }
      table := table + [TableRow(DisplayName(settings, row.user), row.games, Average(row), sevenDay)];
      i := i + 1;
    }
  }

  // --------------------------------------------------------------- leaders

  /** The leader is the first entry, or the second when the bot heads the list. */
  function Leader(settings: Settings, s: seq<Summary>): (name: Option<string>)
    ensures name.None? <==> s == [] || (|s| == 1 && s[0].user == BOT_USER)
    ensures name.Some? && DistinctBy(s, UserOf) ==>
      exists k :: 0 <= k < |s| && s[k].user != BOT_USER
        && (forall j :: 0 <= j < k ==> s[j].user == BOT_USER)
        && name.value == DisplayName(settings, s[k].user)
  {
    var k := if |s| > 0 && s[0].user == BOT_USER then 1 else 0;
    if k < |s| then
      assert DistinctBy(s, UserOf) && k == 1 ==> UserOf(s[0]) != UserOf(s[1]);
      Some(DisplayName(settings, s[k].user))
    else None
  }

  // --------------------------------------------------------------- winners

  /** The lowest score among the players' (not the bot's) rows. */
  function LowestScore(scores: seq<Row>): (lo: Option<nat>)
    ensures lo.None? <==> forall i :: 0 <= i < |scores| ==> scores[i].user == BOT_USER
    ensures lo.Some? ==>
      && (exists i :: 0 <= i < |scores| && scores[i].user != BOT_USER && scores[i].score == lo.value)
      && (forall i :: 0 <= i < |scores| && scores[i].user != BOT_USER ==> lo.value <= scores[i].score)
  {
    if scores == [] then None
    else
      var n := |scores| - 1;
      var rest := LowestScore(scores[..n]);
      assert forall i :: 0 <= i < n ==> scores[..n][i] == scores[i];
      if scores[n].user == BOT_USER then rest
      else if rest.None? || scores[n].score < rest.value then Some(scores[n].score)
      else rest
  }

  /** The display names of the players' rows with score `s`, in row order. */
  function NamesWithScore(settings: Settings, scores: seq<Row>, s: nat): (names: seq<string>)
    ensures |names| <= |scores|
  {
    if scores == [] then []
    else
      var n := |scores| - 1;
      NamesWithScore(settings, scores[..n], s)
      + (if scores[n].user != BOT_USER && scores[n].score == s
         then [DisplayName(settings, scores[n].user)] else [])
  }

  lemma {:induction false} NamesWithScoreEmpty(settings: Settings, scores: seq<Row>, s: nat)
    ensures NamesWithScore(settings, scores, s) == [] <==>
      forall i :: 0 <= i < |scores| ==> scores[i].user == BOT_USER || scores[i].score != s
  {
    if scores != [] {
      var n := |scores| - 1;
      NamesWithScoreEmpty(settings, scores[..n], s);
      assert forall i :: 0 <= i < n ==> scores[..n][i] == scores[i];
    }
  }

  /** Today's winners: every player tied at the lowest score, in row order, unless
      no player scored 999 or less. */
  function Winners(settings: Settings, scores: seq<Row>): Option<seq<string>> {
    match LowestScore(scores)
    case None => None
    case Some(lo) => if lo <= 999 then Some(NamesWithScore(settings, scores, lo)) else None
  }

  /** The winners are exactly the players at the lowest score, and there is at least
      one whenever some player scored 999 or less. */
  lemma WinnersAreTheLowest(settings: Settings, scores: seq<Row>)
    ensures Winners(settings, scores).Some? <==>
      exists i :: 0 <= i < |scores| && scores[i].user != BOT_USER && scores[i].score <= 999
    ensures Winners(settings, scores).Some? ==>
      && Winners(settings, scores).value != []
      && Winners(settings, scores).value == NamesWithScore(settings, scores, LowestScore(scores).value)
  {
    match LowestScore(scores)
    case None =>
    case Some(lo) =>
      if lo <= 999 { NamesWithScoreEmpty(settings, scores, lo); }
  }

  /** The running lowest score of the fold: 999 until a player scores below it. */
  function Capped(lo: Option<nat>): nat {
    match lo
    case None => 999
    case Some(v) => if v < 999 then v else 999
  }

  /** The names the fold keeps under score `s`. */
  function Listed(byScore: map<nat, seq<string>>, s: nat): seq<string> {
    if s in byScore then byScore[s] else []
  }

  /** One more row either leaves the running lowest score or lowers it to that
      row's score. */
  lemma LowestStep(prefix: seq<Row>, row: Row, lowest: nat)
    requires lowest == Capped(LowestScore(prefix))
    ensures Capped(LowestScore(prefix + [row])) ==
      if row.user != BOT_USER && lowest > row.score then row.score else lowest
  {
    assert (prefix + [row])[..|prefix|] == prefix;
  }

  /** The fold's lists after one more row: a player's name is appended to the list
      of their score; the bot's rows are skipped. */
  function Filed(settings: Settings, byScore: map<nat, seq<string>>, row: Row): map<nat, seq<string>> {
    if row.user == BOT_USER then byScore
    else byScore[row.score := Listed(byScore, row.score) + [DisplayName(settings, row.user)]]
  }

  /** One more row appends its player's name to the list of its score, and no list
      is empty. */
  lemma NamesStep(settings: Settings, prefix: seq<Row>, row: Row, byScore: map<nat, seq<string>>)
    requires forall s :: NamesWithScore(settings, prefix, s) == Listed(byScore, s)
    requires forall s :: s in byScore ==> byScore[s] != []
    ensures forall s :: NamesWithScore(settings, prefix + [row], s) == Listed(Filed(settings, byScore, row), s)
    ensures forall s :: s in Filed(settings, byScore, row) ==> Filed(settings, byScore, row)[s] != []
  {
    var next := Filed(settings, byScore, row);
    assert (prefix + [row])[..|prefix|] == prefix;
    forall s ensures NamesWithScore(settings, prefix + [row], s) == Listed(next, s) {
      assert NamesWithScore(settings, prefix, s) == Listed(byScore, s);
    }
  }

  /** The fold's lists after the rows of `rows`, one row at a time. */
  function Folded(settings: Settings, rows: seq<Row>): map<nat, seq<string>> {
    if rows == [] then map[]
    else Filed(settings, Folded(settings, rows[..|rows| - 1]), rows[|rows| - 1])
  }

  /** The fold lists, under each score, the names of the players at that score, and
      no list is empty. */
  lemma {:induction false} FoldedNames(settings: Settings, rows: seq<Row>)
    ensures forall s :: NamesWithScore(settings, rows, s) == Listed(Folded(settings, rows), s)
    ensures forall s :: s in Folded(settings, rows) ==> Folded(settings, rows)[s] != []
  {
    if rows != [] {
      var prefix := rows[..|rows| - 1];
      FoldedNames(settings, prefix);
      NamesStep(settings, prefix, rows[|rows| - 1], Folded(settings, prefix));
      assert rows == prefix + [rows[|rows| - 1]];
    }
  }

  /** `todayByScore`: folds the latest game's rows into lists of names by score,
      keeping the lowest player score seen (starting from 999). */
  method TodaysWinners(settings: Settings, scores: seq<Row>) returns (winners: Option<seq<string>>)
    ensures winners == Winners(settings, scores)
  {
    var lowest: nat := 999;
    var byScore: map<nat, seq<string>> := map[];
    var i := 0;
    while i < |scores|
      invariant 0 <= i <= |scores|
      invariant lowest == Capped(LowestScore(scores[..i]))
      invariant byScore == Folded(settings, scores[..i])
    {
      var row := scores[i];
      LowestStep(scores[..i], row, lowest);
      assert scores[..i + 1][..i] == scores[..i];
      ghost var next := Filed(settings, byScore, row);
      if row.user != BOT_USER {
        if lowest > row.score {
          lowest := row.score;
        }
        var name := DisplayName(settings, row.user);
        if row.score !in byScore {
          assert Listed(byScore, row.score) + [name] == [name];
          byScore := byScore[row.score := [name]];
        } else {
          byScore := byScore[row.score := byScore[row.score] + [name]];
        }
      }
      assert byScore == next;
      assert scores[..i + 1] == scores[..i] + [row];
      i := i + 1;
    }
    assert scores[..i] == scores;
    winners := if lowest in byScore then Some(byScore[lowest]) else None;
    FoldedNames(settings, scores);
    FoldedWinners(settings, scores, lowest, byScore);
  }

  /** What the fold ends with yields the winners: the list under the running
      lowest score, if there is one. */
  lemma FoldedWinners(settings: Settings, scores: seq<Row>, lowest: nat, byScore: map<nat, seq<string>>)
    requires lowest == Capped(LowestScore(scores))
    requires forall s :: NamesWithScore(settings, scores, s) == Listed(byScore, s)
    requires forall s :: s in byScore ==> byScore[s] != []
    ensures (if lowest in byScore then Some(byScore[lowest]) else None) == Winners(settings, scores)
  {
    WinnersAreTheLowest(settings, scores);
    NamesWithScoreEmpty(settings, scores, 999);
    assert NamesWithScore(settings, scores, lowest) == Listed(byScore, lowest);
  }

  // --------------------------------------------------------------- execute

  /** `execute`: builds the report for the call's channel and marks the latest game
      as summarised; a call with no context throws and changes nothing. */
  method Execute(settings: Settings, how: Invocation, scores: ScoreTable, games: GameRegistry, now: int)
    returns (r: Result<Report, string>)
    requires scores.Valid() && games.Valid()
    modifies games
    ensures games.Valid()
    ensures how.NoContext? ==> r == Failure("Invalid Summary call") && games.games == old(games.games)
    ensures !how.NoContext? ==> r.Success?
    ensures r.Success? ==>
      var (guild, channel) := Target(how, "Summary").value;
      var latest := LatestGame(old(games.games));
      var today := if latest.Some? then PlayerInfoForGame(scores.rows, latest.value, guild, channel) else [];
      var overall := PlayerSummaries(scores.rows, guild, channel);
      var day7 := Last7DaysSummaries(scores.rows, guild, channel, now);
      && |r.value.table| == |overall|
      && (forall i :: 0 <= i < |r.value.table| ==>
            && r.value.table[i].name == DisplayName(settings, overall[i].user)
            && r.value.table[i].games == overall[i].games
            && r.value.table[i].average == Average(overall[i])
            && r.value.table[i].sevenDay == SevenDayAverage(day7, overall[i].user))
      && r.value.overallLeader == Leader(settings, overall)
      && r.value.sevenDayLeader == Leader(settings, day7)
      && r.value.winners == Winners(settings, today)
      && r.value.footer == (if settings.footerMessage == [] then None else Some(settings.footerMessage))
      && games.games == if latest.Some? then MarkedPosted(old(games.games), latest.value) else old(games.games)
  {
    var target := Target(how, "Summary");
    if target.Failure? {
      assert "Invalid " + "Summary" + " call" == "Invalid Summary call";
      return Failure(target.error);
    }
    var (guild, channel) := target.value;
    var latest := LatestGame(games.games);
    var overall := PlayerSummaries(scores.rows, guild, channel);
    var day7 := Last7DaysSummaries(scores.rows, guild, channel, now);
    var today := if latest.Some? then PlayerInfoForGame(scores.rows, latest.value, guild, channel) else [];
    var table := BuildTable(settings, overall, day7);
    var winners := TodaysWinners(settings, today);
    var footer := if settings.footerMessage != [] then Some(settings.footerMessage) else None;
    r := Success(Report(table, Leader(settings, overall), Leader(settings, day7), winners, footer));
    if latest.Some? {
      games.SummaryPosted(latest.value);
    }
  }
}

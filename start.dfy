/** The daily summary job: when its first run happens, whether it is scheduled at
    all, and the guard that posts the summary once per game. */
module Start {
  import opened Wrappers
  import opened Config
  import opened StrandsScore
  import opened StrandsGame
  import SummaryCommand
  import Invocations

  /** Twenty-four hours in milliseconds. */
  const DAY_MS: int := 86400000

  /** The wait before the first run: from `now` to `target`, today's run time, or
      to the same time tomorrow when today's has passed. */
  function FirstDelay(target: int, now: int): int {
    var eta := target - now;
    if eta < 0 then eta + DAY_MS else eta
  }

  /** For a run time on the same day as `now`, the wait is less than a day, and the
      first run falls at `target` or one day after it, never before `now`. */
  lemma DelayWithinDay(target: int, now: int)
    requires -DAY_MS < target - now < DAY_MS
    ensures 0 <= FirstDelay(target, now) < DAY_MS
    ensures target - now >= 0 ==> FirstDelay(target, now) == target - now
    ensures target - now < 0 ==> now + FirstDelay(target, now) == target + DAY_MS
  {
  }

  /** The first wait of the daily job, when an auto-post channel is configured. */
  function Schedule(settings: Settings, target: int, now: int): (delay: Option<int>)
    ensures delay.None? <==> settings.autoPostChannel == []
    ensures delay.Some? && -DAY_MS < target - now < DAY_MS ==> 0 <= delay.value < DAY_MS
  {
    if settings.autoPostChannel == [] then None
    else Some(FirstDelay(target, now))
  }

  /** Marking the latest game keeps it the latest, with its flag set. */
  lemma MarkingKeepsLatest(games: Games, n: int)
    requires n in games
    ensures MarkedPosted(games, n).Keys == games.Keys
    ensures LatestGame(MarkedPosted(games, n)) == LatestGame(games)
    ensures MarkedPosted(games, n)[n].summaryPosted
  {
    assert MarkedPosted(games, n).Keys == games.Keys;
  }

  /** One run of the daily job in the channel `channel` of guild `guild`: the summary
      is posted unless the latest game's summary already was, and the latest game is
      then marked as posted. */
  method DailyJob(settings: Settings, guild: string, channel: string, scores: ScoreTable,
                  games: GameRegistry, now: int)
    returns (report: Option<SummaryCommand.Report>)
    requires scores.Valid() && games.Valid()
    modifies games
    ensures games.Valid()
    ensures LatestSummaryPosted(old(games.games)) == Some(true) ==>
      report.None? && games.games == old(games.games)
    ensures LatestSummaryPosted(old(games.games)) != Some(true) ==>
      && report.Some?
      && games.games == (if old(games.games) == map[] then old(games.games)
                         else MarkedPosted(old(games.games), LatestGame(old(games.games)).value))
    ensures games.games.Keys == old(games.games).Keys
    ensures games.games != map[] ==> LatestSummaryPosted(games.games) == Some(true)
  {
    if LatestSummaryPosted(games.games) == Some(true) {
      return None;
    }
    ghost var before := games.games;
    var summary := SummaryCommand.Execute(settings, Invocations.ByChannel(guild, channel),
                                          scores, games, now);
    report := Some(summary.value);
    if before != map[] {
      MarkingKeepsLatest(before, LatestGame(before).value);
      MarkedPostedSetsOne(before, LatestGame(before).value);
    }
    var current := LatestGame(games.games);
    if current.Some? {
      games.SummaryPosted(current.value);
    }
  }
}

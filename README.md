# Strands bot — a Dafny model

This project models the score logic of a Discord bot for the New York Times
*Strands* puzzle. Players post a result block: a header such as
`Strands #125`, the day's clue, and rows of glyphs. 💡 is a hint, 🔵 a theme
word and 🟡 the spangram.

The bot does the following:

- it reads the puzzle number from the header;
- it scores the block as the hints plus the position of the spangram among the glyphs;
- it stores one row per play in a score table, and registers each puzzle in a game table;
- it reacts to the post with the digits of the score;
- after a new play of the latest puzzle, it posts either the leaderboard, or a notice naming the one player still missing.

A daily job posts the leaderboard once per puzzle.

Modules, one per source file or concern:

| module | file | models |
|---|---|---|
| `Wrappers` | wrappers.dfy | `Option` and `Result` |
| `Text` | text.dfy | decimal rendering and parsing, `trim`, `replaceAll`, removing a character |
| `Sorting` | sorting.dfy | the insertion sort standing for SQL `ORDER BY` |
| `ScoreParser` | score_parser.dfy | `_processScore` on a message of tokens `Hint`, `Regular`, `Spangram`, `Other(c)`, and the `'\\n'` unescape of reprocessing |
| `StrandsScore` | strands_score.dfy | the score rows, the read queries as filters and group-bys, and the `ScoreTable` class (insert, overwrite, reprocess) |
| `StrandsGame` | strands_game.dfy | the puzzle registry as a map inside the `GameRegistry` class |
| `Config` | config.dfy | the configuration values the code reads |
| `Invocations` | invocation.dfy | how a command is called, and the guild and channel it reports on |
| `SummaryCommand` | summary_command.dfy | the leaderboard: table rows, leaders, today's winners, marking the game as posted |
| `WhoLeftCommand` | who_left_command.dfy | the absentee notice: title, fields, taunt fallback and placeholder substitution |
| `BotClient` | bot_client.dfy | puzzle-number extraction, reactions, recording a play, follow-ups, edits and command dispatch |
| `Start` | start.dfy | the first-delay arithmetic and the daily job's guard |

Time is an integer millisecond clock passed in as `now`. Anything random or
remote is a parameter:

- the taunt index;
- the language model's outcome;
- whether the guild has the custom emoji;
- the set of puzzles dated last month.

## Where the code and its description differ

The model follows the code in each case.

- The score table has no unique key. `createScore` always appends a row (StrandsScore.js:36-47, 161-167); only the caller's `getScore` check prevents duplicates.
- `addGameInfo` overwrites the solution unconditionally, and does nothing for an absent puzzle (StrandsGame.js:132-138).
- `_addStrandsScore` checks whether the latest puzzle has a solution, but writes the fetched solution to the posted puzzle (StrandsBotClient.js:63-81). Only the registry insert that precedes the fetch is modelled here; see "Left out".
- With generation enabled, a failed language-model call throws at StrandsWhoLeftCommand.js:154 instead of falling back. `WhoLeftCommand.Taunt` returns `Failure` there.

## Model

| member | source | states |
|---|---|---|
| `ScoreParser.Hints` | src/data/StrandsScore.js:137 | The hint count is at most the message length, and it is zero exactly when no 💡 occurs |
| `ScoreParser.GlyphsMembers` | src/data/StrandsScore.js:138 | The matched glyph list holds exactly the 💡/🔵/🟡 tokens of the message |
| `ScoreParser.IndexOf` | src/data/StrandsScore.js:138 | `indexOf` is -1 exactly when the token is absent; otherwise it is the position of its first occurrence |
| `ScoreParser.ProcessScore` | src/data/StrandsScore.js:136-143 | Without 🟡 the score is the hint count. Otherwise hints < score <= hints + glyphs, the glyph at position score-hints is 🟡, and no earlier glyph is |
| `ScoreParser.GlyphsOnlyDecide` | src/data/StrandsScore.js:137-140 | Dropping every non-glyph token changes neither the hints, the glyph list nor the score |
| `ScoreParser.HintsGlyphsAppend` | src/data/StrandsScore.js:137-138 | Hint counts add, and glyph lists concatenate, over concatenated messages |
| `ScoreParser.PlainText` | src/data/StrandsScore.js:129-130 | Header and clue text becomes `Other` tokens one for one, with no hints and no glyphs |
| `ScoreParser.DocumentedBlockScore` | src/data/StrandsScore.js:129-133 | The documented example block, under any header and clue, scores 16 |
| `ScoreParser.DocumentedLinesGlyphs` | src/data/StrandsScore.js:131-133 | The example's glyph rows hold 5 hints and 11 glyphs, and the first 🟡 is at index 10 |
| `ScoreParser.UnescapeKeepsScore` | src/data/StrandsScore.js:109 | Rewriting `'\\n'` pairs to newlines keeps the hints, the glyphs and the score |
| `ScoreParser.UnescapeIdempotent` | src/data/StrandsScore.js:109 | Unescaping twice gives the same message as unescaping once |
| `ScoreParser.UnescapeHasNoPair` | src/data/StrandsScore.js:109 | No backslash-`n` pair is left after the rewrite, and a leading token that is neither character is kept |
| `ScoreParser.NoPairUnescapeIdentity` | src/data/StrandsScore.js:109 | A message without a backslash-`n` pair is left unchanged |
| `StrandsScore.FindScore` | src/data/StrandsScore.js:68-77 | `getScore` returns nothing exactly when no row matches the user, game, guild and channel; otherwise it returns a stored row that matches all four |
| `StrandsScore.Distinct` | src/data/StrandsScore.js:176 | `DISTINCT` yields each name once, the same names, and no more entries than the input |
| `StrandsScore.PlayerNames` | src/data/StrandsScore.js:175-178 | The total players are exactly the non-bot users with a row in the channel inside the 7-day window |
| `StrandsScore.GamePlayerNames` | src/data/StrandsScore.js:187-190 | The game's players are exactly the non-bot users with a row for that game in the channel inside the window |
| `StrandsScore.PlayerLists` | src/data/StrandsScore.js:187-190 | The game's players are a subset of the total players; neither list contains the bot; the total list has no duplicates |
| `StrandsScore.Where` | src/data/StrandsScore.js:200 | A `WHERE` keeps exactly the rows satisfying the condition |
| `StrandsScore.PlayerInfoForGame` | src/data/StrandsScore.js:199-202 | Exactly the game's non-bot rows in the channel, with no time window |
| `StrandsScore.GameScores` | src/data/StrandsScore.js:121-124 | A permutation of the game's rows in the channel, sorted by score and then date |
| `StrandsScore.FindUser` | src/data/StrandsScore.js:220 | The group index is -1 exactly when the user has no group; otherwise the group at it is the user's |
| `StrandsScore.GroupByGroups` | src/data/StrandsScore.js:213-220 | The fold yields one group per user occurring in the rows, each holding that user's row count (positive) and score sum |
| `StrandsScore.PermutedGroups` | src/data/StrandsScore.js:221 | Reordering the groups keeps them the groups of the same rows |
| `StrandsScore.Summarize` | src/data/StrandsScore.js:212-221 | The summary holds the groups of the rows, sorted by ascending average |
| `StrandsScore.ChannelRows` | src/data/StrandsScore.js:219 | Exactly the rows of the guild and channel |
| `StrandsScore.PlayerSummaries` | src/data/StrandsScore.js:210-223 | The per-user count and sum over the channel's rows, ordered by average |
| `StrandsScore.RecentRows` | src/data/StrandsScore.js:240 | Exactly the channel's rows dated after now minus seven days |
| `StrandsScore.Last7DaysSummaries` | src/data/StrandsScore.js:231-244 | The per-user count and sum over the channel's rows of the last seven days, ordered by average |
| `StrandsScore.MonthRows` | src/data/StrandsScore.js:260-264 | Exactly the channel's rows of puzzles dated last month |
| `StrandsScore.Regulars` | src/data/StrandsScore.js:266 | `WHERE games >= 10` keeps exactly the groups with at least that many games, and keeps users distinct |
| `StrandsScore.LastMonthSummaries` | src/data/StrandsScore.js:252-268 | A user is listed exactly when they have at least 10 rows last month; each entry carries that count and sum; users are distinct; ordered by average |
| `StrandsScore.MonthlyRegulars` | src/data/StrandsScore.js:266 | Filtering the groups, then reordering, lists exactly the users with at least 10 games, with their true count and sum |
| `StrandsScore.ReprocessKeepsScores` | src/data/StrandsScore.js:105-112 | On a table whose scores match their messages, reprocessing keeps every score and the match |
| `StrandsScore.ReprocessTwice` | src/data/StrandsScore.js:105-112 | Reprocessing twice gives the same table as reprocessing once |
| `StrandsScore.CreatedIsFound` | src/data/StrandsScore.js:161-167 | After a row is appended, `getScore` for its user, game and channel finds a row |
| `StrandsScore.Updated` | src/data/StrandsScore.js:94-100 | The row with the id gets the new message and that message's score; every other row is unchanged; the length is kept |
| `StrandsScore.UpdatedKeepsTable` | src/data/StrandsScore.js:94-100 | An update keeps every id and keeps every score equal to its message's score |
| `StrandsScore.ScoreTable.constructor` | src/data/StrandsScore.js:36-47 | The table starts empty, with ids from 1 |
| `StrandsScore.ScoreTable.CreateScore` | src/data/StrandsScore.js:161-167 | Appends one row with a fresh serial id and the message's score; no uniqueness check |
| `StrandsScore.ScoreTable.UpdateScore` | src/data/StrandsScore.js:94-100 | The new rows are `Updated(old rows, id, message)` |
| `StrandsScore.ScoreTable.ReprocessScores` | src/data/StrandsScore.js:105-112 | Every row is rescored from its unescaped message, by a loop over the rows |
| `StrandsGame.GetStrandsGame` | src/data/StrandsGame.js:63-71 | Nothing exactly when the number is absent; otherwise the record with that number |
| `StrandsGame.Max` | src/data/StrandsGame.js:78 | The largest number of a non-empty set, which belongs to it |
| `StrandsGame.LatestGame` | src/data/StrandsGame.js:77-80 | Nothing exactly for an empty registry; otherwise a stored number no smaller than any other |
| `StrandsGame.LatestSummaryPosted` | src/data/StrandsGame.js:105-108 | Nothing for an empty registry; otherwise the flag of the highest-numbered game |
| `StrandsGame.Descending` | src/data/StrandsGame.js:88 | `ORDER BY ... DESC`: the set's numbers, each once, strictly descending |
| `StrandsGame.PastGames` | src/data/StrandsGame.js:88 | Every stored number except the excluded one, strictly descending |
| `StrandsGame.InfoOf` | src/data/StrandsGame.js:89 | The info of each listed game, in list order |
| `StrandsGame.AllPastGamesInfo` | src/data/StrandsGame.js:88-89 | One entry per stored game other than the excluded number, each that game's info, highest number first |
| `StrandsGame.UpdatesOnlyAdd` | src/data/StrandsGame.js:115-146 | Creating, adding info and marking never remove a game or clear a posted flag |
| `StrandsGame.MarkedPostedSetsOne` | src/data/StrandsGame.js:144-146 | Marking sets the flag of that game only, and marking twice equals marking once |
| `StrandsGame.FreshLatestUnposted` | src/data/StrandsGame.js:115-117 | A newly created highest number becomes the latest game, with its flag unset |
| `StrandsGame.CreateRejectsDuplicate` | src/data/StrandsGame.js:39 | A second insert of the same number changes nothing (the `UNIQUE` constraint) |
| `StrandsGame.GameRegistry.constructor` | src/data/StrandsGame.js:36-45 | The registry starts empty |
| `StrandsGame.GameRegistry.CreateStrandsGame` | src/data/StrandsGame.js:115-117 | The insert succeeds exactly when the number is new; the table becomes `Created(old, n, date)` |
| `StrandsGame.GameRegistry.AddGameInfo` | src/data/StrandsGame.js:132-138 | The info of game n is overwritten; an absent n changes nothing |
| `StrandsGame.GameRegistry.SummaryPosted` | src/data/StrandsGame.js:144-146 | The flag of game n is set, and nothing else changes |
| `Config.DisplayName` | src/commands/StrandsSummaryCommand.js:135 | The mapped name when it is present and non-empty, otherwise the user name; never empty for a non-empty user |
| `SummaryCommand.LastEntry` | src/commands/StrandsSummaryCommand.js:118-121 | The user's last 7-day entry; nothing exactly when the user has none |
| `SummaryCommand.LastEntryUnique` | src/commands/StrandsSummaryCommand.js:118-121 | With distinct users, each user's entry is the one in the list |
| `SummaryCommand.SevenDayByUser` | src/commands/StrandsSummaryCommand.js:118-121 | The `reduce` into a user-keyed object holds exactly each user's last entry |
| `SummaryCommand.BuildTable` | src/commands/StrandsSummaryCommand.js:124-139 | One row per overall summary, in order, with the display name, games, average and 7-day average (blank when absent) |
| `SummaryCommand.Leader` | src/commands/StrandsSummaryCommand.js:141-142 | There is no leader exactly when the list is empty or holds only the bot; a leader is a non-bot entry when users are distinct |
| `SummaryCommand.LowestScore` | src/commands/StrandsSummaryCommand.js:144-151 | Nothing exactly when every row is the bot's; otherwise the minimum non-bot score, attained by some row |
| `SummaryCommand.NamesWithScoreEmpty` | src/commands/StrandsSummaryCommand.js:146-157 | No name is filed under a score exactly when no non-bot row has that score |
| `SummaryCommand.WinnersAreTheLowest` | src/commands/StrandsSummaryCommand.js:144-158 | There are winners exactly when some non-bot score is 999 or less; they are then a non-empty list of the display names of the non-bot rows at the lowest score, in input order |
| `SummaryCommand.NamesStep` | src/commands/StrandsSummaryCommand.js:153-157 | Filing one more row under its score extends exactly that score's name list |
| `SummaryCommand.FoldedNames` | src/commands/StrandsSummaryCommand.js:145-158 | The `reduce` result lists, under each score, the names of the non-bot rows with that score |
| `SummaryCommand.TodaysWinners` | src/commands/StrandsSummaryCommand.js:144-158 | The loop with the 999 sentinel and the by-score object returns exactly `Winners` |
| `SummaryCommand.FoldedWinners` | src/commands/StrandsSummaryCommand.js:164 | Reading the object at the lowest score gives `Winners` |
| `Invocations.Target` | src/commands/StrandsSummaryCommand.js:96-105 | Shared by both commands (also src/commands/StrandsWhoLeftCommand.js:55-66): fails with "Invalid <command> call" exactly when there is neither an interaction nor a channel, and otherwise gives that interaction's or channel's guild and channel |
| `SummaryCommand.Execute` | src/commands/StrandsSummaryCommand.js:93-194 | Throws, changing nothing, without context. Otherwise: one table row per overall summary, in order, with the display name, games, average and 7-day average (blank when absent); both leaders; today's winners among the latest game's scores; the footer exactly when configured; and the latest game is marked as posted |
| `WhoLeftCommand.Label` | src/commands/StrandsWhoLeftCommand.js:73 | The game number as text, or `undefined` for an empty registry |
| `WhoLeftCommand.Remaining` | src/commands/StrandsWhoLeftCommand.js:78 | Exactly the total players not among the game's players |
| `WhoLeftCommand.RemainingDistinct` | src/commands/StrandsWhoLeftCommand.js:94 | The filter of a duplicate-free list is duplicate-free |
| `WhoLeftCommand.RemainingCount` | src/commands/StrandsWhoLeftCommand.js:77 | With duplicate-free lists and game players among the total, the remaining count is the length difference |
| `WhoLeftCommand.TemplateNamesGame` | src/commands/StrandsWhoLeftCommand.js:162-168 | Every fallback taunt mentions the game |
| `WhoLeftCommand.SubstituteLeavesNoPlaceholder` | src/commands/StrandsWhoLeftCommand.js:159 | After substitution no `[name]`, `[Name]` or `[Player]` remains |
| `WhoLeftCommand.Taunt` | src/commands/StrandsWhoLeftCommand.js:117-173 | Fails exactly when generation is on and the call failed; a non-empty reply becomes that reply with its placeholders replaced by the player's id; otherwise the indexed template |
| `WhoLeftCommand.AddFields` | src/commands/StrandsWhoLeftCommand.js:94-100 | One field per remaining player in order: the taunt for the singled-out player, "Has not completed Strands N" for the others |
| `WhoLeftCommand.Execute` | src/commands/StrandsWhoLeftCommand.js:52-110 | Without context, the error. With equal list lengths, "Everyone is done with N" / "All done.", with no fields and no footer. Otherwise the title, one field per absentee, and the footer, which is exactly the configured footer message or none when it is empty; a failed taunt is an error |
| `WhoLeftCommand.OneGapOneAbsentee` | src/commands/StrandsWhoLeftCommand.js:77-87 | A length gap of one leaves one absentee; the title names the singled-out player exactly when that absentee is them |
| `Text.ShowInt` | src/StrandsBotClient.js:108 | `score + ''` is non-empty decimal digits, with a leading '-' for a negative score |
| `Text.DecimalValueOfShowNat` | src/StrandsBotClient.js:108 | Reading the decimal text of a number back gives the number |
| `Text.Trim` | src/StrandsBotClient.js:38 | `Number()` trims: the result is a contiguous slice between leading and trailing white space, and it neither begins nor ends with white space |
| `Text.RemoveChar` | src/StrandsBotClient.js:38 | `replaceAll(',', '')` leaves no comma and keeps every other character |
| `Text.ReplaceAllAvoids` | src/commands/StrandsWhoLeftCommand.js:159 | A replacement with text foreign to the pattern leaves no occurrence of the pattern |
| `BotClient.Chars` | src/StrandsBotClient.js:36 | The header is text exactly when it holds no glyph, and it is then the same characters |
| `BotClient.CutAtBreak` | src/StrandsBotClient.js:38 | `split(/\r?\n/)[0]` of a digit group followed by "\n" or "\r\n" is the digit group |
| `BotClient.SkipToHash` | src/StrandsBotClient.js:37 | `indexOf('#')` finds the first '#' |
| `BotClient.HeaderNumber` | src/StrandsBotClient.js:37-38 | For a header `...#d` ending in "\n" or "\r\n", with d digits and commas, the puzzle number is d without its commas |
| `BotClient.PuzzleNumberOfShowNat` | src/StrandsBotClient.js:37-38 | A header carrying a number's decimal text gives back that number |
| `BotClient.ThousandsSeparator` | src/StrandsBotClient.js:37-38 | `Strands #1,234` gives 1234 |
| `BotClient.ReactionsFor` | src/StrandsBotClient.js:108-158 | One reaction per character of the score's text, plus one more exactly when the score is 1: a score of 1 gets keycap-1 then the custom emoji when the guild has it, else 🥳; no other score gets either |
| `BotClient.ConvertScoreToEmojiList` | src/StrandsBotClient.js:105-161 | The loop with the `containsOne` flag returns exactly `ReactionsFor` |
| `BotClient.ReactionsSpellScore` | src/StrandsBotClient.js:108-149 | The leading reactions spell the score's digits in order, and reading them back gives the score |
| `BotClient.KeycapOneOnce` | src/StrandsBotClient.js:113-120 | At most one keycap-1; the first '1' gets it; a negative score's '-' reacts with the unknown glyph |
| `BotClient.RecordedOnce` | src/StrandsBotClient.js:45-52 | After recording, the player's score for the game is found: the new score for a new play, the stored one otherwise; recording the same play again adds nothing |
| `BotClient.FollowUpFor` | src/StrandsBotClient.js:84-95 | The summary exactly for a new, non-bot play of the latest game with nobody remaining; the notice exactly when the one remaining player is the singled-out one |
| `BotClient.PosterNotRemaining` | src/StrandsBotClient.js:85-87 | A player with a stored, recent play of the game is never among the remaining |
| `BotClient.Dispatch` | src/StrandsBotClient.js:194-207 | Who-left exactly when it is invoked; summary exactly when it is invoked and who-left is not; recording only when neither is invoked and there is a block |
| `BotClient.CommandsWin` | src/StrandsBotClient.js:194-203 | Either prefix runs its command, even in a message holding a block |
| `BotClient.ScorePosts` | src/StrandsBotClient.js:204-207 | A message not starting with '!' or '/' is recorded exactly when it holds a block |
| `BotClient.EmptyMessage` | src/StrandsBotClient.js:204-207 | An empty message is recorded exactly when it holds a block |
| `BotClient.RecentForAWeek` | src/data/StrandsScore.js:240 | The row of a play stores the post's own instant, as line 166 does, so the play is recent for exactly the seven days after it was posted |
| `BotClient.StrandsBotClient.constructor` | src/StrandsBotClient.js:23-28 | The client holds the given settings, score table and registry |
| `BotClient.StrandsBotClient.AddStrandsScore` | src/StrandsBotClient.js:34-97 | `RecordsPlay`: without a puzzle number, a failure and no change. Otherwise the puzzle is registered; a row with the next id is added only for a new play, and the id counter advances only then; the score is the new or stored one; the reactions are `ReactionsFor`; the follow-up is `FollowUpFor` of the latest game |
| `BotClient.StrandsBotClient.EditEvent` | src/StrandsBotClient.js:168-186 | No block: nothing. A stored play: "Ignored", no change. Otherwise the play is appended, the puzzle registered, and the reply is "Counted" with the whole outcome of `AddStrandsScore` (`RecordsPlay`): score, reactions, follow-up and the next id |
| `BotClient.StrandsBotClient.MessageHandler` | src/StrandsBotClient.js:192-208 | A command changes no table and reports the command. A block is recorded with the whole `RecordsPlay` outcome: no change and a failure without a puzzle number; otherwise the tables, score, reactions and follow-up of `AddStrandsScore` |
| `Start.DelayWithinDay` | start.js:18-23 | For a target within a day of now, 0 <= delay < one day; the delay is target - now when that is not negative, and one day more otherwise |
| `Start.Schedule` | start.js:67 | No job exactly when no auto-post channel is configured; a scheduled first wait is within a day |
| `Start.MarkingKeepsLatest` | start.js:73 | Marking the latest game keeps the keys and the latest game, and sets its flag |
| `Start.DailyJob` | start.js:68-75 | Posts nothing and changes nothing when the latest summary is already posted. Otherwise it posts the summary and marks the latest game; afterwards its flag is set |

## Left out

- The NYT solution fetch in `_addStrandsScore` (src/StrandsBotClient.js:63-81) is a network call. Only the registry insert before it is modelled; `addGameInfo` itself is modelled as `GameRegistry.AddGameInfo`.
- The `getImage` search (src/commands/StrandsSummaryCommand.js:47-86) and the language-model call (src/commands/StrandsWhoLeftCommand.js:120-155) are network calls. The call's outcome is the parameter `AiOutcome`, and the stored message history is not modelled.
- `STRANDS_REGEX` (src/StrandsBotClient.js:15) is not modelled. Its character class is mis-encoded. Block recognition is given: a post carries an optional matched block.
- BotClient.PuzzleNumber: `Number()` is modelled for trimmed decimal digits only (the empty string gives 0). Header text that `Number()` turns into NaN makes the source's first query, `getStrandsGame(NaN)`, throw on its INT parameter before anything is stored; the model reports `Failure` with no change, the same effect on the tables. Other numeric syntaxes `Number()` accepts also give `Failure`. For an integral value such as `1e3` or `12.0` the source would use that value; for a fractional one such as `12.5` the INT parameter of `getStrandsGame` makes the source throw as for NaN, which leaves the tables as the model's `Failure` does.
- StrandsGame.GameRegistry.CreateStrandsGame: a duplicate number returns `ok == false` and leaves the table unchanged, where the `UNIQUE` constraint (src/data/StrandsGame.js:39) makes the query reject and the caller throw. The bot's only call (src/StrandsBotClient.js:42-44) comes after `getStrandsGame` found nothing, so that path is not reached from the handlers.
- SummaryCommand.SevenDayByUser: the accumulator is a Dafny map, while the source's `{}` object (src/commands/StrandsSummaryCommand.js:118-121, 130) also answers inherited properties. A username such as `constructor` would find a value there that the model does not give.
- Config.DisplayName: `USER_TO_NAME_MAP[user]` is a map lookup here; on the source's plain object, a username naming an inherited property (such as `constructor`) yields that property instead of the user name.
- Discord side effects are outputs, not performed: reactions, replies, `send`, `followUp`, `message.delete`, embed colours and the rendered ASCII table. The custom emoji lookup is a boolean parameter.
- `BotClient.StrandsBotClient.AddStrandsScore` returns the follow-up it would trigger and does not run the summary or who-left command itself. `MessageHandler` likewise returns the command to run.
- Averages are the exact rational sum/count. The float division and `ROUND(..., 2)` are not modelled, and rows that tie on average are ordered by the insertion sort, where SQL leaves the order unspecified.
- `DISTINCT` is modelled in first-occurrence order, which SQL does not fix.
- The month and year extraction of `getLastMonthSummaries` (src/data/StrandsScore.js:259-263) is not modelled. The set of puzzle numbers dated last month is a parameter.
- A `NULL` `SummaryPosted` column is modelled as false, which is how every reader treats it.
- `Promise.all` over the updates of `reprocessScores` is a sequential loop. Each update touches a distinct id.
- Timers (`setTimeout`, `setInterval`) and the local-time `Date` of start.js:19-20 are not modelled. The target time and `now` are integers.
- `Math.random` (src/commands/StrandsWhoLeftCommand.js:169) is not modelled. The index is a parameter below 5.
- WhoLeftCommand.SubstituteLeavesNoPlaceholder: proved only for an id that holds no character of the placeholders (a mention such as `<@123>`). An id containing such characters could form a placeholder again.
- `getAllScores`, `getStrandsGames` and `getLatestGamesJSON` are plain reads with no logic of their own, and src/data/ChannelManager.js is not part of this model.
- Postgres pool setup, the `CREATE TABLE` statements and the `process.exit` error handlers are not modelled. Each table is a `seq` or a `map` inside a class.
- Score and puzzle numbers are unbounded integers. The `INT` column width is not modelled.
- StrandsScore.ScoreTable.CreateScore: the `VARCHAR (255)` width of the text columns (src/data/StrandsScore.js:40-45) is not modelled. A message or name longer than 255 characters makes the source's INSERT reject and `_addStrandsScore` throw after the puzzle was already registered; the model appends the row for any length.
- Start.DailyJob: the channel is always found. At start.js:70-72 `client.channels.cache.get` can return undefined; `execute(null, undefined)` then throws "Invalid Summary call" and the latest game is not marked. The model always calls with the configured channel, so it always posts and marks.

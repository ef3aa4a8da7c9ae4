/** The bot's message handlers: reading the puzzle number from a posted block,
    the reactions to a score, recording a play and deciding on a follow-up
    message, the handling of edited messages, and the dispatch of a new message
    to a command or to score recording. Recognising a score block in a message
    is given: a `Post` carries the matched block, if any. */
module BotClient {
  import opened Wrappers
  import opened Text
  import opened Config
  import opened ScoreParser
  import opened StrandsScore
  import opened StrandsGame
  import WhoLeftCommand

  // ------------------------------------------------------------ puzzle number

  /** The characters of a run of plain text; nothing when it holds a glyph. */
  function Chars(line: Message): (s: Option<string>)
    ensures s.Some? <==> forall i :: 0 <= i < |line| ==> line[i].Other?
    ensures s.Some? ==> |s.value| == |line| && forall i :: 0 <= i < |line| ==> line[i] == Other(s.value[i])
  {
    if line == [] then Some([])
    else
      var rest := Chars(line[1..]);
      assert forall i :: 1 <= i < |line| ==> line[i] == line[1..][i - 1];
      if line[0].Other? && rest.Some? then Some([line[0].c] + rest.value) else None
  }

  /** JavaScript's `Number(s)` on the text a header yields: surrounding white space
      is ignored, the empty string is 0 and decimal digits give their value. Any
      other text is not taken as a puzzle number. */
  function Number(s: string): Option<nat> {
    var t := Trim(s);
    if AllDigits(t) then Some(DecimalValue(t)) else None
  }

  /** A line up to its first break; a `\r` right before that break belongs to the
      break (`split(/\r?\n/)[0]`). */
  function FirstLine(text: Message): Message {
    var k := IndexOf(text, Other('\n'));
    if k == -1 then text
    else if k > 0 && text[k - 1] == Other('\r') then text[..k - 1]
    else text[..k]
  }

  /** The header text after the first `#` of the block (all of it when there is
      none), up to the first line break. */
  function HeaderAfterHash(block: Message): Message {
    FirstLine(block[IndexOf(block, Other('#')) + 1..])
  }

  /** The puzzle number of a block: the header after its first `#`, commas removed,
      read as a number. */
  function PuzzleNumber(block: Message): Option<nat> {
    match Chars(HeaderAfterHash(block))
    case None => None
    case Some(s) => Number(RemoveChar(s, ','))
  }

  /** The first occurrence of `t` is at `k` when `g[k]` is `t` and no earlier token is. */
  lemma IndexOfFirst(g: seq<Token>, t: Token, k: int)
    requires 0 <= k < |g| && g[k] == t
    requires forall m :: 0 <= m < k ==> g[m] != t
    ensures IndexOf(g, t) == k
  {
    assert g[k] in g;
    var i := IndexOf(g, t);
    assert forall j :: k < j <= |g| ==> g[..j][k] == t;
  }

  /** Digits and commas only. */
  predicate Grouped(d: string) {
    forall c :: c in d ==> IsDigit(c) || c == ','
  }

  lemma PlainTextAppend(a: string, b: string)
    ensures PlainText(a + b) == PlainText(a) + PlainText(b)
  {
    assert forall i :: 0 <= i < |a + b| ==> PlainText(a + b)[i] == (PlainText(a) + PlainText(b))[i];
  }

  /** The first `#` of plain text `p#...` with no `#` in `p` is at `|p|`. */
  lemma SkipToHash(p: string, tail: Message)
    requires '#' !in p
    ensures IndexOf(PlainText(p) + [Other('#')] + tail, Other('#')) == |p|
  {
    var block := PlainText(p) + [Other('#')] + tail;
    forall m | 0 <= m < |p|
      ensures block[m] != Other('#')
    {
      assert block[m] == Other(p[m]) && p[m] in p;
    }
    IndexOfFirst(block, Other('#'), |p|);
  }

  /** The first line of plain text `d` holding no break is `d`, whichever break
      closes it. */
  lemma CutAtBreak(d: string, brk: Message, rest: Message)
    requires Grouped(d)
    requires brk == [Other('\n')] || brk == [Other('\r'), Other('\n')]
    ensures FirstLine(PlainText(d) + brk + rest) == PlainText(d)
  {
    var text := PlainText(d) + brk + rest;
    forall m | 0 <= m < |d|
      ensures text[m] != Other('\n') && text[m] != Other('\r')
    {
      assert text[m] == Other(d[m]) && d[m] in d;
    }
    var k := |d| + |brk| - 1;
    assert text[k] == Other('\n');
    IndexOfFirst(text, Other('\n'), k);
    assert text[..|d|] == PlainText(d);
  }

  /** Digits and commas read as the digits alone. */
  lemma GroupedNumber(d: string)
    requires Grouped(d)
    ensures AllDigits(RemoveChar(d, ','))
    ensures Number(RemoveChar(d, ',')) == Some(DecimalValue(RemoveChar(d, ',')))
  {
    var r := RemoveChar(d, ',');
    assert forall i :: 0 <= i < |r| ==> r[i] in r;
    assert AllDigits(r);
    assert Trim(r) == r;
  }

  /** The tokens of a header line `p#d` and its break. */
  lemma HeaderTokens(p: string, d: string, eol: string)
    requires eol == "\n" || eol == "\r\n"
    ensures var brk := PlainText(eol);
      && (brk == [Other('\n')] || brk == [Other('\r'), Other('\n')])
      && PlainText(p + "#" + d + eol) == PlainText(p) + [Other('#')] + PlainText(d) + brk
  {
    PlainTextAppend(p, "#");
    PlainTextAppend(p + "#", d);
    PlainTextAppend(p + "#" + d, eol);
    assert PlainText("#") == [Other('#')];
  }

  /** The header of `p#d` closed by a break is `d`. */
  lemma HeaderOf(p: string, d: string, eol: string, rest: Message)
    requires '#' !in p
    requires Grouped(d)
    requires eol == "\n" || eol == "\r\n"
    ensures HeaderAfterHash(PlainText(p + "#" + d + eol) + rest) == PlainText(d)
  {
    HeaderTokens(p, d, eol);
    var brk := PlainText(eol);
    var tail := PlainText(d) + brk + rest;
    var block := PlainText(p + "#" + d + eol) + rest;
    assert block == PlainText(p) + [Other('#')] + tail;
    SkipToHash(p, tail);
    assert block[|p| + 1..] == tail;
    CutAtBreak(d, brk, rest);
  }

  /** A header `p#d` closed by `\n` or `\r\n`, where `p` has no `#` and `d` holds
      only digits and commas, gives the number that `d` spells without its commas,
      whatever follows. */
  lemma HeaderNumber(p: string, d: string, eol: string, rest: Message)
    requires '#' !in p
    requires Grouped(d)
    requires eol == "\n" || eol == "\r\n"
    ensures AllDigits(RemoveChar(d, ','))
    ensures PuzzleNumber(PlainText(p + "#" + d + eol) + rest) == Some(DecimalValue(RemoveChar(d, ',')))
  {
    HeaderOf(p, d, eol, rest);
    assert Chars(PlainText(d)).value == d;
    GroupedNumber(d);
  }

  /** Reading back the decimal rendering of a number from a header gives that number. */
  lemma PuzzleNumberOfShowNat(p: string, n: nat, rest: Message)
    requires '#' !in p
    ensures PuzzleNumber(PlainText(p + "#" + ShowNat(n) + "\n") + rest) == Some(n)
  {
    var d := ShowNat(n);
    assert Grouped(d) by {
      forall c | c in d ensures IsDigit(c) {
        var i :| 0 <= i < |d| && d[i] == c;
      }
    }
    HeaderNumber(p, d, "\n", rest);
    DecimalValueOfShowNat(n);
  }

  /** `Strands #1,234` on the first line gives puzzle 1234. */
  lemma ThousandsSeparator(rest: Message)
    ensures PuzzleNumber(PlainText("Strands #1,234\n") + rest) == Some(1234)
  {
    assert "Strands " + "#" + "1,234" + "\n" == "Strands #1,234\n";
    assert Grouped("1,234") by {
      assert forall c :: c in "1,234" ==> c == '1' || c == ',' || c == '2' || c == '3' || c == '4';
    }
    HeaderNumber("Strands ", "1,234", "\n", rest);
    WithoutCommas();
  }

  lemma WithoutCommas()
    ensures RemoveChar("1,234", ',') == "1234"
    ensures AllDigits("1234") && DecimalValue("1234") == 1234
  {
    assert RemoveChar("4", ',') == "4";
    assert RemoveChar("34", ',') == "34";
    assert RemoveChar("234", ',') == "234";
    assert RemoveChar(",234", ',') == "234";
    assert "1234"[..3] == "123" && "123"[..2] == "12" && "12"[..1] == "1" && "1"[..0] == "";
  }

  // ---------------------------------------------------------------- reactions

  /** The reaction symbols: a keycap per digit, the alternate glyph 🇮 for a
      repeated one, ⁉️ for any other character, and the party reactions for a
      perfect score (the guild's custom emoji, or 🥳 when it has none). */
  datatype Reaction = Keycap(digit: nat) | AltOne | Unknown | Custom | Party

  /** The reaction to one character of the score; `seenOne` says whether a `1`
      came earlier. */
  function CharReaction(c: char, seenOne: bool): Reaction {
    if c == '1' then (if seenOne then AltOne else Keycap(1))
    else if IsDigit(c) then Keycap(DigitValue(c))
    else Unknown
  }

  /** The reactions to the characters of `text`, in order. */
  function CharReactions(text: string): seq<Reaction> {
    seq(|text|, i requires 0 <= i < |text| => CharReaction(text[i], '1' in text[..i]))
  }

  lemma CharReactionsStep(text: string, c: char)
    ensures CharReactions(text + [c]) == CharReactions(text) + [CharReaction(c, '1' in text)]
  {
    assert (text + [c])[..|text|] == text;
    forall i | 0 <= i < |text|
      ensures CharReactions(text + [c])[i] == CharReactions(text)[i]
    {
      assert (text + [c])[..i] == text[..i];
    }
  }

  /** The reactions to `score`, one per character of its decimal text and one more
      for a score of 1. */
  function ReactionsFor(score: int, customFound: bool): (r: seq<Reaction>)
    ensures |r| == |ShowInt(score)| + (if score == 1 then 1 else 0)
    ensures score == 1 ==> r == [Keycap(1), if customFound then Custom else Party]
    ensures score != 1 ==> Custom !in r && Party !in r
  {
    CharReactions(ShowInt(score)) + (if score == 1 then [if customFound then Custom else Party] else [])
  }

  /** `_convertScoreToEmojiList`. */
  method ConvertScoreToEmojiList(score: int, customFound: bool) returns (reactions: seq<Reaction>)
    ensures reactions == ReactionsFor(score, customFound)
  {
    var text := ShowInt(score);
    var containsOne := false;
    reactions := [];
    var i := 0;
    while i < |text|
      invariant 0 <= i <= |text|
      invariant containsOne <==> '1' in text[..i]
      invariant reactions == CharReactions(text[..i])
    {
      var c := text[i];
      CharReactionsStep(text[..i], c);
      if c == '1' {
        reactions := reactions + [if containsOne then AltOne else Keycap(1)];
        containsOne := true;
      } else if IsDigit(c) {
        reactions := reactions + [Keycap(DigitValue(c))];
      } else {
        reactions := reactions + [Unknown];
      }
      assert text[..i + 1] == text[..i] + [c];
      i := i + 1;
    }
    assert text[..i] == text;
    if score == 1 {
      reactions := reactions + [if customFound then Custom else Party];
    }
  }

  /** The digit a reaction shows, the alternate glyph read as a one. */
  function Shown(r: Reaction): char {
    match r
    case Keycap(d) => if d < 10 then DigitChar(d) else '?'
    case AltOne => '1'
    case _ => '?'
  }

  /** The text a run of reactions shows. */
  function Spelled(rs: seq<Reaction>): string {
    seq(|rs|, i requires 0 <= i < |rs| => Shown(rs[i]))
  }

  /** The digit reactions spell the score back, and the score is read back from them. */
  lemma ReactionsSpellScore(score: nat, customFound: bool)
    ensures |ShowNat(score)| <= |ReactionsFor(score, customFound)|
    ensures Spelled(ReactionsFor(score, customFound)[..|ShowNat(score)|]) == ShowNat(score)
    ensures DecimalValue(Spelled(ReactionsFor(score, customFound)[..|ShowNat(score)|])) == score
  {
    var text := ShowNat(score);
    var r := ReactionsFor(score, customFound);
    forall i | 0 <= i < |text|
      ensures Shown(r[i]) == text[i]
    {
      assert IsDigit(text[i]);
      if text[i] == '1' {
        assert DigitChar(1) == '1';
      }
    }
    assert Spelled(r[..|text|]) == text;
    DecimalValueOfShowNat(score);
  }

  /** Keycap 1 answers exactly a `1` with no `1` before it. */
  lemma KeycapOneIsFirstOne(c: char, seenOne: bool)
    ensures CharReaction(c, seenOne) == Keycap(1) <==> c == '1' && !seenOne
  {
    if IsDigit(c) && c != '1' {
      assert DigitChar(DigitValue(c)) == c;
    }
  }

  /** Keycap 1 is used at most once, for the first `1` of the score; a negative
      score starts with ⁉️. */
  lemma KeycapOneOnce(score: int, customFound: bool)
    ensures forall i, j :: 0 <= i < j < |ReactionsFor(score, customFound)| ==>
      !(ReactionsFor(score, customFound)[i] == Keycap(1) && ReactionsFor(score, customFound)[j] == Keycap(1))
    ensures '1' in ShowInt(score) ==>
      ReactionsFor(score, customFound)[IndexOfChar(ShowInt(score), '1')] == Keycap(1)
    ensures score < 0 ==> ReactionsFor(score, customFound)[0] == Unknown
  {
    var text := ShowInt(score);
    var r := ReactionsFor(score, customFound);
    forall i, j | 0 <= i < j < |r| && r[i] == Keycap(1)
      ensures r[j] != Keycap(1)
    {
      if j < |text| {
        KeycapOneIsFirstOne(text[i], '1' in text[..i]);
        KeycapOneIsFirstOne(text[j], '1' in text[..j]);
        assert text[..j][i] == '1';
      }
    }
    if '1' in text {
      var k := IndexOfChar(text, '1');
      KeycapOneIsFirstOne(text[k], '1' in text[..k]);
    }
  }

  // ------------------------------------------------------------------ a play

  /** A message as far as the handlers read it: its text, the first score block
      matched in it (if any), its author and place, and its timestamp. */
  datatype Post = Post(content: string, block: Option<Message>, user: string, userTag: string,
                       userId: string, guild: string, channel: string, createdAt: int)

  /** The message a play triggers once recorded. */
  datatype FollowUp = PostSummary | PostWhoLeft | NoFollowUp

  /** What recording a play yields: the puzzle, whether the play is new, its stored
      score, the reactions to it and the follow-up. */
  datatype Play = Play(game: nat, newPlay: bool, score: nat, reactions: seq<Reaction>,
                       followUp: FollowUp)

  /** The row `createScore` stores for a post. */
  function NewRow(id: nat, game: int, post: Post, block: Message): Row {
    Row(id, game, post.user, post.userTag, post.userId, block, ProcessScore(block),
        post.guild, post.channel, post.createdAt)
  }

  /** The score rows after recording a post for `game`: a row is added unless the
      player already has one for that game in that channel. */
  function RowsAfterPlay(rows: seq<Row>, nextId: nat, game: int, post: Post, block: Message)
    : seq<Row>
  {
    rows + (if FindScore(rows, post.user, game, post.guild, post.channel).None?
            then [NewRow(nextId, game, post, block)] else [])
  }

  /** After recording, the player's score for the game is found: the new row's
      score for a new play, the stored one otherwise. A second recording of the
      same play stores nothing. */
  lemma RecordedOnce(rows: seq<Row>, nextId: nat, game: int, post: Post, block: Message)
    ensures var found := FindScore(rows, post.user, game, post.guild, post.channel);
            var after := FindScore(RowsAfterPlay(rows, nextId, game, post, block),
                                   post.user, game, post.guild, post.channel);
            && after.Some?
            && after.value.score == if found.None? then ProcessScore(block) else found.value.score
    ensures RowsAfterPlay(RowsAfterPlay(rows, nextId, game, post, block), nextId + 1, game, post, block)
            == RowsAfterPlay(rows, nextId, game, post, block)
  {
    var found := FindScore(rows, post.user, game, post.guild, post.channel);
    var all := RowsAfterPlay(rows, nextId, game, post, block);
    if found.None? {
      var row := NewRow(nextId, game, post, block);
      assert all[|rows|] == row;
      var after := FindScore(all, post.user, game, post.guild, post.channel);
      assert after.value in rows + [row];
      assert after.value !in rows;
    } else {
      assert all == rows;
    }
  }

  /** A stored play counts as recent for exactly seven days from the post. */
  lemma RecentForAWeek(id: nat, game: int, post: Post, block: Message, now: int)
    ensures Recent(NewRow(id, game, post, block), now) <==> now < post.createdAt + WEEK_MS
  {
  }

  /** The players who have posted here in the window but not for `game`. */
  function RemainingAfter(rows: seq<Row>, game: int, guild: string, channel: string, now: int)
    : seq<string>
  {
    WhoLeftCommand.Remaining(TotalPlayers(rows, guild, channel, now),
                             PlayersForGame(rows, game, guild, channel, now))
  }

  /** The follow-up of a play: only a new play of the latest game by someone other
      than the bot triggers one; the summary when nobody is left, the absentee notice
      when the one player left is the singled-out player. */
  function FollowUpFor(insultUserName: string, isLatest: bool, newPlay: bool, author: string,
                       remaining: seq<string>): (f: FollowUp)
    ensures f == PostSummary <==> isLatest && newPlay && author != BOT_USER && remaining == []
    ensures f == PostWhoLeft <==>
      isLatest && newPlay && author != BOT_USER && remaining == [insultUserName]
  {
    if isLatest && newPlay && author != BOT_USER then
      if |remaining| == 0 then PostSummary
      else if |remaining| == 1 && remaining[0] == insultUserName then PostWhoLeft
      else NoFollowUp
    else NoFollowUp
  }

  /** A player whose play of `game` is stored, in this channel and inside the
      window, is never among those remaining. */
  lemma PosterNotRemaining(rows: seq<Row>, row: Row, guild: string, channel: string, now: int)
    requires row in rows
    requires CountsAsPlayer(row, guild, channel, now)
    ensures row.user !in RemainingAfter(rows, row.game, guild, channel, now)
  {
    var i :| 0 <= i < |rows| && rows[i] == row;
    assert row.user in GamePlayerNames(rows, row.game, guild, channel, now);
    assert row.user in PlayersForGame(rows, row.game, guild, channel, now);
  }

  // ------------------------------------------------------------------ commands

  const WHO_LEFT_NAME: string := "strandswholeft"
  const SUMMARY_NAME: string := "strandssummary"

  /** The message text invokes the command `name` with either prefix. */
  predicate Invokes(content: string, name: string) {
    StartsWith(content, "!" + name) || StartsWith(content, "/" + name)
  }

  /** What `messageHandler` does with a new message. */
  datatype Command = RunWhoLeft | RunSummary | RecordScore | Ignore

  /** The who-left command is checked first, the summary command next, and a score
      block is looked for only in a message that invokes neither. */
  function Dispatch(content: string, hasBlock: bool): (c: Command)
    ensures c == RunWhoLeft <==> Invokes(content, WHO_LEFT_NAME)
    ensures c == RunSummary <==> !Invokes(content, WHO_LEFT_NAME) && Invokes(content, SUMMARY_NAME)
    ensures c == RecordScore <==>
      !Invokes(content, WHO_LEFT_NAME) && !Invokes(content, SUMMARY_NAME) && hasBlock
  {
    if Invokes(content, WHO_LEFT_NAME) then RunWhoLeft
    else if Invokes(content, SUMMARY_NAME) then RunSummary
    else if hasBlock then RecordScore
    else Ignore
  }

  /** Either prefix runs the command it names, even in a message that holds a score
      block. */
  lemma CommandsWin(block: bool, rest: string)
    ensures Dispatch("!strandswholeft" + rest, block) == RunWhoLeft
    ensures Dispatch("/strandswholeft" + rest, block) == RunWhoLeft
    ensures Dispatch("!strandssummary" + rest, block) == RunSummary
    ensures Dispatch("/strandssummary" + rest, block) == RunSummary
  {
    assert ("!strandswholeft" + rest)[..15] == "!strandswholeft";
    assert ("/strandswholeft" + rest)[..15] == "/strandswholeft";
    assert ("!strandssummary" + rest)[..15] == "!strandssummary";
    assert ("/strandssummary" + rest)[..15] == "/strandssummary";
  }

  /** A message that starts with a letter is a score post when, and only when, it
      holds a block. */
  lemma ScorePosts(block: bool, s: string)
    requires s != [] && s[0] != '!' && s[0] != '/'
    ensures Dispatch(s, block) == (if block then RecordScore else Ignore)
  {
    assert !Invokes(s, WHO_LEFT_NAME) && !Invokes(s, SUMMARY_NAME) by {
      assert ("!" + WHO_LEFT_NAME)[0] == '!' && ("/" + WHO_LEFT_NAME)[0] == '/';
      assert ("!" + SUMMARY_NAME)[0] == '!' && ("/" + SUMMARY_NAME)[0] == '/';
      assert forall k :: 0 < k <= |s| ==> s[..k][0] == s[0];
    }
  }

  /** An empty message is never a command. */
  lemma EmptyMessage(block: bool)
    ensures Dispatch("", block) == (if block then RecordScore else Ignore)
  {
  }

  /** The reply to an edited message. */
  datatype Edit = NotAScore | Ignored | Counted(play: Play)

  /** The line the bot replies with to an edit. */
  function EditReply(e: Edit): Option<string> {
    match e
    case NotAScore => None
    case Ignored => Some("I saw that, Edited Strands Score Ignored.")
    case Counted(_) => Some("I got you, Edited Strands Score Counted.")
  }

  /** What `messageHandler` did: ran a command, or recorded a play. */
  datatype Handled = Ran(command: Command) | Recorded(play: Result<Play, string>)

  /** What recording `block` does to the tables, from `rows`, `nextId` and `games` to
      `rows'`, `nextId'` and `games'`, and the play it reports. A header without a
      puzzle number changes nothing. Otherwise the puzzle is registered; a row with
      the next id is added only for a new play; the score is that row's or the stored
      one; the reactions are those of that score; the follow-up is decided for the
      latest puzzle afterwards. */
  predicate RecordsPlay(settings: Settings, rows: seq<Row>, nextId: nat, games: Games,
                        rows': seq<Row>, nextId': nat, games': Games,
                        post: Post, block: Message, customFound: bool, now: int,
                        r: Result<Play, string>)
  {
    match PuzzleNumber(block)
    case None =>
      r == Failure("no puzzle number in the header")
      && rows' == rows && nextId' == nextId && games' == games
    case Some(n) =>
      var found := FindScore(rows, post.user, n, post.guild, post.channel);
      var latest := LatestGame(games');
      && n in games'
      && games' == Created(games, n, post.createdAt)
      && rows' == RowsAfterPlay(rows, nextId, n, post, block)
      && nextId' == (if found.None? then nextId + 1 else nextId)
      && r.Success? && r.value.game == n && r.value.newPlay == found.None?
      && r.value.score == (if found.None? then ProcessScore(block) else found.value.score)
      && r.value.reactions == ReactionsFor(r.value.score, customFound)
      && latest.Some?
      && r.value.followUp == FollowUpFor(settings.insultUserName, n == latest.value, found.None?,
                                         post.user,
                                         RemainingAfter(rows', latest.value, post.guild, post.channel, now))
  }

  /** The bot's handlers over the score and game tables. */
  class StrandsBotClient {
    const settings: Settings
    const scores: ScoreTable
    const games: GameRegistry

    ghost predicate Valid()
      reads scores, games
    {
      scores.Valid() && games.Valid()
    }

    constructor (settings: Settings, scores: ScoreTable, games: GameRegistry)
      requires scores.Valid() && games.Valid()
      ensures Valid()
      ensures this.settings == settings && this.scores == scores && this.games == games
    {
      this.settings := settings;
      this.scores := scores;
      this.games := games;
    }

    /** `_addStrandsScore`: records the play of `block` unless the player already
        has one for that puzzle here, registering the puzzle first when it is new,
        and reports the reactions and the follow-up. A header without a puzzle
        number changes nothing. */
    method AddStrandsScore(post: Post, block: Message, customFound: bool, now: int)
      returns (r: Result<Play, string>)
      requires Valid()
      modifies scores, games
      ensures Valid()
      ensures RecordsPlay(settings, old(scores.rows), old(scores.nextId), old(games.games),
                          scores.rows, scores.nextId, games.games, post, block, customFound, now, r)
    {
      var number := PuzzleNumber(block);
      if number.None? {
        return Failure("no puzzle number in the header");
      }
      var n := number.value;
      var existing := FindScore(scores.rows, post.user, n, post.guild, post.channel);
      ghost var rows, nextId := scores.rows, scores.nextId;
      RecordedOnce(rows, nextId, n, post, block);
      if GetStrandsGame(games.games, n).None? {
        var created := games.CreateStrandsGame(n, post.createdAt);
      }
      assert n in games.games && games.games == Created(old(games.games), n, post.createdAt);
      var newPlay := true;
      if existing.None? {
        var id := scores.CreateScore(post.user, post.userTag, post.userId, block, n,
                                     post.createdAt, post.guild, post.channel);
      } else {
        newPlay := false;
      }
      assert scores.rows == RowsAfterPlay(rows, nextId, n, post, block);
      var score := FindScore(scores.rows, post.user, n, post.guild, post.channel).value.score;
      var reactions := ConvertScoreToEmojiList(score, customFound);
      var latest := LatestGame(games.games).value;
      var followUp := NoFollowUp;
      if n == latest && newPlay && post.user != BOT_USER {
        var remaining := WhoLeftCommand.Remaining(
          TotalPlayers(scores.rows, post.guild, post.channel, now),
          PlayersForGame(scores.rows, latest, post.guild, post.channel, now));
        if |remaining| == 0 {
          followUp := PostSummary;
        } else if |remaining| == 1 {
          if remaining[0] == settings.insultUserName {
            followUp := PostWhoLeft;
          }
        }
      }
      assert followUp == FollowUpFor(settings.insultUserName, n == latest, newPlay, post.user,
                                     RemainingAfter(scores.rows, latest, post.guild, post.channel, now));
      return Success(Play(n, newPlay, score, reactions, followUp));
    }

    /** `editEvent`: an edited message whose play is already stored is ignored;
        otherwise it is recorded as a new post. */
    method EditEvent(post: Post, customFound: bool, now: int) returns (r: Result<Edit, string>)
      requires Valid()
      modifies scores, games
      ensures Valid()
      ensures post.block.None? ==>
        r == Success(NotAScore) && scores.rows == old(scores.rows) && games.games == old(games.games)
      ensures post.block.Some? && PuzzleNumber(post.block.value).None? ==>
        r.Failure? && scores.rows == old(scores.rows) && games.games == old(games.games)
      ensures post.block.Some? && PuzzleNumber(post.block.value).Some? ==>
        var n := PuzzleNumber(post.block.value).value;
        var found := FindScore(old(scores.rows), post.user, n, post.guild, post.channel);
        && (found.Some? ==>
              r == Success(Ignored) && scores.rows == old(scores.rows) && games.games == old(games.games))
        && (found.None? ==>
              && r.Success? && r.value.Counted? && r.value.play.newPlay
              && r.value.play.score == ProcessScore(post.block.value)
              && scores.rows == old(scores.rows) + [NewRow(old(scores.nextId), n, post, post.block.value)]
              && games.games == Created(old(games.games), n, post.createdAt)
              && RecordsPlay(settings, old(scores.rows), old(scores.nextId), old(games.games),
                             scores.rows, scores.nextId, games.games,
                             post, post.block.value, customFound, now, Success(r.value.play)))
    {
      if post.block.None? {
        return Success(NotAScore);
      }
      var number := PuzzleNumber(post.block.value);
      if number.None? {
        return Failure("no puzzle number in the header");
      }
      if FindScore(scores.rows, post.user, number.value, post.guild, post.channel).Some? {
        return Success(Ignored);
      }
      var play := AddStrandsScore(post, post.block.value, customFound, now);
      return Success(Counted(play.value));
    }

    /** `messageHandler`: runs the command a message invokes, or records the score
        block it holds. */
    method MessageHandler(post: Post, customFound: bool, now: int) returns (h: Handled)
      requires Valid()
      modifies scores, games
      ensures Valid()
      ensures Dispatch(post.content, post.block.Some?) != RecordScore ==>
        && h == Ran(Dispatch(post.content, post.block.Some?))
        && scores.rows == old(scores.rows) && games.games == old(games.games)
      ensures Dispatch(post.content, post.block.Some?) == RecordScore ==>
        && h.Recorded?
        && RecordsPlay(settings, old(scores.rows), old(scores.nextId), old(games.games),
                       scores.rows, scores.nextId, games.games,
                       post, post.block.value, customFound, now, h.play)
    {
      var command := Dispatch(post.content, post.block.Some?);
      if command != RecordScore {
        return Ran(command);
      }
      var play := AddStrandsScore(post, post.block.value, customFound, now);
      return Recorded(play);
    }
  }
}

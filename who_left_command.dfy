/** `StrandsWhoLeftCommand`: the notice listing the players of the last seven
    days who have not yet posted the latest game. The designated player gets a
    taunt instead of the plain line; the taunt comes from a language model when
    one is configured and answers, and otherwise from five fixed templates. The
    model call itself is not part of this model: its outcome is a parameter, and
    so is the random template index. */
module WhoLeftCommand {
  import opened Wrappers
  import opened Text
  import opened Config
  import opened StrandsScore
  import opened StrandsGame
  import opened Invocations

  datatype Field = Field(name: string, value: string)

  /** The embed: a title, an optional description, one field per absentee and an
      optional footer. */
  datatype Notice = Notice(title: string, description: Option<string>, fields: seq<Field>,
                           footer: Option<string>)

  /** What the language model call gave back, when generation is configured. */
  datatype AiOutcome =
    | Replied(content: string)
    | NoContent
    | FetchFailed

  /** `${latestGame}`: the game number, or `undefined` on an empty registry. */
  function Label(latest: Option<int>): (s: string)
    ensures s != []
    ensures latest.Some? ==> s == ShowInt(latest.value)
  {
    match latest
    case None => "undefined"
    case Some(n) => ShowInt(n)
  }

  // ------------------------------------------------------------- remaining

  /** `totalPlayers.filter((player) => !gamePlayers.includes(player))`. */
  function Remaining(total: seq<string>, game: seq<string>): (r: seq<string>)
    ensures forall u :: u in r <==> u in total && u !in game
    ensures |r| <= |total|
  {
    if total == [] then []
    else
      var rest := Remaining(total[1..], game);
      assert forall u :: u in total <==> u == total[0] || u in total[1..];
      if total[0] in game then rest else [total[0]] + rest
  }

  predicate NoDuplicates(s: seq<string>) {
    forall i, j :: 0 <= i < j < |s| ==> s[i] != s[j]
  }

  lemma {:induction false} DistinctCard(s: seq<string>)
    requires NoDuplicates(s)
    ensures |set x | x in s| == |s|
  {
    if s != [] {
      assert NoDuplicates(s[1..]) by {
        forall i, j | 0 <= i < j < |s[1..]| ensures s[1..][i] != s[1..][j] {
          assert s[1..][i] == s[i + 1] && s[1..][j] == s[j + 1];
        }
      }
      DistinctCard(s[1..]);
      assert s[0] !in s[1..] by {
        forall k | 0 <= k < |s[1..]| ensures s[1..][k] != s[0] {
          assert s[1..][k] == s[k + 1];
        }
      }
      assert (set x | x in s) == {s[0]} + (set x | x in s[1..]);
    }
  }

  lemma {:induction false} RemainingDistinct(total: seq<string>, game: seq<string>)
    requires NoDuplicates(total)
    ensures NoDuplicates(Remaining(total, game))
  {
    if total != [] {
      assert NoDuplicates(total[1..]) by {
        forall i, j | 0 <= i < j < |total[1..]| ensures total[1..][i] != total[1..][j] {
          assert total[1..][i] == total[i + 1] && total[1..][j] == total[j + 1];
        }
      }
      RemainingDistinct(total[1..], game);
      var rest := Remaining(total[1..], game);
      if total[0] !in game {
        forall k | 0 <= k < |rest| ensures rest[k] != total[0] {
          assert rest[k] in rest;
          var m :| 0 <= m < |total[1..]| && total[1..][m] == rest[k];
          assert total[m + 1] == rest[k];
        }
      }
    }
  }

  /** With both lists free of repeats and every player of the game among the
      players of the week, as the score queries guarantee, the number of absentees
      is the difference of the two lengths. */
  lemma RemainingCount(total: seq<string>, game: seq<string>)
    requires NoDuplicates(total) && NoDuplicates(game)
    requires forall u :: u in game ==> u in total
    ensures |Remaining(total, game)| == |total| - |game|
  {
    var r := Remaining(total, game);
    RemainingDistinct(total, game);
    DistinctCard(total);
    DistinctCard(game);
    DistinctCard(r);
    var T, G, R := set x | x in total, set x | x in game, set x | x in r;
    assert R == T - G;
    assert G <= T;
    assert T == R + G && R * G == {};
  }

  // ---------------------------------------------------------------- taunts

  /** The five fixed taunts, chosen by `Math.floor(Math.random() * 5)`. */
  function Template(index: nat, shown: string): (t: string)
    requires index < 5
  {
    if index == 0 then "Is too lazy to complete Strands " + shown
    else if index == 1 then "Is holding everone else back on Strands " + shown + ", he's the worst"
    else if index == 2 then "Is the worst. Complete Strands " + shown + " already!"
    else if index == 3 then "Has time to edit discord names but not complete Strands " + shown
    else "As per usual has not completed Strands " + shown
  }

  /** Every fixed taunt names the game. */
  lemma TemplateNamesGame(index: nat, shown: string)
    requires index < 5
    ensures Contains(Template(index, shown), shown)
  {
    var t := Template(index, shown);
    var lead :=
      if index == 0 then "Is too lazy to complete Strands "
      else if index == 1 then "Is holding everone else back on Strands "
      else if index == 2 then "Is the worst. Complete Strands "
      else if index == 3 then "Has time to edit discord names but not complete Strands "
      else "As per usual has not completed Strands ";
    assert t[|lead|..|lead| + |shown|] == shown;
    assert OccursAt(t, shown, |lead|);
  }

  /** `[name]`, `[Name]` and `[Player]` in a generated message become the player's
      id. */
  function Substitute(content: string, id: string): string {
    ReplaceAll(ReplaceAll(ReplaceAll(content, "[name]", id), "[Name]", id), "[Player]", id)
  }

  /** The id has no character of the placeholders (a mention such as `<@123>`). */
  predicate PlainId(id: string) {
    id != [] && forall c :: c in id ==> c !in "[name][Name][Player]"
  }

  /** After substitution no placeholder is left. */
  lemma SubstituteLeavesNoPlaceholder(content: string, id: string)
    requires PlainId(id)
    ensures !Contains(Substitute(content, id), "[name]")
    ensures !Contains(Substitute(content, id), "[Name]")
    ensures !Contains(Substitute(content, id), "[Player]")
  {
    var s1 := ReplaceAll(content, "[name]", id);
    var s2 := ReplaceAll(s1, "[Name]", id);
    assert forall c :: c in "[name]" ==> c in "[name][Name][Player]";
    assert forall c :: c in "[Name]" ==> c in "[name][Name][Player]";
    assert forall c :: c in "[Player]" ==> c in "[name][Name][Player]";
    ReplaceAllAvoids(content, "[name]", id, "[name]");
    ReplaceAllAvoids(s1, "[Name]", id, "[name]");
    ReplaceAllAvoids(s1, "[Name]", id, "[Name]");
    ReplaceAllAvoids(s2, "[Player]", id, "[name]");
    ReplaceAllAvoids(s2, "[Player]", id, "[Name]");
    ReplaceAllAvoids(s2, "[Player]", id, "[Player]");
  }

  /** `getAIMessage`: the model's reply with the placeholders filled in; a fixed
      taunt when generation is off or the reply is empty; an error when generation
      is on and the call failed, since the code then reads a field of `null`. */
  function Taunt(settings: Settings, latest: Option<int>, outcome: AiOutcome, index: nat)
    : (t: Result<string, string>)
    requires index < 5
    ensures t.Failure? <==> settings.generationEnabled && outcome.FetchFailed?
    ensures (!settings.generationEnabled || outcome.NoContent? || outcome == Replied("")) ==>
      t == Success(Template(index, Label(latest)))
    ensures settings.generationEnabled && outcome.Replied? && outcome.content != [] ==>
      t == Success(Substitute(outcome.content, settings.insultUserId))
  {
    if settings.generationEnabled && outcome.FetchFailed? then Failure("Cannot read properties of null")
    else if settings.generationEnabled && outcome.Replied? && outcome.content != [] then
      Success(Substitute(outcome.content, settings.insultUserId))
    else Success(Template(index, Label(latest)))
  }

  // ---------------------------------------------------------------- notice

  /** The title when someone is missing: the designated player by name when they
      are the only one, otherwise by count. */
  function Title(settings: Settings, total: seq<string>, game: seq<string>): string {
    if |total| - |game| == 1 then
      var rem := Remaining(total, game);
      if |rem| > 0 && rem[0] == settings.insultUserName
      then "Once again " + settings.insultUserName + " is the last one remaining..."
      else "One player Remaining"
    else "People not done"
  }

  /** The field of one absentee. */
  function FieldFor(settings: Settings, player: string, taunt: string, shown: string): Field {
    if player == settings.insultUserName then Field(player, taunt)
    else Field(player, "Has not completed Strands " + shown)
  }

  /** The `forEach` that adds one field per absentee, in the order of the week's
      players. */
  method AddFields(settings: Settings, remaining: seq<string>, taunt: string, shown: string)
    returns (fields: seq<Field>)
    ensures |fields| == |remaining|
    ensures forall i :: 0 <= i < |fields| ==>
      && fields[i].name == remaining[i]
      && fields[i].value == if remaining[i] == settings.insultUserName then taunt
                            else "Has not completed Strands " + shown
  {
    fields := [];
    var i := 0;
    while i < |remaining|
      invariant 0 <= i <= |remaining| && |fields| == i
      invariant forall k :: 0 <= k < i ==> fields[k] == FieldFor(settings, remaining[k], taunt, shown)
    {
      fields := fields + [FieldFor(settings, remaining[i], taunt, shown)];
      i := i + 1;
    }
  }

  /** `execute`: the notice for the latest game in the call's channel. */
  method Execute(settings: Settings, how: Invocation, rows: seq<Row>, games: Games, now: int,
                 outcome: AiOutcome, index: nat)
    returns (r: Result<Notice, string>)
    requires index < 5
    ensures how.NoContext? ==> r == Failure("Invalid WhoLeft call")
    ensures !how.NoContext? ==>
      var (guild, channel) := Target(how, "WhoLeft").value;
      var latest := LatestGame(games);
      var total := TotalPlayers(rows, guild, channel, now);
      var game := if latest.Some? then PlayersForGame(rows, latest.value, guild, channel, now) else [];
      var taunt := Taunt(settings, latest, outcome, index);
      if |total| == |game| then
        r == Success(Notice("Everyone is done with " + Label(latest), Some("All done."), [], None))
      else if taunt.Failure? then r.Failure?
      else
        && r.Success?
        && r.value.title == Title(settings, total, game)
        && r.value.description.None?
        && r.value.footer == (if settings.footerMessage == [] then None else Some(settings.footerMessage))
        && |r.value.fields| == |Remaining(total, game)|
        && forall i :: 0 <= i < |r.value.fields| ==>
             r.value.fields[i] == FieldFor(settings, Remaining(total, game)[i], taunt.value, Label(latest))
  {
    var target := Target(how, "WhoLeft");
    if target.Failure? {
      assert "Invalid " + "WhoLeft" + " call" == "Invalid WhoLeft call";
      return Failure(target.error);
    }
    var (guild, channel) := target.value;
    var latest := LatestGame(games);
    var shown := Label(latest);
    var total := TotalPlayers(rows, guild, channel, now);
    var game := if latest.Some? then PlayersForGame(rows, latest.value, guild, channel, now) else [];
    if |total| == |game| {
      return Success(Notice("Everyone is done with " + shown, Some("All done."), [], None));
    }
    var title := Title(settings, total, game);
    var taunt := Taunt(settings, latest, outcome, index);
    if taunt.Failure? {
      return Failure(taunt.error);
    }
    var fields := AddFields(settings, Remaining(total, game), taunt.value, shown);
    var footer := if settings.footerMessage != [] then Some(settings.footerMessage) else None;
    r := Success(Notice(title, None, fields, footer));
  }

  /** In the channel's notice, a gap of one between the week's players and the
      game's players means exactly one absentee, so the named title appears exactly
      when that absentee is the designated player. */
  lemma OneGapOneAbsentee(settings: Settings, rows: seq<Row>, latest: int, guild: string,
                          channel: string, now: int)
    requires |TotalPlayers(rows, guild, channel, now)| - |PlayersForGame(rows, latest, guild, channel, now)| == 1
    ensures |Remaining(TotalPlayers(rows, guild, channel, now), PlayersForGame(rows, latest, guild, channel, now))| == 1
    ensures Title(settings, TotalPlayers(rows, guild, channel, now), PlayersForGame(rows, latest, guild, channel, now))
            == if Remaining(TotalPlayers(rows, guild, channel, now), PlayersForGame(rows, latest, guild, channel, now))
                  == [settings.insultUserName]
               then "Once again " + settings.insultUserName + " is the last one remaining..."
               else "One player Remaining"
  {
    var total := TotalPlayers(rows, guild, channel, now);
    var game := PlayersForGame(rows, latest, guild, channel, now);
    PlayerLists(rows, latest, guild, channel, now);
    RemainingCount(total, game);
  }
}

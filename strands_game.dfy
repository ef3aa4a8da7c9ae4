/** The StrandsGame table: one record per puzzle number, holding the date the
    puzzle was first seen, the solution once fetched, and whether the daily
    summary has been posted for it. The getters are functions of the table's
    map; the inserts and updates are methods of `GameRegistry`. */
module StrandsGame {
  import opened Wrappers

  /** The fetched solution (`jsonGameInfo`); the spangram, clue and theme-word
      columns are projections of it and are always written together with it. */
  datatype GameInfo = GameInfo(spangram: string, clue: string, themeWords: seq<string>)

  /** A game row. A fresh row has no solution and a `SummaryPosted` column that is
      `NULL`, which every reader treats as false. */
  datatype Game = Game(number: int, date: int, info: Option<GameInfo>, summaryPosted: bool)

  type Games = map<int, Game>

  /** Every record sits under its own number. */
  ghost predicate WellKeyed(games: Games) {
    forall n :: n in games ==> games[n].number == n
  }

  /** `getStrandsGame`: the record for puzzle `n`, if any. */
  function GetStrandsGame(games: Games, n: int): (o: Option<Game>)
    requires WellKeyed(games)
    ensures o.None? <==> n !in games
    ensures o.Some? ==> o.value.number == n && o.value == games[n]
  {
    if n in games then Some(games[n]) else None
  }

  /** A set is empty or has a member. */
  lemma Occupied(s: set<int>)
    ensures s == {} || exists y :: y in s
  {
    if forall y :: y !in s {
      assert s == {};
    }
  }

  /** Some element of a non-empty set. */
  ghost function Pick(s: set<int>): (x: int)
    requires s != {}
    ensures x in s
  {
    Occupied(s);
    var x :| x in s; x
  }

  lemma {:induction false} MaxExists(s: set<int>)
    requires s != {}
    ensures exists m :: m in s && forall k :: k in s ==> k <= m
    decreases |s|
  {
    var x := Pick(s);
    var t := s - {x};
    if t == {} {
      forall k | k in s ensures k <= x {
        assert k !in t;
      }
    } else {
      MaxExists(t);
      var m :| m in t && forall k :: k in t ==> k <= m;
      var top := if m < x then x else m;
      forall k | k in s ensures k <= top {
        if k != x { assert k in t; }
      }
      assert top in s;
    }
  }

  /** The largest number of a non-empty set. */
  function Max(s: set<int>): (m: int)
    requires s != {}
    ensures m in s && forall k :: k in s ==> k <= m
  {
    MaxExists(s);
    var m :| m in s && forall k :: k in s ==> k <= m;
    m
  }

  /** `getLatestGame`: the highest puzzle number stored, nothing on an empty table. */
  function LatestGame(games: Games): (o: Option<int>)
    ensures o.None? <==> games == map[]
    ensures o.Some? ==> o.value in games && forall n :: n in games ==> n <= o.value
  {
    if games.Keys == {} then
      assert forall n :: n !in games;
      None
    else Some(Max(games.Keys))
  }

  /** `getLatestGameSummaryPosted`: the flag of the highest-numbered game; nothing on
      an empty table. */
  function LatestSummaryPosted(games: Games): (o: Option<bool>)
    ensures o.None? <==> games == map[]
    ensures o.Some? ==> o.value == games[LatestGame(games).value].summaryPosted
  {
    match LatestGame(games)
    case None => None
    case Some(n) => Some(games[n].summaryPosted)
  }

  /** The numbers of `s`, highest first. */
  function Descending(s: set<int>): (o: seq<int>)
    ensures forall i, j :: 0 <= i < j < |o| ==> o[i] > o[j]
    ensures forall n :: n in o <==> n in s
    ensures |o| == |s|
    decreases |s|
  {
    if s == {} then []
    else
      var m := Max(s);
      var rest := Descending(s - {m});
      assert forall k :: k in rest ==> k < m;
      [m] + rest
  }

  /** The numbers of every game but `exclude`, highest first. */
  function PastGames(games: Games, exclude: int): (o: seq<int>)
    ensures forall i, j :: 0 <= i < j < |o| ==> o[i] > o[j]
    ensures forall n :: n in o <==> n in games && n != exclude
    ensures forall i :: 0 <= i < |o| ==> o[i] in games
    ensures |o| == |games.Keys - {exclude}|
  {
    var o := Descending(games.Keys - {exclude});
    assert forall i :: 0 <= i < |o| ==> o[i] in o;
    o
  }

  /** The solutions of the listed games, in list order. */
  function InfoOf(games: Games, order: seq<int>): (o: seq<Option<GameInfo>>)
    requires forall i :: 0 <= i < |order| ==> order[i] in games
    ensures |o| == |order|
    ensures forall i :: 0 <= i < |o| ==> o[i] == games[order[i]].info
  {
    if order == [] then [] else [games[order[0]].info] + InfoOf(games, order[1..])
  }

  /** `getAllPastGamesJSON`: the solution of every game but `exclude`, highest
      number first. */
  function AllPastGamesInfo(games: Games, exclude: int): (o: seq<Option<GameInfo>>)
    ensures |o| == |games.Keys - {exclude}|
    ensures forall i :: 0 <= i < |o| ==> o[i] == games[PastGames(games, exclude)[i]].info
  {
    InfoOf(games, PastGames(games, exclude))
  }

  /** The table after inserting puzzle `n` first seen at `date`; the `UNIQUE`
      constraint rejects a number that is already there. */
  function Created(games: Games, n: int, date: int): Games {
    if n in games then games else games[n := Game(n, date, None, false)]
  }

  /** The table after `addGameInfo(n, info)`: an unconditional overwrite of the
      solution, and no change when `n` is absent. */
  function WithInfo(games: Games, n: int, info: GameInfo): Games {
    if n in games then games[n := games[n].(info := Some(info))] else games
  }

  /** The table after `summaryPosted(n)`. */
  function MarkedPosted(games: Games, n: int): Games {
    if n in games then games[n := games[n].(summaryPosted := true)] else games
  }

  /** `after` keeps every game of `before` under its number and date, and every
      posted flag set. */
  ghost predicate Grows(before: Games, after: Games) {
    && WellKeyed(after)
    && (forall k :: k in before ==> k in after && after[k].date == before[k].date)
    && (forall k :: k in before && before[k].summaryPosted ==> after[k].summaryPosted)
  }

  /** No update removes a game, renumbers one, or clears a posted flag. */
  lemma UpdatesOnlyAdd(games: Games, n: int, date: int, info: GameInfo)
    requires WellKeyed(games)
    ensures Grows(games, Created(games, n, date))
    ensures Grows(games, WithInfo(games, n, info))
    ensures Grows(games, MarkedPosted(games, n))
  {
  }

  /** Marking sets the flag of that game alone and is idempotent. */
  lemma MarkedPostedSetsOne(games: Games, n: int)
    requires n in games
    ensures MarkedPosted(games, n)[n].summaryPosted
    ensures forall k :: k in games && k != n ==> MarkedPosted(games, n)[k] == games[k]
    ensures MarkedPosted(MarkedPosted(games, n), n) == MarkedPosted(games, n)
  {
  }

  /** A newly created game that is the highest so far is reported as not yet
      summarised. */
  lemma FreshLatestUnposted(games: Games, n: int, date: int)
    requires forall k :: k in games ==> k < n
    ensures LatestGame(Created(games, n, date)) == Some(n)
    ensures LatestSummaryPosted(Created(games, n, date)) == Some(false)
  {
    assert n in Created(games, n, date);
  }

  /** A second insert of the same number leaves the table as it was. */
  lemma CreateRejectsDuplicate(games: Games, n: int, d1: int, d2: int)
    ensures Created(Created(games, n, d1), n, d2) == Created(games, n, d1)
    ensures n in Created(games, n, d1)
  {
  }

  /** The StrandsGame table. */
  class GameRegistry {
    var games: Games

    ghost predicate Valid()
      reads this
    {
      WellKeyed(games)
    }

    constructor ()
      ensures Valid() && games == map[]
    {
      games := map[];
    }

    /** `createStrandsGame`: `ok` is false when the number is already stored. */
    method CreateStrandsGame(n: int, timestamp: int) returns (ok: bool)
      requires Valid()
      modifies this
      ensures Valid()
      ensures ok <==> n !in old(games)
      ensures games == Created(old(games), n, timestamp)
    {
      ok := n !in games;
      games := Created(games, n, timestamp);
    }

    /** `addGameInfo`. */
    method AddGameInfo(n: int, info: GameInfo)
      requires Valid()
      modifies this
      ensures Valid()
      ensures games == WithInfo(old(games), n, info)
    {
      games := WithInfo(games, n, info);
    }

    /** `summaryPosted`. */
    method SummaryPosted(n: int)
      requires Valid()
      modifies this
      ensures Valid()
      ensures games == MarkedPosted(old(games), n)
    {
      games := MarkedPosted(games, n);
    }
  }
}

/** The per-player statistics kept by `StatsManager` (advanced_rps_game.py,
    lines 65-109) as a map from player name to record, without the JSON
    file the source saves after each change. */
module Stats {
  import opened Rules

  /** One entry of a player's match history. */
  datatype MatchSummary = MatchSummary(opponent: string, result: string, moves: seq<Round>)

  /** A player's record. The source keeps achievements in a list and only
      appends names not already in it. */
  datatype Record = Record(wins: nat, losses: nat, ties: nat, rating: int, totalGames: nat,
                           history: seq<MatchSummary>, achievements: seq<string>)

  /** The store: player name to record. */
  type Store = map<string, Record>

  /** The three match results the game records. */
  const Win := "win"
  const Loss := "loss"
  const Tie := "tie"

  /** The record a player gets on first reference. */
  const DefaultRecord := Record(0, 0, 0, 1200, 0, [], [])

  /** How many history entries have the given result. */
  function ResultCount(history: seq<MatchSummary>, result: string): nat
  {
    if history == [] then 0
    else ResultCount(history[..|history| - 1], result)
         + (if history[|history| - 1].result == result then 1 else 0)
  }

  /** A record whose counters agree with its history and whose achievement
      list has no duplicates. */
  predicate Consistent(p: Record)
  {
    && p.totalGames == |p.history|
    && p.wins == ResultCount(p.history, Win)
    && p.losses == ResultCount(p.history, Loss)
    && p.ties == ResultCount(p.history, Tie)
    && Distinct(p.achievements)
  }

  /** A store all of whose records are consistent. */
  predicate StoreConsistent(s: Store)
  {
    forall name :: name in s ==> Consistent(s[name])
  }

  /** The store after a lookup, and the record found or created. */
  datatype Lookup = Lookup(store: Store, record: Record)

  /** `get_player(name)`: an existing record is returned unchanged; an
      unknown name first gets the default record. */
  function GetPlayer(s: Store, name: string): (r: Lookup)
    ensures name in r.store && r.record == r.store[name]
    ensures r.store.Keys == s.Keys + {name}
    ensures name in s ==> r.store == s
    ensures name !in s ==> r.record == DefaultRecord
    ensures forall n :: n in s ==> r.store[n] == s[n]
  {
    if name in s then Lookup(s, s[name])
    else Lookup(s[name := DefaultRecord], DefaultRecord)
  }

  /** Looking a player up a second time changes nothing more. */
  lemma GetPlayerIdempotent(s: Store, name: string)
    ensures GetPlayer(GetPlayer(s, name).store, name) == GetPlayer(s, name)
  {
  }

  /** The default record is consistent, so a lookup keeps a consistent store
      consistent. */
  lemma GetPlayerKeepsConsistent(s: Store, name: string)
    requires StoreConsistent(s)
    ensures StoreConsistent(GetPlayer(s, name).store)
  {
    assert Consistent(DefaultRecord);
  }

  /** `update_match`: the counter matching `result` (if any) and the game
      total go up by one and the match is appended to the history; the
      rating, the achievements and every other player's record stay. */
  function UpdateMatch(s: Store, player: string, opponent: string, result: string,
                       moves: seq<Round>): (s': Store)
    ensures s'.Keys == s.Keys + {player}
    ensures forall n :: n in s && n != player ==> s'[n] == s[n]
    ensures var p := GetPlayer(s, player).record;
      var q := s'[player];
      && q.wins == p.wins + (if result == Win then 1 else 0)
      && q.losses == p.losses + (if result == Loss then 1 else 0)
      && q.ties == p.ties + (if result == Tie then 1 else 0)
      && q.totalGames == p.totalGames + 1
      && q.history == p.history + [MatchSummary(opponent, result, moves)]
      && q.rating == p.rating && q.achievements == p.achievements
  {
    var lookup := GetPlayer(s, player);
    var p := lookup.record;
    var p' :=
      if result == Win then p.(wins := p.wins + 1)
      else if result == Loss then p.(losses := p.losses + 1)
      else if result == Tie then p.(ties := p.ties + 1)
      else p;
    lookup.store[player := p'.(totalGames := p.totalGames + 1,
                               history := p.history + [MatchSummary(opponent, result, moves)])]
  }

  /** Appending a match keeps the counters in step with the history, for
      any result string. */
  lemma UpdateMatchKeepsConsistent(s: Store, player: string, opponent: string, result: string,
                                   moves: seq<Round>)
    requires StoreConsistent(s)
    ensures StoreConsistent(UpdateMatch(s, player, opponent, result, moves))
  {
    var p := GetPlayer(s, player).record;
    assert Consistent(p) by { GetPlayerKeepsConsistent(s, player); }
    var entry := MatchSummary(opponent, result, moves);
    assert (p.history + [entry])[..|p.history|] == p.history;
  }

  /** A record that appends one match to a consistent record's history,
      moves the counters with that match's result and keeps its
      achievements free of repeats is consistent. */
  lemma AppendedRecordConsistent(p: Record, q: Record, entry: MatchSummary)
    requires Consistent(p)
    requires q.history == p.history + [entry]
    requires q.totalGames == p.totalGames + 1
    requires q.wins == p.wins + (if entry.result == Win then 1 else 0)
    requires q.losses == p.losses + (if entry.result == Loss then 1 else 0)
    requires q.ties == p.ties + (if entry.result == Tie then 1 else 0)
    requires Distinct(q.achievements)
    ensures Consistent(q)
  {
    assert q.history[..|q.history| - 1] == p.history;
  }

  /** `update_rating`, with the new rating computed by `rate` from the
      current rating, the opponent's rating and the result value (the
      logistic formula itself is not modelled): only the rating changes. */
  function UpdateRating(s: Store, player: string, opponentRating: int, resultValue: real,
                        rate: (int, int, real) -> int): (s': Store)
    ensures s'.Keys == s.Keys + {player}
    ensures forall n :: n in s && n != player ==> s'[n] == s[n]
    ensures var p := GetPlayer(s, player).record;
      s'[player] == p.(rating := rate(p.rating, opponentRating, resultValue))
  {
    var lookup := GetPlayer(s, player);
    var p := lookup.record;
    lookup.store[player := p.(rating := rate(p.rating, opponentRating, resultValue))]
  }

  /** `add_achievement`: the name is appended unless the player already
      has it; nothing else changes. */
  function AddAchievement(s: Store, player: string, achievement: string): (s': Store)
    ensures s'.Keys == s.Keys + {player}
    ensures forall n :: n in s && n != player ==> s'[n] == s[n]
    ensures var p := GetPlayer(s, player).record;
      var q := s'[player];
      && achievement in q.achievements
      && (forall a :: a in q.achievements <==> a in p.achievements || a == achievement)
      && |q.achievements| <= |p.achievements| + 1
      && q == p.(achievements := q.achievements)
  {
    var lookup := GetPlayer(s, player);
    var p := lookup.record;
    if achievement in p.achievements then lookup.store
    else lookup.store[player := p.(achievements := p.achievements + [achievement])]
  }

  /** Awarding the same achievement twice is the same as awarding it once. */
  lemma AddAchievementIdempotent(s: Store, player: string, achievement: string)
    ensures AddAchievement(AddAchievement(s, player, achievement), player, achievement)
         == AddAchievement(s, player, achievement)
  {
  }

  /** Awarding never creates a duplicate achievement and keeps every record
      consistent. */
  lemma AddAchievementKeepsConsistent(s: Store, player: string, achievement: string)
    requires StoreConsistent(s)
    ensures StoreConsistent(AddAchievement(s, player, achievement))
  {
    GetPlayerKeepsConsistent(s, player);
  }
}

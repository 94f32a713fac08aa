/** What `play_match_cli` does around the round loop (advanced_rps_game.py,
    lines 283-351): pick the opponent, make the round target odd, classify
    the finished match, record it, and award achievements. */
module MatchEnd {
  import opened Wrappers
  import opened Rules
  import opened Opponents
  import opened Matches
  import opened Stats

  /** The achievement names. */
  const FirstWin := "First Win"
  const ThreeWinStreak := "Three win streak"
  const PredictablePlayer := "Predictable Player (Cheater?)"

  /** The opponent for an already trimmed and lower-cased choice: an empty
      answer means "markov", and an unknown key falls back to the random
      opponent. */
  function SelectOpponent(choice: string, key: RulesetKey): (o: Opponent)
    ensures Opponents.Valid(o) && Cleared(o) && o.rules == key
    ensures Name(o) == (if choice == "" || choice == "markov" then "MarkovAI"
                        else if choice == "freq" then "FrequencyAI"
                        else "RandomAI")
  {
    var aiKey := if choice == "" then "markov" else choice;
    match ChooseAi(aiKey, key)
    case Success(o) => o
    case Failure(_) => RandomAI(key)
  }

  /** The round target after the adjustment: an even answer is bumped to the
      next odd number, so the target is always odd, and at least 1 for any
      answer `read_int` accepts. */
  function AdjustRounds(rounds: int): (r: int)
    ensures r % 2 == 1
    ensures rounds <= r <= rounds + 1
    ensures rounds % 2 == 1 ==> r == rounds
    ensures rounds >= 1 ==> r >= 1
  {
    if rounds % 2 == 0 then rounds + 1 else rounds
  }

  /** The final result from the two round-win scores. */
  function Classify(player: nat, ai: nat): (result: string)
    ensures result == Win <==> player > ai
    ensures result == Loss <==> player < ai
    ensures result == Tie <==> player == ai
  {
    if player > ai then Win else if player < ai then Loss else Tie
  }

  /** The result value handed to the rating update. */
  function ResultValue(player: nat, ai: nat): (v: real)
    ensures v == 1.0 <==> Classify(player, ai) == Win
    ensures v == 0.0 <==> Classify(player, ai) == Loss
    ensures v == 0.5 <==> Classify(player, ai) == Tie
  {
    if player > ai then 1.0 else if player < ai then 0.0 else 0.5
  }

  /** A match that ends through `is_over` with a single winner is never a tie,
      so the "MATCH RESULT: TIE" branch is unreachable after a finished match. */
  lemma FinishedMatchNotTied(m: Match)
    requires IsOver(m) && SingleWinner(m)
    ensures Classify(m.player, m.ai) != Tie
  {
  }

  /** "First Win": the match was won and it is the player's only win. */
  predicate EarnsFirstWin(result: string, p: Record)
  {
    result == Win && p.wins == 1
  }

  /** "Three win streak": the last three history entries are all wins. */
  predicate EarnsThreeWinStreak(p: Record)
  {
    |p.history| >= 3 &&
    forall i :: |p.history| - 3 <= i < |p.history| ==> p.history[i].result == Win
  }

  /** "Predictable Player": at least three rounds, the player repeating the
      first move in every one. */
  predicate IsPredictable(rounds: seq<Round>)
  {
    |rounds| >= 3 && forall i :: 0 <= i < |rounds| ==> rounds[i].0 == rounds[0].0
  }

  /** When the rounds' player moves are the typed moves, "Predictable
      Player" is earned exactly when at least three rounds were played and
      every typed move up to then repeats the first. */
  lemma PredictableFromInputs(rounds: seq<Round>, inputs: seq<(Move, nat)>)
    requires |rounds| <= |inputs|
    requires forall j :: 0 <= j < |rounds| ==> rounds[j].0 == inputs[j].0
    ensures IsPredictable(rounds) <==>
      |rounds| >= 3 && forall j :: 0 <= j < |rounds| ==> inputs[j].0 == inputs[0].0
  {
  }

  /** The opponent's rating as read before the match is recorded: its stored
      rating when it has a record, 1200 otherwise (no record is created). */
  function OpponentRating(s: Store, name: string): (r: int)
    ensures name in s ==> r == s[name].rating
    ensures name !in s ==> r == DefaultRecord.rating
  {
    if name in s then GetPlayer(s, name).record.rating else 1200
  }

  /** Award `achievement` when `earned` holds. */
  function AwardIf(s: Store, player: string, earned: bool, achievement: string): (s': Store)
    requires player in s
    ensures s'.Keys == s.Keys
    ensures forall n :: n in s && n != player ==> s'[n] == s[n]
    ensures s'[player] == s[player].(achievements := s'[player].achievements)
    ensures forall a :: a in s'[player].achievements <==>
      a in s[player].achievements || (earned && a == achievement)
    ensures Distinct(s[player].achievements) ==> Distinct(s'[player].achievements)
  {
    if earned then AddAchievement(s, player, achievement) else s
  }

  /** Record a finished match and update the player's rating, reading the
      opponent's rating first, as `play_match_cli` does. */
  function RecordMatch(s: Store, player: string, aiName: string, m: Match,
                       rate: (int, int, real) -> int): (s': Store)
    ensures s'.Keys == s.Keys + {player}
    ensures forall n :: n in s && n != player ==> s'[n] == s[n]
    ensures var p := GetPlayer(s, player).record;
      var result := Classify(m.player, m.ai);
      s'[player] == p.(wins := p.wins + (if result == Win then 1 else 0),
                       losses := p.losses + (if result == Loss then 1 else 0),
                       ties := p.ties + (if result == Tie then 1 else 0),
                       totalGames := p.totalGames + 1,
                       history := p.history + [MatchSummary(aiName, result, m.history)],
                       rating := rate(p.rating, OpponentRating(s, aiName), ResultValue(m.player, m.ai)))
  {
    var result := Classify(m.player, m.ai);
    var opponentRating := OpponentRating(s, aiName);
    var s1 := UpdateMatch(s, player, aiName, result, m.history);
    UpdateRating(s1, player, opponentRating, ResultValue(m.player, m.ai), rate)
  }

  /** Award the three achievements of `play_match_cli` for a match with
      the given result and rounds, each checked against the record as it
      stands after the match was recorded. */
  function AwardAchievements(s: Store, player: string, result: string, rounds: seq<Round>): (s': Store)
    requires player in s
    ensures s'.Keys == s.Keys
    ensures forall n :: n in s && n != player ==> s'[n] == s[n]
    ensures s'[player] == s[player].(achievements := s'[player].achievements)
    ensures var p := s[player]; var q := s'[player];
      && (FirstWin in q.achievements <==>
            FirstWin in p.achievements || EarnsFirstWin(result, p))
      && (ThreeWinStreak in q.achievements <==>
            ThreeWinStreak in p.achievements || EarnsThreeWinStreak(p))
      && (PredictablePlayer in q.achievements <==>
            PredictablePlayer in p.achievements || IsPredictable(rounds))
    ensures forall a :: a in s'[player].achievements ==>
      a in s[player].achievements || a == FirstWin || a == ThreeWinStreak || a == PredictablePlayer
    ensures Distinct(s[player].achievements) ==> Distinct(s'[player].achievements)
  {
    var p := s[player];
    var s3 := AwardIf(s, player, EarnsFirstWin(result, p), FirstWin);
    var s4 := AwardIf(s3, player, EarnsThreeWinStreak(p), ThreeWinStreak);
    AwardIf(s4, player, IsPredictable(rounds), PredictablePlayer)
  }

  /** Everything after the round loop of a finished match: classify it,
      read the opponent's rating, record the match, update the rating with
      `rate`, then award the three achievements from the updated record. */
  function FinishMatch(s: Store, player: string, aiName: string, m: Match,
                       rate: (int, int, real) -> int): (s': Store)
    ensures s'.Keys == s.Keys + {player}
    ensures forall n :: n in s && n != player ==> s'[n] == s[n]
    ensures var p := GetPlayer(s, player).record;
      var q := s'[player];
      var result := Classify(m.player, m.ai);
      && q.history == p.history + [MatchSummary(aiName, result, m.history)]
      && q.totalGames == p.totalGames + 1
      && q.wins == p.wins + (if result == Win then 1 else 0)
      && q.losses == p.losses + (if result == Loss then 1 else 0)
      && q.ties == p.ties + (if result == Tie then 1 else 0)
      && q.rating == rate(p.rating, OpponentRating(s, aiName), ResultValue(m.player, m.ai))
    ensures var p := GetPlayer(s, player).record;
      var q := s'[player];
      var result := Classify(m.player, m.ai);
      && (FirstWin in q.achievements <==> FirstWin in p.achievements || EarnsFirstWin(result, q))
      && (ThreeWinStreak in q.achievements <==> ThreeWinStreak in p.achievements || EarnsThreeWinStreak(q))
      && (PredictablePlayer in q.achievements <==>
            PredictablePlayer in p.achievements || IsPredictable(m.history))
    ensures var p := GetPlayer(s, player).record;
      forall a :: a in s'[player].achievements ==>
        a in p.achievements || a == FirstWin || a == ThreeWinStreak || a == PredictablePlayer
  {
    var result := Classify(m.player, m.ai);
    var p := GetPlayer(s, player).record;
    var s2 := RecordMatch(s, player, aiName, m, rate);
    var recorded := s2[player];
    assert recorded.achievements == p.achievements;
    var s' := AwardAchievements(s2, player, result, m.history);
    var q := s'[player];
    assert q == recorded.(achievements := q.achievements);
    assert q.wins == recorded.wins && q.history == recorded.history;
    s'
  }

  /** Recording a finished match keeps a consistent store consistent: the
      counters stay in step with the history and no achievement repeats. */
  lemma FinishMatchKeepsConsistent(s: Store, player: string, aiName: string, m: Match,
                                   rate: (int, int, real) -> int)
    requires StoreConsistent(s)
    ensures StoreConsistent(FinishMatch(s, player, aiName, m, rate))
  {
    var result := Classify(m.player, m.ai);
    var p := GetPlayer(s, player).record;
    GetPlayerKeepsConsistent(s, player);
    var s2 := RecordMatch(s, player, aiName, m, rate);
    var s' := AwardAchievements(s2, player, result, m.history);
    assert FinishMatch(s, player, aiName, m, rate) == s';
    forall n | n in s'
      ensures Consistent(s'[n])
    {
      if n == player {
        AppendedRecordConsistent(p, s'[player], MatchSummary(aiName, result, m.history));
      } else {
        assert s'[n] == s[n];
      }
    }
  }

  /** The match as it stands before its first round: the selected opponent
      (already reset), the rule set and the adjusted target, no score. */
  function OpeningMatch(key: RulesetKey, choice: string, roundsAnswer: int): (m: Match)
    ensures Opponents.Valid(m.opponent) && m.history == []
    ensures m.player == 0 && m.ai == 0 && m.ties == 0
  {
    NewMatch(SelectOpponent(choice, key), key, AdjustRounds(roundsAnswer))
  }

  /** The match part of `play_match_cli`: select the opponent, make the
      target odd, reset the opponent, and play rounds from the inputs until
      the match is over or the inputs run out (`None`). A finished match has
      the adjusted odd target, the chosen opponent kind and rule set, and a
      winner. Its history replays the shortest prefix of the inputs that
      ends the match, carrying the typed moves, and its scores are the
      outcome counts of that history. `None` means no prefix ends it. */
  method PlayNewMatch(key: RulesetKey, choice: string, roundsAnswer: int, inputs: seq<(Move, nat)>)
    returns (finished: Option<Match>)
    requires roundsAnswer >= 1
    ensures finished.Some? ==> IsOver(finished.value) && Tallied(finished.value)
    ensures finished.Some? ==> finished.value.rounds == AdjustRounds(roundsAnswer)
    ensures finished.Some? ==> finished.value.rounds % 2 == 1
    ensures finished.Some? ==> finished.value.rules == key
    ensures finished.Some? ==> Name(finished.value.opponent) == Name(SelectOpponent(choice, key))
    ensures finished.Some? ==> Classify(finished.value.player, finished.value.ai) != Tie
    ensures finished.Some? ==> |finished.value.history| <= |inputs|
    ensures finished.Some? ==>
      finished.value.history == Replay(SelectOpponent(choice, key), inputs[..|finished.value.history|])
    ensures finished.Some? ==>
      forall j :: 0 <= j < |finished.value.history| ==> finished.value.history[j].0 == inputs[j].0
    ensures finished.Some? ==>
      var w := RulesetOf(key).winnerMap;
      var h := finished.value.history;
      && finished.value.player == OutcomeCount(h, w, 1)
      && finished.value.ai == OutcomeCount(h, w, -1)
      && finished.value.ties == OutcomeCount(h, w, 0)
    ensures finished.None? ==> NotOverBefore(OpeningMatch(key, choice, roundsAnswer), inputs, |inputs| + 1)
    ensures finished.Some? ==>
      && NotOverBefore(OpeningMatch(key, choice, roundsAnswer), inputs, |finished.value.history|)
      && OverAfter(OpeningMatch(key, choice, roundsAnswer), inputs, |finished.value.history|)
  {
    var chosen := SelectOpponent(choice, key);
    var rounds := AdjustRounds(roundsAnswer);
    var ai := Reset(chosen);
    ResetFixesCleared(chosen);
    var start := NewMatch(ai, key, rounds);
    assert start == OpeningMatch(key, choice, roundsAnswer);
    NewMatchSingleWinner(ai, key, rounds);
    finished := PlayMatch(start, inputs);
    if finished.Some? {
      var m := finished.value;
      FinishedMatchNotTied(m);
      PlayedFromScratch(start, m, inputs);
    }
  }

  /** `play_match_cli` with its console input supplied up front: the
      opponent choice, the answer to "Best of how many rounds?" (already
      at least 1, as `read_int` ensures) and the per-round inputs. The
      player abandons the match only when the inputs run out before any
      prefix of them ends it, and then the store is untouched; otherwise
      the finished match is the one `PlayNewMatch` describes and is
      recorded by `FinishMatch`. */
  method PlayMatchCli(s: Store, player: string, key: RulesetKey, choice: string, roundsAnswer: int,
                      inputs: seq<(Move, nat)>, rate: (int, int, real) -> int)
    returns (s': Store, finished: Option<Match>)
    requires roundsAnswer >= 1
    ensures finished.None? ==> s' == s
    ensures finished.Some? ==> IsOver(finished.value) && Tallied(finished.value)
    ensures finished.Some? ==> finished.value.rounds == AdjustRounds(roundsAnswer)
    ensures finished.Some? ==> finished.value.rules == key
    ensures finished.Some? ==> Name(finished.value.opponent) == Name(SelectOpponent(choice, key))
    ensures finished.Some? ==> Classify(finished.value.player, finished.value.ai) != Tie
    ensures finished.Some? ==> |finished.value.history| <= |inputs|
    ensures finished.Some? ==>
      finished.value.history == Replay(SelectOpponent(choice, key), inputs[..|finished.value.history|])
    ensures finished.Some? ==>
      forall j :: 0 <= j < |finished.value.history| ==> finished.value.history[j].0 == inputs[j].0
    ensures finished.Some? ==>
      var w := RulesetOf(key).winnerMap;
      var h := finished.value.history;
      && finished.value.player == OutcomeCount(h, w, 1)
      && finished.value.ai == OutcomeCount(h, w, -1)
      && finished.value.ties == OutcomeCount(h, w, 0)
    ensures finished.None? ==> NotOverBefore(OpeningMatch(key, choice, roundsAnswer), inputs, |inputs| + 1)
    ensures finished.Some? ==>
      && NotOverBefore(OpeningMatch(key, choice, roundsAnswer), inputs, |finished.value.history|)
      && OverAfter(OpeningMatch(key, choice, roundsAnswer), inputs, |finished.value.history|)
    ensures finished.Some? ==> s' == FinishMatch(s, player, Name(finished.value.opponent), finished.value, rate)
  {
    finished := PlayNewMatch(key, choice, roundsAnswer, inputs);
    if finished.Some? {
      s' := FinishMatch(s, player, Name(finished.value.opponent), finished.value, rate);
    } else {
      s' := s;
    }
  }
}

# Advanced Rock-Paper-Scissors: a Dafny model of the game core

This project models the game logic of `advanced_rps_game.py`, a console
Rock-Paper-Scissors(-Lizard-Spock) game played against adaptive computer
opponents, with per-player statistics. The console and file I/O are left out.
The model has these parts:

- `rules.dfy` (module `Rules`): the two shipped rule sets "RPS" and "RPSLS"
  and the round resolver `decide_winner`. Both shipped rule sets are proved
  well formed: the beats relation is irreflexive, asymmetric and total on
  distinct moves, and every move can be countered.
- `counters.dfy` (module `Counters`): the parts of Python's
  `collections.Counter` the opponents use. These are `c[k] += 1`,
  truthiness and `most_common(1)`. A counter keeps its keys in
  first-insertion order. `most_common(1)` is the first key of maximal count
  in that order, because CPython computes it with `max`.
- `opponents.dfy` (module `Opponents`): `RandomAI`, `FrequencyAI` and
  `MarkovAI` as one tagged datatype, with `reset`, `observe`,
  `predict_next`, `choose_move` and `choose_ai`. `random.choice(xs)` becomes
  `xs[pick % |xs|]`, where the caller supplies the draw `pick`. The model
  proves that the candidate list is non-empty and legal, and that every
  candidate is reached by some draw. It also proves that, starting from a
  reset state, the opponents' counters are exactly the counts of the
  player's move history and of its adjacent move pairs.
- `matches.dfy` (module `Matches`): the `Match` state machine
  (`play_round`, `is_over`). It also has the round loop of `play_match_cli`,
  driven by a finite list of inputs, each a typed move and a draw. Running
  out of inputs stands for the player quitting. `Replay` is a reference
  definition of the rounds a list of inputs produces, and `OutcomeCount`
  counts the rounds `decide_winner` resolves to a given outcome. The loop
  is proved to play exactly the replayed rounds, to keep the scores equal
  to their outcome counts, and to stop at the first input whose replay
  ends the match (`OverAfter`); it abandons the match only when no prefix
  of the inputs ends it.
- `stats.dfy` (module `Stats`): `StatsManager`'s `get_player`,
  `update_match`, `update_rating` and `add_achievement` over a
  `map<string, Record>`.
- `match_end.dfy` (module `MatchEnd`): the rest of `play_match_cli`. That is
  opponent selection with its fallback, the odd-rounds adjustment, the result
  classification, the opponent-rating lookup, recording the match and the
  three achievement checks. `PlayMatchCli` puts all of it together.
- `wrappers.dfy` (module `Wrappers`): `Option` and `Result`.

Points where the code's own behaviour is easy to misread:

- `decide_winner` does not reject a move outside the rule set. It looks the
  first move up with `winner_map.get(move_a, set())`, so an unknown first
  move loses to any different move. `DecideWinner` does the same.
- `MarkovAI.predict_next` consults the transition table only under
  `if self.prev`, which is false for the empty string as well as for
  `None`. `PredictNext` keeps that truthiness test, and `Candidates` keeps
  the `if predicted` test of `choose_move`.
- A new record's rating is the integer 1200, and `update_rating` stores
  the rounded result. Ratings are `int` here.
- `Match.play_round` does not check `is_over`, so `PlayRound` has no such
  precondition. Only the loop in `PlayMatch` stops at `is_over`.

Python integers are unbounded, so the model's `int`/`nat` are faithful
without any wrap-around. Python's `//` rounds down. Dafny's `/` by the
positive divisor 2 gives the same result, also for negative targets.

## Model

| member | source | states |
|---|---|---|
| Rules.DecideWinner | advanced_rps_game.py:57-62 | The outcome is one of 1, 0, -1. It is 0 exactly when the moves are equal, and 1 exactly when the moves differ and the first beats the second; a move missing from the map never wins. |
| Rules.SelfIsTie | advanced_rps_game.py:57-59 | Any move against itself is a tie under any map. |
| Rules.DecideWinnerExamples | advanced_rps_game.py:430-435 | The self-test holds: rock vs scissors gives 1, rock vs paper gives -1, paper vs paper gives 0. |
| Rules.DecideWinnerAntisymmetric | advanced_rps_game.py:57-62 | In a well-formed rule set, two different legal moves never tie, and swapping the players negates the outcome. |
| Rules.RpsBeats | advanced_rps_game.py:36-43 | The RPS beats relation is exactly rock>scissors, paper>rock, scissors>paper. |
| Rules.RpslsBeats | advanced_rps_game.py:44-53 | The RPSLS beats relation is exactly the ten listed pairs. |
| Rules.RpsWellFormed | advanced_rps_game.py:36-43 | RPS has distinct moves and map keys equal to its moves. Its relation is irreflexive, asymmetric and total on distinct moves, and every move is beaten by some move. |
| Rules.RpslsWellFormed | advanced_rps_game.py:44-53 | The same facts hold for RPSLS. |
| Rules.ShippedRulesetsWellFormed | advanced_rps_game.py:35-54 | Both entries of the rule-set table are well formed. |
| Rules.ShippedMovesBeatable | advanced_rps_game.py:35-54 | In both shipped rule sets every legal move has a legal counter-move. |
| Counters.Empty | advanced_rps_game.py:146-147 | A fresh counter is valid and reads zero for every key. |
| Counters.Incr | advanced_rps_game.py:150 | `c[k] += 1` adds exactly one to `k` and leaves all other counts alone. A new key goes to the end of the insertion order, and validity is kept. |
| Counters.EmptyIffAllZero | advanced_rps_game.py:153 | A valid counter is falsy exactly when every count is zero. |
| Counters.FirstMax | advanced_rps_game.py:155 | The scan picks a key whose count is at least every other count and strictly above every earlier key's count, so ties go to the earliest key. |
| Counters.MostCommon | advanced_rps_game.py:183-186 | `most_common(1)` returns a counted key of maximal count, the first such key in insertion order. |
| Counters.MostCommonUnique | advanced_rps_game.py:155 | A key whose count is strictly above all others is the most common one. |
| Opponents.Reset | advanced_rps_game.py:170-173 | `reset` keeps the strategy and rule set and clears all adaptive state. |
| Opponents.ResetFixesCleared | advanced_rps_game.py:121-173 | `reset()` leaves an opponent unchanged exactly when its adaptive state is already cleared, so resetting a freshly chosen opponent changes nothing. |
| Opponents.ChooseAi | advanced_rps_game.py:254-262 | Exactly "random", "freq" and "markov" give a fresh opponent of the matching kind on the given rule set. Any other key is the "Unknown AI key" error. |
| Opponents.Observe | advanced_rps_game.py:175-179 | `observe` keeps every opponent state valid and keeps strategy and rule set. The random opponent is unchanged, and the Markov opponent's previous move becomes the player's move. |
| Opponents.FrequencyObserveCounts | advanced_rps_game.py:149-150 | The frequency opponent's `observe` adds exactly one to the player's move and nothing to any other move. |
| Opponents.MarkovObserveCounts | advanced_rps_game.py:175-179 | The Markov `observe` sets prev to the move and adds one to its overall count. It adds one to transition[prev][move] only when a previous move existed, and no other transition count changes. |
| Opponents.PredictNext | advanced_rps_game.py:181-187 | The prediction is None exactly when nothing has been counted, and it is always a move the player made. With a truthy previous move that has successors, it is a most frequent successor; otherwise it is a most frequent move overall. |
| Opponents.CounterMoves | advanced_rps_game.py:156 | The counter list contains exactly the rule-set moves that beat the prediction. |
| Opponents.CountersOrAll | advanced_rps_game.py:156-159 | The list drawn from is non-empty and legal. When some legal move beats the prediction, it holds exactly the legal moves that beat it; otherwise it is the whole move list of the rule set. |
| Opponents.Candidates | advanced_rps_game.py:136-195 | The list handed to `random.choice` is non-empty and legal. It is the whole move list of the rule set for the random opponent, for a frequency opponent with nothing counted and for a Markov opponent without a truthy prediction. Otherwise it is `CountersOrAll` of the prediction: the most common move for the frequency opponent, `predict_next` for the Markov opponent. |
| Opponents.Pick | advanced_rps_game.py:137 | A random draw returns an element of the list. |
| Opponents.PickCoversAll | advanced_rps_game.py:137 | Every element of the list is returned by some draw. |
| Opponents.ChooseMove | advanced_rps_game.py:189-195 | `choose_move` returns a candidate, and that candidate is a legal move of the opponent's rule set. |
| Opponents.EveryCandidateChosen | advanced_rps_game.py:189-195 | The set of possible `choose_move` results over all draws is exactly the candidate list. |
| Opponents.CountersOrAllBeat | advanced_rps_game.py:156-158 | Against a legal prediction in a shipped rule set, every drawn move beats the prediction. |
| Opponents.FrequencyCountersMostFrequent | advanced_rps_game.py:152-159 | With non-empty counts of legal moves, the frequency opponent's move beats a move of maximal count. |
| Opponents.OnlyPaperBeatsRock | advanced_rps_game.py:36-43 | In RPS the counter list for "rock" is exactly ["paper"]. |
| Opponents.ThreeRocksObserved | advanced_rps_game.py:149-150 | Observing rock three times from a fresh counter leaves the single count rock: 3. |
| Opponents.PaperAgainstRocks | advanced_rps_game.py:152-159 | With rock as the only counted move, every draw gives "paper". |
| Opponents.FrequencyAfterThreeRocks | advanced_rps_game.py:149-159 | After the player plays rock, rock, rock, the RPS frequency opponent plays "paper" whatever the draw. |
| Opponents.MarkovChoosesLegal | advanced_rps_game.py:189-195 | The Markov opponent only ever plays a move of its rule set. |
| Opponents.ObserveAll | advanced_rps_game.py:242 | Observing a sequence of rounds keeps the state valid and keeps strategy and rule set. |
| Opponents.FrequencyTracksHistory | advanced_rps_game.py:146-150 | After a reset, the frequency count of each move equals its number of occurrences in the player's history. |
| Opponents.MarkovTracksMoves | advanced_rps_game.py:170-179 | After a reset, prev is the player's last move (None for no rounds), and each overall count equals that move's number of occurrences. |
| Opponents.MarkovTracksTransitions | advanced_rps_game.py:170-177 | After a reset, transition[a][b] equals how often the player played b directly after a. |
| Opponents.MarkovPredictsOnceObserved | advanced_rps_game.py:181-187 | After a reset, `predict_next` returns None exactly when no round has been observed. |
| Opponents.FrequencyCountersHistory | advanced_rps_game.py:149-159 | After a reset and a non-empty history of legal moves, the frequency opponent answers with a move that beats a move the player made most often. |
| Opponents.MarkovPredictionFromHistory | advanced_rps_game.py:175-187 | After a reset and a non-empty history, the Markov prediction exists. If the last move is truthy and was ever followed by something, it is a most frequent successor of that move; otherwise it is a move the player made most often. |
| Opponents.MarkovCountersPrediction | advanced_rps_game.py:189-195 | When the Markov prediction is a truthy legal move, `choose_move` plays a move that beats it, whatever the draw. |
| Opponents.MarkovCountersHistory | advanced_rps_game.py:175-195 | After a reset and a non-empty history of legal moves, the Markov opponent predicts a move the player made and plays a move that beats it, whatever the draw. |
| Matches.NewMatch | advanced_rps_game.py:221-227 | A new match has zero scores and an empty history, so its tally holds. |
| Matches.PlayRound | advanced_rps_game.py:229-243 | The opponent's move is a legal candidate, and the outcome is `decide_winner` of the two moves. Exactly one score rises by one, matching the outcome's sign. One (player, opponent) pair is appended and the opponent observes it. The tally player+ai+ties = number of rounds is kept. |
| Matches.IsOverIffMajority | advanced_rps_game.py:245-247 | `is_over` holds exactly when one side has won more than half of the best-of target. |
| Matches.TiedRoundKeepsStatus | advanced_rps_game.py:238-247 | A tied round does not change whether the match is over. |
| Matches.BestOfThreeEndsAfterTwoWins | advanced_rps_game.py:232-247 | In a best-of-3 match with no opponent wins, a player round win at 0-0 makes it 1-0 and leaves the match running. One at 1-0 makes it 2-0 and ends it. |
| Matches.NewMatchSingleWinner | advanced_rps_game.py:226-247 | A new match with a non-negative target is not over and has no side at the threshold. |
| Matches.OutcomeCountSnoc | advanced_rps_game.py:231-240 | One more round adds one to exactly the outcome count `decide_winner` gives it. |
| Matches.OutcomeCountsTotal | advanced_rps_game.py:232-240 | Every round is a player win, an opponent win or a tie, so the three outcome counts add up to the number of rounds. |
| Matches.ScoredSinceStep | advanced_rps_game.py:231-241 | A round scored by `decide_winner` keeps each score equal to its start value plus the outcome count of the rounds played since. |
| Matches.Replay | advanced_rps_game.py:303-306 | Replaying a list of inputs produces one round per input. |
| Matches.ReplayStep | advanced_rps_game.py:303-306 | Replaying one more input appends the typed move paired with the opponent's `choose_move` after observing the earlier rounds. |
| Matches.KeptFromStep | advanced_rps_game.py:229-247 | A round played while the match is not over keeps rule set, target, earlier history, tally and at most one side at the threshold. |
| Matches.ReplayedFromStep | advanced_rps_game.py:229-243 | Playing the next input keeps the rounds equal to the replay of the inputs so far, observed by the opponent and in step with the scores. |
| Matches.TypedFromStep | advanced_rps_game.py:305-306 | Playing the next input keeps every round's player move equal to the move typed for it. |
| Matches.PlayStep | advanced_rps_game.py:303-306 | One pass of the loop, `play_round` with the next input on a match that is not over, keeps the loop state: rule set, target and tally kept, rounds equal to the replay of the inputs so far with their typed moves, and no shorter replay over. |
| Matches.PlayedFromScratch | advanced_rps_game.py:300-316 | For a loop started from a new match, the history is the replay of the first inputs and carries the typed moves, the opponent has observed exactly the history, and each score is the outcome count of the history. |
| Matches.OverAfterIffIsOver | advanced_rps_game.py:245-247 | A match that has played the first i inputs is over exactly when replaying those inputs from the start ends it, so `is_over` can be read off the replay. |
| Matches.NotOverBeforeStep | advanced_rps_game.py:303-306 | Playing on from a match that is not over keeps every replay up to the inputs played short of the end. |
| Matches.LoopExit | advanced_rps_game.py:303-316 | Where the loop stops, either the match is finished after exactly the inputs played, or no prefix of the inputs ends it. |
| Matches.PlayMatch | advanced_rps_game.py:302-316 | A finished match (`FinishedFrom`) is over, keeps the start's rule set, target, history and tally, and its k new rounds are exactly the first k inputs replayed (`Replay`), carrying the typed moves, observed by the opponent, with each score raised by the number of those rounds `decide_winner` gives that outcome. Replaying k inputs ends the match and no shorter replay does, so the loop stops at the first `is_over`. `None` (the player quit) happens only when no prefix of the inputs, the whole list included, ends the match. From a start without a winner exactly one side wins. |
| Stats.GetPlayer | advanced_rps_game.py:72-83 | An existing record is returned and the store is unchanged. An unknown name gets the default record (zeros, rating 1200, empty lists), and every other record stays. |
| Stats.GetPlayerIdempotent | advanced_rps_game.py:72-83 | A second lookup of the same name changes nothing. |
| Stats.GetPlayerKeepsConsistent | advanced_rps_game.py:73-82 | Creating a default record keeps every record's counters in step with its history. |
| Stats.UpdateMatch | advanced_rps_game.py:85-94 | Only the counter matching the result rises by one, and total_games rises by one. One history entry is appended. Rating, achievements and every other player's record are unchanged. |
| Stats.UpdateMatchKeepsConsistent | advanced_rps_game.py:85-94 | For any result string, wins, losses and ties stay equal to the counts of those results in the history, and total_games stays equal to its length. |
| Stats.AppendedRecordConsistent | advanced_rps_game.py:85-94 | Appending one match to a consistent record while moving the counters by its result, with no repeated achievement, gives a consistent record. |
| Stats.UpdateRating | advanced_rps_game.py:97-102 | Only the player's rating changes, to the value the rating rule gives for the current rating, the opponent rating and the result value. |
| Stats.AddAchievement | advanced_rps_game.py:105-108 | Afterwards the player has the achievement and the set of achievements is the old one plus it. The list grows by at most one, and nothing else changes. |
| Stats.AddAchievementIdempotent | advanced_rps_game.py:105-108 | Awarding the same achievement twice equals awarding it once. |
| Stats.AddAchievementKeepsConsistent | advanced_rps_game.py:105-108 | Awarding never creates a duplicate achievement. |
| MatchEnd.SelectOpponent | advanced_rps_game.py:286-291 | An empty answer selects the Markov opponent, "freq" the frequency one, "random" the random one, and anything else falls back to the random one. The result is always reset and on the chosen rule set. |
| MatchEnd.AdjustRounds | advanced_rps_game.py:293-295 | The adjusted target is odd, is the answer or one more, is unchanged for an odd answer, and is at least 1 for every accepted answer. |
| MatchEnd.Classify | advanced_rps_game.py:319-332 | The result is "win", "loss" or "tie" exactly as the player's score is above, below or equal to the opponent's. |
| MatchEnd.ResultValue | advanced_rps_game.py:321-332 | The result value is 1.0, 0.0 or 0.5 exactly for a win, a loss or a tie. |
| MatchEnd.FinishedMatchNotTied | advanced_rps_game.py:319-332 | A match that ended through `is_over` with a single winner is never classified a tie. |
| MatchEnd.OpponentRating | advanced_rps_game.py:334 | The opponent's rating is its stored rating when it has a record, otherwise 1200. |
| MatchEnd.AwardIf | advanced_rps_game.py:339-351 | An achievement is added exactly when it is earned. Nothing but the player's achievements changes, and no duplicates arise. |
| MatchEnd.RecordMatch | advanced_rps_game.py:334-336 | Recording a match changes only the player's record. It gains the history entry, one game and the counter for the classified result, and its rating comes from the rating read before recording. |
| MatchEnd.AwardAchievements | advanced_rps_game.py:338-351 | Each of the three achievements is held afterwards exactly when it was held before or its condition holds on the recorded player. Nothing else about any record changes, and no duplicate is introduced. |
| MatchEnd.PredictableFromInputs | advanced_rps_game.py:348-349 | For rounds that carry the typed moves, the "Predictable Player" condition holds exactly when at least three moves were typed and each equals the first. |
| MatchEnd.FinishMatch | advanced_rps_game.py:318-351 | The player's record gains one history entry for the classified result and one game, and exactly the matching counter rises. The rating is updated from the pre-match opponent rating. "First Win", "Three win streak" and "Predictable Player" are held exactly when held before or earned: only win with wins = 1; last three results wins; at least 3 rounds, every human move equal to the first. No other achievement appears and no other player changes. |
| MatchEnd.FinishMatchKeepsConsistent | advanced_rps_game.py:335-351 | Recording a match keeps every record's counters in step with its history and its achievements free of duplicates. |
| MatchEnd.PlayNewMatch | advanced_rps_game.py:286-316 | The selected opponent is reset before the match starts. A finished match has the adjusted odd target, the chosen rule set, the selected opponent kind, a winner and a kept tally. Its history is the replay of the first inputs against the selected opponent and carries the typed moves, each score is the outcome count of the history, and the history is as long as the shortest prefix of the inputs whose replay ends the match. The match is abandoned only when no prefix of the inputs ends it. |
| MatchEnd.PlayMatchCli | advanced_rps_game.py:283-351 | The match is abandoned, leaving the store untouched, only when no prefix of the inputs ends it; otherwise it stops at the first input that ends it and is recorded. A finished match is on the chosen rule set with the adjusted target and the selected opponent kind, has a winner (never a tie) and a kept tally. Its history is the replay of the first inputs and carries the typed moves, and each score is the number of its rounds `decide_winner` gives that outcome, so the recorded result follows the rounds played. The store is updated exactly as `FinishMatch` describes for that match. |

## Left out

- Stats.UpdateRating: the logistic rating formula is not modelled. It uses a
  real-valued power `10 ** (x / 400)` and Python's `round`. The new rating
  comes from a function parameter `rate`, and the contract states only
  that the rating field alone changes, to that value.
- MatchEnd.FinishMatch: the rating step inherits the abstraction above
  through its `rate` parameter.
- `save_json`, `load_json`, `StatsManager.__init__` and `StatsManager.save`
  are left out. They are file I/O. The store is a value, and every
  `save()` call is dropped.
- The probability distribution of `random.choice` is left out. Only which
  moves can be drawn is modelled, through the caller-supplied draw `pick`.
- `HumanPlayer.choose_move`, `read_int`, `show_stats`, `main_menu` and the
  printing in `play_match_cli` are left out. They are console input and
  output. The player's moves and draws arrive as a list, and quitting is
  the list running out. The rounds answer is taken as already at least 1,
  which `read_int(..., min_val=1)` guarantees.
- Menu option 5 (resetting a player's statistics) is left out. It belongs to
  the menu, not to the core.
- The AI-vs-AI demo in `main_menu` is left out. It is a printout loop built
  from the modelled `decide_winner`, `choose_move` and `observe`.
- `Match.result_summary` is left out. It only formats a string.
- `clamp` is left out. Nothing calls it.
- `Match.player_name` is left out. No game logic reads it.
- `choose_ai` lower-cases its key, and `play_match_cli` strips and
  lower-cases the typed answer. Case folding is not modelled. `ChooseAi` and
  `SelectOpponent` take the already normalised string.
- In `MarkovAI.predict_next`, indexing a `defaultdict` inserts an empty row
  for `prev`. That row is never observable: it is empty and falsy. The model
  reads an absent row as empty instead.
- `RULESETS[key]` raises for an unknown key. The model's `RulesetKey`
  datatype has exactly the two shipped keys, so the lookup is total.
- rps_gui.py is not part of this model. It is a tkinter front end that
  calls `Match.play_round` and `Match.is_over`.

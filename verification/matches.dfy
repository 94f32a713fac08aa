/** The best-of-N match: `Match.play_round` and `Match.is_over`
    (advanced_rps_game.py, lines 220-247), and the round loop of
    `play_match_cli` (lines 302-316) driven by a finite list of inputs. */
module Matches {
  import opened Wrappers
  import opened Rules
  import opened Opponents

  /** A match: the rule set it resolves rounds with, the best-of target, the
      three scores (`scores["player"]`, `scores["ai"]`, `scores["ties"]`),
      the rounds played so far and the opponent it owns. */
  datatype Match = Match(rules: RulesetKey, rounds: int, player: nat, ai: nat, ties: nat,
                         history: seq<Round>, opponent: Opponent)

  /** What `play_round` returns, together with the match it leaves behind. */
  datatype RoundOutcome = RoundOutcome(next: Match, res: int, aiMove: Move)

  /** Every round counted in exactly one score. */
  predicate Tallied(m: Match)
  {
    m.player + m.ai + m.ties == |m.history|
  }

  /** The number of round wins that ends the match: `rounds // 2 + 1`.
      Python's `//` rounds down; Dafny's `/` by a positive divisor agrees. */
  function Needed(rounds: int): int
  {
    rounds / 2 + 1
  }

  /** `Match(player_name, ai, ruleset_keys, rounds)`. */
  function NewMatch(opponent: Opponent, rules: RulesetKey, rounds: int): (m: Match)
    ensures Tallied(m) && m.history == []
    ensures m.player == 0 && m.ai == 0 && m.ties == 0
    ensures m.opponent == opponent && m.rules == rules && m.rounds == rounds
  {
    Match(rules, rounds, 0, 0, 0, [], opponent)
  }

  /** `is_over()`. */
  predicate IsOver(m: Match)
  {
    m.player >= Needed(m.rounds) || m.ai >= Needed(m.rounds)
  }

  /** `play_round(player_move)`: the opponent picks a move (`pick` is its
      random draw), the round is resolved, exactly the score that matches
      the outcome goes up by one, the round is appended to the history and
      the opponent observes it. */
  function PlayRound(m: Match, playerMove: Move, pick: nat): (r: RoundOutcome)
    requires Opponents.Valid(m.opponent)
    ensures r.aiMove == ChooseMove(m.opponent, pick)
    ensures r.aiMove in Candidates(m.opponent)
    ensures r.aiMove in RulesetOf(m.opponent.rules).moves
    ensures r.res == DecideWinner(playerMove, r.aiMove, RulesetOf(m.rules).winnerMap)
    ensures r.res == 1 ==> r.next.player == m.player + 1 && r.next.ai == m.ai && r.next.ties == m.ties
    ensures r.res == -1 ==> r.next.player == m.player && r.next.ai == m.ai + 1 && r.next.ties == m.ties
    ensures r.res == 0 ==> r.next.player == m.player && r.next.ai == m.ai && r.next.ties == m.ties + 1
    ensures r.next.history == m.history + [(playerMove, r.aiMove)]
    ensures r.next.opponent == Observe(m.opponent, playerMove, r.aiMove)
    ensures r.next.rules == m.rules && r.next.rounds == m.rounds
    ensures Opponents.Valid(r.next.opponent)
    ensures Tallied(m) ==> Tallied(r.next)
  {
    var aiMove := ChooseMove(m.opponent, pick);
    var res := DecideWinner(playerMove, aiMove, RulesetOf(m.rules).winnerMap);
    var m' :=
      if res == 1 then m.(player := m.player + 1)
      else if res == -1 then m.(ai := m.ai + 1)
      else m.(ties := m.ties + 1);
    RoundOutcome(m'.(history := m.history + [(playerMove, aiMove)],
                     opponent := Observe(m.opponent, playerMove, aiMove)),
                 res, aiMove)
  }

  /** The match is over exactly when one side has won more than half of the
      best-of target. */
  lemma IsOverIffMajority(m: Match)
    ensures IsOver(m) <==> 2 * m.player > m.rounds || 2 * m.ai > m.rounds
  {
  }

  /** A tied round never moves the match toward its end. */
  lemma TiedRoundKeepsStatus(m: Match, playerMove: Move, pick: nat)
    requires Opponents.Valid(m.opponent)
    ensures var r := PlayRound(m, playerMove, pick);
      r.res == 0 ==> IsOver(r.next) == IsOver(m)
  {
  }

  /** In a best-of-3 match the player wins 2-0 after two round wins: a
      round win at 0-0 leaves the match running, one at 1-0 ends it. */
  lemma BestOfThreeEndsAfterTwoWins(m: Match, playerMove: Move, pick: nat)
    requires Opponents.Valid(m.opponent)
    requires m.rounds == 3 && m.ai == 0 && m.player <= 1
    ensures var r := PlayRound(m, playerMove, pick);
      r.res == 1 ==>
        r.next.player == m.player + 1 && r.next.ai == 0 && (IsOver(r.next) <==> m.player == 1)
  {
  }

  /** At most one side has reached the winning threshold. */
  predicate SingleWinner(m: Match)
  {
    !(m.player >= Needed(m.rounds) && m.ai >= Needed(m.rounds))
  }

  /** A new match with a non-negative target has no winner yet. */
  lemma NewMatchSingleWinner(opponent: Opponent, rules: RulesetKey, rounds: int)
    requires rounds >= 0
    ensures SingleWinner(NewMatch(opponent, rules, rounds))
    ensures !IsOver(NewMatch(opponent, rules, rounds))
  {
  }

  /** How many of `rounds` `decide_winner` resolves to `res`: the scores a
      match should show for its history, counted independently of
      `play_round`. */
  function OutcomeCount(rounds: seq<Round>, winnerMap: map<Move, set<Move>>, res: int): nat
  {
    if rounds == [] then 0
    else
      var last := rounds[|rounds| - 1];
      OutcomeCount(rounds[..|rounds| - 1], winnerMap, res)
        + (if DecideWinner(last.0, last.1, winnerMap) == res then 1 else 0)
  }

  /** Counting one more round adds one to exactly the outcome it resolves to. */
  lemma OutcomeCountSnoc(rounds: seq<Round>, winnerMap: map<Move, set<Move>>, round: Round)
    ensures forall res ::
      OutcomeCount(rounds + [round], winnerMap, res)
        == OutcomeCount(rounds, winnerMap, res)
           + (if DecideWinner(round.0, round.1, winnerMap) == res then 1 else 0)
  {
    assert (rounds + [round])[..|rounds|] == rounds;
  }

  /** Every round is a win, a loss or a tie, so the three outcome counts
      add up to the number of rounds. */
  lemma {:induction false} OutcomeCountsTotal(rounds: seq<Round>, winnerMap: map<Move, set<Move>>)
    ensures OutcomeCount(rounds, winnerMap, 1) + OutcomeCount(rounds, winnerMap, -1)
          + OutcomeCount(rounds, winnerMap, 0) == |rounds|
  {
    if rounds != [] {
      OutcomeCountsTotal(rounds[..|rounds| - 1], winnerMap);
    }
  }

  /** The scores of `m` are those of `start` plus the outcome counts of the
      rounds `m` played since `start`. */
  predicate ScoredSince(start: Match, m: Match)
  {
    && |start.history| <= |m.history|
    && var played := m.history[|start.history|..];
       var w := RulesetOf(start.rules).winnerMap;
       && m.player == start.player + OutcomeCount(played, w, 1)
       && m.ai == start.ai + OutcomeCount(played, w, -1)
       && m.ties == start.ties + OutcomeCount(played, w, 0)
  }

  /** One more round, scored by `decide_winner`, keeps the scores in step
      with the rounds played. */
  lemma ScoredSinceStep(start: Match, m: Match, next: Match, round: Round)
    requires ScoredSince(start, m)
    requires next.history == m.history + [round]
    requires var res := DecideWinner(round.0, round.1, RulesetOf(start.rules).winnerMap);
      && next.player == m.player + (if res == 1 then 1 else 0)
      && next.ai == m.ai + (if res == -1 then 1 else 0)
      && next.ties == m.ties + (if res == 0 then 1 else 0)
    ensures ScoredSince(start, next)
  {
    var played := m.history[|start.history|..];
    assert next.history[|start.history|..] == played + [round];
    OutcomeCountSnoc(played, RulesetOf(start.rules).winnerMap, round);
  }

  /** The rounds a sequence of inputs produces against opponent state `o`,
      in order: each round pairs the typed move with the opponent's
      `choose_move` for that input's draw, made after observing the rounds
      before it. */
  function Replay(o: Opponent, inputs: seq<(Move, nat)>): (rounds: seq<Round>)
    requires Opponents.Valid(o)
    ensures |rounds| == |inputs|
  {
    if inputs == [] then []
    else
      var prior := Replay(o, inputs[..|inputs| - 1]);
      var last := inputs[|inputs| - 1];
      prior + [(last.0, ChooseMove(ObserveAll(o, prior), last.1))]
  }

  /** Replaying one more input appends the round it produces. */
  lemma ReplayStep(o: Opponent, inputs: seq<(Move, nat)>, i: nat)
    requires Opponents.Valid(o)
    requires i < |inputs|
    ensures var prior := Replay(o, inputs[..i]);
      Replay(o, inputs[..i + 1]) == prior + [(inputs[i].0, ChooseMove(ObserveAll(o, prior), inputs[i].1))]
  {
    assert inputs[..i + 1][..i] == inputs[..i];
  }

  /** What a round never changes about a match that started at `start`:
      rule set, target and the start's history, a valid opponent, the
      tally, and at most one side at the threshold. */
  predicate KeptFrom(start: Match, m: Match)
  {
    && Opponents.Valid(m.opponent)
    && m.rules == start.rules && m.rounds == start.rounds
    && |start.history| <= |m.history|
    && m.history[..|start.history|] == start.history
    && (Tallied(start) ==> Tallied(m))
    && (SingleWinner(start) ==> SingleWinner(m))
  }

  /** The rounds `m` played since `start` are the first `i` inputs
      replayed; the opponent has observed exactly them and the scores are
      in step with them. */
  ghost predicate ReplayedFrom(start: Match, m: Match, inputs: seq<(Move, nat)>, i: nat)
    requires Opponents.Valid(start.opponent)
  {
    && i <= |inputs|
    && |m.history| == |start.history| + i
    && m.opponent == ObserveAll(start.opponent, m.history[|start.history|..])
    && m.history[|start.history|..] == Replay(start.opponent, inputs[..i])
    && ScoredSince(start, m)
  }

  /** The player's move in each round `m` played since `start` is the move
      typed in the matching input. */
  predicate TypedFrom(start: Match, m: Match, inputs: seq<(Move, nat)>)
  {
    && |start.history| <= |m.history| <= |start.history| + |inputs|
    && forall j :: 0 <= j < |m.history| - |start.history| ==>
         m.history[|start.history| + j].0 == inputs[j].0
  }

  /** The effect of one round on a match, as `PlayRound` describes it: the
      typed move meets `aiMove`, exactly the score matching the outcome goes
      up, the round is appended and the opponent observes it. */
  predicate RoundEffect(m: Match, next: Match, playerMove: Move, aiMove: Move)
  {
    var res := DecideWinner(playerMove, aiMove, RulesetOf(m.rules).winnerMap);
    && Opponents.Valid(m.opponent)
    && next.rules == m.rules && next.rounds == m.rounds
    && next.player == m.player + (if res == 1 then 1 else 0)
    && next.ai == m.ai + (if res == -1 then 1 else 0)
    && next.ties == m.ties + (if res == 0 then 1 else 0)
    && next.history == m.history + [(playerMove, aiMove)]
    && next.opponent == Observe(m.opponent, playerMove, aiMove)
  }

  /** A round played while the match is not over keeps `KeptFrom`. */
  lemma KeptFromStep(start: Match, m: Match, next: Match, playerMove: Move, aiMove: Move)
    requires KeptFrom(start, m) && !IsOver(m)
    requires RoundEffect(m, next, playerMove, aiMove)
    ensures KeptFrom(start, next)
  {
    assert next.history[..|start.history|] == m.history[..|start.history|];
  }

  /** Playing the next input keeps `ReplayedFrom`. */
  lemma ReplayedFromStep(start: Match, m: Match, next: Match, aiMove: Move,
                         inputs: seq<(Move, nat)>, i: nat)
    requires Opponents.Valid(start.opponent)
    requires KeptFrom(start, m) && ReplayedFrom(start, m, inputs, i) && i < |inputs|
    requires aiMove == ChooseMove(m.opponent, inputs[i].1)
    requires RoundEffect(m, next, inputs[i].0, aiMove)
    ensures ReplayedFrom(start, next, inputs, i + 1)
  {
    var played := m.history[|start.history|..];
    var round := (inputs[i].0, aiMove);
    assert next.history[|start.history|..] == played + [round];
    ObserveAllStep(start.opponent, |start.history|, m.history, round);
    ReplayStep(start.opponent, inputs, i);
    ScoredSinceStep(start, m, next, round);
  }

  /** Playing the next input keeps `TypedFrom`. */
  lemma TypedFromStep(start: Match, m: Match, next: Match, aiMove: Move,
                      inputs: seq<(Move, nat)>, i: nat)
    requires TypedFrom(start, m, inputs) && |m.history| == |start.history| + i && i < |inputs|
    requires RoundEffect(m, next, inputs[i].0, aiMove)
    ensures TypedFrom(start, next, inputs)
  {
  }

  /** For rounds played from a new match, the loop's facts speak about the
      whole history: it is the replay of the first inputs, it carries the
      typed moves, and the scores are exactly its outcome counts. */
  lemma PlayedFromScratch(start: Match, m: Match, inputs: seq<(Move, nat)>)
    requires Opponents.Valid(start.opponent)
    requires start.history == [] && start.player == 0 && start.ai == 0 && start.ties == 0
    requires KeptFrom(start, m) && TypedFrom(start, m, inputs)
    requires ReplayedFrom(start, m, inputs, |m.history|)
    ensures m.rules == start.rules && m.rounds == start.rounds && Tallied(m)
    ensures |m.history| <= |inputs|
    ensures m.history == Replay(start.opponent, inputs[..|m.history|])
    ensures m.opponent == ObserveAll(start.opponent, m.history)
    ensures forall j :: 0 <= j < |m.history| ==> m.history[j].0 == inputs[j].0
    ensures var w := RulesetOf(start.rules).winnerMap;
      && m.player == OutcomeCount(m.history, w, 1)
      && m.ai == OutcomeCount(m.history, w, -1)
      && m.ties == OutcomeCount(m.history, w, 0)
  {
    assert m.history[0..] == m.history;
    assert forall j :: 0 <= j < |m.history| ==> m.history[0 + j] == m.history[j];
  }

  /** Replaying the first `k` inputs from `start` ends the match: the
      scores `start` would reach, counted by `decide_winner` over the
      replayed rounds, put one side at the threshold of `is_over`. */
  ghost predicate OverAfter(start: Match, inputs: seq<(Move, nat)>, k: nat)
    requires Opponents.Valid(start.opponent) && k <= |inputs|
  {
    var played := Replay(start.opponent, inputs[..k]);
    var w := RulesetOf(start.rules).winnerMap;
    || start.player + OutcomeCount(played, w, 1) >= Needed(start.rounds)
    || start.ai + OutcomeCount(played, w, -1) >= Needed(start.rounds)
  }

  /** No replay of fewer than `n` inputs ends the match. */
  ghost predicate NotOverBefore(start: Match, inputs: seq<(Move, nat)>, n: nat)
    requires Opponents.Valid(start.opponent) && n <= |inputs| + 1
  {
    forall k :: 0 <= k < n ==> !OverAfter(start, inputs, k)
  }

  /** A match that has played the first `i` inputs is over exactly when
      replaying them ends it. */
  lemma OverAfterIffIsOver(start: Match, m: Match, inputs: seq<(Move, nat)>, i: nat)
    requires Opponents.Valid(start.opponent)
    requires KeptFrom(start, m) && ReplayedFrom(start, m, inputs, i)
    ensures IsOver(m) <==> OverAfter(start, inputs, i)
  {
  }

  /** Playing on from a match that is not over keeps every shorter replay
      short of the end. */
  lemma NotOverBeforeStep(start: Match, m: Match, inputs: seq<(Move, nat)>, i: nat)
    requires Opponents.Valid(start.opponent)
    requires KeptFrom(start, m) && ReplayedFrom(start, m, inputs, i)
    requires NotOverBefore(start, inputs, i) && !IsOver(m)
    ensures NotOverBefore(start, inputs, i + 1)
  {
    OverAfterIffIsOver(start, m, inputs, i);
  }

  /** What the round loop keeps after `i` inputs: `KeptFrom`, the rounds
      are the first `i` inputs replayed (`ReplayedFrom`) with their typed
      moves (`TypedFrom`), and no shorter replay ended the match. */
  ghost predicate LoopState(start: Match, m: Match, inputs: seq<(Move, nat)>, i: nat)
    requires Opponents.Valid(start.opponent)
  {
    && KeptFrom(start, m) && ReplayedFrom(start, m, inputs, i) && TypedFrom(start, m, inputs)
    && NotOverBefore(start, inputs, i)
  }

  /** A match the loop finished from `start`: it is over, keeps what
      `KeptFrom` keeps, its `k` new rounds are the first `k` inputs replayed
      with their typed moves, replaying `k` inputs ends the match and no
      shorter replay does, and from a start without a winner exactly one
      side has won. */
  ghost predicate FinishedFrom(start: Match, m: Match, inputs: seq<(Move, nat)>)
    requires Opponents.Valid(start.opponent)
  {
    && IsOver(m) && KeptFrom(start, m) && TypedFrom(start, m, inputs)
    && var k := |m.history| - |start.history|;
       && ReplayedFrom(start, m, inputs, k)
       && NotOverBefore(start, inputs, k) && OverAfter(start, inputs, k)
       && (SingleWinner(start) ==> m.player != m.ai)
  }

  /** One pass of the round loop: `play_round` with the next input, which
      keeps everything the loop maintains. */
  method PlayStep(start: Match, m: Match, inputs: seq<(Move, nat)>, i: nat) returns (next: Match)
    requires Opponents.Valid(start.opponent)
    requires LoopState(start, m, inputs, i) && i < |inputs| && !IsOver(m)
    ensures LoopState(start, next, inputs, i + 1)
  {
    NotOverBeforeStep(start, m, inputs, i);
    var r := PlayRound(m, inputs[i].0, inputs[i].1);
    KeptFromStep(start, m, r.next, inputs[i].0, r.aiMove);
    ReplayedFromStep(start, m, r.next, r.aiMove, inputs, i);
    TypedFromStep(start, m, r.next, r.aiMove, inputs, i);
    next := r.next;
  }

  /** Where the round loop stops, the replay says which way it ended: a
      finished match after exactly the inputs played, or no prefix of the
      inputs ending the match. */
  lemma LoopExit(start: Match, m: Match, inputs: seq<(Move, nat)>, i: nat)
    requires Opponents.Valid(start.opponent)
    requires LoopState(start, m, inputs, i)
    requires IsOver(m) || i == |inputs|
    ensures IsOver(m) ==> FinishedFrom(start, m, inputs)
    ensures !IsOver(m) ==> NotOverBefore(start, inputs, |inputs| + 1)
  {
    OverAfterIffIsOver(start, m, inputs, i);
    if !IsOver(m) {
      NotOverBeforeStep(start, m, inputs, i);
    }
  }

  /** The round loop of `play_match_cli`: while the match is not over, the
      next input supplies the player's move and the opponent's draw. The
      loop stops at the first input after which the match is over and
      returns the finished match (`FinishedFrom`). When the inputs run out
      first, no prefix of them ends the match: the player has quit and the
      match is abandoned (`None`). */
  method PlayMatch(start: Match, inputs: seq<(Move, nat)>) returns (outcome: Option<Match>)
    requires Opponents.Valid(start.opponent)
    ensures outcome.Some? ==> FinishedFrom(start, outcome.value, inputs)
    ensures outcome.None? ==> NotOverBefore(start, inputs, |inputs| + 1)
    ensures IsOver(start) ==> outcome == Some(start)
  {
    var m := start;
    var i := 0;
    while !IsOver(m) && i < |inputs|
      invariant LoopState(start, m, inputs, i)
      invariant i == 0 ==> m == start
      invariant IsOver(start) ==> i == 0
    {
      m := PlayStep(start, m, inputs, i);
      i := i + 1;
    }
    LoopExit(start, m, inputs, i);
    if IsOver(m) {
      outcome := Some(m);
    } else {
      outcome := None;
    }
  }
}

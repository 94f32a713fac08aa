/** The computer opponents: `RandomAI`, `FrequencyAI` and `MarkovAI`
    (advanced_rps_game.py, lines 115-195) and `choose_ai` (lines 254-262).
    `random.choice(xs)` is modelled as `xs[pick % |xs|]`, where `pick` is
    the random draw supplied by the caller. */
module Opponents {
  import opened Wrappers
  import opened Rules
  import opened Counters

  /** The three strategies, each with the rule set it plays and its private
      adaptive state. `transition[a]` counts the moves the player made right
      after playing `a`. */
  datatype Opponent =
    | RandomAI(rules: RulesetKey)
    | FrequencyAI(rules: RulesetKey, freq: Counter<Move>)
    | MarkovAI(rules: RulesetKey, transition: map<Move, Counter<Move>>,
               prev: Option<Move>, playerFreq: Counter<Move>)

  /** The name an opponent records itself under in the statistics store. */
  function Name(o: Opponent): string
  {
    match o
    case RandomAI(_) => "RandomAI"
    case FrequencyAI(_, _) => "FrequencyAI"
    case MarkovAI(_, _, _, _) => "MarkovAI"
  }

  /** The successor counts recorded after move `a` (an empty counter when
      there are none, as `defaultdict(Counter)` yields). */
  function Row(transition: map<Move, Counter<Move>>, a: Move): Counter<Move>
  {
    if a in transition then transition[a] else Empty()
  }

  /** Python truthiness of a string: only the empty string is false. */
  predicate Truthy(s: Move)
  {
    s != ""
  }

  /** The shape every reachable opponent state has. For the Markov opponent:
      a previous move exists only once something was observed, and every
      move in the transition table was observed. */
  predicate Valid(o: Opponent)
  {
    match o
    case RandomAI(_) => true
    case FrequencyAI(_, freq) => Counters.Valid(freq)
    case MarkovAI(_, transition, prev, playerFreq) =>
      && Counters.Valid(playerFreq)
      && (forall a :: a in transition ==> Counters.Valid(transition[a]))
      && (forall a, b :: a in transition && b in transition[a].counts ==> b in playerFreq.counts)
      && (prev.Some? ==> !IsEmpty(playerFreq))
  }

  /** The state right after `reset()` (and after construction): nothing
      observed. */
  predicate Cleared(o: Opponent)
  {
    match o
    case RandomAI(_) => true
    case FrequencyAI(_, freq) => freq == Empty()
    case MarkovAI(_, transition, prev, playerFreq) =>
      transition == map[] && prev == None && playerFreq == Empty()
  }

  /** `reset()`: the same strategy and rule set with its adaptive state cleared. */
  function Reset(o: Opponent): (r: Opponent)
    ensures Valid(r) && Cleared(r)
    ensures r.rules == o.rules && Name(r) == Name(o)
  {
    match o
    case RandomAI(key) => RandomAI(key)
    case FrequencyAI(key, _) => FrequencyAI(key, Empty())
    case MarkovAI(key, _, _, _) => MarkovAI(key, map[], None, Empty())
  }

  /** `reset()` leaves a state unchanged exactly when nothing has been
      observed since the last reset. */
  lemma ResetFixesCleared(o: Opponent)
    ensures Reset(o) == o <==> Cleared(o)
  {
  }

  /** `choose_ai` on an already lower-cased key: "random", "freq" or
      "markov" give a fresh opponent of that kind, anything else is the
      "Unknown AI key" error. */
  function ChooseAi(aiKey: string, key: RulesetKey): (r: Result<Opponent, string>)
    ensures r.Success? <==> aiKey == "random" || aiKey == "freq" || aiKey == "markov"
    ensures r.Success? ==> r.value.rules == key && Valid(r.value) && Cleared(r.value)
    ensures aiKey == "random" ==> r.Success? && Name(r.value) == "RandomAI"
    ensures aiKey == "freq" ==> r.Success? && Name(r.value) == "FrequencyAI"
    ensures aiKey == "markov" ==> r.Success? && Name(r.value) == "MarkovAI"
    ensures r.Failure? ==> r.error == "Unknown AI key"
  {
    if aiKey == "random" then Success(RandomAI(key))
    else if aiKey == "freq" then Success(FrequencyAI(key, Empty()))
    else if aiKey == "markov" then Success(MarkovAI(key, map[], None, Empty()))
    else Failure("Unknown AI key")
  }

  /** `observe(player_move, ai_move)`. The random opponent ignores it; the
      frequency opponent counts the player's move; the Markov opponent
      counts the transition from the previous player move (when there is
      one), remembers the move as the new previous move, and counts it. The
      opponent's own move is never used. */
  function Observe(o: Opponent, playerMove: Move, aiMove: Move): (r: Opponent)
    requires Valid(o)
    ensures Valid(r)
    ensures r.rules == o.rules && Name(r) == Name(o)
    ensures o.RandomAI? ==> r == o
    ensures o.MarkovAI? ==> r.prev == Some(playerMove)
  {
    match o
    case RandomAI(_) => o
    case FrequencyAI(key, freq) => FrequencyAI(key, Incr(freq, playerMove))
    case MarkovAI(key, transition, prev, playerFreq) =>
      var transition' :=
        if prev.Some? then transition[prev.value := Incr(Row(transition, prev.value), playerMove)]
        else transition;
      MarkovAI(key, transition', Some(playerMove), Incr(playerFreq, playerMove))
  }

  /** The frequency opponent's `observe` adds one to the count of the
      player's move and leaves every other count alone. */
  lemma FrequencyObserveCounts(o: Opponent, playerMove: Move, aiMove: Move)
    requires o.FrequencyAI? && Valid(o)
    ensures var r := Observe(o, playerMove, aiMove);
      && Count(r.freq, playerMove) == Count(o.freq, playerMove) + 1
      && (forall m :: m != playerMove ==> Count(r.freq, m) == Count(o.freq, m))
  {
  }

  /** The Markov opponent's `observe` makes the move its previous move, adds
      one to its overall count, and adds one to the transition count from
      the previous move only when there was a previous move. */
  lemma MarkovObserveCounts(o: Opponent, playerMove: Move, aiMove: Move)
    requires o.MarkovAI? && Valid(o)
    ensures var r := Observe(o, playerMove, aiMove);
      && r.prev == Some(playerMove)
      && Count(r.playerFreq, playerMove) == Count(o.playerFreq, playerMove) + 1
      && (forall m :: m != playerMove ==> Count(r.playerFreq, m) == Count(o.playerFreq, m))
      && (forall a, b :: Count(Row(r.transition, a), b) ==
            Count(Row(o.transition, a), b) + (if o.prev == Some(a) && b == playerMove then 1 else 0))
  {
  }

  /** `MarkovAI.predict_next`: the most common successor of the previous
      move when the previous move is truthy and has successors, otherwise
      the overall most common move, otherwise nothing. Whatever it predicts
      is a move the player has made. */
  function PredictNext(o: Opponent): (r: Option<Move>)
    requires o.MarkovAI? && Valid(o)
    ensures r.None? <==> IsEmpty(o.playerFreq)
    ensures r.Some? ==> r.value in o.playerFreq.counts
    ensures r.Some? && !(o.prev.Some? && Truthy(o.prev.value) && !IsEmpty(Row(o.transition, o.prev.value))) ==>
      forall m :: Count(o.playerFreq, m) <= Count(o.playerFreq, r.value)
    ensures r.Some? && o.prev.Some? && Truthy(o.prev.value) && !IsEmpty(Row(o.transition, o.prev.value)) ==>
      forall m :: Count(Row(o.transition, o.prev.value), m) <= Count(Row(o.transition, o.prev.value), r.value)
  {
    if o.prev.Some? && Truthy(o.prev.value) && !IsEmpty(Row(o.transition, o.prev.value)) then
      Some(MostCommon(Row(o.transition, o.prev.value)))
    else if !IsEmpty(o.playerFreq) then
      Some(MostCommon(o.playerFreq))
    else
      None
  }

  /** `[m for m, beats in winner_map.items() if predicted in beats]`: the
      moves that beat `predicted`, in rule-set order (both shipped maps list
      their keys in the order of `moves`). */
  function CounterMoves(moves: seq<Move>, winnerMap: map<Move, set<Move>>, predicted: Move): (r: seq<Move>)
    ensures forall m :: m in r <==> m in moves && Beats(winnerMap, m, predicted)
  {
    if moves == [] then []
    else
      (if Beats(winnerMap, moves[0], predicted) then [moves[0]] else [])
      + CounterMoves(moves[1..], winnerMap, predicted)
  }

  /** The counters to `predicted` when there are any, otherwise every legal
      move: the list both adaptive opponents draw from once they predict. */
  function CountersOrAll(key: RulesetKey, predicted: Move): (r: seq<Move>)
    ensures |r| > 0
    ensures forall m :: m in r ==> m in RulesetOf(key).moves
    ensures (exists c :: c in RulesetOf(key).moves && Beats(RulesetOf(key).winnerMap, c, predicted)) ==>
      forall m :: m in r <==> m in RulesetOf(key).moves && Beats(RulesetOf(key).winnerMap, m, predicted)
    ensures !(exists c :: c in RulesetOf(key).moves && Beats(RulesetOf(key).winnerMap, c, predicted)) ==>
      r == RulesetOf(key).moves
  {
    var rs := RulesetOf(key);
    var counters := CounterMoves(rs.moves, rs.winnerMap, predicted);
    if |counters| > 0 then assert counters[0] in counters; counters else rs.moves
  }

  /** The list `choose_move` hands to `random.choice`: every legal move for
      the random opponent and whenever there is no usable prediction, and
      the counters to the prediction otherwise. */
  function Candidates(o: Opponent): (r: seq<Move>)
    requires Valid(o)
    ensures |r| > 0
    ensures forall m :: m in r ==> m in RulesetOf(o.rules).moves
    ensures o.RandomAI? || (o.FrequencyAI? && IsEmpty(o.freq)) ==> r == RulesetOf(o.rules).moves
    ensures o.FrequencyAI? && !IsEmpty(o.freq) ==> r == CountersOrAll(o.rules, MostCommon(o.freq))
    ensures o.MarkovAI? ==>
      r == (if PredictNext(o).Some? && Truthy(PredictNext(o).value)
            then CountersOrAll(o.rules, PredictNext(o).value)
            else RulesetOf(o.rules).moves)
  {
    match o
    case RandomAI(key) => RulesetOf(key).moves
    case FrequencyAI(key, freq) =>
      if IsEmpty(freq) then RulesetOf(key).moves
      else CountersOrAll(key, MostCommon(freq))
    case MarkovAI(key, _, _, _) =>
      var predicted := PredictNext(o);
      if predicted.Some? && Truthy(predicted.value) then CountersOrAll(key, predicted.value)
      else RulesetOf(key).moves
  }

  /** `random.choice(xs)` with `pick` standing for the random draw. */
  function Pick(xs: seq<Move>, pick: nat): (m: Move)
    requires |xs| > 0
    ensures m in xs
  {
    xs[pick % |xs|]
  }

  /** Every element of a list is the outcome of some draw. */
  lemma PickCoversAll(xs: seq<Move>, m: Move)
    requires m in xs
    ensures exists pick: nat :: Pick(xs, pick) == m
  {
    var i :| 0 <= i < |xs| && xs[i] == m;
    assert i % |xs| == i;
    assert Pick(xs, i) == m;
  }

  /** `choose_move()`, with `pick` standing for the random draw: the move
      comes from the non-empty candidate list and is always legal. */
  function ChooseMove(o: Opponent, pick: nat): (m: Move)
    requires Valid(o)
    ensures m in Candidates(o)
    ensures m in RulesetOf(o.rules).moves
  {
    Pick(Candidates(o), pick)
  }

  /** Every candidate is the outcome of some draw, so `ChooseMove` over all
      draws is exactly a choice from the candidate list. */
  lemma EveryCandidateChosen(o: Opponent, m: Move)
    requires Valid(o)
    requires m in Candidates(o)
    ensures exists pick: nat :: ChooseMove(o, pick) == m
  {
    PickCoversAll(Candidates(o), m);
    var pick: nat :| Pick(Candidates(o), pick) == m;
    assert ChooseMove(o, pick) == m;
  }

  /** Against a legal prediction in a shipped rule set, every move drawn
      from `CountersOrAll` beats the prediction. */
  lemma CountersOrAllBeat(key: RulesetKey, predicted: Move)
    requires predicted in RulesetOf(key).moves
    ensures forall m :: m in CountersOrAll(key, predicted) ==> Beats(RulesetOf(key).winnerMap, m, predicted)
  {
    ShippedMovesBeatable(key);
  }

  /** Once the frequency opponent has observed legal moves, it always
      answers with a move that beats one of the player's most frequent moves. */
  lemma FrequencyCountersMostFrequent(key: RulesetKey, freq: Counter<Move>, pick: nat)
    requires Counters.Valid(freq) && !IsEmpty(freq)
    requires forall m :: m in freq.counts ==> m in RulesetOf(key).moves
    ensures var r := ChooseMove(FrequencyAI(key, freq), pick);
      exists k :: k in freq.counts
        && Beats(RulesetOf(key).winnerMap, r, k)
        && forall x :: Count(freq, x) <= Count(freq, k)
  {
    var k := MostCommon(freq);
    CountersOrAllBeat(key, k);
    assert Candidates(FrequencyAI(key, freq)) == CountersOrAll(key, k);
  }

  /** In the RPS rule set only "paper" beats "rock". */
  lemma OnlyPaperBeatsRock()
    ensures CounterMoves(RulesetOf(RPS).moves, RulesetOf(RPS).winnerMap, "rock") == ["paper"]
  {
    RpsBeats("rock", "rock");
    RpsBeats("paper", "rock");
    RpsBeats("scissors", "rock");
  }

  /** Observing three rounds of "rock" from a cleared frequency opponent
      leaves the single count rock: 3. */
  lemma ThreeRocksObserved(a1: Move, a2: Move, a3: Move)
    ensures ObserveAll(FrequencyAI(RPS, Empty()), [("rock", a1), ("rock", a2), ("rock", a3)])
         == FrequencyAI(RPS, Counter(["rock"], map["rock" := 3]))
  {
    var start := FrequencyAI(RPS, Empty());
    var rounds := [("rock", a1), ("rock", a2), ("rock", a3)];
    assert rounds[..0] == [];
    assert rounds[..1] == [("rock", a1)];
    assert rounds[..2] == [("rock", a1), ("rock", a2)];
    assert rounds[..1][..0] == [];
    assert rounds[..2][..1] == rounds[..1];
    assert ObserveAll(start, rounds[..1]) == FrequencyAI(RPS, Counter(["rock"], map["rock" := 1]));
    assert ObserveAll(start, rounds[..2]) == FrequencyAI(RPS, Counter(["rock"], map["rock" := 2]));
  }

  /** With rock as the only counted move, the RPS frequency opponent plays
      "paper" whatever the draw. */
  lemma PaperAgainstRocks(pick: nat)
    ensures ChooseMove(FrequencyAI(RPS, Counter(["rock"], map["rock" := 3])), pick) == "paper"
  {
    var freq := Counter(["rock"], map["rock" := 3]);
    assert MostCommon(freq) == "rock";
    OnlyPaperBeatsRock();
    assert CountersOrAll(RPS, "rock") == ["paper"];
    assert Candidates(FrequencyAI(RPS, freq)) == ["paper"];
    assert pick % 1 == 0;
  }

  /** After the player opens with "rock, rock, rock", the frequency
      opponent in the RPS rule set plays "paper", whatever the draw. */
  lemma FrequencyAfterThreeRocks(a1: Move, a2: Move, a3: Move, pick: nat)
    ensures ChooseMove(ObserveAll(FrequencyAI(RPS, Empty()), [("rock", a1), ("rock", a2), ("rock", a3)]), pick)
         == "paper"
  {
    ThreeRocksObserved(a1, a2, a3);
    PaperAgainstRocks(pick);
  }

  /** Every legal move of a shipped rule set is a non-empty, so truthy, string. */
  lemma LegalMovesTruthy(key: RulesetKey, m: Move)
    requires m in RulesetOf(key).moves
    ensures Truthy(m)
  {
  }

  /** When the Markov opponent predicts a truthy legal move, it answers
      with a move that beats the prediction, whatever the draw. */
  lemma MarkovCountersPrediction(o: Opponent, pick: nat)
    requires o.MarkovAI? && Valid(o)
    requires PredictNext(o).Some? && Truthy(PredictNext(o).value)
    requires PredictNext(o).value in RulesetOf(o.rules).moves
    ensures Beats(RulesetOf(o.rules).winnerMap, ChooseMove(o, pick), PredictNext(o).value)
  {
    CountersOrAllBeat(o.rules, PredictNext(o).value);
  }

  /** The Markov opponent always plays a legal move. */
  lemma MarkovChoosesLegal(o: Opponent, pick: nat)
    requires o.MarkovAI? && Valid(o)
    ensures ChooseMove(o, pick) in RulesetOf(o.rules).moves
  {
  }

  /** The player's moves of a round history, in order. */
  function PlayerMoves(rounds: seq<Round>): seq<Move>
  {
    seq(|rounds|, i requires 0 <= i < |rounds| => rounds[i].0)
  }

  /** The last move of a sequence, as the Markov opponent's `prev` holds it. */
  function LastMove(ms: seq<Move>): Option<Move>
  {
    if ms == [] then None else Some(ms[|ms| - 1])
  }

  /** How often `b` comes directly after `a` in `ms`. */
  function PairCount(ms: seq<Move>, a: Move, b: Move): nat
  {
    if |ms| < 2 then 0
    else PairCount(ms[..|ms| - 1], a, b) + (if ms[|ms| - 2] == a && ms[|ms| - 1] == b then 1 else 0)
  }

  /** Observing the rounds of a history one after the other. */
  function ObserveAll(o: Opponent, rounds: seq<Round>): (r: Opponent)
    requires Valid(o)
    ensures Valid(r)
    ensures r.rules == o.rules && Name(r) == Name(o)
  {
    if rounds == [] then o
    else
      var last := rounds[|rounds| - 1];
      Observe(ObserveAll(o, rounds[..|rounds| - 1]), last.0, last.1)
  }

  /** Observing one more round after a history is observing the longer history. */
  lemma ObserveAllSnoc(o: Opponent, rounds: seq<Round>, round: Round)
    requires Valid(o)
    ensures ObserveAll(o, rounds + [round]) == Observe(ObserveAll(o, rounds), round.0, round.1)
  {
    assert (rounds + [round])[..|rounds|] == rounds;
  }

  /** Observing one more round after the rounds of `history` from `prefix`
      on is observing the rounds of the longer history from `prefix` on. */
  lemma ObserveAllStep(o: Opponent, prefix: nat, history: seq<Round>, round: Round)
    requires Valid(o)
    requires prefix <= |history|
    ensures Observe(ObserveAll(o, history[prefix..]), round.0, round.1)
         == ObserveAll(o, (history + [round])[prefix..])
  {
    assert (history + [round])[prefix..] == history[prefix..] + [round];
    ObserveAllSnoc(o, history[prefix..], round);
  }

  /** Dropping the last round drops the last player move. */
  lemma PlayerMovesInit(rounds: seq<Round>)
    requires |rounds| > 0
    ensures PlayerMoves(rounds) == PlayerMoves(rounds[..|rounds| - 1]) + [rounds[|rounds| - 1].0]
  {
  }

  /** From a cleared state, the frequency opponent's count of every move is
      the number of times the player made it. */
  lemma {:induction false} FrequencyTracksHistory(start: Opponent, rounds: seq<Round>)
    requires start.FrequencyAI? && Cleared(start)
    ensures var o := ObserveAll(start, rounds);
      forall m :: Count(o.freq, m) == multiset(PlayerMoves(rounds))[m]
  {
    if rounds != [] {
      var init := rounds[..|rounds| - 1];
      var last := rounds[|rounds| - 1];
      FrequencyTracksHistory(start, init);
      FrequencyObserveCounts(ObserveAll(start, init), last.0, last.1);
      PlayerMovesInit(rounds);
    }
  }

  /** From a cleared state, the Markov opponent's previous move is the
      player's last move and its overall counts are the player's move counts. */
  lemma {:induction false} MarkovTracksMoves(start: Opponent, rounds: seq<Round>)
    requires start.MarkovAI? && Cleared(start)
    ensures var o := ObserveAll(start, rounds);
      && o.prev == LastMove(PlayerMoves(rounds))
      && forall m :: Count(o.playerFreq, m) == multiset(PlayerMoves(rounds))[m]
  {
    if rounds != [] {
      var init := rounds[..|rounds| - 1];
      var last := rounds[|rounds| - 1];
      MarkovTracksMoves(start, init);
      MarkovObserveCounts(ObserveAll(start, init), last.0, last.1);
      PlayerMovesInit(rounds);
    }
  }

  /** From a cleared state, the Markov opponent's transition count from `a`
      to `b` is the number of times the player played `b` right after `a`. */
  lemma {:induction false} MarkovTracksTransitions(start: Opponent, rounds: seq<Round>)
    requires start.MarkovAI? && Cleared(start)
    ensures var o := ObserveAll(start, rounds);
      forall a, b :: Count(Row(o.transition, a), b) == PairCount(PlayerMoves(rounds), a, b)
  {
    if rounds != [] {
      var init := rounds[..|rounds| - 1];
      var last := rounds[|rounds| - 1];
      var before := ObserveAll(start, init);
      var after := ObserveAll(start, rounds);
      assert after == Observe(before, last.0, last.1);
      MarkovObserveCounts(before, last.0, last.1);
      MarkovTracksTransitions(start, init);
      MarkovTracksMoves(start, init);
      PlayerMovesInit(rounds);
      var ms := PlayerMoves(rounds);
      var msInit := PlayerMoves(init);
      assert ms[..|ms| - 1] == msInit;
      forall a, b
        ensures Count(Row(after.transition, a), b) == PairCount(ms, a, b)
      {
        assert Count(Row(after.transition, a), b) ==
          Count(Row(before.transition, a), b) + (if before.prev == Some(a) && b == last.0 then 1 else 0);
        if |ms| >= 2 {
          assert before.prev == Some(ms[|ms| - 2]);
          assert PairCount(ms, a, b) ==
            PairCount(msInit, a, b) + (if ms[|ms| - 2] == a && ms[|ms| - 1] == b then 1 else 0);
        } else {
          assert before.prev == None;
        }
      }
    }
  }

  /** From a cleared state the Markov opponent predicts nothing exactly as
      long as it has observed no round. */
  lemma MarkovPredictsOnceObserved(start: Opponent, rounds: seq<Round>)
    requires start.MarkovAI? && Cleared(start)
    ensures PredictNext(ObserveAll(start, rounds)).None? <==> rounds == []
  {
    var o := ObserveAll(start, rounds);
    MarkovTracksMoves(start, rounds);
    EmptyIffAllZero(o.playerFreq);
    if rounds != [] {
      var ms := PlayerMoves(rounds);
      assert ms[0] in multiset(ms);
      assert Count(o.playerFreq, ms[0]) > 0;
    }
  }

  /** From a cleared state, once the player has made legal moves, the
      frequency opponent answers with a move that beats a move the player
      made most often. */
  lemma FrequencyCountersHistory(start: Opponent, rounds: seq<Round>, pick: nat)
    requires start.FrequencyAI? && Cleared(start) && rounds != []
    requires forall i :: 0 <= i < |rounds| ==> rounds[i].0 in RulesetOf(start.rules).moves
    ensures var ms := PlayerMoves(rounds);
      exists k :: k in ms
        && Beats(RulesetOf(start.rules).winnerMap, ChooseMove(ObserveAll(start, rounds), pick), k)
        && forall x :: multiset(ms)[x] <= multiset(ms)[k]
  {
    var o := ObserveAll(start, rounds);
    assert o.FrequencyAI? && o.rules == start.rules;
    assert o == FrequencyAI(start.rules, o.freq);
    var ms := PlayerMoves(rounds);
    FrequencyTracksHistory(start, rounds);
    EmptyIffAllZero(o.freq);
    assert multiset(ms)[ms[0]] > 0;
    assert !IsEmpty(o.freq) by { assert Count(o.freq, ms[0]) > 0; }
    forall m | m in o.freq.counts
      ensures m in RulesetOf(start.rules).moves
    {
      assert Count(o.freq, m) > 0;
      assert m in ms;
      var i :| 0 <= i < |ms| && ms[i] == m;
      assert rounds[i].0 == m;
    }
    FrequencyCountersMostFrequent(start.rules, o.freq, pick);
    var k :| k in o.freq.counts
        && Beats(RulesetOf(start.rules).winnerMap, ChooseMove(FrequencyAI(start.rules, o.freq), pick), k)
        && forall x :: Count(o.freq, x) <= Count(o.freq, k);
    assert Count(o.freq, k) > 0;
    assert k in ms;
  }

  /** From a cleared state, once something was observed, the Markov
      opponent predicts a move that most often followed the player's last
      move when that move is truthy and was ever followed by something;
      otherwise a move the player made most often. */
  lemma MarkovPredictionFromHistory(start: Opponent, rounds: seq<Round>)
    requires start.MarkovAI? && Cleared(start) && rounds != []
    ensures var ms := PlayerMoves(rounds);
      var last := ms[|ms| - 1];
      var p := PredictNext(ObserveAll(start, rounds));
      && p.Some?
      && (Truthy(last) && (exists b :: PairCount(ms, last, b) > 0) ==>
            forall b :: PairCount(ms, last, b) <= PairCount(ms, last, p.value))
      && (!(Truthy(last) && exists b :: PairCount(ms, last, b) > 0) ==>
            forall b :: multiset(ms)[b] <= multiset(ms)[p.value])
  {
    var o := ObserveAll(start, rounds);
    var ms := PlayerMoves(rounds);
    var last := ms[|ms| - 1];
    MarkovTracksMoves(start, rounds);
    MarkovTracksTransitions(start, rounds);
    MarkovPredictsOnceObserved(start, rounds);
    var row := Row(o.transition, last);
    assert Counters.Valid(row);
    EmptyIffAllZero(row);
    if Truthy(last) && exists b :: PairCount(ms, last, b) > 0 {
      var b :| PairCount(ms, last, b) > 0;
      assert Count(row, b) > 0;
    } else {
      assert IsEmpty(row) || !Truthy(last);
    }
  }

  /** From a cleared state, once the player has made legal moves, the
      Markov opponent predicts one of the player's moves and answers with a
      move that beats it, whatever the draw. */
  lemma MarkovCountersHistory(start: Opponent, rounds: seq<Round>, pick: nat)
    requires start.MarkovAI? && Cleared(start) && rounds != []
    requires forall i :: 0 <= i < |rounds| ==> rounds[i].0 in RulesetOf(start.rules).moves
    ensures var o := ObserveAll(start, rounds);
      var p := PredictNext(o);
      && p.Some?
      && p.value in PlayerMoves(rounds)
      && Beats(RulesetOf(start.rules).winnerMap, ChooseMove(o, pick), p.value)
  {
    var o := ObserveAll(start, rounds);
    assert o.MarkovAI? && o.rules == start.rules;
    var ms := PlayerMoves(rounds);
    MarkovTracksMoves(start, rounds);
    MarkovPredictsOnceObserved(start, rounds);
    var p := PredictNext(o).value;
    assert Count(o.playerFreq, p) > 0;
    assert p in ms;
    var i :| 0 <= i < |ms| && ms[i] == p;
    assert rounds[i].0 == p;
    LegalMovesTruthy(start.rules, p);
    MarkovCountersPrediction(o, pick);
  }
}

/** The two shipped rule sets and the round resolver `decide_winner`
    (advanced_rps_game.py, lines 35-62). */
module Rules {

  /** A move is an opaque label such as "rock"; the game compares moves as strings. */
  type Move = string

  /** One round as recorded in a match history: (player move, opponent move). */
  type Round = (Move, Move)

  /** A rule set: the ordered list of legal moves and, for each move, the set
      of moves it beats (the `winner_map`). */
  datatype Ruleset = Ruleset(moves: seq<Move>, winnerMap: map<Move, set<Move>>)

  /** The keys of the `RULESETS` table. */
  datatype RulesetKey = RPS | RPSLS

  /** The `RULESETS` table. In both entries the keys of `winner_map` are
      listed in the same order as `moves`. */
  function RulesetOf(key: RulesetKey): Ruleset
  {
    match key
    case RPS =>
      Ruleset(["rock", "paper", "scissors"],
              map["rock" := {"scissors"},
                  "paper" := {"rock"},
                  "scissors" := {"paper"}])
    case RPSLS =>
      Ruleset(["rock", "paper", "scissors", "lizard", "spock"],
              map["rock" := {"scissors", "lizard"},
                  "paper" := {"rock", "spock"},
                  "scissors" := {"paper", "lizard"},
                  "lizard" := {"spock", "paper"},
                  "spock" := {"scissors", "rock"}])
  }

  /** The moves `a` beats; a move the map does not know beats nothing
      (`winner_map.get(a, set())`). */
  function Beaten(winnerMap: map<Move, set<Move>>, a: Move): set<Move>
  {
    if a in winnerMap then winnerMap[a] else {}
  }

  /** `a` beats `b` under `winnerMap`. */
  predicate Beats(winnerMap: map<Move, set<Move>>, a: Move, b: Move)
  {
    b in Beaten(winnerMap, a)
  }

  /** No repeated entries in a sequence. */
  predicate Distinct<T(==)>(s: seq<T>)
  {
    forall i, j :: 0 <= i < j < |s| ==> s[i] != s[j]
  }

  /** The invariants a rule set is meant to have: distinct moves, a beats
      relation exactly over the moves, irreflexive, asymmetric, and total on
      distinct moves, so that every round between different moves has one
      winner. */
  ghost predicate WellFormed(rs: Ruleset)
  {
    && Distinct(rs.moves)
    && (forall a :: a in rs.winnerMap <==> a in rs.moves)
    && (forall a, b :: Beats(rs.winnerMap, a, b) ==> b in rs.moves)
    && (forall a :: !Beats(rs.winnerMap, a, a))
    && (forall a, b :: Beats(rs.winnerMap, a, b) ==> !Beats(rs.winnerMap, b, a))
    && (forall a, b :: a in rs.moves && b in rs.moves && a != b ==>
          Beats(rs.winnerMap, a, b) || Beats(rs.winnerMap, b, a))
  }

  /** Every legal move is beaten by some legal move, so a counter-move to
      any prediction exists. */
  predicate EveryMoveBeatable(rs: Ruleset)
  {
    forall m :: m in rs.moves ==> exists c :: c in rs.moves && Beats(rs.winnerMap, c, m)
  }

  /** `decide_winner`: 1 when `a` wins, -1 when `b` wins, 0 on a tie. A move
      unknown to the map never wins. */
  function DecideWinner(a: Move, b: Move, winnerMap: map<Move, set<Move>>): (r: int)
    ensures r == 0 || r == 1 || r == -1
    ensures r == 0 <==> a == b
    ensures r == 1 <==> a != b && Beats(winnerMap, a, b)
  {
    if a == b then 0
    else if b in Beaten(winnerMap, a) then 1
    else -1
  }

  /** Any move played against itself is a tie, whatever the map. */
  lemma SelfIsTie(m: Move, winnerMap: map<Move, set<Move>>)
    ensures DecideWinner(m, m, winnerMap) == 0
  {
  }

  /** The examples of `_test_decide_winner`. */
  lemma DecideWinnerExamples()
    ensures DecideWinner("rock", "scissors", RulesetOf(RPS).winnerMap) == 1
    ensures DecideWinner("rock", "paper", RulesetOf(RPS).winnerMap) == -1
    ensures DecideWinner("paper", "paper", RulesetOf(RPS).winnerMap) == 0
  {
    assert "rock" != "scissors" by { assert "rock"[0] != "scissors"[0]; }
    assert "rock" != "paper" by { assert "rock"[0] != "paper"[0]; }
    assert "paper" !in Beaten(RulesetOf(RPS).winnerMap, "rock") by {
      assert "paper"[0] != "scissors"[0];
    }
  }

  /** In a well-formed rule set a round between two different legal moves
      is never a tie, and swapping the players negates the outcome. */
  lemma DecideWinnerAntisymmetric(rs: Ruleset, a: Move, b: Move)
    requires WellFormed(rs)
    requires a in rs.moves && b in rs.moves && a != b
    ensures DecideWinner(a, b, rs.winnerMap) != 0
    ensures DecideWinner(a, b, rs.winnerMap) == -DecideWinner(b, a, rs.winnerMap)
  {
  }

  /** The beats relation of "RPS", pair by pair. */
  lemma RpsBeats(a: Move, b: Move)
    ensures Beats(RulesetOf(RPS).winnerMap, a, b) <==>
      || (a == "rock" && b == "scissors")
      || (a == "paper" && b == "rock")
      || (a == "scissors" && b == "paper")
  {
  }

  /** The beats relation of "RPSLS", pair by pair. */
  lemma RpslsBeats(a: Move, b: Move)
    ensures Beats(RulesetOf(RPSLS).winnerMap, a, b) <==>
      || (a == "rock" && (b == "scissors" || b == "lizard"))
      || (a == "paper" && (b == "rock" || b == "spock"))
      || (a == "scissors" && (b == "paper" || b == "lizard"))
      || (a == "lizard" && (b == "spock" || b == "paper"))
      || (a == "spock" && (b == "scissors" || b == "rock"))
  {
  }

  /** "RPS" is well formed and each of its moves can be countered. */
  lemma RpsWellFormed()
    ensures WellFormed(RulesetOf(RPS))
    ensures EveryMoveBeatable(RulesetOf(RPS))
  {
    LabelsDiffer();
    var rs := RulesetOf(RPS);
    var w := rs.winnerMap;
    forall a, b
      ensures Beats(w, a, b) ==> b in rs.moves && !Beats(w, b, a)
      ensures a in rs.moves && b in rs.moves && a != b ==> Beats(w, a, b) || Beats(w, b, a)
    {
      RpsBeats(a, b);
      RpsBeats(b, a);
    }
    forall a
      ensures !Beats(w, a, a)
    {
      RpsBeats(a, a);
    }
    assert Beats(w, "paper", "rock") && Beats(w, "scissors", "paper") && Beats(w, "rock", "scissors");
  }

  /** "RPSLS" is well formed and each of its moves can be countered. */
  lemma RpslsWellFormed()
    ensures WellFormed(RulesetOf(RPSLS))
    ensures EveryMoveBeatable(RulesetOf(RPSLS))
  {
    LabelsDiffer();
    var rs := RulesetOf(RPSLS);
    var w := rs.winnerMap;
    forall a, b
      ensures Beats(w, a, b) ==> b in rs.moves && !Beats(w, b, a)
      ensures a in rs.moves && b in rs.moves && a != b ==> Beats(w, a, b) || Beats(w, b, a)
    {
      RpslsBeats(a, b);
      RpslsBeats(b, a);
    }
    forall a
      ensures !Beats(w, a, a)
    {
      RpslsBeats(a, a);
    }
    assert Beats(w, "paper", "rock") && Beats(w, "scissors", "paper") && Beats(w, "rock", "scissors");
    assert Beats(w, "rock", "lizard") && Beats(w, "paper", "spock");
  }

  /** Both shipped rule sets are well formed. */
  lemma ShippedRulesetsWellFormed(key: RulesetKey)
    ensures WellFormed(RulesetOf(key))
  {
    match key
    case RPS => RpsWellFormed();
    case RPSLS => RpslsWellFormed();
  }

  /** In both shipped rule sets every move can be countered. */
  lemma ShippedMovesBeatable(key: RulesetKey)
    ensures EveryMoveBeatable(RulesetOf(key))
  {
    match key
    case RPS => RpsWellFormed();
    case RPSLS => RpslsWellFormed();
  }

  /** The five move labels are pairwise different strings. */
  lemma LabelsDiffer()
    ensures "rock" != "paper" && "rock" != "scissors" && "rock" != "lizard" && "rock" != "spock"
    ensures "paper" != "scissors" && "paper" != "lizard" && "paper" != "spock"
    ensures "scissors" != "lizard" && "scissors" != "spock"
    ensures "lizard" != "spock"
  {
    assert "rock"[0] == 'r' && "paper"[0] == 'p' && "scissors"[0] == 's';
    assert "lizard"[0] == 'l' && "spock"[0] == 's';
    assert "scissors"[1] == 'c' && "spock"[1] == 'p';
  }
}

/**
 * The win rule of a game: a side wins once it has reached the target score
 * with a lead of at least two.  The deuce flag of the game mode is consulted
 * by the rule but changes nothing in its answer.
 */
module WinRule {
  import opened Wrappers
  import opened MatchModel

  /** Reference rule: `own` has reached the target and leads `opponent` by two or more. */
  predicate WinsByTwo(own: int, opponent: int, pointsToWin: int) {
    own >= pointsToWin && own >= opponent + 2
  }

  function Mirror(s: Side): (t: Side)
    ensures t != s
  {
    match s
    case P1 => P2
    case P2 => P1
  }

  function MirrorResult(r: Option<Side>): Option<Side> {
    match r
    case None => None
    case Some(s) => Some(Mirror(s))
  }

  /**
   * Decides the winner of a game at score `p1Score`-`p2Score`, branch by
   * branch: the plain rule when deuce is off, the deuce rule when it is on,
   * then the unconditional win-by-two rule.
   */
  function CheckWinCondition(p1Score: int, p2Score: int, rules: GameMode): (r: Option<Side>)
    ensures r == Some(P1) <==> WinsByTwo(p1Score, p2Score, rules.pointsToWin)
    ensures r == Some(P2) <==> WinsByTwo(p2Score, p1Score, rules.pointsToWin)
    ensures r == None <==>
      !WinsByTwo(p1Score, p2Score, rules.pointsToWin) && !WinsByTwo(p2Score, p1Score, rules.pointsToWin)
  {
    var pointsToWin := rules.pointsToWin;
    var isDeuceEnabled := rules.isDeuceEnabled;
    if p1Score >= pointsToWin && p1Score > p2Score + 1 && !isDeuceEnabled then Some(P1)
    else if p2Score >= pointsToWin && p2Score > p1Score + 1 && !isDeuceEnabled then Some(P2)
    else if isDeuceEnabled && p1Score >= pointsToWin && p1Score >= p2Score + 2 then Some(P1)
    else if isDeuceEnabled && p2Score >= pointsToWin && p2Score >= p1Score + 2 then Some(P2)
    else if p1Score >= pointsToWin && p1Score >= p2Score + 2 then Some(P1)
    else if p2Score >= pointsToWin && p2Score >= p1Score + 2 then Some(P2)
    else None
  }

  /** Turning the deuce flag over never changes the answer. */
  lemma DeuceFlagIsInert(p1Score: int, p2Score: int, rules: GameMode)
    ensures CheckWinCondition(p1Score, p2Score, rules)
         == CheckWinCondition(p1Score, p2Score, rules.(isDeuceEnabled := !rules.isDeuceEnabled))
  {
  }

  /** Swapping the scores swaps the winner. */
  lemma WinIsSymmetric(p1Score: int, p2Score: int, rules: GameMode)
    ensures CheckWinCondition(p2Score, p1Score, rules) == MirrorResult(CheckWinCondition(p1Score, p2Score, rules))
  {
  }

  /** A winner has always reached the target score and leads by two. */
  lemma WinnerReachedTarget(p1Score: int, p2Score: int, rules: GameMode)
    ensures CheckWinCondition(p1Score, p2Score, rules) == Some(P1) ==>
      p1Score >= rules.pointsToWin && p1Score - p2Score >= 2
    ensures CheckWinCondition(p1Score, p2Score, rules) == Some(P2) ==>
      p2Score >= rules.pointsToWin && p2Score - p1Score >= 2
  {
  }

  /** The eleven-point scenarios: 11-8 and 11-9 win, 11-10 does not, 12-10 does. */
  lemma ElevenPointScenarios(rules: GameMode)
    requires rules.pointsToWin == 11
    ensures CheckWinCondition(11, 8, rules) == Some(P1)
    ensures CheckWinCondition(11, 9, rules) == Some(P1)
    ensures CheckWinCondition(11, 10, rules) == None
    ensures CheckWinCondition(12, 10, rules) == Some(P1)
    ensures CheckWinCondition(10, 10, rules) == None
  {
  }
}

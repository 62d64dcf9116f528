/**
 * Whose turn it is to serve, derived on every read from the score and the
 * rules, never stored.  Outside deuce the serve changes hands every
 * `servesBeforeChange` points; once both players stand one point short of
 * the target it changes every `servesInDeuce` points, counted from the
 * start of deuce.  Division is the floor of an exact quotient; a zero
 * divisor gives no finite turn number, and the parity test then fails.
 */
module ServeRotation {
  import opened Wrappers
  import opened MatchModel

  datatype ServeState = ServeState(server: UserId, isDeuce: bool)

  /** The floor of `a / b`, for either sign of `b`. */
  function FloorDiv(a: int, b: int): (q: int)
    requires b != 0
    ensures b == 1 ==> q == a
    ensures 0 <= a < b ==> q == 0
    ensures b > 0 && a >= 0 ==> q >= 0
  {
    if b > 0 then a / b else (-a) / (-b)
  }

  /** The quotient lies within one divisor below the dividend, on the divisor's side. */
  lemma FloorDivBounds(a: int, b: int)
    requires b != 0
    ensures b > 0 ==> FloorDiv(a, b) * b <= a < FloorDiv(a, b) * b + b
    ensures b < 0 ==> FloorDiv(a, b) * b >= a > FloorDiv(a, b) * b + b
  {
  }

  /** A positive multiple of a positive number is at least that number. */
  lemma MultipleAtLeast(k: int, b: int)
    requires k >= 1 && b >= 1
    ensures k * b >= b
  {
  }

  /** A quotient that satisfies the floor bounds is the floor. */
  lemma FloorDivUnique(a: int, b: int, q: int)
    requires b != 0
    requires b > 0 ==> q * b <= a < q * b + b
    requires b < 0 ==> q * b >= a > q * b + b
    ensures q == FloorDiv(a, b)
  {
    var f := FloorDiv(a, b);
    FloorDivBounds(a, b);
    var d := if b > 0 then b else -b;
    // both quotients are within one divisor of each other
    assert (q - f) * b == q * b - f * b;
    assert (f - q) * b == f * b - q * b;
    if q > f {
      MultipleAtLeast(q - f, d);
    } else if q < f {
      MultipleAtLeast(f - q, d);
    }
  }

  /** One more full turn of points adds one to the turn number. */
  lemma FloorDivShift(a: int, b: int)
    requires b != 0
    ensures FloorDiv(a + b, b) == FloorDiv(a, b) + 1
  {
    var q := FloorDiv(a, b);
    FloorDivBounds(a, b);
    assert (q + 1) * b == q * b + b;
    FloorDivUnique(a + b, b, q + 1);
  }

  /**
   * The starter's turn: an even turn number, which a zero divisor never
   * yields.  The first block of points is always the starter's.
   */
  predicate StarterTurn(points: int, perTurn: int): (r: bool)
    ensures perTurn == 0 ==> !r
    ensures 0 <= points < perTurn ==> r
  {
    perTurn != 0 && FloorDiv(points, perTurn) % 2 == 0
  }

  /**
   * Reference rotation, stated without division: the starter serves the
   * first `perTurn` points, and every later block of `perTurn` points goes
   * to the other player than the block before it.
   */
  function StarterServesBlock(points: nat, perTurn: nat): bool
    requires perTurn >= 1
    decreases points
  {
    if points < perTurn then true else !StarterServesBlock(points - perTurn, perTurn)
  }

  /** After a full turn of points the serve has changed hands. */
  lemma TurnChangesHands(points: int, perTurn: int)
    requires perTurn != 0
    ensures StarterTurn(points + perTurn, perTurn) == !StarterTurn(points, perTurn)
  {
    FloorDivShift(points, perTurn);
  }

  /** The parity test agrees with the block-by-block rotation. */
  lemma {:induction false} StarterTurnIsBlockRotation(points: nat, perTurn: nat)
    requires perTurn >= 1
    ensures StarterTurn(points, perTurn) == StarterServesBlock(points, perTurn)
    decreases points
  {
    if points < perTurn {
      FloorDivUnique(points, perTurn, 0);
    } else {
      StarterTurnIsBlockRotation(points - perTurn, perTurn);
      TurnChangesHands(points - perTurn, perTurn);
    }
  }

  /** The first server if one was chosen, else the first player. */
  function Starter(firstServer: Option<UserId>, player1: UserId): (u: UserId)
    ensures firstServer.Some? ==> u == firstServer.value
    ensures firstServer.None? ==> u == player1
  {
    firstServer.GetOr(player1)
  }

  /** The other player than the first player when the starter is the first player, else the first player. */
  function Receiver(starter: UserId, player1: UserId, player2: UserId): (u: UserId)
    ensures starter == player1 ==> u == player2
    ensures starter != player1 ==> u == player1
    ensures player1 != player2 && (starter == player1 || starter == player2) ==> u != starter
  {
    if starter == player1 then player2 else player1
  }

  /** Points played when both players stand one short of the target. */
  function PointsBeforeDeuce(pointsToWin: int): (n: int)
    ensures n == (pointsToWin - 1) + (pointsToWin - 1)
    ensures n % 2 == 0
  {
    (pointsToWin - 1) * 2
  }

  /** Both players stand at least one short of the target; by then deuce's points have been played. */
  predicate InDeuce(p1Score: int, p2Score: int, pointsToWin: int): (r: bool)
    ensures r ==> p1Score + p2Score >= PointsBeforeDeuce(pointsToWin)
  {
    p1Score >= pointsToWin - 1 && p2Score >= pointsToWin - 1
  }

  /**
   * Who serves after `totalPoints` points at score `p1Score`-`p2Score`, and
   * whether the game is in deuce.
   */
  function ResolveServe(
    totalPoints: int, servesBeforeChange: int, servesInDeuce: int, pointsToWin: int,
    firstServer: Option<UserId>, player1: UserId, player2: UserId, p1Score: int, p2Score: int)
    : (r: ServeState)
    ensures r.isDeuce <==> InDeuce(p1Score, p2Score, pointsToWin)
    ensures var starter := Starter(firstServer, player1);
      r.server == starter || r.server == Receiver(starter, player1, player2)
    ensures var starter := Starter(firstServer, player1);
      var offset := totalPoints - PointsBeforeDeuce(pointsToWin);
      r.isDeuce && offset >= 0 ==>
        (StarterTurn(offset, servesInDeuce) ==> r.server == starter)
        && (!StarterTurn(offset, servesInDeuce) ==> r.server == Receiver(starter, player1, player2))
    ensures var starter := Starter(firstServer, player1);
      var offset := totalPoints - PointsBeforeDeuce(pointsToWin);
      !(r.isDeuce && offset >= 0) ==>
        (StarterTurn(totalPoints, servesBeforeChange) ==> r.server == starter)
        && (!StarterTurn(totalPoints, servesBeforeChange) ==> r.server == Receiver(starter, player1, player2))
  {
    var isDeuce := InDeuce(p1Score, p2Score, pointsToWin);
    var starter := Starter(firstServer, player1);
    var receiver := Receiver(starter, player1, player2);
    var server :=
      if isDeuce then
        var offset := totalPoints - PointsBeforeDeuce(pointsToWin);
        if offset >= 0 then
          (if StarterTurn(offset, servesInDeuce) then starter else receiver)
        else
          (if StarterTurn(totalPoints, servesBeforeChange) then starter else receiver)
      else
        (if StarterTurn(totalPoints, servesBeforeChange) then starter else receiver);
    ServeState(server, isDeuce)
  }

  /** With no first server, or one of the players as first server, a player serves. */
  lemma ServerIsAPlayer(
    totalPoints: int, servesBeforeChange: int, servesInDeuce: int, pointsToWin: int,
    firstServer: Option<UserId>, player1: UserId, player2: UserId, p1Score: int, p2Score: int)
    requires firstServer.None? || firstServer.value == player1 || firstServer.value == player2
    ensures var r := ResolveServe(totalPoints, servesBeforeChange, servesInDeuce, pointsToWin,
                                  firstServer, player1, player2, p1Score, p2Score);
      r.server == player1 || r.server == player2
  {
  }

  /** When the total is the sum of the scores, deuce never leaves a negative offset. */
  lemma DeuceOffsetNonNegative(p1Score: int, p2Score: int, pointsToWin: int)
    requires InDeuce(p1Score, p2Score, pointsToWin)
    ensures p1Score + p2Score - PointsBeforeDeuce(pointsToWin) >= 0
  {
  }

  /**
   * Outside deuce, from the start of a game, the serve follows the block
   * rotation of `servesBeforeChange` points.
   */
  lemma RegularServeFollowsBlocks(
    servesBeforeChange: int, servesInDeuce: int, pointsToWin: int,
    firstServer: Option<UserId>, player1: UserId, player2: UserId, p1Score: nat, p2Score: nat)
    requires servesBeforeChange >= 1
    requires !InDeuce(p1Score, p2Score, pointsToWin)
    ensures var starter := Starter(firstServer, player1);
      var r := ResolveServe(p1Score + p2Score, servesBeforeChange, servesInDeuce, pointsToWin,
                            firstServer, player1, player2, p1Score, p2Score);
      r.server == (if StarterServesBlock(p1Score + p2Score, servesBeforeChange)
                   then starter else Receiver(starter, player1, player2))
  {
    StarterTurnIsBlockRotation(p1Score + p2Score, servesBeforeChange);
  }

  /**
   * In deuce, with the total the sum of the scores, the serve follows the
   * block rotation of `servesInDeuce` points counted from the start of deuce.
   */
  lemma DeuceServeFollowsBlocks(
    servesBeforeChange: int, servesInDeuce: int, pointsToWin: int,
    firstServer: Option<UserId>, player1: UserId, player2: UserId, p1Score: int, p2Score: int)
    requires servesInDeuce >= 1
    requires InDeuce(p1Score, p2Score, pointsToWin)
    ensures var starter := Starter(firstServer, player1);
      var offset := p1Score + p2Score - PointsBeforeDeuce(pointsToWin);
      var r := ResolveServe(p1Score + p2Score, servesBeforeChange, servesInDeuce, pointsToWin,
                            firstServer, player1, player2, p1Score, p2Score);
      offset >= 0
      && r.server == (if StarterServesBlock(offset, servesInDeuce)
                      then starter else Receiver(starter, player1, player2))
  {
    var offset := p1Score + p2Score - PointsBeforeDeuce(pointsToWin);
    StarterTurnIsBlockRotation(offset, servesInDeuce);
  }

  /**
   * The first point of deuce is served by the starter, whatever the regular
   * rotation gives at that total.
   */
  lemma DeuceOpensWithStarter(
    servesBeforeChange: int, servesInDeuce: int, pointsToWin: int,
    firstServer: Option<UserId>, player1: UserId, player2: UserId)
    requires servesInDeuce != 0
    ensures ResolveServe(PointsBeforeDeuce(pointsToWin), servesBeforeChange, servesInDeuce, pointsToWin,
                         firstServer, player1, player2, pointsToWin - 1, pointsToWin - 1)
         == ServeState(Starter(firstServer, player1), true)
  {
  }

  /** With one serve each in deuce, the serve changes hands on every point of deuce. */
  lemma DeuceAlternatesEveryPoint(
    servesBeforeChange: int, pointsToWin: int, firstServer: Option<UserId>,
    player1: UserId, player2: UserId, p1Score: int, p2Score: int, p1Next: int, p2Next: int)
    requires player1 != player2
    requires firstServer.None? || firstServer.value == player1 || firstServer.value == player2
    requires InDeuce(p1Score, p2Score, pointsToWin)
    requires p1Next + p2Next == p1Score + p2Score + 1
    requires InDeuce(p1Next, p2Next, pointsToWin)
    ensures ResolveServe(p1Next + p2Next, servesBeforeChange, 1, pointsToWin,
                         firstServer, player1, player2, p1Next, p2Next).server
         != ResolveServe(p1Score + p2Score, servesBeforeChange, 1, pointsToWin,
                         firstServer, player1, player2, p1Score, p2Score).server
  {
  }

  /**
   * Eleven points, two serves each: the first server serves at 0-0 and
   * 2-2, the other player at 1-1; at 10-10 with one serve each in deuce
   * the first server serves, then the other player, then the first again.
   */
  lemma ElevenPointScenarios(a: UserId, b: UserId)
    requires a != b
    ensures ResolveServe(0, 2, 1, 11, Some(a), a, b, 0, 0) == ServeState(a, false)
    ensures ResolveServe(2, 2, 1, 11, Some(a), a, b, 1, 1) == ServeState(b, false)
    ensures ResolveServe(4, 2, 1, 11, Some(a), a, b, 2, 2) == ServeState(a, false)
    ensures ResolveServe(20, 2, 1, 11, Some(a), a, b, 10, 10) == ServeState(a, true)
    ensures ResolveServe(21, 2, 1, 11, Some(a), a, b, 11, 10) == ServeState(b, true)
    ensures ResolveServe(22, 2, 1, 11, Some(a), a, b, 11, 11) == ServeState(a, true)
  {
  }

  /**
   * Eleven points with four serves per turn: the starter serves the last
   * regular block, totals 16 to 19, and then the first point of deuce at
   * 10-10, although the regular rotation would hand total 20 to the receiver.
   */
  lemma FiveServeRunIntoDeuce(a: UserId, b: UserId)
    requires a != b
    ensures ResolveServe(16, 4, 1, 11, Some(a), a, b, 10, 6) == ServeState(a, false)
    ensures ResolveServe(19, 4, 1, 11, Some(a), a, b, 10, 9) == ServeState(a, false)
    ensures ResolveServe(20, 4, 1, 11, Some(a), a, b, 10, 10) == ServeState(a, true)
    ensures !StarterTurn(20, 4)
  {
  }
}

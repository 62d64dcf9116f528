/**
 * The match request handlers with their storage reads and writes removed:
 * each takes the loaded match (or, to start one, the looked-up game mode)
 * and answers with the match to be saved, or with the error the handler
 * returns.  The win counter kept on user documents is reported as a
 * `WinDelta` next to the new match and applied to a separate ledger.
 */
module MatchEngine {
  import opened Wrappers
  import opened MatchModel
  import opened WinRule

  datatype MatchError =
    | GameModeNotFound   // the game mode of a new match does not exist
    | MatchNotInProgress // a point on a finished or abandoned match
    | UserNotInMatch     // a point for a user who plays neither side
    | NothingToUndo      // undo with an empty log
    | InvalidServeType   // the rule snapshot fails the serve type enum

  /** Rule values a match may take instead of its game mode's. */
  datatype Overrides = Overrides(servesInDeuce: Option<int>, serveType: Option<string>)

  /** The change a handler asks of the users' win counters. */
  datatype WinDelta = NoChange | Credit(user: UserId) | Debit(user: UserId)

  /** A handler's answer: the match to save and the win counter change. */
  datatype Step = Step(next: Match, delta: WinDelta)

  /** A number field holds a truthy value: present and non-zero. */
  predicate TruthyNumber(x: Option<int>) {
    x.Some? && x.value != 0
  }

  /** A string field holds a truthy value: present and non-empty. */
  predicate TruthyString(x: Option<string>) {
    x.Some? && x.value != ""
  }

  /** Serves per turn in deuce: the override if truthy, else the game mode's if truthy, else one. */
  function SnapshotServesInDeuce(overrides: Option<Overrides>, gameMode: GameMode): (r: int)
    ensures r != 0
    ensures overrides.Some? && TruthyNumber(overrides.value.servesInDeuce) ==>
      r == overrides.value.servesInDeuce.value
    ensures !(overrides.Some? && TruthyNumber(overrides.value.servesInDeuce)) && TruthyNumber(gameMode.servesInDeuce) ==>
      r == gameMode.servesInDeuce.value
    ensures !(overrides.Some? && TruthyNumber(overrides.value.servesInDeuce)) && !TruthyNumber(gameMode.servesInDeuce) ==>
      r == 1
  {
    if overrides.Some? && TruthyNumber(overrides.value.servesInDeuce) then overrides.value.servesInDeuce.value
    else if TruthyNumber(gameMode.servesInDeuce) then gameMode.servesInDeuce.value
    else 1
  }

  /**
   * Serve type of the snapshot: the override string if truthy, else the game
   * mode's, else free.  An override outside the enum fails validation.
   */
  function SnapshotServeType(overrides: Option<Overrides>, gameMode: GameMode): (r: Result<ServeType, MatchError>)
    ensures r.Err? <==> overrides.Some? && TruthyString(overrides.value.serveType)
                        && ParseServeType(overrides.value.serveType.value).None?
    ensures r.Err? ==> r.error == InvalidServeType
    ensures r.Ok? && overrides.Some? && TruthyString(overrides.value.serveType) ==>
      ServeTypeName(r.value) == overrides.value.serveType.value
    ensures !(overrides.Some? && TruthyString(overrides.value.serveType)) ==>
      r == Ok(gameMode.serveType.GetOr(Free))
  {
    if overrides.Some? && TruthyString(overrides.value.serveType) then
      match ParseServeType(overrides.value.serveType.value)
      case Some(t) => Ok(t)
      case None => Err(InvalidServeType)
    else if gameMode.serveType.Some? then Ok(gameMode.serveType.value)
    else Ok(Free)
  }

  /** Starts a match between two users under the looked-up game mode, if there is one. */
  function StartMatch(player1: UserId, player2: UserId, gameMode: Option<GameMode>, overrides: Option<Overrides>)
    : (r: Result<Match, MatchError>)
    ensures gameMode.None? ==> r == Err(GameModeNotFound)
    ensures gameMode.Some? ==> (r.Err? <==> SnapshotServeType(overrides, gameMode.value).Err?)
    ensures r.Ok? ==>
      && r.value.player1 == player1 && r.value.player2 == player2
      && Some(r.value.gameMode) == gameMode
      && r.value.status == DefaultStatus
      && r.value.score == DefaultScore
      && r.value.events == []
      && r.value.winner.None? && r.value.firstServer.None? && r.value.endTime.None?
      && r.value.matchRules.servesInDeuce == SnapshotServesInDeuce(overrides, gameMode.value)
      && r.value.matchRules.servesInDeuce != 0
      && Ok(r.value.matchRules.serveType) == SnapshotServeType(overrides, gameMode.value)
    ensures r.Ok? && overrides.None? && gameMode.value.servesInDeuce.None? && gameMode.value.serveType.None? ==>
      r.value.matchRules == DefaultRules
  {
    if gameMode.None? then Err(GameModeNotFound)
    else
      var gm := gameMode.value;
      match SnapshotServeType(overrides, gm)
      case Err(e) => Err(e)
      case Ok(serveType) =>
        Ok(Match(
          player1, player2, gm, InProgress, Score(0, 0), [], None, None, None,
          MatchRules(SnapshotServesInDeuce(overrides, gm), serveType)))
  }

  /**
   * The score after `playerId` scores: each player the id matches gains one
   * point, so a match whose two players share an id credits both.
   */
  function ScoreAfterPoint(m: Match, playerId: UserId): (s: Score)
    ensures m.player1 != m.player2 && playerId == m.player1 ==> s == Score(m.score.p1 + 1, m.score.p2)
    ensures m.player1 != m.player2 && playerId == m.player2 ==> s == Score(m.score.p1, m.score.p2 + 1)
    ensures m.player1 == m.player2 && playerId == m.player1 ==> s == Score(m.score.p1 + 1, m.score.p2 + 1)
    ensures playerId != m.player1 && playerId != m.player2 ==> s == m.score
  {
    Score(if m.player1 == playerId then m.score.p1 + 1 else m.score.p1,
          if m.player2 == playerId then m.score.p2 + 1 else m.score.p2)
  }

  /**
   * Records a point for `playerId` at time `now`: the guard, the score
   * increment, the logged event and the win check.
   */
  function AddPoint(m: Match, playerId: UserId, now: Timestamp): (r: Result<Step, MatchError>)
    ensures m.status != InProgress ==> r == Err(MatchNotInProgress)
    ensures m.status == InProgress && playerId != m.player1 && playerId != m.player2 ==> r == Err(UserNotInMatch)
    ensures r.Ok? <==> m.status == InProgress && (playerId == m.player1 || playerId == m.player2)
    ensures r.Ok? ==>
      var n := r.value.next;
      && n.events == m.events + [Event(PointEvent, playerId, n.score)]
      && n.score == ScoreAfterPoint(m, playerId)
      && n.score.p1 + n.score.p2 == m.score.p1 + m.score.p2 + (if m.player1 == m.player2 then 2 else 1)
      && n.player1 == m.player1 && n.player2 == m.player2 && n.gameMode == m.gameMode
      && n.firstServer == m.firstServer && n.matchRules == m.matchRules
    ensures r.Ok? ==>
      var n := r.value.next;
      var w := CheckWinCondition(n.score.p1, n.score.p2, m.gameMode);
      && (w.Some? ==> n.status == Finished && n.winner == Some(PlayerOf(m, w.value))
                      && n.endTime == Some(now) && r.value.delta == Credit(PlayerOf(m, w.value)))
      && (w.None? ==> n.status == InProgress && n.winner == m.winner
                      && n.endTime == m.endTime && r.value.delta == NoChange)
  {
    if m.status != InProgress then Err(MatchNotInProgress)
    else if m.player1 != playerId && m.player2 != playerId then Err(UserNotInMatch)
    else
      var score := ScoreAfterPoint(m, playerId);
      var events := m.events + [Event(PointEvent, playerId, score)];
      var played := m.(score := score, events := events);
      match CheckWinCondition(score.p1, score.p2, m.gameMode)
      case Some(side) =>
        var winner := PlayerOf(m, side);
        Ok(Step(played.(status := Finished, endTime := Some(now), winner := Some(winner)), Credit(winner)))
      case None =>
        Ok(Step(played, NoChange))
  }

  /** A score decremented by one point, never below zero. */
  function Decrement(x: int): (r: int)
    ensures x > 0 ==> r == x - 1
    ensures x <= 0 ==> r == 0
  {
    if x - 1 > 0 then x - 1 else 0
  }

  /**
   * The score after the event `e` is taken back: a point event takes one
   * point off each player its id matches.
   */
  function ScoreAfterUndo(m: Match, e: Event): (s: Score)
    ensures e.kind == UndoEvent ==> s == m.score
    ensures e.kind == PointEvent && m.player1 != m.player2 && e.elementId == m.player1 ==>
      s == Score(Decrement(m.score.p1), m.score.p2)
    ensures e.kind == PointEvent && m.player1 != m.player2 && e.elementId == m.player2 ==>
      s == Score(m.score.p1, Decrement(m.score.p2))
    ensures e.kind == PointEvent && m.player1 == m.player2 && e.elementId == m.player1 ==>
      s == Score(Decrement(m.score.p1), Decrement(m.score.p2))
    ensures e.elementId != m.player1 && e.elementId != m.player2 ==> s == m.score
  {
    if e.kind == PointEvent then
      Score(if m.player1 == e.elementId then Decrement(m.score.p1) else m.score.p1,
            if m.player2 == e.elementId then Decrement(m.score.p2) else m.score.p2)
    else m.score
  }

  /**
   * Takes back the last logged event, whatever the status: pops it, takes
   * its point off the score and reopens a finished match.
   */
  function UndoLastPoint(m: Match): (r: Result<Step, MatchError>)
    ensures r.Err? <==> m.events == []
    ensures r.Err? ==> r.error == NothingToUndo
    ensures r.Ok? ==>
      var n := r.value.next;
      && n.events == m.events[..|m.events| - 1]
      && n.score == ScoreAfterUndo(m, m.events[|m.events| - 1])
      && n.player1 == m.player1 && n.player2 == m.player2 && n.gameMode == m.gameMode
      && n.firstServer == m.firstServer && n.matchRules == m.matchRules
    ensures r.Ok? && m.status == Finished ==>
      var n := r.value.next;
      && n.status == InProgress && n.winner.None? && n.endTime.None?
      && r.value.delta == (if m.winner.Some? then Debit(m.winner.value) else NoChange)
    ensures r.Ok? && m.status != Finished ==>
      var n := r.value.next;
      && n.status == m.status && n.winner == m.winner && n.endTime == m.endTime
      && r.value.delta == NoChange
  {
    if |m.events| == 0 then Err(NothingToUndo)
    else
      var last := m.events[|m.events| - 1];
      var popped := m.(events := m.events[..|m.events| - 1], score := ScoreAfterUndo(m, last));
      if m.status == Finished then
        var delta := if m.winner.Some? then Debit(m.winner.value) else NoChange;
        Ok(Step(popped.(status := InProgress, endTime := None, winner := None), delta))
      else
        Ok(Step(popped, NoChange))
  }

  /** Abandons a match in progress at time `now`; any other match is returned as it is. */
  function CancelMatch(m: Match, now: Timestamp): (r: Match)
    ensures m.status == InProgress ==> r == m.(status := Abandoned, endTime := Some(now))
    ensures m.status != InProgress ==> r == m
    ensures r.status != InProgress
  {
    if m.status == InProgress then m.(status := Abandoned, endTime := Some(now)) else m
  }

  /** Records `playerId` as the first server; nothing is checked and nothing else changes. */
  function SetFirstServer(m: Match, playerId: UserId): (r: Match)
    ensures r.firstServer == Some(playerId)
    ensures r.(firstServer := m.firstServer) == m
  {
    m.(firstServer := Some(playerId))
  }

  /** Users' win counters; an update of a user without a document does nothing. */
  type WinLedger = map<UserId, int>

  function ApplyDelta(wins: WinLedger, d: WinDelta): (r: WinLedger)
    ensures r.Keys == wins.Keys
    ensures d.Credit? && d.user in wins ==> r[d.user] == wins[d.user] + 1
    ensures d.Debit? && d.user in wins ==> r[d.user] == wins[d.user] - 1
    ensures forall u :: u in wins && (d.NoChange? || u != d.user) ==> r[u] == wins[u]
  {
    match d
    case NoChange => wins
    case Credit(u) => if u in wins then wins[u := wins[u] + 1] else wins
    case Debit(u) => if u in wins then wins[u := wins[u] - 1] else wins
  }
}

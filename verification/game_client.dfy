/**
 * The game screen's own logic: which requests a click sends, when the
 * first-server prompt is shown, when undo is offered, and the serve it
 * shows, computed from the match it last received.  The point, undo and
 * first-server handlers give the match the screen shows next; a request
 * answered with an error leaves it as it was.  The Home button's handler
 * gives the match stored by its request, since the screen then leaves.
 */
module GameClient {
  import opened Wrappers
  import opened MatchModel
  import opened MatchEngine
  import opened MatchHistory
  import opened ServeRotation

  /** The rule snapshot's serves in deuce, with a falsy value replaced by one. */
  function ServesInDeuceOrOne(servesInDeuce: int): (r: int)
    ensures r != 0
    ensures servesInDeuce != 0 ==> r == servesInDeuce
    ensures servesInDeuce == 0 ==> r == 1
  {
    if servesInDeuce != 0 then servesInDeuce else 1
  }

  /**
   * The serve shown for match `m`, from its total points played, its game
   * mode and its rule snapshot.  The deuce flag it carries is the screen's
   * local test that picks the deuce rotation; the deuce badge reads another
   * value (see `DeuceBadgeAsWritten`).
   */
  function CurrentServe(m: Match): (r: ServeState)
    ensures r.isDeuce <==> InDeuce(m.score.p1, m.score.p2, m.gameMode.pointsToWin)
    ensures m.firstServer.None? || m.firstServer.value == m.player1 || m.firstServer.value == m.player2 ==>
      r.server == m.player1 || r.server == m.player2
  {
    ResolveServe(
      m.score.p1 + m.score.p2, m.gameMode.servesBeforeChange, ServesInDeuceOrOne(m.matchRules.servesInDeuce),
      m.gameMode.pointsToWin, m.firstServer, m.player1, m.player2, m.score.p1, m.score.p2)
  }

  /**
   * The first-server prompt replaces the board while no first server, no
   * winner and play goes on; in a valid match that is a game not yet decided.
   */
  predicate ShowServerPrompt(m: Match): (r: bool)
    ensures r ==> m.firstServer.None? && m.winner.None?
    ensures r && Valid(m) ==> m.endTime.None? && Verdict(m.gameMode, m.score).None?
  {
    m.firstServer.None? && m.winner.None? && m.status == InProgress
  }

  /** The undo button is enabled while the log is not empty, exactly when the undo handler would accept. */
  predicate UndoEnabled(m: Match): (r: bool)
    ensures r <==> UndoLastPoint(m).Ok?
  {
    m.events != []
  }

  /** A click on a player's card: ignored on a finished match, otherwise sent as a point. */
  function HandlePoint(m: Match, side: Side, now: Timestamp): (r: Match)
    ensures m.status != InProgress ==> r == m
    ensures m.status == InProgress ==> r == AddPoint(m, PlayerOf(m, side), now).value.next
  {
    if m.status == Finished then m
    else
      match AddPoint(m, PlayerOf(m, side), now)
      case Ok(s) => s.next
      case Err(_) => m
  }

  /** A click on undo; an empty log is refused and leaves the match as shown. */
  function HandleUndo(m: Match): (r: Match)
    ensures !UndoEnabled(m) ==> r == m
    ensures UndoEnabled(m) ==> r.events == m.events[..|m.events| - 1]
    ensures UndoEnabled(m) && m.status == Finished ==> r.status == InProgress && r.winner.None?
    ensures UndoEnabled(m) ==> r == UndoLastPoint(m).value.next
  {
    if !UndoEnabled(m) then m
    else
      match UndoLastPoint(m)
      case Ok(s) => s.next
      case Err(_) => m
  }

  /** A choice on the first-server prompt, which offers the two players. */
  function ChooseFirstServer(m: Match, side: Side): (r: Match)
    ensures r.firstServer == Some(PlayerOf(m, side))
    ensures !ShowServerPrompt(r)
    ensures r.(firstServer := m.firstServer) == m
  {
    SetFirstServer(m, PlayerOf(m, side))
  }

  /**
   * The match stored after the board's Home button: a match still in
   * progress is cancelled, and the screen then leaves without showing the
   * reply.  The prompt's own cancel button only leaves and sends no request.
   */
  function HandleExit(m: Match, now: Timestamp): (r: Match)
    ensures r.status != InProgress
    ensures m.status == InProgress ==> r == CancelMatch(m, now) && r.status == Abandoned && r.endTime == Some(now)
    ensures m.status != InProgress ==> r == m
  {
    if m.status == InProgress then CancelMatch(m, now) else m
  }

  /** In a valid match a click always reaches the point handler and is accepted while play goes on. */
  lemma PointClickAccepted(m: Match, side: Side, now: Timestamp)
    requires Valid(m)
    requires m.status == InProgress
    ensures AddPoint(m, PlayerOf(m, side), now).Ok?
    ensures |HandlePoint(m, side, now).events| == |m.events| + 1
  {
  }

  /** Every click keeps a valid match valid. */
  lemma ClicksKeepValid(m: Match, side: Side, now: Timestamp)
    requires Valid(m)
    ensures Valid(HandlePoint(m, side, now))
    ensures Valid(HandleUndo(m))
    ensures Valid(ChooseFirstServer(m, side))
    ensures Valid(HandleExit(m, now))
  {
    if m.status == InProgress {
      AddPointPreservesValid(m, PlayerOf(m, side), now);
      CancelPreservesValid(m, now);
    }
    if UndoEnabled(m) {
      UndoPreservesValid(m);
    }
    SetFirstServerPreservesValid(m, PlayerOf(m, side));
  }

  /**
   * The player chosen on the prompt serves the first point, when the game
   * mode's target is positive and its serves per turn are not zero.
   */
  lemma ChosenServerServesFirst(m: Match, side: Side)
    requires m.score == Score(0, 0)
    requires m.gameMode.pointsToWin >= 1 && m.gameMode.servesBeforeChange != 0
    ensures CurrentServe(ChooseFirstServer(m, side)).server == PlayerOf(m, side)
  {
  }

  /** A new match opens on the first-server prompt. */
  lemma StartShowsPrompt(player1: UserId, player2: UserId, gameMode: Option<GameMode>, overrides: Option<Overrides>)
    requires StartMatch(player1, player2, gameMode, overrides).Ok?
    ensures ShowServerPrompt(StartMatch(player1, player2, gameMode, overrides).value)
  {
  }

  /** Once a first server is chosen, no sequence of requests brings the prompt back. */
  lemma {:induction false} PromptNeverReturns(m: Match, cmds: seq<Command>)
    requires m.firstServer.Some?
    ensures Run(m, cmds).firstServer.Some?
    ensures !ShowServerPrompt(Run(m, cmds))
    decreases |cmds|
  {
    if cmds != [] {
      PromptNeverReturns(Apply(m, cmds[0]), cmds[1..]);
    }
  }

  /** In a valid match undo is offered exactly when some point stands on the board. */
  lemma UndoOfferedIffPointsStand(m: Match)
    requires Valid(m)
    ensures UndoEnabled(m) <==> m.score != Score(0, 0)
  {
  }

  /**
   * The shown server follows the block rotation: outside deuce in blocks of
   * the game mode's serves per turn from the first point, in deuce in blocks
   * of the snapshot's serves in deuce from the first point of deuce.
   */
  lemma ShownServeFollowsRotation(m: Match)
    requires m.score.p1 >= 0 && m.score.p2 >= 0
    requires m.gameMode.servesBeforeChange >= 1
    requires m.matchRules.servesInDeuce >= 0
    ensures var starter := Starter(m.firstServer, m.player1);
      var receiver := Receiver(starter, m.player1, m.player2);
      !InDeuce(m.score.p1, m.score.p2, m.gameMode.pointsToWin) ==>
        CurrentServe(m).server
        == (if StarterServesBlock(m.score.p1 + m.score.p2, m.gameMode.servesBeforeChange) then starter else receiver)
    ensures var starter := Starter(m.firstServer, m.player1);
      var receiver := Receiver(starter, m.player1, m.player2);
      InDeuce(m.score.p1, m.score.p2, m.gameMode.pointsToWin) ==>
        CurrentServe(m).server
        == (if StarterServesBlock(m.score.p1 + m.score.p2 - PointsBeforeDeuce(m.gameMode.pointsToWin),
                                  ServesInDeuceOrOne(m.matchRules.servesInDeuce))
            then starter else receiver)
  {
    var sid := ServesInDeuceOrOne(m.matchRules.servesInDeuce);
    if InDeuce(m.score.p1, m.score.p2, m.gameMode.pointsToWin) {
      DeuceServeFollowsBlocks(m.gameMode.servesBeforeChange, sid, m.gameMode.pointsToWin,
                              m.firstServer, m.player1, m.player2, m.score.p1, m.score.p2);
    } else {
      RegularServeFollowsBlocks(m.gameMode.servesBeforeChange, sid, m.gameMode.pointsToWin,
                                m.firstServer, m.player1, m.player2, m.score.p1, m.score.p2);
    }
  }

  /**
   * The deuce flag the screen's badge reads from the received match.  The
   * match document has no such field and no handler sets one, so it is absent.
   */
  function StoredDeuceFlag(m: Match): Option<bool> {
    None
  }

  /** The deuce badge as the screen tests it: the received match's own deuce flag. */
  predicate DeuceBadgeAsWritten(m: Match) {
    StoredDeuceFlag(m) == Some(true)
  }

  /** The deuce badge as its comment describes it: shown while deuce is active. */
  predicate DeuceBadge(m: Match): (shown: bool)
    ensures shown <==> InDeuce(m.score.p1, m.score.p2, m.gameMode.pointsToWin)
    ensures shown <==> CurrentServe(m).isDeuce
  {
    CurrentServe(m).isDeuce
  }

  /**
   * At 10-10 of an eleven-point game the serve follows the deuce rotation,
   * yet the badge as written stays hidden; the intended badge is shown.
   */
  lemma DeuceBadgeMissingAtTenAll(m: Match)
    requires m.gameMode.pointsToWin == 11 && m.score == Score(10, 10)
    ensures CurrentServe(m).isDeuce
    ensures !DeuceBadgeAsWritten(m)
    ensures DeuceBadge(m)
  {
  }

  /** As written the badge never shows; as intended it shows exactly in deuce. */
  lemma DeuceBadgeAsWrittenNeverShows(m: Match)
    ensures !DeuceBadgeAsWritten(m)
    ensures DeuceBadge(m) <==> InDeuce(m.score.p1, m.score.p2, m.gameMode.pointsToWin)
  {
  }
}

/**
 * What the event log of a match guarantees.  A match is `Valid` when its
 * score is the per-player count of the logged points, every logged snapshot
 * is the count up to that event, no earlier score had decided the game, and
 * status, winner and end time agree with the win rule.  Every handler keeps a
 * valid match valid, so every match reached from a start is valid, and the
 * undo handler is a left inverse of the point handler.
 */
module MatchHistory {
  import opened Wrappers
  import opened MatchModel
  import opened WinRule
  import opened MatchEngine

  /** Number of point events in `log` that name `who`. */
  function PointsOf(log: seq<Event>, who: UserId): (n: nat)
    ensures n <= |log|
  {
    if log == [] then 0
    else
      var last := log[|log| - 1];
      PointsOf(log[..|log| - 1], who) + (if last.kind == PointEvent && last.elementId == who then 1 else 0)
  }

  /** The score a log stands for: each player's count of points. */
  function Tally(log: seq<Event>, player1: UserId, player2: UserId): Score {
    Score(PointsOf(log, player1), PointsOf(log, player2))
  }

  /** The win rule's answer at score `s` under `rules`. */
  function Verdict(rules: GameMode, s: Score): Option<Side> {
    CheckWinCondition(s.p1, s.p2, rules)
  }

  /** Every event is a point of one of the two players. */
  predicate PointsOnly(log: seq<Event>, player1: UserId, player2: UserId) {
    forall i :: 0 <= i < |log| ==>
      log[i].kind == PointEvent && (log[i].elementId == player1 || log[i].elementId == player2)
  }

  /** Every event carries the score of the log up to and including it. */
  predicate SnapshotsAgree(log: seq<Event>, player1: UserId, player2: UserId) {
    forall i :: 0 <= i < |log| ==> log[i].snapshot == Tally(log[..i + 1], player1, player2)
  }

  /** No event was scored on a match the rules had already decided. */
  predicate PrefixesUndecided(log: seq<Event>, player1: UserId, player2: UserId, rules: GameMode) {
    forall i :: 0 <= i < |log| ==> Verdict(rules, Tally(log[..i], player1, player2)).None?
  }

  /** Status, winner and end time agree with the win rule at the current score. */
  predicate StatusAgrees(m: Match) {
    && (m.status == Finished <==> m.winner.Some?)
    && (m.status == InProgress <==> m.endTime.None?)
    && (m.status == Finished ==>
          Verdict(m.gameMode, m.score).Some?
          && m.winner == Some(PlayerOf(m, Verdict(m.gameMode, m.score).value)))
    && (m.status != Finished ==> Verdict(m.gameMode, m.score).None?)
  }

  predicate Valid(m: Match) {
    && m.player1 != m.player2
    && PointsOnly(m.events, m.player1, m.player2)
    && SnapshotsAgree(m.events, m.player1, m.player2)
    && PrefixesUndecided(m.events, m.player1, m.player2, m.gameMode)
    && m.score == Tally(m.events, m.player1, m.player2)
    && StatusAgrees(m)
  }

  lemma TallyAppend(log: seq<Event>, e: Event, player1: UserId, player2: UserId)
    ensures (log + [e])[..|log|] == log
    ensures PointsOf(log + [e], player1)
         == PointsOf(log, player1) + (if e.kind == PointEvent && e.elementId == player1 then 1 else 0)
    ensures PointsOf(log + [e], player2)
         == PointsOf(log, player2) + (if e.kind == PointEvent && e.elementId == player2 then 1 else 0)
  {
  }

  /**
   * Appending a point of a player, whose snapshot is the new tally, to a log
   * whose score had not decided the game keeps the log's properties.
   */
  lemma AppendKeepsLog(log: seq<Event>, e: Event, player1: UserId, player2: UserId, rules: GameMode)
    requires PointsOnly(log, player1, player2)
    requires SnapshotsAgree(log, player1, player2)
    requires PrefixesUndecided(log, player1, player2, rules)
    requires e.kind == PointEvent && (e.elementId == player1 || e.elementId == player2)
    requires e.snapshot == Tally(log + [e], player1, player2)
    requires Verdict(rules, Tally(log, player1, player2)).None?
    ensures PointsOnly(log + [e], player1, player2)
    ensures SnapshotsAgree(log + [e], player1, player2)
    ensures PrefixesUndecided(log + [e], player1, player2, rules)
  {
    var log' := log + [e];
    forall i | 0 <= i < |log'|
      ensures log'[i].snapshot == Tally(log'[..i + 1], player1, player2)
      ensures Verdict(rules, Tally(log'[..i], player1, player2)).None?
    {
      if i < |log| {
        assert log'[..i + 1] == log[..i + 1];
        assert log'[..i] == log[..i];
      } else {
        assert log'[..i + 1] == log';
        assert log'[..i] == log;
      }
    }
  }

  /** Popping the last event keeps the log's properties, and the rest had not decided the game. */
  lemma PopKeepsLog(log: seq<Event>, player1: UserId, player2: UserId, rules: GameMode)
    requires log != []
    requires PointsOnly(log, player1, player2)
    requires SnapshotsAgree(log, player1, player2)
    requires PrefixesUndecided(log, player1, player2, rules)
    ensures PointsOnly(log[..|log| - 1], player1, player2)
    ensures SnapshotsAgree(log[..|log| - 1], player1, player2)
    ensures PrefixesUndecided(log[..|log| - 1], player1, player2, rules)
    ensures Verdict(rules, Tally(log[..|log| - 1], player1, player2)).None?
  {
    var init := log[..|log| - 1];
    forall i | 0 <= i < |init|
      ensures init[i].snapshot == Tally(init[..i + 1], player1, player2)
      ensures Verdict(rules, Tally(init[..i], player1, player2)).None?
    {
      assert init[..i + 1] == log[..i + 1];
      assert init[..i] == log[..i];
    }
  }

  /** When every event is a point of one of two distinct players, the counts add up to the log length. */
  lemma {:induction false} TallyCoversLog(log: seq<Event>, player1: UserId, player2: UserId)
    requires player1 != player2
    requires PointsOnly(log, player1, player2)
    ensures PointsOf(log, player1) + PointsOf(log, player2) == |log|
  {
    if log != [] {
      var init := log[..|log| - 1];
      assert forall i :: 0 <= i < |init| ==> init[i] == log[i];
      TallyCoversLog(init, player1, player2);
    }
  }

  /** In a valid match the two scores add up to the number of logged events. */
  lemma ScoreCountsEvents(m: Match)
    requires Valid(m)
    ensures m.score.p1 >= 0 && m.score.p2 >= 0
    ensures m.score.p1 + m.score.p2 == |m.events|
  {
    TallyCoversLog(m.events, m.player1, m.player2);
  }

  lemma StartMatchIsValid(player1: UserId, player2: UserId, gameMode: Option<GameMode>, overrides: Option<Overrides>)
    requires player1 != player2
    requires StartMatch(player1, player2, gameMode, overrides).Ok?
    ensures Valid(StartMatch(player1, player2, gameMode, overrides).value)
  {
  }

  lemma AddPointPreservesValid(m: Match, playerId: UserId, now: Timestamp)
    requires Valid(m)
    requires AddPoint(m, playerId, now).Ok?
    ensures Valid(AddPoint(m, playerId, now).value.next)
  {
    var n := AddPoint(m, playerId, now).value.next;
    var e := Event(PointEvent, playerId, n.score);
    TallyAppend(m.events, e, m.player1, m.player2);
    assert n.score == Tally(n.events, n.player1, n.player2);
    AppendKeepsLog(m.events, e, m.player1, m.player2, m.gameMode);
  }

  lemma UndoPreservesValid(m: Match)
    requires Valid(m)
    requires UndoLastPoint(m).Ok?
    ensures Valid(UndoLastPoint(m).value.next)
  {
    var n := UndoLastPoint(m).value.next;
    var k := |m.events| - 1;
    var last := m.events[k];
    assert m.events == n.events + [last];
    TallyAppend(n.events, last, m.player1, m.player2);
    PopKeepsLog(m.events, m.player1, m.player2, m.gameMode);
    assert n.score == Tally(n.events, n.player1, n.player2);
  }

  lemma CancelPreservesValid(m: Match, now: Timestamp)
    requires Valid(m)
    ensures Valid(CancelMatch(m, now))
  {
  }

  /** A cancelled match refuses every later point, and cancelling it again changes nothing. */
  lemma CancelIsFinal(m: Match, now: Timestamp, later: Timestamp, playerId: UserId)
    requires m.status == InProgress
    ensures CancelMatch(m, now).status == Abandoned
    ensures AddPoint(CancelMatch(m, now), playerId, later) == Err(MatchNotInProgress)
    ensures CancelMatch(CancelMatch(m, now), later) == CancelMatch(m, now)
  {
  }

  lemma SetFirstServerPreservesValid(m: Match, playerId: UserId)
    requires Valid(m)
    ensures Valid(SetFirstServer(m, playerId))
  {
  }

  /** The win counter change that takes `d` back. */
  function Reverse(d: WinDelta): (r: WinDelta)
    ensures d.NoChange? <==> r.NoChange?
    ensures d.Credit? ==> r == Debit(d.user)
  {
    match d
    case NoChange => NoChange
    case Credit(u) => Debit(u)
    case Debit(u) => Credit(u)
  }

  /** Taking back a point that did not decide the game gives back the match as it was. */
  lemma UndoInvertsPoint(m: Match, playerId: UserId, now: Timestamp)
    requires m.score.p1 >= 0 && m.score.p2 >= 0
    requires AddPoint(m, playerId, now).Ok?
    requires AddPoint(m, playerId, now).value.next.status != Finished
    ensures UndoLastPoint(AddPoint(m, playerId, now).value.next) == Ok(Step(m, NoChange))
  {
  }

  /**
   * Taking back the winning point reopens the match with its old score and
   * log, and debits exactly the winner the point credited.
   */
  lemma UndoInvertsWinningPoint(m: Match, playerId: UserId, now: Timestamp)
    requires m.score.p1 >= 0 && m.score.p2 >= 0
    requires m.winner.None? && m.endTime.None?
    requires AddPoint(m, playerId, now).Ok?
    requires AddPoint(m, playerId, now).value.next.status == Finished
    ensures AddPoint(m, playerId, now).value.delta.Credit?
    ensures UndoLastPoint(AddPoint(m, playerId, now).value.next)
         == Ok(Step(m, Reverse(AddPoint(m, playerId, now).value.delta)))
  {
  }

  /** Applying a win counter change and then its reverse leaves every counter as it was. */
  lemma ReverseRestoresLedger(wins: WinLedger, d: WinDelta)
    ensures ApplyDelta(ApplyDelta(wins, d), Reverse(d)) == wins
  {
  }

  /** In a valid match, a point followed by an undo restores the match and the win counters. */
  lemma PointThenUndoRestores(m: Match, playerId: UserId, now: Timestamp, wins: WinLedger)
    requires Valid(m)
    requires AddPoint(m, playerId, now).Ok?
    ensures var s := AddPoint(m, playerId, now).value;
      && UndoLastPoint(s.next).Ok?
      && UndoLastPoint(s.next).value.next == m
      && ApplyDelta(ApplyDelta(wins, s.delta), UndoLastPoint(s.next).value.delta) == wins
  {
  }

  /** A request against a stored match. */
  datatype Command =
    | PointFor(playerId: UserId, at: Timestamp)
    | Undo
    | Cancel(at: Timestamp)
    | ChooseServer(playerId: UserId)

  /** The match stored after a request; a request answered with an error stores nothing. */
  function Apply(m: Match, c: Command): (r: Match)
    ensures c.PointFor? && AddPoint(m, c.playerId, c.at).Err? ==> r == m
    ensures c.Undo? && m.events == [] ==> r == m
    ensures c.Undo? && m.events != [] ==> |r.events| == |m.events| - 1
    ensures c.PointFor? && AddPoint(m, c.playerId, c.at).Ok? ==> |r.events| == |m.events| + 1
    ensures c.Cancel? || c.ChooseServer? ==> r.events == m.events && r.score == m.score
    ensures !c.ChooseServer? ==> r.firstServer == m.firstServer
  {
    match c
    case PointFor(p, t) => (match AddPoint(m, p, t) case Ok(s) => s.next case Err(_) => m)
    case Undo => (match UndoLastPoint(m) case Ok(s) => s.next case Err(_) => m)
    case Cancel(t) => CancelMatch(m, t)
    case ChooseServer(p) => SetFirstServer(m, p)
  }

  function Run(m: Match, cmds: seq<Command>): Match
    decreases |cmds|
  {
    if cmds == [] then m else Run(Apply(m, cmds[0]), cmds[1..])
  }

  lemma ApplyPreservesValid(m: Match, c: Command)
    requires Valid(m)
    ensures Valid(Apply(m, c))
  {
    match c
    case PointFor(p, t) =>
      if AddPoint(m, p, t).Ok? { AddPointPreservesValid(m, p, t); }
    case Undo =>
      if UndoLastPoint(m).Ok? { UndoPreservesValid(m); }
    case Cancel(t) => CancelPreservesValid(m, t);
    case ChooseServer(p) => SetFirstServerPreservesValid(m, p);
  }

  lemma {:induction false} RunPreservesValid(m: Match, cmds: seq<Command>)
    requires Valid(m)
    ensures Valid(Run(m, cmds))
    decreases |cmds|
  {
    if cmds != [] {
      ApplyPreservesValid(m, cmds[0]);
      RunPreservesValid(Apply(m, cmds[0]), cmds[1..]);
    }
  }

  /**
   * Every match reached from a start between two distinct users, by any
   * sequence of requests, is valid: its scores add up to its log length.
   */
  lemma ReachableMatchIsValid(
    player1: UserId, player2: UserId, gameMode: Option<GameMode>, overrides: Option<Overrides>, cmds: seq<Command>)
    requires player1 != player2
    requires StartMatch(player1, player2, gameMode, overrides).Ok?
    ensures Valid(Run(StartMatch(player1, player2, gameMode, overrides).value, cmds))
    ensures var m := Run(StartMatch(player1, player2, gameMode, overrides).value, cmds);
      m.score.p1 + m.score.p2 == |m.events|
  {
    var m0 := StartMatch(player1, player2, gameMode, overrides).value;
    StartMatchIsValid(player1, player2, gameMode, overrides);
    RunPreservesValid(m0, cmds);
    ScoreCountsEvents(Run(m0, cmds));
  }
}

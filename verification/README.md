# Table-tennis match counter: scoring and serve rotation

This project models the core of a head-to-head table-tennis counter. A match
between two users is scored point by point. Every point is logged with a
snapshot of the score. The win rule decides when a game is over. Undo pops
the last logged point and can reopen a finished match. A cancel abandons a
match in progress. The game screen works out whose turn it is to serve, and
whether the game is in deuce, from the score and the rules every time it
draws.

The request handlers are modelled with their storage reads and writes
removed. Each handler is a pure function from the loaded match to the match
it would save, or to the error it answers with. The users' win counters are
a side effect on another document. Each handler reports its change to those
counters as a `WinDelta`, and `ApplyDelta` applies it to a ledger map.

Modules:

- `MatchModel` (`match_model.dfy`): the Match document, its events, the
  GameMode record it is played under, the rule snapshot, and the string
  enums of the schema.
- `WinRule` (`win_rule.dfy`): the win condition, branch by branch as written.
  It is proved equal to "reach the target and lead by two", with the deuce
  flag having no effect.
- `MatchEngine` (`match_engine.dfy`): start, point, undo, cancel and set-first-server.
- `MatchHistory` (`match_history.dfy`): the validity invariant of a match, its
  preservation by every handler, the undo-inverts-point lemmas, and runs of
  requests from a start.
- `ServeRotation` (`serve_rotation.dfy`): the serve resolver, with floor
  division, and a division-free reference rotation that it is proved equal to.
- `GameClient` (`game_client.dfy`): the game screen's guards, its handlers and
  the serve it shows.

Where the handlers do less than their comments suggest, the model follows the code:

- Setting the first server checks nothing. Any user id is stored, at any
  score and in any status. The handler only has a comment about restricting
  it to 0–0 (backend/src/controllers/matchController.js:246-249).
- Undo does not look at the status. It also pops a point off an abandoned
  match, and that match stays abandoned.
- The handlers do not check that the rule values are positive. The resolver
  is total anyway: a zero serves-per-turn divides to a non-finite turn
  number, whose parity test fails, so the receiver serves.
- The event schema allows an `undo` kind. Undo of such an event pops it and
  leaves the score alone. The handlers only ever log `point` events.

A valid match (`MatchHistory.Valid`) has distinct players. Every logged
event is a point of one of them, and each snapshot is the running tally.
No logged point was scored on a game that was already decided. The score is
the per-player count of points. The status, winner and end time agree with
the win rule. Distinct players are a precondition because the match setup
screen refuses a user playing themself. The backend does not check it.

At the first point of deuce the starter always serves
(`ServeRotation.DeuceOpensWithStarter`). That continues the regular rotation
only when the regular turn number at `2 * (pointsToWin - 1)` points is even.
It is even for all three seeded modes (11/2, 21/5, 7/1). A created mode such
as 11 points with 4 serves makes the starter serve five points in a row:
the last regular block (totals 16 to 19) and the first point of deuce at
10-10 (`ServeRotation.FiveServeRunIntoDeuce`).
The source's own comment derives the deuce starter for the two-serve case
only, so the model keeps this behaviour as written.

## Model

| member | source | states |
|---|---|---|
| `MatchModel.PlayerOf` | backend/src/controllers/matchController.js:103 | the win key `p1` stands for the first player and `p2` for the second |
| `MatchModel.ParseStatus` | backend/src/models/Match.js:18 | exactly `in_progress`, `finished` and `abandoned` are statuses, each the name of the status it parses to |
| `MatchModel.ParseEventKind` | backend/src/models/Match.js:4 | exactly `point` and `undo` are event types, each the name of the kind it parses to |
| `MatchModel.ParseServeType` | backend/src/models/Match.js:37 | exactly `free` and `cross` are serve types, each the name of the type it parses to |
| `MatchModel.EnumNamesRoundTrip` | backend/src/models/Match.js:3-38 | every status, event kind and serve type is stored as a string that parses back to it |
| `WinRule.CheckWinCondition` | backend/src/controllers/matchController.js:6-26 | the answer is `p1` exactly when p1 has reached the target and leads by two or more, `p2` symmetrically, and no winner otherwise, whatever the deuce flag says |
| `WinRule.DeuceFlagIsInert` | backend/src/controllers/matchController.js:10-23 | turning the deuce flag over never changes the answer |
| `WinRule.WinIsSymmetric` | backend/src/controllers/matchController.js:10-23 | swapping the two scores swaps the winner |
| `WinRule.WinnerReachedTarget` | backend/src/controllers/matchController.js:10-23 | a winner has at least the target score and a lead of at least two |
| `WinRule.ElevenPointScenarios` | backend/src/controllers/matchController.js:6-26 | at eleven points, 11-8, 11-9 and 12-10 are wins and 10-10 and 11-10 are not |
| `MatchEngine.SnapshotServesInDeuce` | backend/src/controllers/matchController.js:49 | serves in deuce is the override if truthy, else the game mode's if truthy, else 1, so it is never 0 |
| `MatchEngine.SnapshotServeType` | backend/src/controllers/matchController.js:50 | serve type is the override if non-empty, else the game mode's, else free; an override outside the enum fails validation |
| `MatchEngine.StartMatch` | backend/src/controllers/matchController.js:38-52 | a missing game mode is not-found; otherwise the match has the schema's default status and score (in progress, 0-0; Match.js:18-22), an empty log, no winner, no first server, and a rule snapshot whose serves in deuce is the override-then-mode-then-1 fall-through and whose serve type is the override-then-mode-then-free fall-through; with no overrides and no rule values on the mode the snapshot is the schema default (1, free; Match.js:36-37) |
| `MatchEngine.ScoreAfterPoint` | backend/src/controllers/matchController.js:81-88 | the scorer, when a player, gains exactly one point and the other score is unchanged; when both players share the scorer's id both gain one; any other id changes nothing |
| `MatchEngine.AddPoint` | backend/src/controllers/matchController.js:79-107 | fails unless the match is in progress and the id is a player; otherwise appends one point event whose snapshot is the new score, and finishes the match with the matching winner, end time and win credit exactly when the new score wins |
| `MatchEngine.Decrement` | backend/src/controllers/matchController.js:144-145 | a score loses one point and never goes below zero |
| `MatchEngine.ScoreAfterUndo` | backend/src/controllers/matchController.js:141-146 | taking back a point event takes one point off its scorer only, off both scores when both players share its id, never below zero; other events leave the score alone |
| `MatchEngine.UndoLastPoint` | backend/src/controllers/matchController.js:137-157 | fails exactly on an empty log; otherwise pops only the last event, takes its point back, reopens a finished match with no winner and no end time and debits the former winner, and leaves other statuses alone |
| `MatchEngine.CancelMatch` | backend/src/controllers/matchController.js:220-224 | a match in progress becomes abandoned with an end time; any other match is unchanged |
| `MatchEngine.SetFirstServer` | backend/src/controllers/matchController.js:246-251 | the first server becomes the given id and nothing else changes |
| `MatchEngine.ApplyDelta` | backend/src/controllers/matchController.js:153-155 | a credit or debit moves only that user's counter by one, and does nothing for a user with no counter |
| `MatchHistory.PointsOf` | backend/src/models/Match.js:25 | a user's point count never exceeds the log length |
| `MatchHistory.AppendKeepsLog` | backend/src/controllers/matchController.js:91-95 | appending a player's point with the new tally as snapshot to an undecided log keeps every log property |
| `MatchHistory.PopKeepsLog` | backend/src/controllers/matchController.js:139 | popping the last event keeps every log property, and the remaining log is undecided |
| `MatchHistory.TallyCoversLog` | backend/src/controllers/matchController.js:87-95 | when every event is a point of one of two distinct players, the two counts add up to the log length |
| `MatchHistory.ScoreCountsEvents` | backend/src/controllers/matchController.js:87-95 | in a valid match both scores are non-negative and add up to the number of events |
| `MatchHistory.StartMatchIsValid` | backend/src/controllers/matchController.js:41-52 | a started match between distinct users is valid |
| `MatchHistory.AddPointPreservesValid` | backend/src/controllers/matchController.js:79-107 | an accepted point keeps a valid match valid |
| `MatchHistory.UndoPreservesValid` | backend/src/controllers/matchController.js:137-157 | an accepted undo keeps a valid match valid |
| `MatchHistory.CancelPreservesValid` | backend/src/controllers/matchController.js:220-224 | a cancel keeps a valid match valid |
| `MatchHistory.CancelIsFinal` | backend/src/controllers/matchController.js:79-84 | a cancelled match answers every later point with the not-in-progress error, and a second cancel leaves it as it is |
| `MatchHistory.SetFirstServerPreservesValid` | backend/src/controllers/matchController.js:251 | setting the first server keeps a valid match valid |
| `MatchHistory.Reverse` | backend/src/controllers/matchController.js:153-155 | the reverse of a credit is the debit of the same user, and no change reverses to no change |
| `MatchHistory.UndoInvertsPoint` | backend/src/controllers/matchController.js:137-146 | undo after a point that does not decide the game gives back exactly the match before the point |
| `MatchHistory.UndoInvertsWinningPoint` | backend/src/controllers/matchController.js:137-157 | undo after the winning point gives back the match before it and debits exactly the winner the point credited |
| `MatchHistory.ReverseRestoresLedger` | backend/src/controllers/matchController.js:153-155 | a counter change followed by its reverse leaves every counter as it was |
| `MatchHistory.PointThenUndoRestores` | backend/src/controllers/matchController.js:137-157 | in a valid match a point then an undo restores the match and all win counters |
| `MatchHistory.Apply` | backend/src/routes/matchRoutes.js:7-10 | a rejected point or an empty undo stores nothing; only a point and an undo change the log, by one event; only set-server changes the first server |
| `MatchHistory.ApplyPreservesValid` | backend/src/routes/matchRoutes.js:7-10 | every request keeps a valid match valid |
| `MatchHistory.RunPreservesValid` | backend/src/routes/matchRoutes.js:7-10 | every sequence of requests keeps a valid match valid |
| `MatchHistory.ReachableMatchIsValid` | backend/src/controllers/matchController.js:41-107 | every match reached from a start between distinct users is valid, and its scores add up to its log length |
| `ServeRotation.FloorDiv` | frontend/src/components/GameScreen/GameScreen.tsx:159-167 | `Math.floor` of a quotient: dividing by one gives the dividend, a dividend below a positive divisor gives turn 0, and non-negative over positive is non-negative |
| `ServeRotation.StarterTurn` | frontend/src/components/GameScreen/GameScreen.tsx:159-168 | the starter's turn is an even turn number; a zero divisor never gives the starter the turn, and the first turn's points always do |
| `ServeRotation.PointsBeforeDeuce` | frontend/src/components/GameScreen/GameScreen.tsx:151 | the points played before deuce are one short of the target for each player, an even number |
| `ServeRotation.InDeuce` | frontend/src/components/GameScreen/GameScreen.tsx:131 | in deuce at least the points before deuce have been played |
| `ServeRotation.FloorDivBounds` | frontend/src/components/GameScreen/GameScreen.tsx:159 | the quotient is the floor of the exact quotient, for either sign of the divisor |
| `ServeRotation.FloorDivUnique` | frontend/src/components/GameScreen/GameScreen.tsx:163 | any quotient within the floor bounds is the floor |
| `ServeRotation.FloorDivShift` | frontend/src/components/GameScreen/GameScreen.tsx:167 | one more full turn of points adds one to the turn number |
| `ServeRotation.TurnChangesHands` | frontend/src/components/GameScreen/GameScreen.tsx:167-168 | after a full turn of points the serve goes to the other player |
| `ServeRotation.StarterTurnIsBlockRotation` | frontend/src/components/GameScreen/GameScreen.tsx:167-168 | the floor-and-parity test agrees with the block rotation: the starter serves the first block and blocks alternate |
| `ServeRotation.Starter` | frontend/src/components/GameScreen/GameScreen.tsx:134 | the starter is the first server if set, else the first player |
| `ServeRotation.Receiver` | frontend/src/components/GameScreen/GameScreen.tsx:135 | the receiver is the second player when the starter is the first, else the first player, so never the starter when the starter plays |
| `ServeRotation.ResolveServe` | frontend/src/components/GameScreen/GameScreen.tsx:124-169 | deuce holds exactly when both scores are at least one short of the target; the server is the starter or the receiver, chosen by the deuce offset's turn parity in deuce and by the total's turn parity otherwise |
| `ServeRotation.ServerIsAPlayer` | frontend/src/components/GameScreen/GameScreen.tsx:134-169 | with no first server or a player as first server, the server is one of the two players |
| `ServeRotation.DeuceOffsetNonNegative` | frontend/src/components/GameScreen/GameScreen.tsx:151-157 | when the total is the sum of the scores, deuce gives a non-negative offset, so the fallback branch is never taken |
| `ServeRotation.RegularServeFollowsBlocks` | frontend/src/components/GameScreen/GameScreen.tsx:166-168 | outside deuce the serve follows the block rotation of serves-before-change points |
| `ServeRotation.DeuceServeFollowsBlocks` | frontend/src/components/GameScreen/GameScreen.tsx:151-160 | in deuce the serve follows the block rotation of serves-in-deuce points counted from the start of deuce |
| `ServeRotation.DeuceOpensWithStarter` | frontend/src/components/GameScreen/GameScreen.tsx:145-160 | the first point of deuce is served by the starter |
| `ServeRotation.DeuceAlternatesEveryPoint` | frontend/src/components/GameScreen/GameScreen.tsx:157-160 | with one serve each in deuce the server changes on every point of deuce |
| `ServeRotation.FiveServeRunIntoDeuce` | frontend/src/components/GameScreen/GameScreen.tsx:145-168 | at eleven points and four serves the starter serves totals 16 to 19 and also 10-10, where the regular turn test alone would give the receiver |
| `ServeRotation.ElevenPointScenarios` | frontend/src/components/GameScreen/GameScreen.tsx:146-168 | at eleven points and two serves the starter serves at 0 and 4 points and the receiver at 2; at 10-10 the starter serves, then the receiver, then the starter |
| `GameClient.ServesInDeuceOrOne` | frontend/src/components/GameScreen/GameScreen.tsx:127-128 | serves in deuce defaults to 1 when the snapshot holds a falsy 0, and is never 0 |
| `GameClient.CurrentServe` | frontend/src/components/GameScreen/GameScreen.tsx:124-169 | the deuce flag that picks the serve branch holds exactly when both scores are at least one short of the target, and the shown server is a player whenever the first server is unset or a player |
| `GameClient.ShownServeFollowsRotation` | frontend/src/components/GameScreen/GameScreen.tsx:124-168 | with non-negative scores and positive serves per turn the shown server is the starter in even blocks and the receiver in odd ones: blocks of serves-per-turn points from 0-0 outside deuce, blocks of the snapshot's serves in deuce (1 for 0) from the start of deuce in deuce |
| `GameClient.ShowServerPrompt` | frontend/src/components/GameScreen/GameScreen.tsx:74 | the prompt is shown only with no first server and no winner, and in a valid match only while the game is undecided and has no end time |
| `GameClient.UndoEnabled` | frontend/src/components/GameScreen/GameScreen.tsx:337 | undo is enabled exactly when the undo handler would accept |
| `GameClient.DeuceBadge` | frontend/src/components/GameScreen/GameScreen.tsx:231-232 | the corrected deuce badge is shown exactly when both scores are at least one short of the target, the same test that picks the deuce rotation |
| `GameClient.DeuceBadgeMissingAtTenAll` | frontend/src/components/GameScreen/GameScreen.tsx:131-137 | at 10-10 of an eleven-point game the serve is in deuce, the badge as written is hidden and the corrected badge shows |
| `GameClient.DeuceBadgeAsWrittenNeverShows` | frontend/src/components/GameScreen/GameScreen.tsx:232 | the badge as written never shows, while the corrected badge shows exactly in deuce |
| `GameClient.HandlePoint` | frontend/src/components/GameScreen/GameScreen.tsx:32-40 | a click on a finished or abandoned match leaves it as shown; otherwise the shown match is the point handler's answer |
| `GameClient.HandleUndo` | frontend/src/components/GameScreen/GameScreen.tsx:42-49 | on an empty log, which the board's button disables and the winner overlay's undo button (line 369) does not, the request is refused and nothing changes; otherwise the shown match is the undo handler's answer: the last event is gone, its point taken back, and a finished match reopened with no winner |
| `GameClient.ChooseFirstServer` | frontend/src/components/GameScreen/GameScreen.tsx:94-108 | the chosen player becomes the first server, the prompt closes and nothing else changes |
| `GameClient.HandleExit` | frontend/src/components/GameScreen/GameScreen.tsx:172-181 | for a match in progress the Home button (line 200) sends the cancel request, so the stored match becomes `CancelMatch(m, now)`, abandoned with that end time, and the screen then leaves without showing the reply; any other match is left as it is |
| `GameClient.PointClickAccepted` | frontend/src/components/GameScreen/GameScreen.tsx:33 | in a valid match in progress a click always reaches and is accepted by the point handler, adding one event |
| `GameClient.ClicksKeepValid` | frontend/src/components/GameScreen/GameScreen.tsx:32-58 | every click keeps a valid match valid |
| `GameClient.ChosenServerServesFirst` | frontend/src/components/GameScreen/GameScreen.tsx:134-168 | at 0-0 the chosen first server serves, given a positive target and non-zero serves per turn, also when both players share an id |
| `GameClient.StartShowsPrompt` | frontend/src/components/GameScreen/GameScreen.tsx:74 | a new match opens on the first-server prompt |
| `GameClient.PromptNeverReturns` | frontend/src/components/GameScreen/GameScreen.tsx:74 | once a first server is set, no sequence of requests brings the prompt back |
| `GameClient.UndoOfferedIffPointsStand` | frontend/src/components/GameScreen/GameScreen.tsx:337 | in a valid match undo is offered exactly when the score is not 0-0 |

## Left out

- Storage: loading, saving and populating documents, and the not-found answer for an unknown match id. The handlers take the loaded match and return the match to save.
- The read-only handlers `getMatch` and `getUserMatches`: they are queries with no scoring logic.
- Server errors (the catch-all 500 answer): none arises from the modelled logic, except that an override serve type outside the enum fails validation, which `StartMatch` answers with `InvalidServeType`.
- Id casting: ids are compared as strings, and the cast of a malformed id to a document id is not modelled.
- Timestamps: `startTime` and the event timestamp are left out. `endTime` is a `Timestamp` the caller passes in, which the model only stores and clears.
- User win counters: modelled as a ledger map, updated only through the `WinDelta` a handler returns. An update never fails.
- Numbers: scores and rule values are unbounded integers, and division is the exact floor. Floating-point rounding for very large values is not modelled. A zero divisor is modelled as the failed parity test that the non-finite quotient gives.
- Rendering, animation, colours and icons of the game and setup screens. The setup screen's only logic, refusing a user playing themself, becomes the distinct-players part of `MatchHistory.Valid`.
- The user and game-mode controllers, the HTTP routes and server setup, and the desktop build's SQLite store: none of them has scoring logic.
- Concurrency: each match is mutated by one request at a time.
- `ServeRotation.Starter`: a stored first server is always treated as set. The client would also treat an empty-string id as unset, but the model does not single out that id.
- The first-server prompt's Cancel Match button (frontend/src/components/GameScreen/GameScreen.tsx:115) only leaves the screen: it sends no request and the match stays in progress, so it is the identity on the match and has no member.

## Findings

| source | as written | input that shows it | evidently intended | confidence | as-written member | corrected member |
|---|---|---|---|---|---|---|
| frontend/src/components/GameScreen/GameScreen.tsx:231-232 | the deuce badge reads a deuce flag of the received match, which the schema does not have and no handler sets, so it never shows | pointsToWin 11 at 10-10: the serve follows the deuce rotation, the badge stays hidden | the badge shows while deuce is active, by the same test the serve resolver uses (line 131) | not executed | `GameClient.DeuceBadgeAsWritten` | `GameClient.DeuceBadge` |

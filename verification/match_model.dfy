/**
 * The Match document of the counter (its status, score, event log, winner,
 * first server and rule snapshot) and the GameMode record a match is played
 * under, as immutable values.  The string encodings of the schema's enums are
 * given with their parsers, because the schema rejects any other string.
 */
module MatchModel {
  import opened Wrappers

  /** A user document identifier, compared through its string form. */
  type UserId = string

  /** An instant; the model only stores it and clears it. */
  type Timestamp = int

  datatype Status = InProgress | Finished | Abandoned

  datatype EventKind = PointEvent | UndoEvent

  datatype ServeType = Free | Cross

  /** The key the win rule answers with: the first or the second player. */
  datatype Side = P1 | P2

  datatype Score = Score(p1: int, p2: int)

  /** One log entry: its kind, the user it names and the score right after it. */
  datatype Event = Event(kind: EventKind, elementId: UserId, snapshot: Score)

  /**
   * A game mode as stored.  The two fields added later to the schema are
   * optional, so that the fall-through of the match start can be followed.
   */
  datatype GameMode = GameMode(
    pointsToWin: int,
    servesBeforeChange: int,
    isDeuceEnabled: bool,
    servesInDeuce: Option<int>,
    serveType: Option<ServeType>)

  /** The rule snapshot a match takes when it starts. */
  datatype MatchRules = MatchRules(servesInDeuce: int, serveType: ServeType)

  /** A match, with its game mode already looked up. */
  datatype Match = Match(
    player1: UserId,
    player2: UserId,
    gameMode: GameMode,
    status: Status,
    score: Score,
    events: seq<Event>,
    endTime: Option<Timestamp>,
    winner: Option<UserId>,
    firstServer: Option<UserId>,
    matchRules: MatchRules)

  /** Schema defaults of a new match document. */
  const DefaultStatus: Status := InProgress
  const DefaultScore: Score := Score(0, 0)
  const DefaultRules: MatchRules := MatchRules(1, Free)

  /** The user a win-rule key stands for in match `m`. */
  function PlayerOf(m: Match, s: Side): (u: UserId)
    ensures s == P1 ==> u == m.player1
    ensures s == P2 ==> u == m.player2
  {
    match s
    case P1 => m.player1
    case P2 => m.player2
  }

  function StatusName(s: Status): string {
    match s
    case InProgress => "in_progress"
    case Finished => "finished"
    case Abandoned => "abandoned"
  }

  /** Accepts exactly the strings of the status enum. */
  function ParseStatus(name: string): (r: Option<Status>)
    ensures r.Some? <==> name == "in_progress" || name == "finished" || name == "abandoned"
    ensures r.Some? ==> StatusName(r.value) == name
  {
    if name == "in_progress" then Some(InProgress)
    else if name == "finished" then Some(Finished)
    else if name == "abandoned" then Some(Abandoned)
    else None
  }

  function EventKindName(k: EventKind): string {
    match k
    case PointEvent => "point"
    case UndoEvent => "undo"
  }

  /** Accepts exactly the strings of the event type enum. */
  function ParseEventKind(name: string): (r: Option<EventKind>)
    ensures r.Some? <==> name == "point" || name == "undo"
    ensures r.Some? ==> EventKindName(r.value) == name
  {
    if name == "point" then Some(PointEvent)
    else if name == "undo" then Some(UndoEvent)
    else None
  }

  function ServeTypeName(t: ServeType): string {
    match t
    case Free => "free"
    case Cross => "cross"
  }

  /** Accepts exactly the strings of the serve type enum. */
  function ParseServeType(name: string): (r: Option<ServeType>)
    ensures r.Some? <==> name == "free" || name == "cross"
    ensures r.Some? ==> ServeTypeName(r.value) == name
  {
    if name == "free" then Some(Free)
    else if name == "cross" then Some(Cross)
    else None
  }

  /** Every enum value is stored as a string its parser gives back. */
  lemma EnumNamesRoundTrip(s: Status, k: EventKind, t: ServeType)
    ensures ParseStatus(StatusName(s)) == Some(s)
    ensures ParseEventKind(EventKindName(k)) == Some(k)
    ensures ParseServeType(ServeTypeName(t)) == Some(t)
  {
  }
}

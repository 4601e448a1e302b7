/**
  The values the game keeps besides the board: feedback messages, log lines, the
  commands and actions that arrive through the two mailboxes, and the snapshot
  `_save_state` takes for undo.
 */
module GameState {
  import opened Options
  import opened Teams
  import Board
  import Draws
  import Buffers

  /** The feedback texts the overlays show, one constructor per message. */
  datatype Note =
    | Correct | Incorrect
    | SocietyPenaltyNote | EventPenaltyNote
    | Advanced(spaces: int) | WentBack(spaces: int)
    | MovedToFreeParking | MovedToSocietyPenalty | NoRentNote
    | NothingToSell | Sold(property: string, price: int)
    | PropertySelected | NotYourProperty
    | OfferSet(buyer: string, amount: int) | Offered(buyer: string, amount: int)
    | NotEnoughMoney(buyer: string) | SoldTo(property: string, buyer: string, amount: int)

  /** The `command` field of a control-centre mailbox entry. */
  datatype Command =
    | RollDiceCommand | NextTurnCommand | BuyPropertyCommand | SellPropertyCommand
    | TestChanceCommand | TestMysteryCommand | StartTradingCommand | ResetGameCommand
    | UnknownCommand(text: string)

  /** The `action` field of a player mailbox entry. */
  datatype Action =
    | RollDiceAction | EndTurnAction | BuyPropertyAction | SellPropertyAction
    | TakeChanceAction | SpinMysteryAction | StartTradingAction
    | UnknownAction(text: string)

  /** The messages `log_streamlit_event` appends. */
  datatype LogLine =
    | Rolled(team: string, value: int)
    | TurnAdvanced(team: string)
    | Bought(team: string, property: string)
    | ControlCenter(command: Command)
    | PlayerDid(team: string, action: Action)

  const TrailLength: nat := 15
  const FeedbackFrames: int := 120
  const OverlayFrames: int := 300
  /** `max_history_size`. */
  const HistoryLimit: nat := 50

  /** A position in the list of teams. */
  type TeamIndex = i: int | 0 <= i < TeamCount
  /** A tile of the board. */
  type Tile = i: int | 0 <= i < Board.BoardSpaces
  /** A chance question, as its index in the deck. */
  type Question = q: nat | q < Draws.QuestionCount
  /** A segment of the mystery wheel. */
  type Segment = k: nat | k < Draws.SegmentCount

  /** Five teams, each standing on the board. */
  predicate TeamsOk(ts: seq<Team>) {
    && |ts| == TeamCount
    && forall i :: 0 <= i < TeamCount ==> 0 <= ts[i].pos < Board.BoardSpaces
  }

  /** 24 tiles, and only property tiles ever have an owner. */
  predicate OwnersOk(owners: seq<Option<string>>) {
    && |owners| == Board.BoardSpaces
    && forall i :: 0 <= i < Board.BoardSpaces && owners[i].Some? ==> Board.IsPropertyTile(i)
  }

  /** One trail per team, none longer than 15. */
  predicate TrailsOk(trails: seq<seq<int>>) {
    |trails| == TeamCount && forall i :: 0 <= i < TeamCount ==> |trails[i]| <= TrailLength
  }

  /** A used list: indices within a deck of `n`, none twice. */
  predicate UsedOk(used: seq<nat>, n: nat) {
    Draws.Distinct(used) && forall i :: 0 <= i < |used| ==> used[i] < n
  }

  /** The recent wheel results: at most three segment indices (repeats are possible). */
  predicate RecentOk(recent: seq<nat>) {
    |recent| <= Draws.RecencyWindow && forall i :: 0 <= i < |recent| ==> recent[i] < Draws.SegmentCount
  }

  type TeamList = ts: seq<Team> | TeamsOk(ts) witness InitialTeams()
  type OwnerList = o: seq<Option<string>> | OwnersOk(o) witness seq(Board.BoardSpaces, _ => None)
  type TrailList = t: seq<seq<int>> | TrailsOk(t) witness seq(TeamCount, _ => [])
  type SkipFlags = f: seq<bool> | |f| == TeamCount witness seq(TeamCount, _ => false)

  /** No tile owned. */
  function NoOwners(): OwnerList { seq(Board.BoardSpaces, k => None) }
  /** An empty trail for every team. */
  function NoTrails(): TrailList { seq(TeamCount, k => []) }
  /** No team marked to skip. */
  function NoFlags(): SkipFlags { seq(TeamCount, k => false) }
  type UsedQuestions = u: seq<nat> | UsedOk(u, Draws.QuestionCount)
  type UsedSegments = u: seq<nat> | UsedOk(u, Draws.SegmentCount)
  type RecentSegments = r: seq<nat> | RecentOk(r)

  /** The teams, whose turn it is, the owners, the trails, the skip flags and the sell menu. */
  datatype BoardRecord = BoardRecord(
    teams: TeamList,
    currentIdx: TeamIndex,
    owners: OwnerList,
    trails: TrailList,
    skip: SkipFlags,
    showSellProperty: bool,
    sellFeedback: Option<Note>)

  /** The token movement in progress: the steps left and the segment being walked. */
  datatype MotionRecord = MotionRecord(moving: bool, moveSteps: int, fromPos: Option<Tile>, toPos: Option<Tile>)

  /** The chance overlay, its confirmation step and the questions asked so far. */
  datatype ChanceRecord = ChanceRecord(
    showChance: bool,
    chanceCard: Option<Question>,
    chanceFeedback: Option<Note>,
    showChanceConfirm: bool,
    usedQuestions: UsedQuestions)

  /** The mystery overlay, the wheel and the segments used so far. */
  datatype MysteryRecord = MysteryRecord(
    showMystery: bool,
    mysteryCard: Option<Segment>,
    mysteryFeedback: Option<Note>,
    spinning: bool,
    selectedMystery: Option<Segment>,
    usedMysteries: UsedSegments)

  /**
    What `_save_state` records: the board, the movement, the two overlays and the
    two countdowns. The floating-point animation values are not part of the model.
   */
  datatype Snapshot = Snapshot(
    board: BoardRecord,
    motion: MotionRecord,
    chance: ChanceRecord,
    mystery: MysteryRecord,
    feedbackTimer: int,
    overlayTimer: int)

  /** A movement segment: one tile forward around the board. */
  predicate StepSegment(fromPos: Option<Tile>, toPos: Option<Tile>) {
    fromPos.Some? && toPos.Some? && toPos.value == (fromPos.value + 1) % Board.BoardSpaces
  }

  /** While moving, the token walks a one-tile segment. */
  predicate MotionOk(m: MotionRecord) {
    m.moving ==> StepSegment(m.fromPos, m.toPos)
  }

  /** A selected wheel result is the card being shown. */
  predicate MysteryOk(m: MysteryRecord) {
    m.selectedMystery.Some? ==> m.selectedMystery == m.mysteryCard
  }

  /** What holds of every game state and every snapshot of one beyond the types of its parts. */
  predicate SnapValid(s: Snapshot) {
    MotionOk(s.motion) && MysteryOk(s.mystery)
  }

  /** No movement: what `undo_move` and `_reset_game` leave. */
  const Still: MotionRecord := MotionRecord(false, 0, None, None)

  /** A move of `steps` tiles starting from `pos`: the first segment leaves `pos`. */
  function Departing(steps: int, pos: Tile): (m: MotionRecord)
    ensures MotionOk(m) && m.moving && m.moveSteps == steps
    ensures m.fromPos == Some(pos) && m.toPos == Some((pos + 1) % Board.BoardSpaces)
  {
    MotionRecord(true, steps, Some(pos), Some((pos + 1) % Board.BoardSpaces))
  }

  /** At most `limit` snapshots, each of a valid state. */
  predicate HistoryOk(h: seq<Snapshot>, limit: nat) {
    |h| <= limit && forall i :: 0 <= i < |h| ==> SnapValid(h[i])
  }

  /** `game_history`, oldest first. */
  type History = h: seq<Snapshot> | HistoryOk(h, HistoryLimit)

  /** Pushing a valid snapshot onto a valid history, evicting the oldest beyond the limit, keeps it valid. */
  lemma PushKeepsHistoryOk(h: seq<Snapshot>, s: Snapshot, limit: nat)
    requires 0 < limit && HistoryOk(h, limit) && SnapValid(s)
    ensures HistoryOk(Buffers.PushBounded(h, s, limit), limit)
  {
    var r := Buffers.PushBounded(h, s, limit);
    var k := |h| + 1 - |r|;
    forall i | 0 <= i < |r|
      ensures SnapValid(r[i])
    {
      assert r[i] == (h + [s])[k + i];
    }
  }
}

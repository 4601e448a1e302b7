/**
  The `Game` object of the board game: five teams moving around a 24-tile board,
  buying, selling and trading properties, answering chance questions, spinning
  the mystery wheel, with an undo history, an event log and two mailboxes of
  remote commands. Every method is one guarded update of the game's fields.

  The fields `_save_state` records are kept in four records (board, movement,
  chance overlay, mystery overlay) and two countdowns, so that a snapshot is
  exactly those six values.
 */
module GameMachine {
  import opened Options
  import opened Teams
  import opened GameState
  import opened Trading
  import opened Dicts
  import Board
  import Draws
  import Buffers
  import Turns

  const LogLimit: nat := 50

  /** `trading_offers` and `trading_offer_amounts`: a dictionary from team (by position) to an amount. */
  type Offers = d: seq<Entry<TeamIndex, int>> | DistinctKeys(d)

  /** The `messages` list of the published game state. */
  type EventLog = l: seq<LogLine> | |l| <= LogLimit

  /** A mailbox file read into memory: entries in file order, keyed by timestamp or team id. */
  type Mailbox<V> = d: seq<Entry<string, V>> | DistinctKeys(d)

  /** The part of the game that `_save_state` does not record, so that undo leaves it alone, the log apart. */
  datatype Unsaved = Unsaved(
    history: History,
    recent: RecentSegments,
    targetSegment: Option<Segment>,
    lastDiceRoll: Option<int>,
    showTrading: bool,
    tradingSeller: Option<TeamIndex>,
    tradingProperty: Option<Tile>,
    tradingOffers: Offers,
    tradingFeedback: Option<Note>,
    tradingPhase: Phase,
    offerAmounts: Offers)

  /** The feedback `_apply_mystery` shows for a card. */
  function MysteryNote(card: Draws.MysteryCard): Note {
    match card
    case Move(steps) => if steps > 0 then Advanced(steps) else WentBack(-steps)
    case GoToFreeParking => MovedToFreeParking
    case GoToSocietyPenalty => MovedToSocietyPenalty
    case NoRent => NoRentNote
  }

  /** The amount a buyer's offer buttons start from: its current amount, or 500,000 when it has none. */
  function OfferBase(amounts: seq<Entry<TeamIndex, int>>, buyer: TeamIndex): (r: int)
    ensures HasKey(amounts, buyer) ==> Some(r) == Get(amounts, buyer)
    ensures !HasKey(amounts, buyer) ==> r == MinOffer
  {
    match Get(amounts, buyer)
    case Some(v) => v
    case None => MinOffer
  }

  /** The control-centre commands `check_streamlit_commands` acts on: a roll only when no token is moving. */
  predicate CommandApplies(c: Command, moving: bool) {
    match c
    case RollDiceCommand => !moving
    case UnknownCommand(_) => false
    case _ => true
  }

  /**
    The player actions `check_streamlit_player_actions` acts on: a roll only when
    no token is moving, taking a chance only while it is offered, spinning only
    while the mystery overlay is open.
   */
  predicate ActionApplies(a: Action, moving: bool, confirming: bool, mysteryShown: bool) {
    match a
    case RollDiceAction => !moving
    case TakeChanceAction => confirming
    case SpinMysteryAction => mysteryShown
    case UnknownAction(_) => false
    case _ => true
  }

  /**
    Whether a token is moving once a control-centre command has been handled: a
    roll either starts a move or, refused, leaves the one under way; a reset stops
    it; no other command touches the movement.
   */
  function MovingAfter(c: Command, moving: bool): bool {
    match c
    case RollDiceCommand => true
    case ResetGameCommand => false
    case _ => moving
  }

  /** Whether a token is moving when entry `n` of `commands` comes up, the entries before it handled in order from `moving`. */
  function MovingBefore(commands: seq<Entry<string, Command>>, moving: bool, n: nat): bool
    requires n <= |commands|
  {
    if n == 0 then moving else MovingAfter(commands[n - 1].value, MovingBefore(commands, moving, n - 1))
  }

  /** Whether the guard of entry `j` of `commands` holds when its turn comes. */
  predicate EntryApplies(commands: seq<Entry<string, Command>>, moving: bool, j: nat)
    requires j < |commands|
  {
    CommandApplies(commands[j].value, MovingBefore(commands, moving, j))
  }

  /**
    In one pass over the control-centre mailbox, a roll refuses every later roll
    that no reset separates from it: the first starts a move and nothing else stops it.
   */
  lemma {:induction false} RollBlocksRoll(commands: seq<Entry<string, Command>>, moving: bool, j: nat, k: nat)
    requires j < k <= |commands| && commands[j].value == RollDiceCommand
    requires forall i :: j < i < k ==> commands[i].value != ResetGameCommand
    ensures MovingBefore(commands, moving, k)
    ensures k < |commands| && commands[k].value == RollDiceCommand ==> !EntryApplies(commands, moving, k)
    decreases k - j
  {
    if k - 1 > j {
      RollBlocksRoll(commands, moving, j, k - 1);
    }
  }

  /** Every field of the game but the log: what `_save_state` records, and the rest. */
  datatype GameFields = GameFields(saved: Snapshot, rest: Unsaved)

  /** The team whose turn it is on a board. */
  function CurrentOn(b: BoardRecord): Team {
    b.teams[b.currentIdx]
  }

  /** The log after `buy_current` on board `b`: the purchase line is added exactly when the tile could be bought. */
  function LogAfterBuy(b: BoardRecord, l: EventLog): EventLog {
    var t := CurrentOn(b); var space := t.pos % Board.BoardSpaces;
    if Board.CanBuyAt(t.pos, b.owners) then Buffers.KeepLast(l + [Bought(t.name, Board.Catalog[space].name)], LogLimit) else l
  }

  /*
    The effects of the operations the keys and the mailboxes dispatch to, each
    between the fields `s` before the operation and the fields `t` after it, on
    the fields the operation sets; `CommandDone` and `ActionDone` add that every
    other field is kept. None mentions the log, so that the line a dispatcher
    logs afterwards leaves them true.
   */

  /**
    `roll_dice`: a snapshot is pushed, the die is settled and the current team
    departs from where it stands.
   */
  ghost predicate DiceRolled(dd: Draws.DiceDraw, s: GameFields, t: GameFields) {
    var die := Draws.ChooseDie(dd, s.rest.lastDiceRoll, |t.rest.history|);
    && t.rest.history == Buffers.PushBounded(s.rest.history, s.saved, HistoryLimit)
    && t.rest.lastDiceRoll == Some(die) && t.saved.motion == Departing(die, CurrentOn(t.saved.board).pos)
  }

  /**
    `next_turn`: a snapshot is pushed and the turn passes to the next unflagged
    team, clearing the flags of the teams passed over.
   */
  ghost predicate TurnPassed(s: GameFields, t: GameFields) {
    var b := s.saved.board;
    && t.rest.history == Buffers.PushBounded(s.rest.history, s.saved, HistoryLimit)
    && t.saved.board == b.(currentIdx := Turns.NextSeat(b.skip, b.currentIdx), skip := Turns.FlagsAfter(b.skip, b.currentIdx))
  }

  /**
    `buy_current`: on an unowned catalog tile, a snapshot is pushed and the current
    team becomes its owner without paying; anywhere else nothing changes.
   */
  ghost predicate PropertyBought(s: GameFields, t: GameFields) {
    var b := s.saved.board; var team := CurrentOn(b); var space := team.pos % Board.BoardSpaces;
    if Board.CanBuyAt(team.pos, b.owners) then
      && t.saved.board == b.(owners := b.owners[space := Some(team.id)])
      && t.rest.history == Buffers.PushBounded(s.rest.history, s.saved, HistoryLimit)
    else
      t.saved.board == b && t.rest.history == s.rest.history
  }

  /**
    `_show_sell_property`: the sell menu opens when the current team owns a
    property; otherwise "nothing to sell" shows for 120 frames.
   */
  ghost predicate SellMenuOpened(s: GameFields, t: GameFields) {
    var b := s.saved.board;
    if Board.OwnsNoProperty(b.owners, CurrentOn(b).id) then
      t.saved.board == b.(sellFeedback := Some(NothingToSell)) && t.saved.feedbackTimer == FeedbackFrames
    else
      t.saved.board == b.(showSellProperty := true, sellFeedback := None) && t.saved.feedbackTimer == s.saved.feedbackTimer
  }

  /** `_test_chance`, and landing on a chance tile: the confirmation opens. */
  ghost predicate ChanceOffered(s: GameFields, t: GameFields) {
    t.saved.chance == s.saved.chance.(showChanceConfirm := true)
  }

  /** `_confirm_chance_yes`: the confirmation closes and question `ChooseQuestion(used, pick)` is asked. */
  ghost predicate ChanceAsked(pick: nat, s: GameFields, t: GameFields) {
    var r := Draws.ChooseQuestion(s.saved.chance.usedQuestions, pick);
    && t.saved.chance == s.saved.chance.(showChanceConfirm := false, showChance := true, chanceCard := Some(r.0),
         chanceFeedback := None, usedQuestions := r.1)
    && t.saved.overlayTimer == OverlayFrames
  }

  /** `_start_spin_wheel`: the wheel spins towards a segment that is not among the recent results. */
  ghost predicate WheelStarted(s: GameFields, t: GameFields) {
    && t.saved.mystery == s.saved.mystery.(spinning := true, selectedMystery := None, mysteryCard := None)
    && t.rest.recent == s.rest.recent && t.rest.targetSegment.Some? && t.rest.targetSegment.value !in t.rest.recent
  }

  /**
    `_trigger_mystery`: the mystery overlay opens, for 300 frames, with the wheel
    spinning towards a segment that is not among the recent results.
   */
  ghost predicate MysteryOpened(s: GameFields, t: GameFields) {
    && t.saved.mystery == s.saved.mystery.(showMystery := true, mysteryFeedback := None, spinning := true,
         selectedMystery := None, mysteryCard := None)
    && t.saved.overlayTimer == OverlayFrames
    && t.rest.recent == s.rest.recent && t.rest.targetSegment.Some? && t.rest.targetSegment.value !in t.rest.recent
  }

  /** `_start_trading`: the current team becomes the seller and picks a property; offers start empty. */
  ghost predicate TradeStarted(s: GameFields, t: GameFields) {
    var r := t.rest;
    && r.showTrading && r.tradingPhase == SelectProperty && r.tradingSeller == Some(s.saved.board.currentIdx)
    && r.tradingOffers == [] && r.tradingFeedback == None && r.offerAmounts == []
  }

  /**
    `_reset_game`: every team back on GO with 10,000,000, the first team to play,
    no movement, empty trails, closed chance and mystery overlays, empty used and
    recent lists, no owners, no history and no previous roll. The skip flags and
    the sell menu stay.
   */
  ghost predicate GameReset(s: GameFields, t: GameFields) {
    && (forall i :: 0 <= i < TeamCount ==> t.saved.board.teams[i] == s.saved.board.teams[i].(pos := 0, balance := StartingBalance))
    && t.saved.board == s.saved.board.(teams := t.saved.board.teams, currentIdx := 0, trails := NoTrails(), owners := NoOwners())
    && t.saved.motion == Still
    && t.saved.chance == ChanceRecord(false, None, None, false, [])
    && t.saved.mystery == MysteryRecord(false, None, None, false, None, [])
    && t.saved.feedbackTimer == 0 && t.rest.recent == [] && t.rest.history == [] && t.rest.lastDiceRoll == None
  }

  /**
    `undo_move`: with no snapshot nothing changes; otherwise the newest snapshot is
    popped and restored, with the movement stopped and the chance, confirmation and
    mystery overlays closed with their feedback and both countdowns. The sell menu
    and the wheel stay as restored.
   */
  ghost predicate MoveUndone(s: GameFields, t: GameFields) {
    var h := s.rest.history;
    && (h == [] ==> t.saved == s.saved && t.rest.history == h)
    && (h != [] ==>
         var snap := h[|h| - 1];
         && t.rest.history == h[..|h| - 1]
         && t.saved == snap.(motion := Still,
              chance := snap.chance.(showChance := false, showChanceConfirm := false, chanceFeedback := None),
              mystery := snap.mystery.(showMystery := false, mysteryFeedback := None),
              feedbackTimer := 0, overlayTimer := 0))
  }

  /** What a control-centre command does, its log line aside: its operation's effect, and nothing else changes. */
  ghost predicate CommandDone(c: Command, d: Draws.Draw, s: GameFields, t: GameFields) {
    match c
    case RollDiceCommand =>
      DiceRolled(d.dice, s, t)
      && t == GameFields(s.saved.(motion := t.saved.motion),
                s.rest.(history := t.rest.history, lastDiceRoll := t.rest.lastDiceRoll))
    case NextTurnCommand =>
      TurnPassed(s, t) && t == GameFields(s.saved.(board := t.saved.board), s.rest.(history := t.rest.history))
    case BuyPropertyCommand =>
      PropertyBought(s, t) && t == GameFields(s.saved.(board := t.saved.board), s.rest.(history := t.rest.history))
    case SellPropertyCommand =>
      SellMenuOpened(s, t)
      && t == GameFields(s.saved.(board := t.saved.board, feedbackTimer := t.saved.feedbackTimer), s.rest)
    case TestChanceCommand =>
      ChanceOffered(s, t) && t == GameFields(s.saved.(chance := t.saved.chance), s.rest)
    case TestMysteryCommand =>
      MysteryOpened(s, t)
      && t == GameFields(s.saved.(mystery := t.saved.mystery, overlayTimer := t.saved.overlayTimer),
                s.rest.(targetSegment := t.rest.targetSegment))
    case StartTradingCommand =>
      TradeStarted(s, t)
      && t == GameFields(s.saved, s.rest.(showTrading := true, tradingPhase := SelectProperty,
                tradingSeller := t.rest.tradingSeller, tradingOffers := [], tradingFeedback := None, offerAmounts := []))
    case ResetGameCommand =>
      GameReset(s, t)
      && t.saved.overlayTimer == s.saved.overlayTimer
      && t.rest == s.rest.(history := [], recent := [], lastDiceRoll := None)
    case UnknownCommand(_) => t == s
  }

  /**
    What a player action does, its log line aside: as the command of the same
    name, or taking the chance or spinning the wheel, and nothing else changes.
   */
  ghost predicate ActionDone(a: Action, d: Draws.Draw, s: GameFields, t: GameFields) {
    match a
    case RollDiceAction => CommandDone(RollDiceCommand, d, s, t)
    case EndTurnAction => CommandDone(NextTurnCommand, d, s, t)
    case BuyPropertyAction => CommandDone(BuyPropertyCommand, d, s, t)
    case SellPropertyAction => CommandDone(SellPropertyCommand, d, s, t)
    case TakeChanceAction =>
      ChanceAsked(d.question, s, t)
      && t == GameFields(s.saved.(chance := t.saved.chance, overlayTimer := t.saved.overlayTimer), s.rest)
    case SpinMysteryAction =>
      WheelStarted(s, t)
      && t == GameFields(s.saved.(mystery := t.saved.mystery), s.rest.(targetSegment := t.rest.targetSegment))
    case StartTradingAction => CommandDone(StartTradingCommand, d, s, t)
    case UnknownAction(_) => t == s
  }
  /**
    One player action of the current team `name`'s turn, from fields `s` and log
    `l` to fields `t` and log `m`: when its guard holds, its effect and its log
    line; otherwise nothing changes.
   */
  ghost predicate ActionHandled(a: Action, d: Draws.Draw, s: GameFields, t: GameFields, l: EventLog, m: EventLog) {
    if ActionApplies(a, s.saved.motion.moving, s.saved.chance.showChanceConfirm, s.saved.mystery.showMystery) then
      ActionDone(a, d, s, t) && |m| > 0 && m[|m| - 1] == PlayerDid(CurrentOn(t.saved.board).name, a)
    else
      t == s && m == l
  }


  /** `undo_move` from a key press: as above, and everything `_save_state` does not record is kept. */
  ghost predicate KeyUndone(s: GameFields, t: GameFields) {
    MoveUndone(s, t) && t.rest == s.rest.(history := t.rest.history)
  }

  /**
    No frame-driven part of `_update` has anything to do on fields `s`: no step
    is due, no spin ends, neither countdown is running.
   */
  predicate FramesIdle(stepDone: bool, spinDone: bool, s: Snapshot) {
    && !(s.motion.moving && stepDone)
    && !(s.mystery.spinning && spinDone)
    && !(s.mystery.selectedMystery.Some? && !s.mystery.spinning && s.overlayTimer > 0)
    && !((s.chance.chanceFeedback.Some? || s.mystery.mysteryFeedback.Some? || s.board.sellFeedback.Some?)
         && s.feedbackTimer > 0)
  }

  /**
    What a key other than Escape does in `_handle_events`, from fields `s` and log
    `l` to fields `t` and log `m`: when the game was not idle, or for an unbound
    key, nothing; otherwise the key's operation.
   */
  ghost predicate KeyDone(k: Key, d: Draws.Draw, idle: bool, s: GameFields, t: GameFields, l: EventLog, m: EventLog) {
    if !idle then t == s && m == l
    else match k
      case KeyR => CommandDone(RollDiceCommand, d, s, t)
        && m == Buffers.KeepLast(l + [Rolled(CurrentOn(t.saved.board).name, t.saved.motion.moveSteps)], LogLimit)
      case KeyB => CommandDone(BuyPropertyCommand, d, s, t) && m == LogAfterBuy(s.saved.board, l)
      case KeyE => CommandDone(NextTurnCommand, d, s, t)
        && m == Buffers.KeepLast(l + [TurnAdvanced(CurrentOn(t.saved.board).name)], LogLimit)
      case KeyS => CommandDone(SellPropertyCommand, d, s, t) && m == l
      case KeyT => CommandDone(StartTradingCommand, d, s, t) && m == l
      case KeyU => KeyUndone(s, t) && m == l
      case _ => t == s && m == l
  }

  /**
    What Escape does in `_handle_events`, from fields `s` to `t`: it closes the
    first open overlay in the order chance question, chance confirmation, mystery,
    sell menu, trade, together with that overlay's feedback (the trade as
    `_cancel_trading` does); with none open, nothing changes and the game quits.
   */
  ghost predicate EscapePressed(s: GameFields, t: GameFields) {
    var u := s.saved;
    if u.chance.showChance then
      t == GameFields(u.(chance := u.chance.(showChance := false, chanceFeedback := None)), s.rest)
    else if u.chance.showChanceConfirm then
      t == GameFields(u.(chance := u.chance.(showChanceConfirm := false)), s.rest)
    else if u.mystery.showMystery then
      t == GameFields(u.(mystery := u.mystery.(showMystery := false, mysteryFeedback := None)), s.rest)
    else if u.board.showSellProperty then
      t == GameFields(u.(board := u.board.(showSellProperty := false, sellFeedback := None)), s.rest)
    else if s.rest.showTrading then
      t == GameFields(u, s.rest.(showTrading := false, tradingPhase := NoPhase, tradingOffers := [],
        tradingFeedback := None, offerAmounts := []))
    else
      t == s
  }

  /**
    The landing effects of `_update`, from fields `s`, where the current team has
    just arrived, to `t`: a chance tile opens the confirmation, a mystery tile the
    wheel, the society penalty tile costs 1,000,000 and the next turn, the event
    penalty tile costs 1,500,000; free parking and every other tile do nothing.
   */
  ghost predicate LandingDone(s: GameFields, t: GameFields) {
    var u := s.saved; var b := u.board; var i := b.currentIdx; var pos := b.teams[i].pos;
    if pos in Board.ChanceTiles then
      t.saved == u.(chance := u.chance.(showChanceConfirm := true)) && t.rest == s.rest
    else if pos in Board.MysteryTiles then
      && MysteryOpened(s, t)
      && t.saved == u.(mystery := t.saved.mystery, overlayTimer := t.saved.overlayTimer)
      && t.rest == s.rest.(targetSegment := t.rest.targetSegment)
    else if pos == Board.SocietyPenaltyTile then
      && t.saved == u.(board := b.(teams := Credit(b.teams, i, -Board.SocietyPenaltyAmount), skip := b.skip[i := true]),
           mystery := u.mystery.(mysteryFeedback := Some(SocietyPenaltyNote)), feedbackTimer := FeedbackFrames)
      && t.rest == s.rest
    else if pos == Board.EventPenaltyTile then
      && t.saved == u.(board := b.(teams := Credit(b.teams, i, -Board.EventPenaltyAmount)),
           mystery := u.mystery.(mysteryFeedback := Some(EventPenaltyNote)), feedbackTimer := FeedbackFrames)
      && t.rest == s.rest
    else
      t == s
  }

  /** The keys the game reacts to. */
  datatype Key = Escape | KeyR | KeyB | KeyE | KeyS | KeyT | KeyU | OtherKey

  class Game {
    var board: BoardRecord
    var motion: MotionRecord
    var chance: ChanceRecord
    var mystery: MysteryRecord
    var feedbackTimer: int
    var overlayTimer: int

    /** `game_history`, oldest first. */
    var history: History
    /** `recent_mystery_results`, oldest first. */
    var recent: RecentSegments
    var targetSegment: Option<Segment>
    var lastDiceRoll: Option<int>
    var showTrading: bool
    var tradingSeller: Option<TeamIndex>
    var tradingProperty: Option<Tile>
    var tradingOffers: Offers
    var tradingFeedback: Option<Note>
    var tradingPhase: Phase
    var offerAmounts: Offers
    /** The `messages` of the published state. */
    var log: EventLog

    /** The state `_save_state` records. */
    function Snap(): Snapshot
      reads this`board, this`motion, this`chance, this`mystery, this`feedbackTimer, this`overlayTimer
    {
      Snapshot(board, motion, chance, mystery, feedbackTimer, overlayTimer)
    }

    /** The state `_save_state` does not record, the log apart. */
    ghost function Rest(): Unsaved
      reads this`history, this`recent, this`targetSegment, this`lastDiceRoll, this`showTrading,
        this`tradingSeller, this`tradingProperty, this`tradingOffers, this`tradingFeedback,
        this`tradingPhase, this`offerAmounts
    {
      Unsaved(history, recent, targetSegment, lastDiceRoll, showTrading, tradingSeller,
        tradingProperty, tradingOffers, tradingFeedback, tradingPhase, offerAmounts)
    }

    /** Every field but the log. */
    ghost function Fields(): GameFields
      reads this`board, this`motion, this`chance, this`mystery, this`feedbackTimer, this`overlayTimer,
        this`history, this`recent, this`targetSegment, this`lastDiceRoll, this`showTrading, this`tradingSeller,
        this`tradingProperty, this`tradingOffers, this`tradingFeedback, this`tradingPhase, this`offerAmounts
    {
      GameFields(Snap(), Rest())
    }

    /** The team whose turn it is. */
    function Current(): Team
      reads this`board
    {
      CurrentOn(board)
    }

    /** No token moving and no chance, confirmation, mystery or trading overlay open. */
    predicate Idle()
      reads this`motion, this`chance, this`mystery, this`showTrading
    {
      !motion.moving && !chance.showChance && !chance.showChanceConfirm && !mystery.showMystery && !showTrading
    }

    /** A trade has a catalog property to sell. */
    ghost predicate TradeReady()
      reads this`tradingProperty
    {
      tradingProperty.Some? && Board.IsPropertyTile(tradingProperty.value)
    }

    /**
      The trade under way: a seller once trading has started, a catalog property
      once offers are collected, and offers only while they are collected or reviewed.
     */
    ghost predicate TradingOk()
      reads this`tradingSeller, this`tradingPhase, this`tradingProperty, this`tradingOffers
    {
      && (tradingPhase != NoPhase ==> tradingSeller.Some?)
      && (tradingPhase == CollectOffers || tradingPhase == ChooseBuyer ==> TradeReady())
      && (tradingOffers != [] ==> tradingPhase == CollectOffers || tradingPhase == ChooseBuyer)
    }

    /**
      What holds of every game state beyond the types of its fields: a movement
      segment while moving, a selected wheel result that is the one shown, and a
      trade in a consistent phase.
     */
    ghost predicate Valid()
      reads this`motion, this`mystery, this`tradingSeller, this`tradingPhase, this`tradingProperty, this`tradingOffers
    {
      MotionOk(motion) && MysteryOk(mystery) && TradingOk()
    }

    /** A new game: everyone on GO with 10,000,000, nothing owned, no overlay, empty history. */
    constructor()
      ensures Valid()
      ensures board == BoardRecord(InitialTeams(), 0, NoOwners(), NoTrails(), NoFlags(), false, None)
      ensures motion == Still
      ensures chance == ChanceRecord(false, None, None, false, [])
      ensures mystery == MysteryRecord(false, None, None, false, None, [])
      ensures feedbackTimer == 0 && overlayTimer == 0
      ensures history == [] && recent == [] && targetSegment == None && lastDiceRoll == None && log == []
      ensures !showTrading && tradingPhase == NoPhase && tradingOffers == [] && offerAmounts == []
      ensures tradingSeller == None && tradingProperty == None && tradingFeedback == None
    {
      board := BoardRecord(InitialTeams(), 0, NoOwners(), NoTrails(), NoFlags(), false, None);
      motion := Still;
      chance := ChanceRecord(false, None, None, false, []);
      mystery := MysteryRecord(false, None, None, false, None, []);
      feedbackTimer := 0;
      overlayTimer := 0;
      history := [];
      recent := [];
      targetSegment := None;
      lastDiceRoll := None;
      showTrading := false;
      tradingSeller := None;
      tradingProperty := None;
      tradingOffers := [];
      tradingFeedback := None;
      tradingPhase := NoPhase;
      offerAmounts := [];
      log := [];
    }

    /** `_save_state`: push a snapshot of the recorded state, evicting the oldest beyond 50. */
    method SaveState()
      requires Valid()
      modifies this`history
      ensures Valid()
      ensures history == Buffers.PushBounded(old(history), old(Snap()), HistoryLimit)
    {
      PushKeepsHistoryOk(history, Snap(), HistoryLimit);
      history := Buffers.PushBounded(history, Snap(), HistoryLimit);
    }

    /** `log_streamlit_event`: append a message and keep the last 50. */
    method LogEvent(line: LogLine)
      requires Valid()
      modifies this`log
      ensures Valid()
      ensures log == Buffers.KeepLast(old(log) + [line], LogLimit)
      ensures |log| <= LogLimit && log[|log| - 1] == line
    {
      log := Buffers.KeepLast(log + [line], LogLimit);
    }

    /** `_record_trail`: the current team's trail gains its position, keeping the last 15. */
    method RecordTrail()
      requires Valid()
      modifies this`board
      ensures Valid()
      ensures var i := board.currentIdx;
        board == old(board).(trails := old(board.trails)[i := Buffers.PushBounded(old(board.trails)[i], Current().pos, TrailLength)])
    {
      var i := board.currentIdx;
      board := board.(trails := board.trails[i := Buffers.PushBounded(board.trails[i], Current().pos, TrailLength)]);
    }

    /**
      `roll_dice`: save, settle on a die value, log it and start moving the current
      team one tile at a time from where it stands.
     */
    method RollDice(dd: Draws.DiceDraw)
      requires Valid()
      modifies this`history, this`lastDiceRoll, this`log, this`motion
      ensures Valid()
      ensures DiceRolled(dd, old(Fields()), Fields())
      ensures 1 <= motion.moveSteps <= 6
      ensures log == Buffers.KeepLast(old(log) + [Rolled(Current().name, motion.moveSteps)], LogLimit)
    {
      SaveState();
      var d := Draws.ChooseDie(dd, lastDiceRoll, |history|);
      lastDiceRoll := Some(d);
      motion := Departing(d, Current().pos);
      LogEvent(Rolled(Current().name, d));
      assert Fields().saved == Snapshot(board, motion, chance, mystery, feedbackTimer, overlayTimer);
      assert Fields().rest == Rest();
    }

    /**
      One committed step of `_update`'s movement: the current team moves one tile
      along the segment, collecting 2,000,000 exactly when the step goes from tile
      23 to tile 0; the trail records the step; `landed` says the steps ran out,
      and otherwise the next segment starts where the token now stands.
     */
    method CommitStep() returns (landed: bool)
      requires Valid() && motion.moving
      modifies this`board, this`motion
      ensures Valid()
      ensures var i := board.currentIdx; var t := old(board.teams[i]); var from := old(motion.fromPos).value;
        && board.teams == old(board.teams)[i := t.(pos := (from + 1) % Board.BoardSpaces,
             balance := t.balance + (if from == Board.BoardSpaces - 1 then Board.GoBonus else 0))]
        && board == old(board).(teams := board.teams,
             trails := old(board.trails)[i := Buffers.PushBounded(old(board.trails)[i], board.teams[i].pos, TrailLength)])
      ensures landed <==> old(motion.moveSteps) - 1 <= 0
      ensures landed ==> motion == old(motion).(moving := false, moveSteps := old(motion.moveSteps) - 1)
      ensures !landed ==> motion == Departing(old(motion.moveSteps) - 1, Current().pos)
    {
      MoveToken();
      RecordTrail();
      landed := motion.moveSteps - 1 <= 0;
      if landed {
        motion := motion.(moving := false, moveSteps := motion.moveSteps - 1);
      } else {
        motion := Departing(motion.moveSteps - 1, Current().pos);
      }
    }

    /**
      The current team's token takes the step of the movement segment, with the
      2,000,000 bonus when the segment wraps from the last tile to the first.
     */
    method MoveToken()
      requires Valid() && motion.moving
      modifies this`board
      ensures Valid()
      ensures var i := board.currentIdx; var t := old(board.teams[i]); var from := motion.fromPos.value;
        board == old(board).(teams := old(board.teams)[i := t.(pos := (from + 1) % Board.BoardSpaces,
          balance := t.balance + (if from == Board.BoardSpaces - 1 then Board.GoBonus else 0))])
    {
      var i := board.currentIdx;
      var t := board.teams[i];
      var to := motion.toPos.value;
      if to < motion.fromPos.value {
        t := t.(balance := t.balance + Board.GoBonus);
      }
      board := board.(teams := board.teams[i := t.(pos := to)]);
    }

    /**
      `next_turn`: save, then hand the turn to the next team in order that is not
      marked to skip, clearing the marks of the teams passed over; log the new team.
     */
    method NextTurn()
      requires Valid()
      modifies this`history, this`board, this`log
      ensures Valid()
      ensures TurnPassed(old(Fields()), Fields())
      ensures log == Buffers.KeepLast(old(log) + [TurnAdvanced(Current().name)], LogLimit)
    {
      SaveState();
      var idx, flags := Turns.ScanTurn(board.skip, board.currentIdx);
      board := board.(currentIdx := idx, skip := flags);
      LogEvent(TurnAdvanced(Current().name));
    }

    /**
      `buy_current`: when the current team stands on an unowned catalog tile, save
      and make the team its owner (nothing is paid); otherwise do nothing at all.
     */
    method BuyCurrent()
      requires Valid()
      modifies this`board, this`history, this`log
      ensures Valid()
      ensures PropertyBought(old(Fields()), Fields())
      ensures log == LogAfterBuy(old(board), old(log))
    {
      var team := Current();
      if !Board.CanBuyAt(team.pos, board.owners) {
        return;
      }
      SaveState();
      var space := team.pos % Board.BoardSpaces;
      Board.PropertyTileIsCatalog(space);
      board := board.(owners := board.owners[space := Some(team.id)]);
      LogEvent(Bought(team.name, Board.Catalog[space].name));
    }

    /**
      `_trigger_chance`: show a question not asked since the used list was last
      reset, and record it as asked.
     */
    method TriggerChance(pick: nat)
      requires Valid()
      modifies this`chance, this`overlayTimer
      ensures Valid()
      ensures var r := Draws.ChooseQuestion(old(chance.usedQuestions), pick);
        chance == old(chance).(showChance := true, chanceCard := Some(r.0), chanceFeedback := None, usedQuestions := r.1)
      ensures (exists q :: 0 <= q < Draws.QuestionCount && q !in old(chance.usedQuestions)) ==>
        chance.chanceCard.value !in old(chance.usedQuestions)
        && chance.usedQuestions == old(chance.usedQuestions) + [chance.chanceCard.value]
      ensures (forall q :: 0 <= q < Draws.QuestionCount ==> q in old(chance.usedQuestions)) ==>
        chance.usedQuestions == [chance.chanceCard.value]
      ensures overlayTimer == OverlayFrames
    {
      var r := Draws.ChooseQuestion(chance.usedQuestions, pick);
      Draws.QuestionsStayDistinct(chance.usedQuestions, pick);
      chance := chance.(showChance := true, chanceCard := Some(r.0), chanceFeedback := None, usedQuestions := r.1);
      overlayTimer := OverlayFrames;
    }

    /** `_confirm_chance_yes`: close the confirmation and ask a question. */
    method ConfirmChanceYes(pick: nat)
      requires Valid()
      modifies this`chance, this`overlayTimer
      ensures Valid()
      ensures ChanceAsked(pick, old(Fields()), Fields())
    {
      chance := chance.(showChanceConfirm := false);
      TriggerChance(pick);
    }

    /** `_confirm_chance_no`: close the confirmation; skipping costs nothing. */
    method ConfirmChanceNo()
      requires Valid()
      modifies this`chance
      ensures Valid()
      ensures chance == old(chance).(showChanceConfirm := false)
    {
      chance := chance.(showChanceConfirm := false);
    }

    /** `_test_chance`: open the confirmation as landing on a chance tile does. */
    method TestChance()
      requires Valid()
      modifies this`chance
      ensures Valid()
      ensures ChanceOffered(old(Fields()), Fields())
    {
      chance := chance.(showChanceConfirm := true);
    }

    /**
      `_check_chance_answer`: save, then close the question with the verdict on the
      chosen option. Answering moves no money and no token.
     */
    method CheckChanceAnswer(selected: int)
      requires Valid() && chance.chanceCard.Some?
      modifies this`history, this`chance, this`feedbackTimer
      ensures Valid()
      ensures history == Buffers.PushBounded(old(history), old(Snap()), HistoryLimit)
      ensures var verdict := if selected == Draws.ChanceAnswers[old(chance.chanceCard).value] then Correct else Incorrect;
        chance == old(chance).(chanceFeedback := Some(verdict), showChance := false)
      ensures feedbackTimer == FeedbackFrames
    {
      SaveState();
      var verdict := if selected == Draws.ChanceAnswers[chance.chanceCard.value] then Correct else Incorrect;
      chance := chance.(chanceFeedback := Some(verdict), showChance := false);
      feedbackTimer := FeedbackFrames;
    }

    /** `_trigger_mystery`: open the mystery overlay and start the wheel. */
    method TriggerMystery(pick: nat)
      requires Valid()
      modifies this`mystery, this`overlayTimer, this`recent, this`targetSegment
      ensures Valid()
      ensures MysteryOpened(old(Fields()), Fields())
    {
      mystery := mystery.(showMystery := true, mysteryFeedback := None);
      overlayTimer := OverlayFrames;
      StartSpinWheel(pick);
    }

    /**
      The outcome of `_start_spin_wheel`: the wheel spins with no result shown, aimed
      at a segment that is not among the recent results (at most three of the five
      are recent, so the window is never reset here).
     */
    method StartSpinWheel(pick: nat)
      requires Valid()
      modifies this`mystery, this`recent, this`targetSegment
      ensures Valid()
      ensures WheelStarted(old(Fields()), Fields())
    {
      var available := Draws.AvailableSegments(recent);
      Draws.SpinAvoidsRecent(available, recent, pick);
      var r := Draws.ChooseSpinTarget(available, recent, pick);
      mystery := mystery.(spinning := true, selectedMystery := None, mysteryCard := None);
      recent := r.1;
      targetSegment := Some(r.0);
    }

    /**
      `_determine_selected_mystery`, with the segment under the arrow as input: it
      is shown and selected, it joins the three-entry recency window, and it joins
      the used list, which starts over once all five segments have come up.
     */
    method DetermineSelected(resolved: Segment)
      requires Valid()
      modifies this`mystery, this`recent
      ensures Valid()
      ensures var used := old(mystery.usedMysteries);
        var added := if resolved in used then used else used + [resolved];
        mystery == old(mystery).(mysteryCard := Some(resolved), selectedMystery := Some(resolved),
          usedMysteries := if |added| >= Draws.SegmentCount then [] else added)
      ensures |mystery.usedMysteries| < Draws.SegmentCount
      ensures mystery.usedMysteries == [] || resolved in mystery.usedMysteries
      ensures recent == Buffers.PushBounded(old(recent), resolved, Draws.RecencyWindow)
    {
      var used := mystery.usedMysteries;
      if resolved !in used {
        used := used + [resolved];
      }
      if |used| >= Draws.SegmentCount {
        used := [];
      }
      mystery := mystery.(mysteryCard := Some(resolved), selectedMystery := Some(resolved), usedMysteries := used);
      var r := Buffers.PushBounded(recent, resolved, Draws.RecencyWindow);
      forall i | 0 <= i < |r|
        ensures r[i] < Draws.SegmentCount
      {
        assert r[i] in r;
      }
      recent := r;
    }

    /**
      The end of `_update_spin_wheel`: once the animation has run its course the wheel
      stops, the result is determined and the auto-apply countdown starts.
     */
    method SpinFrame(spinDone: bool, resolved: Segment)
      requires Valid()
      modifies this`mystery, this`recent, this`overlayTimer
      ensures Valid()
      ensures old(mystery.spinning) && spinDone ==>
        && (var used := old(mystery.usedMysteries);
           var added := if resolved in used then used else used + [resolved];
           mystery == old(mystery).(spinning := false, mysteryCard := Some(resolved), selectedMystery := Some(resolved),
             usedMysteries := if |added| >= Draws.SegmentCount then [] else added))
        && overlayTimer == OverlayFrames
        && recent == Buffers.PushBounded(old(recent), resolved, Draws.RecencyWindow)
      ensures !(old(mystery.spinning) && spinDone) ==>
        mystery == old(mystery) && recent == old(recent) && overlayTimer == old(overlayTimer)
    {
      if mystery.spinning && spinDone {
        mystery := mystery.(spinning := false);
        DetermineSelected(resolved);
        overlayTimer := OverlayFrames;
      }
    }

    /**
      `_apply_mystery`: save, then carry out the shown card on the current team's
      token (a relative move around the board, a jump to free parking or to the
      society penalty tile, or nothing for "no rent"), and close the overlay.
      No balance changes, not even when a move passes GO.
     */
    method ApplyMystery()
      requires Valid() && mystery.mysteryCard.Some?
      modifies this`history, this`board, this`mystery, this`feedbackTimer
      ensures Valid()
      ensures history == Buffers.PushBounded(old(history), old(Snap()), HistoryLimit)
      ensures var card := Draws.MysteryCards[old(mystery.mysteryCard).value];
        var i := board.currentIdx; var t := old(board.teams[i]);
        && board == old(board).(teams := old(board.teams)[i := t.(pos := Draws.MysteryDestination(card, t.pos))])
        && mystery == old(mystery).(mysteryFeedback := Some(MysteryNote(card)), showMystery := false, selectedMystery := None)
      ensures forall i :: 0 <= i < TeamCount ==> board.teams[i].balance == old(board.teams[i].balance)
      ensures Draws.MysteryCards[old(mystery.mysteryCard).value] == Draws.NoRent ==> board == old(board)
      ensures feedbackTimer == FeedbackFrames
    {
      SaveState();
      var card := Draws.MysteryCards[mystery.mysteryCard.value];
      var i := board.currentIdx;
      if card != Draws.NoRent {
        var t := board.teams[i];
        board := board.(teams := board.teams[i := t.(pos := Draws.MysteryDestination(card, t.pos))]);
      }
      mystery := mystery.(mysteryFeedback := Some(MysteryNote(card)), showMystery := false, selectedMystery := None);
      feedbackTimer := FeedbackFrames;
    }

    /**
      The auto-apply countdown of `_update`: while a result is selected and the wheel
      has stopped, the overlay timer runs down, and the card is applied when it
      reaches zero.
     */
    method MysteryTimerFrame()
      requires Valid()
      modifies this`overlayTimer, this`history, this`board, this`mystery, this`feedbackTimer
      ensures Valid()
      ensures var counting := old(mystery.selectedMystery).Some? && !old(mystery.spinning) && old(overlayTimer) > 0;
        && (!counting ==>
             overlayTimer == old(overlayTimer) && board == old(board) && mystery == old(mystery)
             && history == old(history) && feedbackTimer == old(feedbackTimer))
        && (counting ==> overlayTimer == old(overlayTimer) - 1)
        && (counting && overlayTimer > 0 ==>
             board == old(board) && mystery == old(mystery) && history == old(history) && feedbackTimer == old(feedbackTimer))
        && (counting && overlayTimer == 0 ==>
             && history == Buffers.PushBounded(old(history), old(Snap()).(overlayTimer := 0), HistoryLimit)
             && var card := Draws.MysteryCards[old(mystery.mysteryCard).value];
                var i := old(board.currentIdx); var t := old(board.teams[i]);
             && board == old(board).(teams := old(board.teams)[i := t.(pos := Draws.MysteryDestination(card, t.pos))])
             && mystery == old(mystery).(mysteryFeedback := Some(MysteryNote(card)), showMystery := false, selectedMystery := None)
             && feedbackTimer == FeedbackFrames)
    {
      if mystery.selectedMystery.Some? && !mystery.spinning && overlayTimer > 0 {
        overlayTimer := overlayTimer - 1;
        if overlayTimer <= 0 {
          ApplyMystery();
        }
      }
    }

    /** The feedback countdown of `_update`: when it runs out, all three feedback messages are cleared. */
    method FeedbackFrame()
      requires Valid()
      modifies this`feedbackTimer, this`chance, this`mystery, this`board
      ensures Valid()
      ensures var counting := (old(chance.chanceFeedback).Some? || old(mystery.mysteryFeedback).Some?
          || old(board.sellFeedback).Some?) && old(feedbackTimer) > 0;
        && feedbackTimer == (if counting then old(feedbackTimer) - 1 else old(feedbackTimer))
        && (counting && feedbackTimer == 0 ==>
             && chance == old(chance).(chanceFeedback := None)
             && mystery == old(mystery).(mysteryFeedback := None)
             && board == old(board).(sellFeedback := None))
        && (!(counting && feedbackTimer == 0) ==>
             chance == old(chance) && mystery == old(mystery) && board == old(board))
    {
      if (chance.chanceFeedback.Some? || mystery.mysteryFeedback.Some? || board.sellFeedback.Some?) && feedbackTimer > 0 {
        feedbackTimer := feedbackTimer - 1;
        if feedbackTimer <= 0 {
          ClearFeedback();
        }
      }
    }

    /** All three feedback messages disappear. */
    method ClearFeedback()
      requires Valid()
      modifies this`chance, this`mystery, this`board
      ensures Valid()
      ensures chance == old(chance).(chanceFeedback := None)
      ensures mystery == old(mystery).(mysteryFeedback := None)
      ensures board == old(board).(sellFeedback := None)
    {
      chance := chance.(chanceFeedback := None);
      mystery := mystery.(mysteryFeedback := None);
      board := board.(sellFeedback := None);
    }

    /**
      The last branch of `_handle_mouse_click`: a click on no button or control
      dismisses whatever feedback is showing.
     */
    method DismissFeedback()
      requires Valid()
      modifies this`chance, this`mystery, this`board
      ensures Valid()
      ensures chance == old(chance).(chanceFeedback := None)
      ensures mystery == old(mystery).(mysteryFeedback := None)
      ensures board == old(board).(sellFeedback := None)
    {
      if chance.chanceFeedback.Some? || mystery.mysteryFeedback.Some? || board.sellFeedback.Some? {
        ClearFeedback();
      }
    }

    /**
      The landing effects of `_update`, once the last step is taken: a chance tile
      asks for confirmation, a mystery tile starts the wheel, the society penalty
      tile costs 1,000,000 and the next turn, the event penalty tile costs
      1,500,000; free parking and every other tile do nothing.
     */
    method Land(pick: nat)
      requires Valid()
      modifies this`chance, this`mystery, this`overlayTimer, this`recent, this`targetSegment, this`board, this`feedbackTimer
      ensures Valid()
      ensures LandingDone(old(Fields()), Fields())
    {
      var pos := Current().pos;
      if pos in Board.ChanceTiles {
        chance := chance.(showChanceConfirm := true);
      } else if pos in Board.MysteryTiles {
        TriggerMystery(pick);
      } else if pos == Board.SocietyPenaltyTile {
        Penalize(Board.SocietyPenaltyAmount, true, SocietyPenaltyNote);
      } else if pos == Board.EventPenaltyTile {
        Penalize(Board.EventPenaltyAmount, false, EventPenaltyNote);
      }
      assert Fields() == GameFields(Snap(), Rest());
    }

    /** The current team pays `amount`, is marked to skip its next turn when `skipTurn`, and sees `note`. */
    method Penalize(amount: int, skipTurn: bool, note: Note)
      requires Valid()
      modifies this`board, this`mystery, this`feedbackTimer
      ensures Valid()
      ensures var i := board.currentIdx;
        Snap() == old(Snap()).(board := old(board).(teams := Credit(old(board.teams), i, -amount),
            skip := if skipTurn then old(board.skip)[i := true] else old(board.skip)),
          mystery := old(mystery).(mysteryFeedback := Some(note)), feedbackTimer := FeedbackFrames)
    {
      var i := board.currentIdx;
      var flags := if skipTurn then board.skip[i := true] else board.skip;
      board := board.(teams := Credit(board.teams, i, -amount), skip := flags);
      mystery := mystery.(mysteryFeedback := Some(note));
      feedbackTimer := FeedbackFrames;
    }

    /**
      The movement part of `_update`: when a step completes while moving, the step
      is committed, and the tile's effect fires when it was the last one and only then.
     */
    method MovementFrame(stepDone: bool, pick: nat)
      requires Valid()
      modifies this`board, this`motion, this`chance, this`mystery, this`overlayTimer, this`recent, this`targetSegment,
        this`feedbackTimer
      ensures Valid()
      ensures !(old(motion.moving) && stepDone) ==>
        && board == old(board) && motion == old(motion) && chance == old(chance) && mystery == old(mystery)
        && unchanged(this`overlayTimer, this`recent, this`targetSegment, this`feedbackTimer)
      ensures old(motion.moving) && stepDone ==>
        var i := old(board.currentIdx); var from := old(motion.fromPos).value; var to := (from + 1) % Board.BoardSpaces;
        var bonus := if from == Board.BoardSpaces - 1 then Board.GoBonus else 0;
        var stepped := old(board).(teams := old(board.teams)[i := old(board.teams[i]).(pos := to, balance := old(board.teams[i].balance) + bonus)],
          trails := old(board.trails)[i := Buffers.PushBounded(old(board.trails)[i], to, TrailLength)]);
        var left := old(motion.moveSteps) - 1;
        && (left > 0 ==>
             && motion == Departing(left, to) && board == stepped && chance == old(chance) && mystery == old(mystery)
             && unchanged(this`overlayTimer, this`recent, this`targetSegment, this`feedbackTimer))
        && (left <= 0 ==>
             && motion == old(motion).(moving := false, moveSteps := left)
             && LandingDone(GameFields(old(Snap()).(board := stepped, motion := motion), old(Rest())), Fields()))
    {
      if motion.moving && stepDone {
        var landed := CommitStep();
        if landed {
          Land(pick);
        }
      }
    }

    /**
      `_show_sell_property`: open the sell menu when the current team owns a
      property; otherwise only say there is nothing to sell.
     */
    method ShowSellProperty()
      requires Valid()
      modifies this`board, this`feedbackTimer
      ensures Valid()
      ensures SellMenuOpened(old(Fields()), Fields())
    {
      var id := Current().id;
      var holdings := Board.OwnedProperties(board.owners, id);
      Board.OwnedPropertiesExact(board.owners, id);
      if holdings == [] {
        board := board.(sellFeedback := Some(NothingToSell));
        feedbackTimer := FeedbackFrames;
        return;
      }
      board := board.(showSellProperty := true, sellFeedback := None);
    }

    /**
      `_sell_property`: save, credit the current team with the sale price (half the
      catalog price, rounded half-to-even to a 500,000 step), free the tile and close
      the menu. Ownership is not checked.
     */
    method SellProperty(p: int)
      requires Valid() && p in Board.Catalog
      modifies this`history, this`board, this`feedbackTimer
      ensures Valid()
      ensures history == Buffers.PushBounded(old(history), old(Snap()), HistoryLimit)
      ensures 0 <= p < Board.BoardSpaces
      ensures var price := Board.SellPrice(Board.Catalog[p].price);
        && board == old(board).(teams := Credit(old(board.teams), board.currentIdx, price), owners := old(board.owners)[p := None],
             sellFeedback := Some(Sold(Board.Catalog[p].name, price)), showSellProperty := false)
        && TotalBalance(board.teams) == TotalBalance(old(board.teams)) + price
      ensures feedbackTimer == FeedbackFrames
    {
      SaveState();
      var info := Board.Catalog[p];
      var price := Board.SellPrice(info.price);
      Board.PropertyTileIsCatalog(p);
      TotalAfterCredit(board.teams, board.currentIdx, price);
      board := board.(teams := Credit(board.teams, board.currentIdx, price), owners := board.owners[p := None],
        sellFeedback := Some(Sold(info.name, price)), showSellProperty := false);
      feedbackTimer := FeedbackFrames;
    }

    /** `_adjust_balance`: save, then add `delta` to team `i`'s balance. */
    method AdjustBalance(i: TeamIndex, delta: int)
      requires Valid()
      modifies this`history, this`board
      ensures Valid()
      ensures history == Buffers.PushBounded(old(history), old(Snap()), HistoryLimit)
      ensures board == old(board).(teams := Credit(old(board.teams), i, delta))
      ensures TotalBalance(board.teams) == TotalBalance(old(board.teams)) + delta
    {
      SaveState();
      TotalAfterCredit(board.teams, i, delta);
      board := board.(teams := Credit(board.teams, i, delta));
    }

    /** `_start_trading`: the current team becomes the seller and picks a property; offers start empty. */
    method StartTrading()
      requires Valid()
      modifies this`showTrading, this`tradingPhase, this`tradingSeller, this`tradingOffers, this`tradingFeedback, this`offerAmounts
      ensures Valid()
      ensures TradeStarted(old(Fields()), Fields())
    {
      tradingSeller := Some(board.currentIdx);
      ClearTrade(true, SelectProperty);
    }

    /** `_cancel_trading`: close the trade and forget every offer. */
    method CancelTrading()
      requires Valid()
      modifies this`showTrading, this`tradingPhase, this`tradingOffers, this`tradingFeedback, this`offerAmounts
      ensures Valid()
      ensures !showTrading && tradingPhase == NoPhase && tradingOffers == [] && tradingFeedback == None && offerAmounts == []
    {
      ClearTrade(false, NoPhase);
    }

    method ClearTrade(show: bool, phase: Phase)
      requires Valid() && (phase == NoPhase || phase == SelectProperty)
      requires phase != NoPhase ==> tradingSeller.Some?
      modifies this`showTrading, this`tradingPhase, this`tradingOffers, this`tradingFeedback, this`offerAmounts
      ensures showTrading == show && tradingPhase == phase
      ensures tradingOffers == [] && tradingFeedback == None && offerAmounts == []
      ensures Valid()
    {
      tradingOffers := [];
      offerAmounts := [];
      tradingPhase := phase;
      showTrading := show;
      tradingFeedback := None;
    }

    /**
      `_select_property_for_trade`, from the property buttons of the select phase:
      a property the current team owns becomes the one traded and offers open;
      any other choice is refused with a message.
     */
    method SelectPropertyForTrade(p: Tile)
      requires Valid() && tradingPhase == SelectProperty
      modifies this`tradingProperty, this`tradingPhase, this`tradingFeedback
      ensures Valid()
      ensures board.owners[p] == Some(Current().id) ==>
        tradingProperty == Some(p) && tradingPhase == CollectOffers && tradingFeedback == Some(PropertySelected)
      ensures board.owners[p] != Some(Current().id) ==>
        tradingProperty == old(tradingProperty) && tradingPhase == old(tradingPhase) && tradingFeedback == Some(NotYourProperty)
    {
      if board.owners[p] == Some(Current().id) {
        tradingProperty := Some(p);
        tradingPhase := CollectOffers;
        tradingFeedback := Some(PropertySelected);
      } else {
        tradingFeedback := Some(NotYourProperty);
      }
    }

    /** The "review offers" button of the collect phase. */
    method ReviewOffers()
      requires Valid() && tradingPhase == CollectOffers
      modifies this`tradingPhase
      ensures Valid() && tradingPhase == ChooseBuyer
    {
      tradingPhase := ChooseBuyer;
    }

    /** The "back to offers" button of the choose phase. */
    method BackToOffers()
      requires Valid() && tradingPhase == ChooseBuyer
      modifies this`tradingPhase
      ensures Valid() && tradingPhase == CollectOffers
    {
      tradingPhase := CollectOffers;
    }

    /**
      `_adjust_trading_offer`: only while offers are collected, the buyer's amount
      (500,000 when it has none yet) moves by `delta` and is clamped, and becomes
      both its amount and its offer; every other team's offer stays as it was.
     */
    method AdjustTradingOffer(buyer: TeamIndex, delta: int)
      requires Valid()
      modifies this`offerAmounts, this`tradingOffers, this`tradingFeedback
      ensures Valid()
      ensures old(tradingPhase) != CollectOffers ==>
        offerAmounts == old(offerAmounts) && tradingOffers == old(tradingOffers) && tradingFeedback == old(tradingFeedback)
      ensures old(tradingPhase) == CollectOffers ==>
        var amount := ClampOffer(OfferBase(old(offerAmounts), buyer), delta, board.teams[buyer].balance);
        && Get(tradingOffers, buyer) == Some(amount) && Get(offerAmounts, buyer) == Some(amount)
        && (forall k: TeamIndex :: k != buyer ==> Get(tradingOffers, k) == Get(old(tradingOffers), k))
        && (forall k: TeamIndex :: k != buyer ==> Get(offerAmounts, k) == Get(old(offerAmounts), k))
        && tradingFeedback == Some(OfferSet(board.teams[buyer].name, amount))
    {
      if tradingPhase != CollectOffers {
        return;
      }
      var amount := ClampOffer(OfferBase(offerAmounts, buyer), delta, board.teams[buyer].balance);
      PutKeepsOthers(offerAmounts, buyer, amount);
      offerAmounts := Put(offerAmounts, buyer, amount);
      PlaceOffer(buyer, amount);
      tradingFeedback := Some(OfferSet(board.teams[buyer].name, amount));
    }

    /** The buyer's offer becomes `amount`; the offers of the other teams are kept. */
    method PlaceOffer(buyer: TeamIndex, amount: int)
      requires Valid() && tradingPhase == CollectOffers
      modifies this`tradingOffers
      ensures Valid()
      ensures tradingOffers == Put(old(tradingOffers), buyer, amount)
      ensures Get(tradingOffers, buyer) == Some(amount)
      ensures forall k: TeamIndex :: k != buyer ==> Get(tradingOffers, k) == Get(old(tradingOffers), k)
    {
      PutKeepsOthers(tradingOffers, buyer, amount);
      tradingOffers := Put(tradingOffers, buyer, amount);
    }

    /**
      `_make_trading_offer`: only while offers are collected, a buyer who can pay
      `amount` offers it; one who cannot is told so and nothing else changes.
     */
    method MakeTradingOffer(buyer: TeamIndex, amount: int)
      requires Valid()
      modifies this`tradingOffers, this`tradingFeedback
      ensures Valid()
      ensures old(tradingPhase) != CollectOffers ==>
        tradingOffers == old(tradingOffers) && tradingFeedback == old(tradingFeedback)
      ensures old(tradingPhase) == CollectOffers && board.teams[buyer].balance >= amount ==>
        && Get(tradingOffers, buyer) == Some(amount)
        && (forall k: TeamIndex :: k != buyer ==> Get(tradingOffers, k) == Get(old(tradingOffers), k))
        && tradingFeedback == Some(Offered(board.teams[buyer].name, amount))
      ensures old(tradingPhase) == CollectOffers && board.teams[buyer].balance < amount ==>
        tradingOffers == old(tradingOffers) && tradingFeedback == Some(NotEnoughMoney(board.teams[buyer].name))
    {
      if tradingPhase != CollectOffers {
        return;
      }
      if board.teams[buyer].balance >= amount {
        PlaceOffer(buyer, amount);
        tradingFeedback := Some(Offered(board.teams[buyer].name, amount));
      } else {
        tradingFeedback := Some(NotEnoughMoney(board.teams[buyer].name));
      }
    }

    /**
      `_choose_trading_buyer`: for a team with an offer, save, move exactly the
      offered amount from the buyer to the seller (the money in play is unchanged),
      hand the property to the buyer and close the trade. A team without an offer
      changes nothing. The phase is not checked.
     */
    method ChooseTradingBuyer(buyer: TeamIndex)
      requires Valid()
      modifies this`history, this`board, this`tradingFeedback, this`showTrading, this`tradingPhase, this`tradingOffers
      ensures Valid()
      ensures !HasKey(old(tradingOffers), buyer) ==>
        && board == old(board) && history == old(history)
        && tradingOffers == old(tradingOffers) && tradingPhase == old(tradingPhase)
        && showTrading == old(showTrading) && tradingFeedback == old(tradingFeedback)
      ensures HasKey(old(tradingOffers), buyer) ==>
        && tradingSeller.Some? && tradingProperty.Some?
        && var amount := Get(old(tradingOffers), buyer).value;
        && board == old(board).(teams := Credit(Credit(old(board.teams), buyer, -amount), tradingSeller.value, amount),
             owners := old(board.owners)[tradingProperty.value := Some(old(board.teams)[buyer].id)])
        && TotalBalance(board.teams) == TotalBalance(old(board.teams))
        && history == Buffers.PushBounded(old(history), old(Snap()), HistoryLimit)
        && !showTrading && tradingPhase == NoPhase && tradingOffers == []
        && tradingProperty.value in Board.Catalog
        && tradingFeedback == Some(SoldTo(Board.Catalog[tradingProperty.value].name, old(board.teams)[buyer].name, amount))
    {
      var offer := Get(tradingOffers, buyer);
      if offer.None? {
        return;
      }
      SaveState();
      SellToBuyer(buyer, offer.value);
    }

    /** The accepted sale of the traded property to `buyer` for `amount`. */
    method SellToBuyer(buyer: TeamIndex, amount: int)
      requires Valid() && tradingOffers != []
      modifies this`board, this`tradingFeedback, this`showTrading, this`tradingPhase, this`tradingOffers
      ensures Valid()
      ensures tradingSeller.Some? && tradingProperty.Some?
      ensures board == old(board).(teams := Credit(Credit(old(board.teams), buyer, -amount), tradingSeller.value, amount),
        owners := old(board.owners)[tradingProperty.value := Some(old(board.teams)[buyer].id)])
      ensures TotalBalance(board.teams) == TotalBalance(old(board.teams))
      ensures !showTrading && tradingPhase == NoPhase && tradingOffers == []
      ensures tradingProperty.value in Board.Catalog
      ensures tradingFeedback == Some(SoldTo(Board.Catalog[tradingProperty.value].name, old(board.teams)[buyer].name, amount))
    {
      var p := tradingProperty.value;
      var buyerTeam := board.teams[buyer];
      var seller := tradingSeller.value;
      Board.PropertyTileIsCatalog(p);
      TransferConserves(board.teams, buyer, seller, amount);
      board := board.(teams := Credit(Credit(board.teams, buyer, -amount), seller, amount),
        owners := board.owners[p := Some(buyerTeam.id)]);
      tradingOffers := [];
      tradingPhase := NoPhase;
      tradingFeedback := Some(SoldTo(Board.Catalog[p].name, buyerTeam.name, amount));
      showTrading := false;
    }

    /**
      `_undo_state`: with no snapshot, report failure and change nothing; otherwise
      pop the most recent snapshot and restore every recorded field from it.
     */
    method UndoState() returns (restored: bool)
      requires Valid()
      modifies this`board, this`motion, this`chance, this`mystery, this`feedbackTimer, this`overlayTimer, this`history
      ensures Valid()
      ensures restored <==> old(history) != []
      ensures !restored ==> Snap() == old(Snap()) && history == old(history)
      ensures restored ==> Snap() == old(history[|history| - 1]) && history == old(history[..|history| - 1])
    {
      if history == [] {
        return false;
      }
      var s := history[|history| - 1];
      history := history[..|history| - 1];
      RestoreTeams(s.board.teams);
      board := board.(currentIdx := s.board.currentIdx, owners := s.board.owners, trails := s.board.trails,
        skip := s.board.skip, showSellProperty := s.board.showSellProperty, sellFeedback := s.board.sellFeedback);
      motion := s.motion;
      chance := s.chance;
      mystery := s.mystery;
      feedbackTimer := s.feedbackTimer;
      overlayTimer := s.overlayTimer;
      return true;
    }

    /** The restore loop of `_undo_state`: each team, in order, takes the recorded values. */
    method RestoreTeams(ts: TeamList)
      modifies this`board
      ensures board == old(board).(teams := ts)
    {
      var i := 0;
      while i < TeamCount
        invariant 0 <= i <= TeamCount
        invariant board == old(board).(teams := board.teams)
        invariant forall j :: 0 <= j < i ==> board.teams[j] == ts[j]
      {
        board := board.(teams := board.teams[i := ts[i]]);
        i := i + 1;
      }
    }

    /**
      Undo inverts a saved operation: rolling the dice and then undoing gives back
      every recorded field, and the history as it was, less its oldest snapshot
      when it was full (the roll's snapshot evicted it).
     */
    method RollThenUndo(dd: Draws.DiceDraw)
      requires Valid()
      modifies this`board, this`motion, this`chance, this`mystery, this`feedbackTimer, this`overlayTimer,
        this`history, this`lastDiceRoll, this`log
      ensures Valid()
      ensures Snap() == old(Snap())
      ensures history == if |old(history)| < HistoryLimit then old(history) else old(history[1..])
    {
      RollDice(dd);
      var restored := UndoState();
      Buffers.PushThenPop(old(history), old(Snap()), HistoryLimit);
    }

    /**
      `undo_move`: when a snapshot was restored, stop any movement and close the
      chance, confirmation and mystery overlays with their feedback and both
      countdowns. The sell menu and the wheel are left as restored, and the trade,
      which no snapshot records, as it was.
     */
    method UndoMove()
      requires Valid()
      modifies this`board, this`motion, this`chance, this`mystery, this`feedbackTimer, this`overlayTimer, this`history
      ensures Valid()
      ensures MoveUndone(old(Fields()), Fields())
    {
      var restored := UndoState();
      if restored {
        CloseAfterUndo();
      }
    }

    /** After a restore, `undo_move` stops the movement and closes the chance and mystery overlays and both countdowns. */
    method CloseAfterUndo()
      requires Valid()
      modifies this`motion, this`chance, this`mystery, this`feedbackTimer, this`overlayTimer
      ensures Valid()
      ensures Snap() == old(Snap()).(motion := Still,
        chance := old(chance).(showChance := false, showChanceConfirm := false, chanceFeedback := None),
        mystery := old(mystery).(showMystery := false, mysteryFeedback := None),
        feedbackTimer := 0, overlayTimer := 0)
    {
      chance := chance.(showChance := false, showChanceConfirm := false, chanceFeedback := None);
      mystery := mystery.(showMystery := false, mysteryFeedback := None);
      feedbackTimer := 0;
      overlayTimer := 0;
      motion := Still;
    }

    /**
      `_reset_game`: every team back on GO with 10,000,000, the first team to play,
      no movement, empty trails, closed chance and mystery overlays, empty used and
      recent lists, no owners, no history and no previous roll. The skip flags, the
      sell menu, the overlay timer, the trade and the log are not reset.
     */
    method ResetGame()
      requires Valid()
      modifies this`board, this`motion, this`chance, this`mystery, this`feedbackTimer, this`recent, this`history,
        this`lastDiceRoll
      ensures Valid()
      ensures GameReset(old(Fields()), Fields())
    {
      ResetBoard();
      motion := Still;
      chance := ChanceRecord(false, None, None, false, []);
      feedbackTimer := 0;
      mystery := MysteryRecord(false, None, None, false, None, []);
      recent := [];
      history := [];
      lastDiceRoll := None;
      assert Fields().saved == Snapshot(board, motion, chance, mystery, feedbackTimer, overlayTimer);
      assert Fields().rest == Rest();
    }

    /** The board part of `_reset_game`: teams, turn, trails and owners. */
    method ResetBoard()
      modifies this`board
      ensures forall i :: 0 <= i < TeamCount ==> board.teams[i] == old(board.teams[i]).(pos := 0, balance := StartingBalance)
      ensures board == old(board).(teams := board.teams, currentIdx := 0, trails := NoTrails(), owners := NoOwners())
    {
      ResetTeams();
      board := board.(currentIdx := 0, trails := NoTrails());
      ClearOwners();
    }

    /** The reset loop over the teams: each goes back to GO with the starting balance. */
    method ResetTeams()
      modifies this`board
      ensures board == old(board).(teams := board.teams)
      ensures forall i :: 0 <= i < TeamCount ==> board.teams[i] == old(board.teams[i]).(pos := 0, balance := StartingBalance)
    {
      var i := 0;
      while i < TeamCount
        invariant 0 <= i <= TeamCount
        invariant board == old(board).(teams := board.teams)
        invariant forall j :: 0 <= j < i ==> board.teams[j] == old(board.teams[j]).(pos := 0, balance := StartingBalance)
        invariant forall j :: i <= j < TeamCount ==> board.teams[j] == old(board.teams[j])
      {
        board := board.(teams := board.teams[i := board.teams[i].(pos := 0, balance := StartingBalance)]);
        i := i + 1;
      }
    }

    /** The reset loop over the properties: every tile loses its owner. */
    method ClearOwners()
      modifies this`board
      ensures board == old(board).(owners := NoOwners())
    {
      var j := 0;
      while j < Board.BoardSpaces
        invariant 0 <= j <= Board.BoardSpaces
        invariant board == old(board).(owners := board.owners)
        invariant forall k :: 0 <= k < j ==> board.owners[k] == None
      {
        board := board.(owners := board.owners[j := None]);
        j := j + 1;
      }
    }
    /** `_test_mystery`: open the mystery overlay as landing on a mystery tile does. */
    method TestMystery(pick: nat)
      requires Valid()
      modifies this`mystery, this`overlayTimer, this`recent, this`targetSegment
      ensures Valid()
      ensures MysteryOpened(old(Fields()), Fields())
    {
      TriggerMystery(pick);
    }

    /*
      The operations the commands, actions and keys dispatch to, each stated with
      everything it leaves alone, so that a dispatcher only has to pick one.
     */

    /** `roll_dice`, keeping everything but the history, the die, the movement and the log. */
    method DoRoll(d: Draws.Draw)
      requires Valid()
      modifies this
      ensures Valid()
      ensures CommandDone(RollDiceCommand, d, old(Fields()), Fields())
      ensures log == Buffers.KeepLast(old(log) + [Rolled(Current().name, motion.moveSteps)], LogLimit)
    {
      RollDice(d.dice);
    }

    /** `next_turn`, keeping everything but the history, the board and the log. */
    method DoNextTurn(d: Draws.Draw)
      requires Valid()
      modifies this
      ensures Valid()
      ensures CommandDone(NextTurnCommand, d, old(Fields()), Fields())
      ensures log == Buffers.KeepLast(old(log) + [TurnAdvanced(Current().name)], LogLimit)
    {
      NextTurn();
    }

    /** `buy_current`, keeping everything but the history, the board and the log. */
    method DoBuy(d: Draws.Draw)
      requires Valid()
      modifies this
      ensures Valid()
      ensures CommandDone(BuyPropertyCommand, d, old(Fields()), Fields())
      ensures log == LogAfterBuy(old(board), old(log))
    {
      BuyCurrent();
    }

    /** `_show_sell_property`, keeping everything but the board and the feedback countdown. */
    method DoSell(d: Draws.Draw)
      requires Valid()
      modifies this
      ensures Valid()
      ensures CommandDone(SellPropertyCommand, d, old(Fields()), Fields())
      ensures log == old(log)
    {
      ShowSellProperty();
    }

    /** `_test_chance`, keeping everything but the chance overlay. */
    method DoTestChance(d: Draws.Draw)
      requires Valid()
      modifies this
      ensures Valid()
      ensures CommandDone(TestChanceCommand, d, old(Fields()), Fields())
      ensures log == old(log)
    {
      TestChance();
    }

    /** `_test_mystery`, keeping everything but the mystery overlay, its countdown and the wheel. */
    method DoTestMystery(d: Draws.Draw)
      requires Valid()
      modifies this
      ensures Valid()
      ensures CommandDone(TestMysteryCommand, d, old(Fields()), Fields())
      ensures log == old(log)
    {
      TestMystery(d.segment);
    }

    /** `_start_trading`, keeping everything but the trade. */
    method DoStartTrading(d: Draws.Draw)
      requires Valid()
      modifies this
      ensures Valid()
      ensures CommandDone(StartTradingCommand, d, old(Fields()), Fields())
      ensures log == old(log)
    {
      StartTrading();
    }

    /** `_reset_game`, keeping the overlay countdown, the wheel's target and the trade. */
    method DoReset(d: Draws.Draw)
      requires Valid()
      modifies this
      ensures Valid()
      ensures CommandDone(ResetGameCommand, d, old(Fields()), Fields())
      ensures log == old(log)
    {
      ResetGame();
    }

    /** `_confirm_chance_yes`, keeping everything but the chance overlay and its countdown. */
    method DoTakeChance(d: Draws.Draw)
      requires Valid()
      modifies this
      ensures Valid()
      ensures ActionDone(TakeChanceAction, d, old(Fields()), Fields())
      ensures log == old(log)
    {
      ConfirmChanceYes(d.question);
    }

    /** `_start_spin_wheel`, keeping everything but the mystery overlay and the wheel. */
    method DoSpin(d: Draws.Draw)
      requires Valid()
      modifies this
      ensures Valid()
      ensures ActionDone(SpinMysteryAction, d, old(Fields()), Fields())
      ensures log == old(log)
    {
      StartSpinWheel(d.segment);
    }

    /** `undo_move`, keeping the wheel, the previous roll, the trade and the log. */
    method DoUndo()
      requires Valid()
      modifies this
      ensures Valid()
      ensures KeyUndone(old(Fields()), Fields()) && log == old(log)
    {
      UndoMove();
    }

    /**
      One entry of `check_streamlit_commands`: a command whose guard holds runs its
      operation and logs a control-centre line; any other leaves the game as it was.
     */
    method ApplyCommand(c: Command, d: Draws.Draw) returns (applied: bool)
      requires Valid()
      modifies this
      ensures Valid()
      ensures applied <==> CommandApplies(c, old(motion.moving))
      ensures !applied ==> Fields() == old(Fields()) && log == old(log)
      ensures applied ==> CommandDone(c, d, old(Fields()), Fields()) && |log| > 0 && log[|log| - 1] == ControlCenter(c)
      ensures motion.moving == MovingAfter(c, old(motion.moving))
    {
      applied := CommandApplies(c, motion.moving);
      if !applied {
        return;
      }
      RunCommand(c, d);
      LogEvent(ControlCenter(c));
    }

    /** The operation a control-centre command stands for. */
    method RunCommand(c: Command, d: Draws.Draw)
      requires Valid() && CommandApplies(c, motion.moving)
      modifies this
      ensures Valid()
      ensures CommandDone(c, d, old(Fields()), Fields())
      ensures motion.moving == MovingAfter(c, old(motion.moving))
    {
      match c {
        case RollDiceCommand => DoRoll(d);
        case NextTurnCommand => DoNextTurn(d);
        case BuyPropertyCommand => DoBuy(d);
        case SellPropertyCommand => DoSell(d);
        case TestChanceCommand => DoTestChance(d);
        case TestMysteryCommand => DoTestMystery(d);
        case StartTradingCommand => DoStartTrading(d);
        case ResetGameCommand => DoReset(d);
      }
    }

    /**
      `check_streamlit_commands` over the control-centre mailbox, with `draws(n)` the
      random inputs of the n-th entry: every entry is handled in file order and then
      deleted, so the mailbox ends empty whether or not its commands applied, and a
      token is moving afterwards as the entries' commands left it. `last` is the
      last entry whose guard held: its line ends the log; when there is none, the
      game is as it was.
     */
    method CheckCommands(commands: Mailbox<Command>, draws: nat -> Draws.Draw)
      returns (left: Mailbox<Command>, ghost last: int)
      requires Valid()
      modifies this
      ensures Valid()
      ensures left == []
      ensures motion.moving == MovingBefore(commands, old(motion.moving), |commands|)
      ensures -1 <= last < |commands|
      ensures last >= 0 ==> EntryApplies(commands, old(motion.moving), last)
      ensures forall k :: last < k < |commands| ==> !EntryApplies(commands, old(motion.moving), k)
      ensures last >= 0 ==> |log| > 0 && log[|log| - 1] == ControlCenter(commands[last].value)
      ensures last < 0 ==> Fields() == old(Fields()) && log == old(log)
    {
      left := commands;
      last := -1;
      var n := 0;
      while n < |commands|
        invariant 0 <= n <= |commands|
        invariant left == commands[n..]
        invariant Valid()
        invariant motion.moving == MovingBefore(commands, old(motion.moving), n)
        invariant -1 <= last < n
        invariant last >= 0 ==> EntryApplies(commands, old(motion.moving), last)
        invariant forall k :: last < k < n ==> !EntryApplies(commands, old(motion.moving), k)
        invariant last >= 0 ==> |log| > 0 && log[|log| - 1] == ControlCenter(commands[last].value)
        invariant last < 0 ==> Fields() == old(Fields()) && log == old(log)
      {
        var entry := left[0];
        var applied := ApplyCommand(entry.value, draws(n));
        if applied {
          last := n;
        }
        RemoveFirstKey(left);
        left := RemoveKey(left, entry.key);
        n := n + 1;
      }
    }

    /**
      One entry of `check_streamlit_player_actions` for the team whose turn it is: an
      action whose guard holds runs its operation and logs a line under the name of
      the team current after it; any other leaves the game as it was.
     */
    method ApplyAction(a: Action, d: Draws.Draw) returns (applied: bool)
      requires Valid()
      modifies this
      ensures Valid()
      ensures applied <==> ActionApplies(a, old(motion.moving), old(chance.showChanceConfirm), old(mystery.showMystery))
      ensures ActionHandled(a, d, old(Fields()), Fields(), old(log), log)
    {
      applied := ActionApplies(a, motion.moving, chance.showChanceConfirm, mystery.showMystery);
      if !applied {
        return;
      }
      RunAction(a, d);
      LogEvent(PlayerDid(Current().name, a));
    }

    /** The operation a player action stands for. */
    method RunAction(a: Action, d: Draws.Draw)
      requires Valid() && ActionApplies(a, motion.moving, chance.showChanceConfirm, mystery.showMystery)
      modifies this
      ensures Valid()
      ensures ActionDone(a, d, old(Fields()), Fields())
    {
      match a {
        case RollDiceAction => DoRoll(d);
        case EndTurnAction => DoNextTurn(d);
        case BuyPropertyAction => DoBuy(d);
        case SellPropertyAction => DoSell(d);
        case TakeChanceAction => DoTakeChance(d);
        case SpinMysteryAction => DoSpin(d);
        case StartTradingAction => DoStartTrading(d);
      }
    }

    /**
      `check_streamlit_player_actions` over the player mailbox: only the entry keyed
      by the team current when the scan starts can act (the keys are distinct, so
      there is at most one), and every entry is deleted. `handled` is the action that
      reached its guard, and `at` its place in the mailbox.
     */
    method CheckPlayerActions(actions: Mailbox<Action>, draws: nat -> Draws.Draw)
      returns (left: Mailbox<Action>, ghost handled: seq<Action>, ghost at: int)
      requires Valid()
      modifies this
      ensures Valid()
      ensures left == []
      ensures handled == if HasKey(actions, old(Current().id)) then [Get(actions, old(Current().id)).value] else []
      ensures handled == [] ==> Fields() == old(Fields()) && log == old(log)
      ensures handled != [] ==> 0 <= at < |actions| && actions[at] == Entry(old(Current().id), handled[0])
      ensures handled != [] ==> ActionHandled(handled[0], draws(at), old(Fields()), Fields(), old(log), log)
    {
      var currentId := Current().id;
      left := actions;
      handled := [];
      at := -1;
      var n := 0;
      while n < |actions|
        invariant 0 <= n <= |actions|
        invariant left == actions[n..]
        invariant Valid()
        invariant -1 <= at < n
        invariant at < 0 ==> handled == [] && Fields() == old(Fields()) && log == old(log) && forall j :: 0 <= j < n ==> actions[j].key != currentId
        invariant at >= 0 ==> |handled| == 1 && actions[at] == Entry(currentId, handled[0])
        invariant at >= 0 ==> ActionHandled(handled[0], draws(at), old(Fields()), Fields(), old(log), log)
      {
        var entry := left[0];
        if entry.key == currentId {
          assert at < 0;
          var _ := ApplyAction(entry.value, draws(n));
          handled := [entry.value];
          at := n;
        }
        RemoveFirstKey(left);
        left := RemoveKey(left, entry.key);
        n := n + 1;
      }
      if at >= 0 {
        GetEntry(actions, at);
      }
    }

    /**
      The Escape branch of `_handle_events`: close the first open overlay in the
      order chance question, chance confirmation, mystery, sell menu, trade, with the
      overlay's feedback; with none open, report that the game should quit.
     */
    method CloseOverlay() returns (running: bool)
      requires Valid()
      modifies this`chance, this`mystery, this`board, this`showTrading, this`tradingPhase, this`tradingOffers,
        this`tradingFeedback, this`offerAmounts
      ensures Valid()
      ensures running <==> old(chance.showChance || chance.showChanceConfirm || mystery.showMystery
        || board.showSellProperty || showTrading)
      ensures old(chance.showChance) ==>
        chance == old(chance).(showChance := false, chanceFeedback := None) && mystery == old(mystery) && board == old(board)
        && showTrading == old(showTrading)
      ensures !old(chance.showChance) && old(chance.showChanceConfirm) ==>
        chance == old(chance).(showChanceConfirm := false) && mystery == old(mystery) && board == old(board)
        && showTrading == old(showTrading)
      ensures !old(chance.showChance || chance.showChanceConfirm) && old(mystery.showMystery) ==>
        chance == old(chance) && mystery == old(mystery).(showMystery := false, mysteryFeedback := None) && board == old(board)
        && showTrading == old(showTrading)
      ensures !old(chance.showChance || chance.showChanceConfirm || mystery.showMystery) && old(board.showSellProperty) ==>
        chance == old(chance) && mystery == old(mystery) && board == old(board).(showSellProperty := false, sellFeedback := None)
        && showTrading == old(showTrading)
      ensures !old(chance.showChance || chance.showChanceConfirm || mystery.showMystery || board.showSellProperty) ==>
        chance == old(chance) && mystery == old(mystery) && board == old(board)
        && !showTrading && (old(showTrading) ==> tradingPhase == NoPhase && tradingOffers == [])
      ensures EscapePressed(old(Fields()), Fields())
    {
      running := true;
      if chance.showChance {
        chance := chance.(showChance := false, chanceFeedback := None);
      } else if chance.showChanceConfirm {
        chance := chance.(showChanceConfirm := false);
      } else if mystery.showMystery {
        mystery := mystery.(showMystery := false, mysteryFeedback := None);
      } else if board.showSellProperty {
        board := board.(showSellProperty := false, sellFeedback := None);
      } else if showTrading {
        CancelTrading();
      } else {
        running := false;
      }
    }

    /**
      A key press in `_handle_events`: Escape as above; R, B, E, S, T and U roll,
      buy, end the turn, open the sell menu, start a trade or undo, but only when no
      token is moving and no chance, confirmation, mystery or trading overlay is
      open; any other key does nothing.
     */
    method HandleKey(k: Key, d: Draws.Draw) returns (running: bool)
      requires Valid()
      modifies this
      ensures Valid()
      ensures k == Escape ==> (running <==> old(chance.showChance || chance.showChanceConfirm || mystery.showMystery
        || board.showSellProperty || showTrading))
      ensures k == Escape ==> EscapePressed(old(Fields()), Fields()) && log == old(log)
      ensures k != Escape ==> running && KeyDone(k, d, old(Idle()), old(Fields()), Fields(), old(log), log)
    {
      running := true;
      if k == Escape {
        running := CloseOverlay();
        return;
      }
      if !Idle() {
        return;
      }
      match k {
        case KeyR => DoRoll(d);
        case KeyB => DoBuy(d);
        case KeyE => DoNextTurn(d);
        case KeyS => DoSell(d);
        case KeyT => DoStartTrading(d);
        case KeyU => DoUndo();
        case OtherKey =>
      }
    }

    /** `save_streamlit_state` rewrites the published state with no messages. */
    method PublishState()
      modifies this`log
      ensures log == []
    {
      log := [];
    }

    /**
      The frame-driven half of `_update`: the movement step, the wheel and the
      auto-apply and feedback countdowns, in that order. When none of them has
      anything to do, nothing changes.
     */
    method FramePhase(stepDone: bool, spinDone: bool, resolved: Segment, pick: nat)
      requires Valid()
      modifies this`board, this`motion, this`chance, this`mystery, this`overlayTimer, this`recent, this`targetSegment,
        this`feedbackTimer, this`history
      ensures Valid()
      ensures FramesIdle(stepDone, spinDone, old(Snap())) ==> Fields() == old(Fields())
    {
      MovementFrame(stepDone, pick);
      SpinFrame(spinDone, resolved);
      Countdowns();
    }

    /** The two countdowns of `_update`, auto-apply then feedback; with neither running, nothing changes. */
    method Countdowns()
      requires Valid()
      modifies this`overlayTimer, this`history, this`board, this`mystery, this`feedbackTimer, this`chance
      ensures Valid()
      ensures FramesIdle(false, false, old(Snap())) ==> Fields() == old(Fields())
    {
      MysteryTimerFrame();
      FeedbackFrame();
    }

    /**
      The mailbox half of `_update`: the control-centre commands, then the current
      team's action. Both mailboxes end empty; when no command is known and the
      current team has no action waiting, nothing changes.
     */
    method MailboxPhase(commands: Mailbox<Command>, commandDraws: nat -> Draws.Draw,
                        actions: Mailbox<Action>, actionDraws: nat -> Draws.Draw)
      returns (commandsLeft: Mailbox<Command>, actionsLeft: Mailbox<Action>)
      requires Valid()
      modifies this
      ensures Valid()
      ensures commandsLeft == [] && actionsLeft == []
      ensures (forall j :: 0 <= j < |commands| ==> commands[j].value.UnknownCommand?) && !HasKey(actions, old(Current().id))
        ==> Fields() == old(Fields())
    {
      ghost var last, handled, at;
      commandsLeft, last := CheckCommands(commands, commandDraws);
      actionsLeft, handled, at := CheckPlayerActions(actions, actionDraws);
    }

    /**
      One frame of `_update`: the frame-driven half, both mailboxes, and publishing
      the state. Each mailbox ends empty and the published log with it; when no
      step, spin, countdown or mailbox entry applies, nothing else changes.
     */
    method Update(stepDone: bool, spinDone: bool, resolved: Segment, pick: nat,
                  commands: Mailbox<Command>, commandDraws: nat -> Draws.Draw,
                  actions: Mailbox<Action>, actionDraws: nat -> Draws.Draw)
      returns (commandsLeft: Mailbox<Command>, actionsLeft: Mailbox<Action>)
      requires Valid()
      modifies this
      ensures Valid()
      ensures commandsLeft == [] && actionsLeft == [] && log == []
      ensures && FramesIdle(stepDone, spinDone, old(Snap()))
              && (forall j :: 0 <= j < |commands| ==> commands[j].value.UnknownCommand?)
              && !HasKey(actions, old(Current().id))
        ==> Fields() == old(Fields())
    {
      FramePhase(stepDone, spinDone, resolved, pick);
      commandsLeft, actionsLeft := MailboxPhase(commands, commandDraws, actions, actionDraws);
      PublishState();
    }
  }
}

# Arthvidya Monopoly: the game state machine

This project models the `Game` object of a five-team board game played on a 24-tile
circular board, and proves properties of that model.

- **Moving.** Teams roll a die and walk one tile at a time. They collect 2,000,000
  each time a step wraps from tile 23 to tile 0.
- **Properties.** Teams buy the twelve property tiles for free and sell them back
  at half price, rounded half-to-even to a 500,000 step. They can also trade a
  property to another team through a three-phase negotiation.
- **Special tiles.**
  - A chance tile asks whether to take a quiz question; questions rotate without
    repeats until all twenty have been asked.
  - A mystery tile spins a five-segment wheel that avoids its three most recent
    results, then applies a card after a countdown.
  - Two penalty tiles cost money; one of them also costs the next turn.
- **Undo and reset.** Eight operations first push a snapshot onto a 50-entry undo
  history: rolling the die, ending the turn, buying, adjusting a balance, answering
  a chance question, applying a mystery card, selling a property, and choosing a
  trading buyer. Undo pops the newest snapshot. Reset starts the game over.
- **Control centre.** A remote control centre and the players send commands
  through two mailboxes, which the game drains every frame. It publishes its
  state with an event log of at most 50 lines.

The model has these modules:

- `Options` is an optional value.
- `Board` holds the tiles, the catalog, the purchase rule, the sale price, a
  team's holdings and the board sides.
- `Buffers` holds the bounded lists: append then evict the oldest, and keep-last.
- `Turns` holds the turn order with skip flags.
- `Draws` holds the random choices, with the randomness given as inputs: the die,
  the chance question, the wheel target and the mystery cards.
- `Dicts` models dictionaries as insertion-ordered entry lists.
- `Teams` holds the teams and their money.
- `Trading` holds the trade phases and the offer clamp.
- `GameState` holds the recorded state: snapshots, notes, log lines, commands
  and actions.
- `GameMachine` holds the class `Game`.

`Game` keeps the fields `_save_state` records in four records plus two countdowns:

- the board: teams, turn, owners, trails, skip flags and the sell menu;
- the movement;
- the chance overlay;
- the mystery overlay.

A snapshot is exactly those six values. Undo restores them and leaves the rest
alone: the trade, the recent wheel results, the wheel target, the previous roll
and the log.

## Model

| member | source | states |
|---|---|---|
| Board.NonSpecialIsCatalog | main.py:897-904 | a tile on the board that `can_buy` does not exclude as special is exactly a catalog tile |
| Board.CatalogIsOdd | main.py:591-606 | a tile on the board is a catalog tile exactly when it is odd |
| Board.PropertyTileIsCatalog | main.py:591-606 | the odd tiles 1..23 are exactly the keys of the property catalog |
| Board.CanBuyAt | main.py:897-904 | a team may buy exactly when its tile (position mod 24) is a catalog tile nobody owns |
| Board.RoundHalfEven | main.py:1992 | the result is Python's `round(n / 500000)`: nearest integer, ties to the even one |
| Board.RoundingIsUnique | main.py:1992 | at most one integer meets the rounding rule, so the rounding is determined |
| Board.SellPrice | main.py:1990-1992 | the sale price is a multiple of 500,000 within 250,000 of half the price, rounded half-to-even |
| Board.SellPricesOfCatalog | main.py:1990-1992 | 2.0M, 2.5M, 3.0M and 3.5M sell for 1.0M, 1.0M, 1.5M and 2.0M, and those are the only catalog prices |
| Board.OwnedFromSound | main.py:1968-1980 | every listed holding is a catalog tile the team owns, with its catalog name and price, in tile order |
| Board.OwnedFromComplete | main.py:1968-1980 | every catalog tile the team owns is listed |
| Board.OwnedPropertiesExact | main.py:1968-1980 | the holdings list names exactly the team's catalog tiles in order, and is empty exactly when it owns none |
| Board.SidesFollowThePath | main.py:1242-1249 | the board sides follow the path from GO (bottom, right, top, left) without going back |
| Buffers.KeepLast | main.py:373-374 | the `[-50:]` slice: the result is the suffix of the list with min(length, 50) entries |
| Buffers.PushBounded | main.py:1088-1090 | append and evict when over capacity: the newest entry is last, the length stays within the capacity, nothing new appears |
| Buffers.PushIsKeepLast | main.py:858-860 | one bounded push equals the keep-last slice of the appended list |
| Buffers.PushAllKeepsNewest | main.py:1088-1090 | any run of bounded pushes keeps exactly the `cap` most recent entries in order |
| Buffers.PushThenPop | main.py:1088-1097 | popping after a push gives back the list, less its oldest entry when it was full |
| Turns.Seat | main.py:886 | stepping `current_idx` cyclically stays within the seats |
| Turns.SeatOffset | main.py:885-892 | seat and offset are inverse to each other on one lap |
| Turns.SeatStep | main.py:886 | `(idx + 1) % n` is the next seat of the lap |
| Turns.Attempts | main.py:884-892 | the count of passed teams stays between where the scan is and `len(teams)` |
| Turns.AttemptsPassFlagged | main.py:885-892 | every team the scan passes is flagged, and it stops at an unflagged team |
| Turns.NextTurnSkipsFlagged | main.py:880-892 | the turn goes to the first unflagged team after the current one; exactly the passed teams lose their flags; the team the turn lands on is left unflagged, and keeps its flag as it was when some team is unflagged; every other team keeps its flag |
| Turns.NextTurnOutcome | main.py:880-892 | with an unflagged team the turn goes to an unflagged team; with all flagged it comes back to the same team with every flag cleared |
| Turns.ClearNext | main.py:888-890 | clearing the next seat's flag extends the cleared range by one |
| Turns.ScanTurn | main.py:884-892 | the loop ends on the next seat and with the flags after the scan |
| Draws.Differing | main.py:757 | the filtered rolls are exactly the rolls that differ from the previous roll |
| Draws.ChooseDie | main.py:746-767 | the die is in 1..6; the entropy branch gives `(hash + len(history)) % 6 + 1`; otherwise it is one of the rolls and differs from the previous roll when some roll does |
| Draws.Unused | main.py:923 | the questions not yet asked, each once |
| Draws.ChooseQuestion | main.py:921-930 | the question is not yet asked and joins the used list, or when all 20 were asked the list restarts with it |
| Draws.QuestionsStayDistinct | main.py:921-930 | the used-question list never holds a question twice |
| Draws.RemoveFirst | main.py:1705-1706 | `list.remove` drops one element; on a list without repeats exactly that element |
| Draws.AvailableSegments | main.py:1700-1706 | the available segments are exactly those not among the recent results, without repeats |
| Draws.ChooseSpinTarget | main.py:1708-1714 | the target is an available segment when there is one; otherwise the recent list is reset |
| Draws.SpinAvoidsRecent | main.py:1700-1714 | with at most three recent results the target is never a recent result and the reset branch never runs |
| Draws.MysteryDestination | main.py:1659-1677 | move cards wrap mod 24; the jumps go to 12 and 6; "no rent" leaves the token where it is |
| Draws.MoveCardsWrap | main.py:1662 | 3 ahead of 22 is 1, and 2 back from 1 is 23 |
| Dicts.Get | main.py:2067 | a lookup finds a value exactly when the key is present |
| Dicts.GetEntry | main.py:2073 | looking up an entry's key gives that entry's value |
| Dicts.Put | main.py:2047-2050 | an assignment keeps the keys distinct and the key present |
| Dicts.PutGet | main.py:2047-2050 | after `d[k] = v`, `k` maps to `v` and every other key to its old value |
| Dicts.PutKeepsOthers | main.py:2047-2050 | after `d[k] = v`, `k` maps to `v` and every other key keeps its value, as one statement for all keys |
| Dicts.RemoveKeyDeletes | main.py:420-421 | `del d[k]` leaves no `k`, keeps every other key's value and adds no key |
| Dicts.RemoveFirstKey | main.py:391-421 | deleting the first key of a dictionary leaves the entries after it, in order |
| Dicts.NoKeyRemoveKey | main.py:420-421 | deleting a key that is absent leaves the dictionary as it was |
| Teams.InitialTeams | main.py:69-75 | five teams T1..T5, each on GO with 10,000,000 |
| Teams.Credit | main.py:1476 | one team's balance moves by `delta`; the others are untouched |
| Teams.TotalAfterCredit | main.py:1476 | crediting one team changes the money in play by exactly that amount |
| Teams.TransferConserves | main.py:2077-2079 | a transfer between teams leaves the money in play unchanged |
| Trading.ClampOffer | main.py:2038-2045 | below 500,000 the offer is 500,000; within the range it is the sum; above the balance it is the balance; so it lies between 500,000 and the balance whenever the balance is at least 500,000 |
| GameState.PushKeepsHistoryOk | main.py:1088-1090 | pushing a valid snapshot keeps the history valid and within 50 |
| GameState.Departing | main.py:778-784 | a move starts moving with the given steps on the segment from the team's tile to the next one |
| GameMachine.OfferBase | main.py:2035-2036 | the offer buttons start from the buyer's amount, or 500,000 when it has none |
| GameMachine.RollBlocksRoll | main.py:391-396 | in one pass over the mailbox, a roll refuses every later roll that no reset separates from it |
| GameMachine.Game.constructor | main.py:69-165 | a new game: every team on GO with 10,000,000, first team to play, nothing owned, no skip flag, no overlay, no movement, empty history and log, and no trade, offers or amounts |
| GameMachine.Game.SaveState | main.py:1044-1090 | the snapshot of the recorded state is pushed, evicting the oldest beyond 50 |
| GameMachine.Game.LogEvent | main.py:356-374 | the line is appended and only the last 50 are kept |
| GameMachine.Game.RecordTrail | main.py:855-860 | only the current team's trail gains its position, keeping the last 15 |
| GameMachine.Game.RollDice | main.py:738-784 | saves, records a die in 1..6 as the last roll, logs it, and starts moving from the team's tile |
| GameMachine.Game.MoveToken | main.py:796-802 | the token takes the segment's step, gaining 2,000,000 exactly when it steps from 23 to 0 |
| GameMachine.Game.CommitStep | main.py:792-829 | one step: position +1 mod 24, GO bonus exactly on the wrap, trail recorded; it lands exactly when the steps run out, else the next segment starts |
| GameMachine.Game.Land | main.py:808-825 | the whole new state for each tile kind: a chance tile only opens the confirmation; a mystery tile only opens the wheel; tile 6 takes 1,000,000 from the current team, flags it to skip and shows the penalty; tile 18 takes 1,500,000 and shows the penalty; any other tile changes nothing |
| GameMachine.Game.Penalize | main.py:812-823 | the current team pays the amount, is flagged to skip when asked, the note shows and the feedback countdown is set; nothing else recorded changes |
| GameMachine.Game.MovementFrame | main.py:787-829 | without a due step nothing changes; a due step moves the current team one tile mod 24, pays 2,000,000 exactly on the wrap and extends its trail; with steps left the next segment starts, otherwise movement stops and the landing effect of the tile follows |
| GameMachine.Game.NextTurn | main.py:880-895 | saves, gives the turn to the next unflagged team, clears the passed teams' flags, logs the new team |
| GameMachine.Game.BuyCurrent | main.py:906-919 | on an unowned catalog tile the team becomes the owner without paying, with a snapshot and a log line naming it and the property; otherwise nothing changes, nothing is saved and nothing is logged |
| GameMachine.Game.TriggerChance | main.py:921-933 | a question not asked since the last reset is shown and recorded; the overlay countdown is set |
| GameMachine.Game.ConfirmChanceYes | main.py:980-983 | the confirmation closes and a question is asked |
| GameMachine.Game.ConfirmChanceNo | main.py:985-988 | the confirmation closes and nothing else changes |
| GameMachine.Game.TestChance | main.py:990-992 | the confirmation opens |
| GameMachine.Game.CheckChanceAnswer | main.py:1531-1541 | saves, shows whether the option was the right one, closes the question; no money or token moves |
| GameMachine.Game.TriggerMystery | main.py:1178-1182 | the overlay opens and the wheel spins toward a segment that is not a recent result |
| GameMachine.Game.TestMystery | main.py:994-996 | as landing on a mystery tile |
| GameMachine.Game.StartSpinWheel | main.py:1683-1738 | the wheel spins with no result shown, aimed away from the recent results, which stay as they were |
| GameMachine.Game.DetermineSelected | main.py:1821-1836 | the result is shown and selected, joins the recency window of 3 and the used list, which restarts once all five came up |
| GameMachine.Game.SpinFrame | main.py:1740-1779 | when the spin completes the wheel stops, the result is shown and selected, joins the recent results and the used list (which restarts once all five came up) and the countdown is set; otherwise nothing changes |
| GameMachine.Game.ApplyMystery | main.py:1653-1681 | saves, moves the token as the card says, closes the overlay; no balance changes; "no rent" leaves the board as it was |
| GameMachine.Game.MysteryTimerFrame | main.py:835-838 | with a result selected and the wheel stopped the countdown drops by one; at zero, after a snapshot, the current token moves to the card's destination, the overlay closes and the card's note shows; otherwise nothing changes |
| GameMachine.Game.FeedbackFrame | main.py:841-846 | while feedback shows the countdown runs down, and all three feedbacks clear when it reaches zero |
| GameMachine.Game.ClearFeedback | main.py:843-846 | the chance, mystery and sell feedbacks are cleared and nothing else in their records changes |
| GameMachine.Game.DismissFeedback | main.py:732-736 | a click on no control clears all three feedbacks |
| GameMachine.Game.ShowSellProperty | main.py:1955-1966 | with no property owned it says so; otherwise the sell menu opens |
| GameMachine.Game.SellProperty | main.py:1982-2005 | saves, credits the half-price rounded half-to-even, frees the tile and closes the menu; the money in play rises by that price |
| GameMachine.Game.AdjustBalance | main.py:1472-1478 | saves and moves one team's balance by `delta`; the money in play changes by `delta` |
| GameMachine.Game.StartTrading | main.py:2007-2014 | the current team becomes the seller, property selection starts, offers are empty |
| GameMachine.Game.CancelTrading | main.py:2093-2099 | the trade closes with no phase, offers or amounts |
| GameMachine.Game.ClearTrade | main.py:2093-2099 | the trade shows as asked in the given phase, with no offers, amounts or message |
| GameMachine.Game.SelectPropertyForTrade | main.py:2016-2024 | a property the current team owns is selected and offers open; any other is refused with a message |
| GameMachine.Game.ReviewOffers | main.py:2321 | collecting offers moves on to choosing a buyer |
| GameMachine.Game.BackToOffers | main.py:2335 | choosing a buyer goes back to collecting offers |
| GameMachine.Game.AdjustTradingOffer | main.py:2026-2051 | outside the collect phase nothing changes; otherwise the buyer's clamped amount becomes both its amount and its offer, every other team's offer and amount are kept, and the new offer is announced |
| GameMachine.Game.PlaceOffer | main.py:2050 | the buyer's offer becomes the amount and every other team's offer is kept |
| GameMachine.Game.MakeTradingOffer | main.py:2053-2063 | outside the collect phase nothing changes; a buyer who can pay offers the amount; one who cannot is told so and no offer changes |
| GameMachine.Game.ChooseTradingBuyer | main.py:2065-2091 | a team without an offer changes nothing; otherwise, after a snapshot, exactly the offer moves from buyer to seller (money conserved), the property goes to the buyer, the trade closes and the sale is announced with property, buyer and amount |
| GameMachine.Game.SellToBuyer | main.py:2073-2091 | the amount moves from buyer to seller with the money in play unchanged, the property goes to the buyer, the trade closes and the sale is announced |
| GameMachine.Game.UndoState | main.py:1092-1138 | an empty history reports false and changes nothing; otherwise the newest snapshot is popped and every recorded field restored from it |
| GameMachine.Game.RestoreTeams | main.py:1100-1105 | the restore loop gives every team its recorded values |
| GameMachine.Game.RollThenUndo | main.py:738-740 | undo inverts a roll: the recorded state comes back exactly, and the history less any snapshot the roll evicted |
| GameMachine.Game.UndoMove | main.py:862-878 | with no snapshot nothing changes; otherwise the newest snapshot is popped and restored, with movement stopped, the chance, confirm and mystery overlays and their feedback closed and both countdowns at zero |
| GameMachine.Game.CloseAfterUndo | main.py:864-878 | movement stops, the chance, confirm and mystery overlays and their feedback close and both countdowns are zero; nothing else recorded changes |
| GameMachine.Game.ResetGame | main.py:1140-1176 | teams back on GO with 10,000,000, first team to play, no movement, empty trails, the chance and mystery overlays cleared with their used lists, no owners, no recent results, no history, no previous roll; the skip flags and the sell menu stay |
| GameMachine.Game.ResetBoard | main.py:1140-1172 | each team on GO with 10,000,000 keeping id and name, the first team to play, empty trails, no owners; skip flags and sell menu kept |
| GameMachine.Game.ResetTeams | main.py:1142-1144 | every team goes to GO with 10,000,000, keeping its id and name |
| GameMachine.Game.ClearOwners | main.py:1171-1172 | every tile loses its owner |
| GameMachine.Game.DoRoll | main.py:738-784 | `roll_dice` as a dispatch target: the roll's effect with everything else kept, and the roll logged |
| GameMachine.Game.DoNextTurn | main.py:880-895 | `next_turn` as a dispatch target: the turn's effect with everything else kept, and the new team logged |
| GameMachine.Game.DoBuy | main.py:906-919 | `buy_current` as a dispatch target: the purchase's effect with everything else kept, and the purchase logged exactly when it happens |
| GameMachine.Game.DoSell | main.py:1955-1966 | `_show_sell_property` as a dispatch target: the sell menu or its message, everything else and the log kept |
| GameMachine.Game.DoTestChance | main.py:990-992 | `_test_chance` as a dispatch target: only the confirmation opens; the log is kept |
| GameMachine.Game.DoTestMystery | main.py:994-996 | `_test_mystery` as a dispatch target: only the mystery overlay, its countdown and the wheel change; the log is kept |
| GameMachine.Game.DoStartTrading | main.py:2007-2014 | `_start_trading` as a dispatch target: only the trade changes; the log is kept |
| GameMachine.Game.DoReset | main.py:1140-1176 | `_reset_game` as a dispatch target: the reset, with the overlay countdown, the wheel's target, the trade and the log kept |
| GameMachine.Game.DoTakeChance | main.py:980-983 | `_confirm_chance_yes` as a dispatch target: only the chance overlay and its countdown change; the log is kept |
| GameMachine.Game.DoSpin | main.py:1683-1738 | `_start_spin_wheel` as a dispatch target: only the mystery overlay and the wheel change; the log is kept |
| GameMachine.Game.DoUndo | main.py:862-878 | `undo_move` as a dispatch target: the undo, with the wheel, the previous roll, the trade and the log kept |
| GameMachine.Game.ApplyCommand | main.py:388-417 | a command acts exactly when its guard holds (a roll only when no token moves; unknown commands never); then its operation's whole effect with everything else kept and a control-centre log line; otherwise nothing changes; a token moves afterwards as the command decides |
| GameMachine.Game.RunCommand | main.py:398-416 | a command whose guard holds has its operation's whole effect, and a token moves afterwards as the command decides |
| GameMachine.Game.CheckCommands | main.py:382-422 | the mailbox ends empty; each entry acts exactly when its guard holds given the entries before it; the movement after is the one those entries decide; the last line logged is the last acting entry's; with none acting nothing changes |
| GameMachine.Game.ApplyAction | main.py:440-464 | an action acts exactly when its guard holds (a roll only when no token moves; take-chance only when offered; spin only with the mystery overlay open); then its operation's whole effect with everything else kept, logged under the then-current team; otherwise nothing changes |
| GameMachine.Game.RunAction | main.py:442-462 | an action whose guard holds has its operation's whole effect |
| GameMachine.Game.CheckPlayerActions | main.py:427-467 | the mailbox ends empty; only the entry of the team current at the start is handled, as ApplyAction states; with no such entry nothing changes |
| GameMachine.Game.CloseOverlay | main.py:681-696 | Escape closes exactly the first open overlay in the order chance, confirm, mystery, sell, trade, with that overlay's feedback (the trade also loses its phase, offers, amounts and message); every other field is kept; with none open nothing changes and the game stops |
| GameMachine.Game.HandleKey | main.py:679-708 | Escape does exactly what CloseOverlay states and logs nothing; R/B/E/S/T/U act only when no token moves and no chance, confirm, mystery or trade overlay is open, each with its operation's whole effect and log; other keys and a busy game change nothing |
| GameMachine.Game.PublishState | main.py:313-327 | the published state carries no messages |
| GameMachine.Game.FramePhase | main.py:787-846 | with no step due, no spin ending and no countdown running, nothing changes |
| GameMachine.Game.Countdowns | main.py:835-846 | with neither countdown running, nothing changes |
| GameMachine.Game.MailboxPhase | main.py:849-850 | both mailboxes end empty; with no known command and no action of the current team, nothing changes |
| GameMachine.Game.Update | main.py:786-853 | both mailboxes end empty and the published log with them; when no step, spin, countdown, known command or action of the current team is due, nothing else changes |

## Left out

- Rendering, layout, fonts, click areas and window resizing are left out. These are presentation code on floating point. A mouse click is modelled only by its last branch (`DismissFeedback`). The buttons it reaches are the operations themselves.
- Sound synthesis and playback are left out: audio on floating point.
- The JSON files are replaced by values. The mailboxes are parameters and come back empty. The published game state is the `log` field. File errors and the read/delete race between the game and the web app are not modelled.
- The randomness of `roll_dice`, `_trigger_chance` and `_start_spin_wheel` is a parameter. This covers the time-seeded generator, `random.random() < 0.3` and `hash` of the clock. The segment the wheel stops on is a parameter too, since the floating-point wheel geometry decides it.
- The animation floats are left out: `move_progress`, the spin angle, speed, duration and progress, and the random angle offsets. "A step completes" and "the spin completes" are boolean inputs. So the model does not claim that the wheel stops on the segment it aimed for.
- Team colours, property colours, rents and descriptions, and the text of the chance questions are left out. Questions are indices with their correct option. Feedback and log texts are constructors of `Note` and `LogLine`.
- Dictionaries keyed by team id are modelled by team position, since the ids are the fixed "T1".."T5". This covers the skip flags, trails, offers and offer amounts.
- GameMachine.Game.SelectPropertyForTrade: requires the select phase. Its button exists only in that phase. Outside it, a trade could reach the collect phase with no seller, which the model's trade invariant excludes.
- The debug helpers `_test_randomization` and `_test_sound` are left out: printing and sleeping.
- `init_streamlit_files` and the launcher, password and troubleshooting scripts are left out: file, process and socket I/O.
- GameMachine.Game.CheckCommands: states each entry's guard, the movement after the pass and the last applied entry's log line, but not the composed effect of several applied entries; ApplyCommand states the effect of each one.
- GameMachine.Game.Update: states the idle frame and the empty mailboxes and log; the effect of each phase is stated by MovementFrame, SpinFrame, MysteryTimerFrame, FeedbackFrame, CheckCommands and CheckPlayerActions, not composed here.

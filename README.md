# Eight Cards Poker and competitive Tetris: verified models of the game engines

This project models three game engines of one repository and proves properties of them.

**Eight Cards Poker** (`eight_cards_poker/backend/game_engine.py`) is a two-player game played on
three boards, A, B and C. The engine works as follows:

- Both players post bets.
- Each player is dealt eight hole cards, and each board receives a three-card flop.
- Taking turns (player 1 first), each player moves cards from their hand to their side of the boards.
- Each board's type is inferred afresh after every move. A board is Omaha (PLO) for a player whose
  last four-card board it is, and hold'em (NLHE) otherwise.
- A player confirms a placement of 0, 2 or 4 cards per board, eight in all, with a four-card board.
- After both players confirm, every board receives a turn and a river.
- At the showdown, each board is settled:
  - each player's best five-card hand is found by exhaustive search;
  - under Omaha rules the hand is two hole cards with three community cards, and under hold'em rules it is any five;
  - the hands are compared;
  - the pot is paid out. Winning all three boards pays double the pot. Otherwise each board pays a third of the pot, ties split it, and the remainder goes to player 1.
- Each viewer receives a redacted state.

**The Tetris duel** (`tetris/ctduel_engine.py`; the file `tetris/old/ctduel_engine.py` is identical
and is covered by the same model):

- Two players each have their own 20x10 grid and play the same seeded queue of seven-piece bags.
- For every piece, each player submits a rotation and a column.
- The piece is resolved for both players once both have moved, or once the deadline has passed. A player who has not moved gets an automatic move: the middle valid column of the first rotation that has one.
- Clearing rows scores lines, and clearing four rows at once scores a tetris.
- The game ends when the queue is used up or when a player tops out.
- More lines wins. Ties are broken by more tetrises, then by not having topped out. Otherwise the pot is split.

**The shared-grid Tetris** (`tetris/ctshared_engine.py`) uses the same primitives. The differences are:

- Both players take turns dropping pieces on one common grid.
- A coin picks the first player.
- On timeout, the player on turn receives the automatic move.

The modules are:

- `Options`, `Permutations`: an option type, and permutations of `0 .. n-1`, which stand in for seeded shuffles.
- `Cards`: cards, the deck and its construction, and shuffles.
- `Evaluation`: the five-card evaluation, the straight test, hand comparison and the best-hand searches.
- `PokerTable`: the table as a value, covering:
  - boards and slots, and card moves with their rollback;
  - location parsing and board-type inference;
  - the placement rule, bets, dealing, the showdown settlement and the redacted views.
- `PokerEngine`: the `GameEngine` class, whose fields the engine's methods update in place. Each method is proved against the functions of `PokerTable`.
- `Tetris`: the pieces, the grid and its text form, the hard drop (as a function, and as the engine's search loop), valid columns, the automatic move, and locking and clearing (the `Grid` class clears rows in place).
- `TetrisRules`: the bag-shuffled queue, score sheets, playing one piece, seats, and the payout rule.
- `Duel`: the duel as a state value with its invariant, and the classes `Player` and `DuelGame`.
- `Shared`: the shared game as a state value with its invariant, and the class `SharedGame`.

Where the code departs from the rules the game is described by, the model follows the code:

- The placement check accepts 4/4/0 as well as 4/2/2. It asks for at least one four-card board, not exactly one (`PokerTable.ThreeBoardSplits`).
- Bets are debited entry by entry. A refused entry leaves the earlier entries debited (`PokerEngine.GameEngine.PlaceBets`).
- The board type shown to a viewer is adjusted in every phase, not only while placing.
- A hidden opponent hand is sent as an empty list rather than as hidden markers. Board sides are sent as markers of the right count.
- The wheel (A-2-3-4-5) is a straight valued by its highest value, 14.
- The shared game's periodic check leaves the game unchanged when the automatic move is refused (`Shared.SharedGame.Tick`). The intended check, which tops the seat out instead, is modelled beside it (`Shared.SharedGame.TickOrTopOut`; see Findings).

## Model

| member | source | states |
|---|---|---|
| Cards.RankValue | eight_cards_poker/backend/game_engine.py:475 | a rank's value is its position in "23456789TJQKA" plus two, between 2 and 14 |
| Cards.DeckCard | eight_cards_poker/backend/game_engine.py:26-27 | position i of the unshuffled deck holds suit i/13 and rank i%13, numbered i |
| Cards.CreateDeck | eight_cards_poker/backend/game_engine.py:174-182 | the deck loop yields 52 cards, suits outermost and ranks innermost, with ids 0..51 in order |
| Cards.ShuffledDeck | eight_cards_poker/backend/game_engine.py:155-157 | a shuffled deck holds every card of the full deck exactly once, so its ids are distinct |
| Cards.ShuffledIds | eight_cards_poker/backend/game_engine.py:156-157 | after a shuffle, position i holds the card numbered perm[i] |
| Evaluation.SortDescending | eight_cards_poker/backend/game_engine.py:476 | the sorted values are descending and hold the same multiset as the input |
| Evaluation.Uniq | eight_cards_poker/backend/game_engine.py:510 | deduplicating a descending sequence gives a strictly descending one with the same set of values |
| Evaluation.GroupsFacts | eight_cards_poker/backend/game_engine.py:480-483 | the groups list every distinct value once with its count, ordered by count and then value, descending |
| Evaluation.StraightCharacterization | eight_cards_poker/backend/game_engine.py:508-523 | five values pass the straight test exactly when they are five consecutive values or the wheel |
| Evaluation.EvalFive | eight_cards_poker/backend/game_engine.py:470-506 | every score's category lies between 0 (high card) and 8 (straight flush) |
| Evaluation.EvalFiveCategory | eight_cards_poker/backend/game_engine.py:485-506 | the engine's category equals the reference category, which is read from the rank counts, the flush and the straight test |
| Evaluation.EvalFiveTiebreakHigh | eight_cards_poker/backend/game_engine.py:489-504 | straights are valued by their highest value; four of a kind, three of a kind and one pair by 100 times the repeated value |
| Evaluation.EvalFiveTiebreakCombined | eight_cards_poker/backend/game_engine.py:493-506 | a full house and two pair are valued by the top group and then the second; a flush and a high card by all five values in descending order |
| Evaluation.Compare | eight_cards_poker/backend/game_engine.py:525-536 | 1 exactly when the first score beats the second, 2 exactly when the second beats the first, 0 exactly when they are equal |
| Evaluation.CompareSwap | eight_cards_poker/backend/game_engine.py:527-535 | swapping the hands swaps winners 1 and 2 and keeps a tie |
| Evaluation.BeatsOrder | eight_cards_poker/backend/game_engine.py:456-457 | the comparison used by the search is irreflexive, transitive and total on distinct scores |
| Evaluation.ChooseSound | eight_cards_poker/backend/game_engine.py:452-453 | every selection has k entries and is a subsequence of the input |
| Evaluation.ChooseComplete | eight_cards_poker/backend/game_engine.py:462 | every k-entry subsequence of the cards is one of the selections |
| Evaluation.ChooseCount | eight_cards_poker/backend/game_engine.py:462 | there are n-over-k selections |
| Evaluation.ProductMembers | eight_cards_poker/backend/game_engine.py:452-454 | the hands of the nested loops are exactly a hole pair followed by a community triple |
| Evaluation.OmahaCandidates | eight_cards_poker/backend/game_engine.py:450-455 | under Omaha rules every candidate is two hole cards followed by three community cards |
| Evaluation.HoldemCandidates | eight_cards_poker/backend/game_engine.py:459-463 | under hold'em rules every candidate is five of the hole and community cards, in order |
| Evaluation.BestIsBest | eight_cards_poker/backend/game_engine.py:456-458 | the running best is one of the scores, and no score beats it |
| Evaluation.BestOfProduct | eight_cards_poker/backend/game_engine.py:450-458 | the nested Omaha loops return the best score over every hole pair and community triple |
| Evaluation.BestOfAll | eight_cards_poker/backend/game_engine.py:459-466 | the hold'em loop returns the best score over every five-card selection |
| Evaluation.BestHand | eight_cards_poker/backend/game_engine.py:441-468 | the method's result equals the specification of the best-hand score, under the rules the board type gives the player |
| Evaluation.BestScoreIsBest | eight_cards_poker/backend/game_engine.py:441-468 | with hole and community cards, the best score is the score of one candidate hand, and no candidate beats it |
| Evaluation.RealHandBeatsNoHand | eight_cards_poker/backend/game_engine.py:446 | every five-card hand beats the (0, 0) placeholder, so the placeholder never outranks a real hand |
| PokerTable.FreshBoards | eight_cards_poker/backend/game_engine.py:96-100 | three empty boards A, B and C, each pending |
| PokerTable.PutSlotFrame | eight_cards_poker/backend/game_engine.py:63-70 | replacing one slot changes that slot only, for either player |
| PokerTable.RemoveFirst | eight_cards_poker/backend/game_engine.py:231 | removing a card leaves one card fewer: exactly one copy of it is gone and every other card stays |
| PokerTable.RemoveFirstAt | eight_cards_poker/backend/game_engine.py:231 | the copy removed is the first one: the result is the list with the entry at the first index holding the card cut out, in order |
| PokerTable.FirstWithId | eight_cards_poker/backend/game_engine.py:213-222 | the card found is one of the cards and has the id asked for; nothing is found exactly when no card has that id |
| PokerTable.FirstWithIdAt | eight_cards_poker/backend/game_engine.py:213-222 | when index i holds the id and no earlier card does, the card found is the one at i: the scan finds the first match |
| PokerTable.MoveHoldings | eight_cards_poker/backend/game_engine.py:196-207 | a move takes the card out of the source slot and puts it in the destination slot; every other slot keeps its cards |
| PokerTable.RollbackKeepsHoldings | eight_cards_poker/backend/game_engine.py:201-204 | putting the card back where it came from keeps every slot's cards |
| PokerTable.RetypeKeepsSlots | eight_cards_poker/backend/game_engine.py:207 | inferring board types keeps every player's cards in place |
| PokerTable.MoveKeepsTableCards | eight_cards_poker/backend/game_engine.py:184-208 | a move, even one rolled back, followed by type inference keeps the multiset of cards on the table |
| PokerTable.MoveKeepsHeld | eight_cards_poker/backend/game_engine.py:184-208 | a move keeps, for each player, the hand size plus the cards placed |
| PokerTable.MoveOnOutcome | eight_cards_poker/backend/game_engine.py:184-208 | a move succeeds exactly when the card lies in the named source slot and the destination has room; it raises only for a "board" location without a board id |
| PokerTable.MoveOnRefused | eight_cards_poker/backend/game_engine.py:197-204 | a refused move keeps each slot's cards (a card put back may move to the end of its slot) and every board type |
| PokerTable.MoveOnKeepsCards | eight_cards_poker/backend/game_engine.py:191-208 | unless it raises, a move keeps every card on the table and each player's card count |
| PokerTable.MoveOnKeepsSidesFit | eight_cards_poker/backend/game_engine.py:258-261 | whatever its outcome, a move keeps every side within four cards |
| PokerTable.MoveOnSparesOpponent | eight_cards_poker/backend/game_engine.py:237-240 | a move by one player never changes the other player's cards |
| PokerTable.AfterDash | eight_cards_poker/backend/game_engine.py:234 | there is a text after a '-' exactly when the location contains one, and it is shorter than the location |
| PokerTable.BoardLocationNamesBoard | eight_cards_poker/backend/game_engine.py:233-235 | "board-" followed by an id without '-' names that board |
| PokerTable.BoardWithoutDash | eight_cards_poker/backend/game_engine.py:252 | a location starting with "board" that has no '-' has no board id, so reading it raises |
| PokerTable.FirstRefused | eight_cards_poker/backend/game_engine.py:130-135 | the first entry that names an unknown player or exceeds that player's bankroll, and no earlier entry is refused |
| PokerTable.DebitMeaning | eight_cards_poker/backend/game_engine.py:130-137 | debiting distinct entries changes each named player once, by their own amount, and nobody else |
| PokerTable.BetsMoveMoneyToPot | eight_cards_poker/backend/game_engine.py:136-139 | when both players bet, their bankrolls drop by exactly the resulting pot |
| PokerTable.DealFromFullDeck | eight_cards_poker/backend/game_engine.py:345-349 | board k receives deck cards 2k and 2k+1, and a three-card flop becomes five community cards |
| PokerTable.ResultFor | eight_cards_poker/backend/game_engine.py:361-370 | each player's rule follows the board type; the winner is the comparison of the two best scores |
| PokerTable.LastFour | eight_cards_poker/backend/game_engine.py:278-282 | the last board on which the player has four cards, if there is one |
| PokerTable.Retyped | eight_cards_poker/backend/game_engine.py:268-297 | the boards keep their ids and cards; only their types are inferred |
| PokerTable.KindAtMeaning | eight_cards_poker/backend/game_engine.py:284-297 | a board is both-PLO, P1-PLO, P2-PLO or NLHE exactly according to whose last four-card board it is; none stays pending |
| PokerTable.OneFourCardBoardEach | eight_cards_poker/backend/game_engine.py:278-282 | at most one board per player is typed as that player's PLO board |
| PokerTable.TypesDependOnCountsOnly | eight_cards_poker/backend/game_engine.py:278-297 | board types depend only on each player's card count per board |
| PokerTable.RetypedIdempotent | eight_cards_poker/backend/game_engine.py:268-297 | inferring the types twice gives the same boards as inferring them once |
| PokerTable.ThreeBoardSplits | eight_cards_poker/backend/game_engine.py:332-343 | on three boards the accepted placements are exactly the splits 4/2/2 and 4/4/0 in any order |
| PokerTable.SharesBound | eight_cards_poker/backend/game_engine.py:411-418 | without a sweep, the board shares never exceed the subpots paid out |
| PokerTable.SettleSplitsPot | eight_cards_poker/backend/game_engine.py:394-426 | a sweep pays double the pot to the sweeper; otherwise exactly the pot is shared out, with the remainder going to player 1 |
| PokerTable.SettleExamples | eight_cards_poker/backend/game_engine.py:357-423 | a pot of 300 won 1/2/tie pays 150 and 150; a pot of 301 tied on all three boards pays 151 and 150 |
| PokerTable.DisplayTypeMeaning | eight_cards_poker/backend/game_engine.py:550-561 | a P1-PLO or P2-PLO board reads as PLO to its owner and as NLHE to anyone else; a both-PLO board reads as PLO |
| PokerTable.ViewBoardMeaning | eight_cards_poker/backend/game_engine.py:569-585 | the community cards are shown; a side is shown face up at the showdown, once complete, or to its owner, and otherwise as one hidden marker per card |
| PokerTable.ViewPlayerMeaning | eight_cards_poker/backend/game_engine.py:591-594 | a hand is shown to its owner or once the game is complete; otherwise it is empty |
| PokerEngine.FirstIn | eight_cards_poker/backend/game_engine.py:214-216 | the scan returns the first card with the id, as FirstWithId defines it |
| PokerEngine.DebitInOrder | eight_cards_poker/backend/game_engine.py:130-137 | the loop stops at the first refused entry, having debited exactly the entries before it |
| PokerEngine.DealHands | eight_cards_poker/backend/game_engine.py:160-163 | player 1 receives the top eight cards and player 2 the next eight; both become unready |
| PokerEngine.DealFlops | eight_cards_poker/backend/game_engine.py:166-168 | boards A, B and C each receive the next three cards, in that order |
| PokerEngine.DealtWholeDeck | eight_cards_poker/backend/game_engine.py:159-168 | the hands, the flops and the remaining deck are the shuffled deck cut in order |
| PokerEngine.DealPairs | eight_cards_poker/backend/game_engine.py:347-349 | each board receives the next two cards, in board order |
| PokerEngine.EvaluateBoards | eight_cards_poker/backend/game_engine.py:361-392 | every board's result, in board order, with each player's count of boards won |
| PokerEngine.Payouts | eight_cards_poker/backend/game_engine.py:394-423 | the loop's totals equal the settlement function's payout |
| PokerEngine.SettleBoards | eight_cards_poker/backend/game_engine.py:351-426 | the results and payout computed equal those the specification functions give |
| PokerEngine.Credited | eight_cards_poker/backend/game_engine.py:425-426 | both seated players have their payouts added to their bankrolls, and nothing else changes |
| PokerEngine.ResetTypes | eight_cards_poker/backend/game_engine.py:271-272 | every board becomes pending, and its cards are unchanged |
| PokerEngine.FourCardBoards | eight_cards_poker/backend/game_engine.py:275-282 | the scan finds each player's last four-card board |
| PokerEngine.InferTypes | eight_cards_poker/backend/game_engine.py:268-297 | the three passes give exactly the inferred boards |
| PokerEngine.SearchBoards | eight_cards_poker/backend/game_engine.py:218-222 | the board search returns the first card with the id, reading each board's player 1 cards and then player 2 cards |
| PokerEngine.RemoveAt | eight_cards_poker/backend/game_engine.py:226-242 | removal succeeds exactly when the named slot holds the card, and then takes it out; it raises for "board" without '-'; otherwise nothing changes |
| PokerEngine.AddAt | eight_cards_poker/backend/game_engine.py:244-266 | a hand takes any card; a board side takes one unless it already holds four; it raises for "board" without '-'; otherwise nothing changes |
| PokerEngine.CheckCounts | eight_cards_poker/backend/game_engine.py:328-343 | the counting loop accepts exactly the placements that PlacementOk accepts |
| PokerEngine.CheckSides | eight_cards_poker/backend/game_engine.py:332-341 | the check over the boards equals the placement rule on the per-board counts |
| PokerEngine.GameEngine.constructor | eight_cards_poker/backend/game_engine.py:93-105 | no players, three fresh boards, an empty deck, waiting, player 1 to act, an empty pot |
| PokerEngine.GameEngine.AddPlayer | eight_cards_poker/backend/game_engine.py:107-118 | seats a player in the lowest free seat with a bankroll of 1000, or refuses when two are seated, changing nothing |
| PokerEngine.GameEngine.PlaceBets | eight_cards_poker/backend/game_engine.py:128-140 | succeeds exactly when no entry is refused; entries before the first refused one are debited; on success the pot is the sum of the bets |
| PokerEngine.GameEngine.StartGame | eight_cards_poker/backend/game_engine.py:142-172 | succeeds exactly with two players; then the boards are fresh, the hands and flops are cut from the shuffled deck, the phase is placing and player 1 acts; hands, boards and deck together are the shuffled deck |
| PokerEngine.GameEngine.FindCardById | eight_cards_poker/backend/game_engine.py:210-224 | the first card with the id among the hands and then the board sides; community cards are not searched |
| PokerEngine.GameEngine.RemoveCard | eight_cards_poker/backend/game_engine.py:226-242 | the table after removal is TakeOut of the slot exactly when it succeeds; otherwise the table is unchanged |
| PokerEngine.GameEngine.AddCard | eight_cards_poker/backend/game_engine.py:244-266 | the table after adding is PutIn of the slot exactly when it succeeds; otherwise the table is unchanged |
| PokerEngine.GameEngine.MoveCard | eight_cards_poker/backend/game_engine.py:184-190 | outside the placing phase or out of turn the move is refused and nothing changes; otherwise it behaves as MoveOn |
| PokerEngine.GameEngine.MoveInTurn | eight_cards_poker/backend/game_engine.py:191-208 | the outcome and the new table are exactly MoveOn's |
| PokerEngine.GameEngine.DetermineBoardTypes | eight_cards_poker/backend/game_engine.py:268-297 | the boards become Retyped of the old boards, and nothing else changes |
| PokerEngine.GameEngine.ValidatePlacement | eight_cards_poker/backend/game_engine.py:322-343 | true exactly when the player is seated and their per-board counts satisfy the placement rule |
| PokerEngine.GameEngine.ConfirmPlacement | eight_cards_poker/backend/game_engine.py:299-320 | accepted exactly when placing, in turn, with a valid placement; then the player is ready; after player 1 the turn passes, and after player 2 the showdown starts with the turn and river dealt; a refusal changes nothing |
| PokerEngine.GameEngine.MarkReady | eight_cards_poker/backend/game_engine.py:310-318 | the confirming player is ready, then the turn passes to player 2 or the showdown is dealt |
| PokerEngine.GameEngine.DealTurnRiver | eight_cards_poker/backend/game_engine.py:345-349 | the boards become DealtBoards of the old boards and deck; the deck loses two cards per board |
| PokerEngine.GameEngine.CalculateShowdown | eight_cards_poker/backend/game_engine.py:351-439 | outside the showdown it returns nothing and changes nothing; otherwise it settles every board, credits the payout and completes the game |
| PokerEngine.GameEngine.GameState | eight_cards_poker/backend/game_engine.py:538-596 | every board and player is present; each side is face up or hidden with its true count, as the phase and viewer allow; each board's type is display-adjusted |
| PokerEngine.ViewBoards | eight_cards_poker/backend/game_engine.py:549-587 | one view per board, in order, each ViewBoard of that board |
| PokerEngine.ViewPlayers | eight_cards_poker/backend/game_engine.py:590-594 | one view per seated player, each ViewPlayer of that player |
| Tetris.Rotations | tetris/ctduel_engine.py:9-52 | each piece has four rotations, each of four cells inside the 4x4 box |
| Tetris.Shape | tetris/ctshared_engine.py:9-52 | the cells of a piece in a rotation, taken modulo 4; four cells inside the box |
| Tetris.MinX | tetris/ctduel_engine.py:170 | the leftmost column of the shape: no cell lies left of it, and some cell lies on it |
| Tetris.MaxX | tetris/ctshared_engine.py:155 | the rightmost column of the shape: no cell lies right of it, and some cell lies on it |
| Tetris.EmptyGrid | tetris/ctduel_engine.py:54-55 | HEIGHT rows of WIDTH empty cells |
| Tetris.GridToStrings | tetris/ctduel_engine.py:57-62 | the row-by-row loop produces the text form Render of the grid |
| Tetris.RenderShape | tetris/ctshared_engine.py:57-58 | the text has as many rows and characters as the grid, with '.' exactly at the empty cells |
| Tetris.StringsToGrid | tetris/ctduel_engine.py:64-70 | the loop fills an empty grid from the text as Parse defines it |
| Tetris.ParseRender | tetris/ctduel_engine.py:57-70 | reading back the text of a well-formed grid whose pieces are not named '.' gives the same grid |
| Tetris.RenderParse | tetris/old/ctduel_engine.py:57-70 | text of HEIGHT rows of WIDTH characters survives the round trip through a grid |
| Tetris.CollidesMeaning | tetris/ctduel_engine.py:84-92 | the collision test holds exactly when some cell of the box is below the floor or on a filled cell |
| Tetris.LandingMeaning | tetris/ctduel_engine.py:81-95 | the search stops one row above the first collision below the spawn row |
| Tetris.LandingFirst | tetris/ctshared_engine.py:67-81 | the search started at any row settles just above the first colliding row after it |
| Tetris.DropRests | tetris/ctshared_engine.py:60-90 | a successful drop puts four cells inside the grid on empty cells, and the piece rests: one row lower some cell would be blocked |
| Tetris.DropFromTop | tetris/old/ctduel_engine.py:72-104 | a successful drop is the shape moved straight down from the top through rows where it collides with nothing |
| Tetris.DropFromOpenTop | tetris/ctshared_engine.py:63-89 | a shape between the walls that does not collide at the spawn row can always be dropped |
| Tetris.DropModulo | tetris/ctshared_engine.py:61 | only the rotation modulo 4 matters to the drop |
| Tetris.DropWithinWalls | tetris/ctshared_engine.py:63-66 | a successful drop keeps the box between the side walls |
| Tetris.Probe | tetris/ctduel_engine.py:82-92 | the probe reports "out" and "collided" exactly as the collision test defines them |
| Tetris.CheckFree | tetris/ctduel_engine.py:97-102 | the final cells are accepted exactly when they are all inside the grid and empty |
| Tetris.StepBack | tetris/ctduel_engine.py:93-103 | after a collision at row y, the result is the box at y-1 if it is free, and nothing otherwise |
| Tetris.DropSearch | tetris/ctduel_engine.py:75-104 | the search loop returns exactly the drop function's result |
| Tetris.HardDrop | tetris/ctduel_engine.py:72-104 | the hard drop equals Drop: nothing outside the walls; otherwise the landing cells, if they are free |
| Tetris.ColumnsOf | tetris/ctduel_engine.py:168-175 | the offered columns are exactly the offsets at which the drop succeeds, in ascending order |
| Tetris.FilterMeaning | tetris/ctduel_engine.py:172-175 | keeping the accepted offsets gives exactly those, in ascending order |
| Tetris.ValidColumns | tetris/ctshared_engine.py:153-161 | the loop returns the columns for the piece and rotation, as ColumnsOf defines them |
| Tetris.PickAmongMeaning | tetris/ctduel_engine.py:197-205 | the pick is the middle column of the first non-empty rotation, or (0, 0) when there is none |
| Tetris.AutoPickChoice | tetris/ctshared_engine.py:163-168 | when some rotation has a valid column, the automatic move takes the lowest such rotation and its middle column |
| Tetris.AutoPickDrops | tetris/ctduel_engine.py:199-203 | when any move can be dropped, so can the automatic move |
| Tetris.AutoPickStuck | tetris/ctshared_engine.py:169-170 | when no move can be dropped, the automatic move is (0, 0) and cannot be dropped either |
| Tetris.CountFull | tetris/ctduel_engine.py:115 | the number of full rows is never more than the number of rows |
| Tetris.KeptMeaning | tetris/ctduel_engine.py:112-121 | the kept rows are rows of the grid, and none of them is full |
| Tetris.ClearedMeaning | tetris/ctshared_engine.py:97-106 | clearing keeps the grid's dimensions and leaves no full row |
| Tetris.WriteMeaning | tetris/old/ctduel_engine.py:107-110 | writing fills exactly the given cells with the piece name and leaves every other cell |
| Tetris.LockedMeaning | tetris/ctshared_engine.py:92-107 | locking fails with -1 exactly when some cell is above the top row; otherwise it reports the number of full rows, removes them and adds as many empty rows on top |
| Tetris.Grid.constructor | tetris/ctshared_engine.py:54-55 | a new grid is the empty grid |
| Tetris.Grid.LockAndClear | tetris/ctduel_engine.py:106-122 | the rows and count after the in-place lock equal those of Locked |
| Tetris.Grid.WriteCells | tetris/ctduel_engine.py:107-110 | writes the cells in order up to the first one above the top row, and returns its index |
| Tetris.Grid.ClearFull | tetris/ctduel_engine.py:112-122 | the in-place scan leaves the rows as Cleared gives them and returns the number of full rows |
| TetrisRules.Bag | tetris/ctduel_engine.py:150-154 | a bag is the seven pieces in the shuffle's order |
| TetrisRules.BuildQueue | tetris/ctduel_engine.py:149-156 | the queue has the requested length, and position i holds piece i%7 of bag i/7 |
| TetrisRules.QueuePieces | tetris/ctshared_engine.py:134-141 | every piece of a built queue is one of the seven tetrominoes |
| TetrisRules.QueueBlocks | tetris/ctshared_engine.py:137-140 | each whole bag of seven in the queue holds every piece exactly once |
| TetrisRules.DropLocks | tetris/ctduel_engine.py:217-224 | a successful drop lies inside the grid, so locking it never reports -1 |
| TetrisRules.Scored | tetris/ctshared_engine.py:188-194 | a failed lock tops out; otherwise the lines grow by the cleared rows, and the tetrises grow by one exactly when four rows were cleared |
| TetrisRules.PlayMeaning | tetris/ctduel_engine.py:214-228 | a played piece keeps the board good; the player tops out exactly when the drop fails; otherwise the lines grow by the rows the lock filled |
| TetrisRules.Lookup | tetris/ctduel_engine.py:181-182 | only "P1" and "P2" name seats |
| TetrisRules.Other | tetris/ctshared_engine.py:204 | the turn passes to the other seat |
| TetrisRules.Result | tetris/ctduel_engine.py:241-262 | the payouts sum to twice the ante; P1 wins exactly when ahead on (lines, tetrises, not topped), and P2 likewise; a split needs equal keys |
| TetrisRules.ResultSymmetric | tetris/old/ctduel_engine.py:241-262 | swapping the seats swaps the winner and the payouts |
| Duel.Current | tetris/ctduel_engine.py:212 | the current piece is one of the seven tetrominoes |
| Duel.OpeningGood | tetris/ctduel_engine.py:132-156 | a new duel with a queue of tetrominoes satisfies the invariant, and so does it once started with a non-empty queue |
| Duel.StartedGood | tetris/ctduel_engine.py:158-162 | starting a good duel with a non-empty queue keeps the invariant |
| Duel.PlaceKeepsGood | tetris/ctduel_engine.py:187 | recording an accepted move keeps the invariant |
| Duel.FillTops | tetris/ctduel_engine.py:208-211 | the move a seat plays can be dropped exactly when some rotation of the piece fits somewhere on its board |
| Duel.StepMeaning | tetris/ctduel_engine.py:215-228 | playing a piece keeps the board good; the seat tops out exactly when it had already or the drop fails; lines never shrink |
| Duel.ResolveGood | tetris/ctduel_engine.py:207-234 | resolving a piece keeps the invariant |
| Duel.ResolveSeat | tetris/ctduel_engine.py:207-228 | a seat tops out on resolution exactly when it had topped out already or the piece fits nowhere on its board |
| Duel.ResolveAdvances | tetris/old/ctduel_engine.py:229-234 | resolving moves on to the next piece with no pending moves, and ends exactly when the queue is used up or a seat has topped out |
| Duel.VerdictMeaning | tetris/old/ctduel_engine.py:178-186 | a placement is accepted exactly when playing, the id names a seat, and the rotated piece can be dropped at that column |
| Duel.PlaceMeaning | tetris/ctduel_engine.py:178-195 | every placement keeps the invariant, and a rejected one changes nothing |
| Duel.PlaceResolves | tetris/ctduel_engine.py:187-195 | an accepted placement resolves the piece exactly when the other seat had moved or the deadline has passed |
| Duel.TickMeaning | tetris/ctduel_engine.py:236-239 | the tick keeps the invariant; while playing, a passed deadline always takes exactly one piece |
| Duel.Player.constructor | tetris/ctduel_engine.py:124-130 | a player starts with an empty grid and a fresh score sheet |
| Duel.Player.Apply | tetris/ctduel_engine.py:215-228 | the grid and score sheet after a piece are exactly those of Play |
| Duel.DuelGame.constructor | tetris/ctduel_engine.py:132-156 | a lobby game whose queue is built from the bag orders, with two fresh players |
| Duel.DuelGame.Start | tetris/ctduel_engine.py:158-162 | playing from piece 0 with no moves submitted; the boards are kept |
| Duel.DuelGame.ValidColumns | tetris/ctduel_engine.py:164-176 | the current piece's offered columns on the seat's board |
| Duel.DuelGame.AutoFill | tetris/ctduel_engine.py:197-205 | the automatic move for the seat's board, as AutoPick defines it |
| Duel.DuelGame.ResolvePiece | tetris/ctduel_engine.py:207-234 | the new state is the resolved state of the old one |
| Duel.DuelGame.Advance | tetris/old/ctduel_engine.py:229-234 | clears the moves and advances the piece; it ends the game exactly when the queue is used up or a seat has topped out |
| Duel.DuelGame.PlayPending | tetris/ctduel_engine.py:208-228 | both seats play the current piece with their submitted move or the automatic one |
| Duel.DuelGame.PlayBoth | tetris/ctduel_engine.py:214-228 | seat 1 and then seat 2 play the piece, each board and score sheet as Play gives them |
| Duel.DuelGame.FillMissing | tetris/ctduel_engine.py:208-211 | each seat without a move gets the automatic one, and a submitted move is kept |
| Duel.DuelGame.Place | tetris/ctduel_engine.py:178-195 | the outcome is the verdict; the new state is the placed state of the old one |
| Duel.DuelGame.Submit | tetris/ctduel_engine.py:187-194 | records the move and resolves when both seats have moved or the deadline has passed |
| Duel.DuelGame.Tick | tetris/ctduel_engine.py:236-239 | the new state is the ticked state of the old one |
| Duel.DuelGame.Result | tetris/ctduel_engine.py:241-262 | the payout of the two score sheets, as Result defines it |
| Shared.Offered | tetris/ctshared_engine.py:149-161 | no columns outside play or once the queue is used up; otherwise exactly the droppable offsets, ascending |
| Shared.OfferedTable | tetris/ctshared_engine.py:165-167 | the offered columns of the four rotations |
| Shared.OpeningGood | tetris/ctshared_engine.py:116-128 | a new shared game satisfies the invariant, and so does it once started, whoever the coin picks |
| Shared.StartedGood | tetris/ctshared_engine.py:143-147 | starting keeps the invariant, plays from piece 0 with the coin's seat on turn, and keeps grid and sheets |
| Shared.PlayTurnGood | tetris/ctshared_engine.py:181-194 | playing a turn keeps the invariant |
| Shared.AdvancedMeaning | tetris/ctshared_engine.py:198-205 | advancing takes one piece; it ends exactly when asked to, when the queue is used up or when a seat has topped out; otherwise the turn passes |
| Shared.VerdictMeaning | tetris/ctshared_engine.py:172-180 | accepted exactly when playing, the id is the seat on turn, and the piece can be dropped at that column |
| Shared.PlaceMeaning | tetris/ctshared_engine.py:172-196 | every placement keeps the invariant; a rejected one changes nothing |
| Shared.PlayTurnEffect | tetris/ctshared_engine.py:181-194 | the piece is locked where it drops and the full rows are cleared; only the seat on turn is credited, and a tetris is counted exactly for four rows |
| Shared.PlaceEffect | tetris/ctshared_engine.py:172-205 | an accepted placement plays the piece for the seat on turn and takes one piece; unless the game ends, the other seat is on turn |
| Shared.AutoMoveMeaning | tetris/ctshared_engine.py:163-170 | the automatic move is accepted exactly when there is a current piece and it fits somewhere on the grid |
| Shared.TickAsWrittenStuck | tetris/ctshared_engine.py:207-213 | as written, when the current piece fits nowhere, a passed deadline leaves the game exactly as it was, still in play |
| Shared.TickAsWrittenGood | tetris/ctshared_engine.py:210-213 | the tick as written keeps the invariant |
| Shared.StuckNeverEnds | tetris/ctshared_engine.py:207-213 | a game that one passed deadline leaves unchanged stays unchanged however many pass |
| Shared.StuckGameNeverEnds | tetris/ctshared_engine.py:163-170 | the comb-grid game with an O piece stays in play at its only piece, whatever number of deadlines pass |
| Shared.TickMeaning | tetris/ctshared_engine.py:207-213 | the corrected tick keeps the invariant; a passed deadline in play always takes a piece, by the automatic move or by topping out the seat on turn |
| Shared.TickAdvances | tetris/ctshared_engine.py:212-213 | with the deadline passed, the corrected tick takes one piece and leaves the game in play or ended |
| Shared.TicksEnd | tetris/ctshared_engine.py:198-213 | with the corrected tick, a game in play ends within as many passed deadlines as there are pieces left |
| Shared.ShowdownStays | tetris/ctshared_engine.py:208-209 | once the game has ended, ticks change nothing |
| Shared.SharedGame.constructor | tetris/ctshared_engine.py:116-141 | a lobby game on an empty grid with fresh sheets, its queue built from the bag orders |
| Shared.SharedGame.Start | tetris/ctshared_engine.py:143-147 | the state becomes the started state, with the coin's seat on turn |
| Shared.SharedGame.ValidColumns | tetris/ctshared_engine.py:149-161 | the columns equal Offered for the state |
| Shared.SharedGame.AutoChoice | tetris/ctshared_engine.py:163-170 | the move equals the automatic move for the state |
| Shared.SharedGame.Place | tetris/ctshared_engine.py:172-196 | the outcome is the verdict, and the new state is the placed state of the old one |
| Shared.SharedGame.PlayMove | tetris/ctshared_engine.py:181-195 | tops out exactly when the drop fails; the grid and the mover's sheet become those of Play |
| Shared.SharedGame.LockPiece | tetris/ctshared_engine.py:188-194 | the grid becomes the locked grid; the sheet is scored with the lock's count |
| Shared.SharedGame.AdvanceTurn | tetris/ctshared_engine.py:198-205 | the new state is the advanced state of the old one |
| Shared.SharedGame.Tick | tetris/ctshared_engine.py:207-213 | as written: the new state is the old one ticked as the code does it, so a refused automatic move changes nothing |
| Shared.SharedGame.TickOrTopOut | tetris/ctshared_engine.py:207-213 | corrected: the new state is the old one ticked as intended, where a refused automatic move tops out the seat on turn and ends the game |
| Shared.SharedGame.Result | tetris/ctshared_engine.py:215-230 | the payout of the two score sheets, as Result defines it |

## Left out

- Time: each deadline (`time.time() > deadline_ts`) is the boolean parameter `expired`. Timestamps are not modelled.
- Randomness:
  - each seeded shuffle (of the deck, and of every Tetris bag) is a permutation parameter;
  - the shared game's coin (`rng.random() < 0.5`) is the boolean `firstOne`;
  - seeds themselves are not modelled.
- `remove_player` is not modelled. It depends on session ids and dictionary order, and with it the model could not assume that player 1 is added before player 2.
- Serialisation is not modelled: `to_dict`, `from_dict`, the result dictionaries and the messages returned with each outcome. Outcomes are datatypes.
- Hand names ("Flush", "No valid hand" and so on) are not modelled. Only the (rank, value) score is.
- `PState.name` and the room and seed fields of the Tetris games are not modelled. They carry no behaviour.
- The Flask and Socket.IO servers (`app.py`, `app_simple.py`, `ctshared_server_opt.py`, `ctduel_server.py`), their tick loops and room bookkeeping are not part of this model.
- Duel.DuelGame.Start: requires a non-empty queue, because the code reads `queue[piece_idx]` as soon as a move is placed.
- Python integers are unbounded, like Dafny's. Python's `//` and `%` round toward negative infinity; Dafny's `/` and `%` are Euclidean. For a positive divisor the two agree on every dividend, negative ones included, and every divisor here is positive: 3 for the subpot, 2 for a split pot and for the middle of the valid columns, and 4 for a rotation. So a negative bet that reaches the pot, or a negative rotation sent by a client, is modelled as Python computes it.

## Findings

| source | as written | input that shows it | evidently intended | confidence | as-written member | corrected member |
|---|---|---|---|---|---|---|
| tetris/ctshared_engine.py:163-170,207-213 | when the deadline has passed and the current piece fits nowhere, `_auto_choice` returns rotation 0 at column 0, `place` rejects it, and `tick` leaves the game unchanged, so the game never ends | every grid row filled except column 0, queue `['O']`, playing, deadline passed | the comment "If none valid -> top out" and `place`'s "treat as top out" branch: top out the seat on turn and end the game | not executed | Shared.StuckGameNeverEnds | Shared.SharedGame.TickOrTopOut |

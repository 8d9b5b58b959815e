# Curling card game — a verified model

This project models the core of `curling2.py`, a turn-based card game for
two or more players played on a square board (5x5 by default). The joker
sits fixed at the centre. In the setup phase each card played is put on
one of the blank cells. After that, in the rotation phase, a card is
pushed into a row or column from one of its edges. Every other card in
that line moves one step, the card at the far end falls off, and the
joker stays at the centre. A player scores for the cards of their suit
on the eight cells around the joker: 1 per point on the diagonal cells
and 2 on the orthogonal ones. The model covers:

- the cards: ordinary cards, the joker and setup blanks, with their values;
- the board: construction, the `cards` getter and setter, `finalise` and
  `unfinalise`, `get_empty`, `score`, and `update` with both phases and the
  joker pinned in its row and column;
- the player: construction (a sorted hand of thirteen cards), `in_hand`,
  `play`, `alter_score` and `enum_plies`;
- the game: `make_move`, `test_move`, `final` and `unfinal`;
- the tree-search AI: `tree_search` and `heuristic_eval`.

Module by module:

- `Cards` (cards.dfy) holds the card values and the shared per-card flags.
- `Grid` (grid.dfy) holds the pure grid logic: transposition, reversal,
  one-line insertion, the ring score and its weights.
- `Boards` (board.dfy) holds the board: a `class` whose grid, blank list
  and final flag change in place.
- `Players` (player.dfy) holds the player: a `class`, plus the pure
  sorting and ply enumeration.
- `Games` (game.dfy) holds the game: a `class` over a board and its players.
- `Search` (search.dfy) holds the heuristic and the tree search.

Cards are values with an identity (`id`). The source keeps two mutable
flags on every card object, `played` and `discarded`. Here they are the
sets of ids in one `Flags` object, shared by the board, the players and
the game. A Python exception is an `Err`/`Fail` carrying a `Fault`. The
string a human player gets back is a `Rejected`/`TestRejected` result.

The tree search is specified by functions on a `Setting` (what the search
never changes: board size, blanks, hands, scores, suits) and a `Position`
(the grid and the played and discarded flags). `SearchAt` is `tree_search`
on a position, and the `TreeSearch` method is proved to compute it. The undo
in `tree_search` clears the card's `played` and the discard's `discarded`
flag even when one was set before the test, so a search can leave fewer
flags set than it found; the model does the same. A placeholder can be
flagged discarded while copies of it are still on the grid, because one
placeholder object fills a whole row (curling2.py:59); the model gives the
row one id. On "fresh" flags (no card of the mover's hand flagged played,
and no listed blank still on the grid flagged discarded) a depth-0 search
values every offered ply by the heuristic of its own test move, and leaves
a position with the same grid, the same played flags and the same
discarded flags on the listed blanks. Discarded flags of other cards may
be lost, but nothing in the search reads them: `get_empty` reads only the
blanks' flags, and the heuristic reads none.

## Model

| member | source | states |
|---|---|---|
| Cards.Flags.constructor | curling2.py:23-24 | A new card is neither played nor discarded. |
| Cards.NewCard | curling2.py:10-25 | A card exists exactly when its name has a value (`int(name)` raises otherwise). It has the given suit and owner, a value of at least 0, and the name `10` shown as `0`. |
| Cards.NumeralValue | curling2.py:14-21 | A numeral card is worth its number. |
| Cards.ParseNatToString | curling2.py:21 | `int(str(n)) == n` for every natural number. |
| Cards.StandardValues | curling2.py:14-21 | J, Q and K are worth 10, A is worth 1, 2..10 their number, and every name a player is dealt has a value. |
| Cards.SpecialCellsWorthNothing | curling2.py:14-15 | The `*` placeholder, the joker and a blank are worth 0. Only the blank is falsy. |
| Grid.ReversePermutes | curling2.py:145 | Reversal keeps the same cards. |
| Grid.TransposeTwice | curling2.py:129-160 | Transposing twice gives back the grid. |
| Grid.RepinSwaps | curling2.py:150-151 | Putting the joker back swaps the two cells at jp and jp+1, keeps the others, and keeps the same cards. |
| Grid.PushFrontShifts | curling2.py:147-151 | `[card] + row[:-1]`: the card enters at index 0, every other cell moves one step on (the joker stays in the middle line), and the last cell is the discard. The cards are kept. |
| Grid.InsertLineShifts | curling2.py:141-155 | One line insertion from either end: the line shifts away from the inserting end, and the cell at the far end is the discard. |
| Grid.InsertLineKeepsCards | curling2.py:141-155 | The new line plus the discard hold exactly the old line plus the inserted card. |
| Grid.InsertRowShifts | curling2.py:122-157 | A row insertion changes only that row, shifted away from the inserting side. The far cell of that row is the discard. |
| Grid.InsertColumnShifts | curling2.py:127-160 | A column insertion changes only that column, shifted away from the inserting side. The far cell of that column is the discard. |
| Grid.PlaceChangesOneCell | curling2.py:111-119 | Setup phase: a position that is not an empty cell is refused, with the list of empty cells. Otherwise exactly that cell changes, and its old occupant is the discard. |
| Grid.RotateRefusesExactlyInvalid | curling2.py:120-139 | Rotation phase: exactly the positions with one coordinate an edge sentinel and the other a line index are accepted. Those are the row and the column insertions. |
| Grid.ApplyKeepsJoker | curling2.py:108-160 | After any accepted update the joker is still alone at the centre and is never the discard. |
| Grid.ApplyDiscardsACell | curling2.py:108-160 | The discard of an accepted update is a card that was on the grid before it. |
| Grid.ShiftKeepsJokerOut | curling2.py:147-155 | A line shift never brings the joker to a new index. |
| Grid.RingScoreByWeight | curling2.py:94-103 | The score is the sum over the eight cells around the joker of weight times value: 1 diagonally, 2 orthogonally. Only cards of the player's suit count. |
| Grid.RingScoreSetCell | curling2.py:94-103 | Putting a card on one cell changes a score by that cell's weight times the change in what the cell contributes. |
| Grid.RingScoreOnlyReadsRing | curling2.py:94-103 | Grids that agree on the ring around the joker give the same score. |
| Grid.SentinelsAreValidRotations | curling2.py:246-250 | The 4n edge sentinels are exactly the positions the rotation phase accepts. |
| Boards.PendingPositions | curling2.py:88-92 | `get_empty` lists exactly the positions of the listed blanks not yet discarded. |
| Boards.PendingReadsBlanksOnly | curling2.py:88-92 | `get_empty` gives the same list on any two flag sets that agree on the listed blanks. |
| Boards.RemoveCard | curling2.py:164 | `blanks.remove` fails exactly when the card is not listed. Otherwise one entry fewer, and nothing new. |
| Boards.PlaceholderGrid | curling2.py:57-61 | Each row is filled with its own placeholder card; the joker is put at the centre. |
| Boards.InitialCells | curling2.py:57-68 | The grid and blank list of a new board: the placeholders, then a blank put on each listed cell in order. |
| Boards.NewGridJoker | curling2.py:60-61 | A new board holds the joker at the centre and nowhere else. |
| Boards.NewGridCells | curling2.py:57-68 | A new board has, on every listed cell, a blank remembering its 1-based position. Every other cell holds a placeholder. |
| Boards.DefaultBlanksFit | curling2.py:62-63 | The twelve default blank cells lie inside a 5x5 board and avoid its centre. |
| Boards.Board.constructor | curling2.py:53-72 | A new board is valid and not final. It holds the joker at size // 2 and the grid and blanks above, and its new cards are unflagged except the joker and blanks, which are played. |
| Boards.Board.GetEmpty | curling2.py:88-92 | The empty cells are the positions of the undiscarded listed blanks. Each is inside the board and off the joker's cell. |
| Boards.Board.Score | curling2.py:94-103 | Scoring raises exactly on a finalised board. Otherwise it is the ring score of the suit. |
| Boards.Board.Finalise | curling2.py:82-83 | The board becomes final. |
| Boards.Board.Unfinalise | curling2.py:85-86 | The board stops being final. |
| Boards.Board.Snapshot | curling2.py:74-76 | The getter returns the current grid. |
| Boards.Board.Restore | curling2.py:78-80 | The setter puts back the given grid and keeps the board valid. |
| Boards.Board.Update | curling2.py:105-165 | `update` is the grid change of `Apply`. A refusal changes nothing. Otherwise the discard is flagged. On a real move a discarded blank leaves the blank list, and fails when it is not listed. |
| Players.FindCard | curling2.py:204-207 | The first hand card that answers to the name or the card, or None exactly when none does. |
| Players.SortDesc | curling2.py:198 | The sort is a permutation and its values never increase. |
| Players.SortDescStable | curling2.py:198 | Cards of equal value keep their relative order. |
| Players.NewHandCards | curling2.py:197-198 | Every card of a new hand is an ordinary card of the player's suit with the value its name gives. |
| Players.Player.constructor | curling2.py:192-200 | A new player has score 0 and the thirteen cards of their suit, highest value first, none of them played. |
| Players.Player.InHand | curling2.py:202-207 | The first hand card that answers to the reference, or None (Python's False) exactly when none does. |
| Players.Player.Play | curling2.py:210-219 | The first matching card leaves the hand and is flagged played. A card not in hand raises and changes nothing. |
| Players.Player.AlterScore | curling2.py:229-233 | A delta above 500 raises and changes nothing. Otherwise the delta is added and the new score returned. |
| Players.CardChoices | curling2.py:252-260 | The first card, or the first and the last when two options are asked for. Raises exactly on an empty hand, or on an option count above 2 when the hand holds more than one card. |
| Players.ProductAt | curling2.py:262-264 | The plies go card by card, each with every position in order. |
| Players.EnumPliesAccepted | curling2.py:236-264 | Every ply offered holds a hand card and is accepted by `update` on the current board. |
| Players.EnumPliesComplete | curling2.py:242-264 | Every chosen card is offered at every empty cell in the setup phase, or at every edge position afterwards. |
| Games.FirstAboveAt | curling2.py:229-231 | The score loop stops at the first delta above 500. |
| Games.AllPlayed | curling2.py:616 | True exactly when every card of the hand is flagged played. |
| Games.Game.constructor | curling2.py:492-517 | The game takes over the state's board, players, turn and game-over flag, with an empty history. |
| Games.Game.AddRings | curling2.py:617-618 | At the end of a test line every player's side score gets their ring score. This raises on a final board. |
| Games.Game.ScoreOne | curling2.py:652-654 | One player gets their ring score, or its negation, added. It raises on a final board or for a delta above 500. |
| Games.Game.ScorePlayers | curling2.py:651-654 | The players before the first refused delta get theirs added; the others keep their scores. A final board raises at once. |
| Games.Game.Final | curling2.py:647-661 | The game is over, each player gets their ring score, and the board is finalised when no score is refused. |
| Games.Game.Unfinal | curling2.py:663-671 | The game is not over, the board is not final, and each player loses their ring score again. |
| Games.Game.ScoresAddedAre | curling2.py:651-654 | The scores after the scoring loop are exactly the old ones with the deltas added up to the first refused one. |
| Games.UnfinalUndoesFinal | curling2.py:647-671 | With every ring score within 500 either way, neither `final` nor `unfinal` refuses a score, and `unfinal` after `final` gives every player back their old score. |
| Games.Game.Advance | curling2.py:587-594 | The turn passes on. An empty next hand ends the game; otherwise that player alone gets their ring score. |
| Games.Game.PlayAndAdvance | curling2.py:585-598 | The mover plays the card: it leaves their hand and is flagged played, and then the turn advances. |
| Games.Game.Place | curling2.py:576-578 | The board takes or refuses the ply, and the history records the ply with its discard. |
| Games.Game.MakeMove | curling2.py:575-598 | A refusal is returned to a human and raised for an AI, and nothing else changes. Otherwise the card is played and the turn advances. |
| Games.Game.ScoreTest | curling2.py:614-622 | The test line ends exactly when the next player has no unplayed card: then everyone's ring score is added, otherwise only the next player's. |
| Games.Game.TestMove | curling2.py:600-626 | The grid changes as `update` says while the blank list is kept. The card is flagged played, the turn passes, and the side scores are those of `ScoreTest`; a refusal changes nothing. |
| Search.Top | curling2.py:438-445 | `maxscore`: at least 0 and at least every total, and one of them unless 0. |
| Search.Tied | curling2.py:438-445 | The players whose total equals a given score. |
| Search.WinnersAreTop | curling2.py:438-445 | A player wins exactly when their total is at least 0 and at least every other total. |
| Search.WinnersOrdered | curling2.py:440-445 | The winners are listed in turn order, without repetition. |
| Search.ScanWinners | curling2.py:438-445 | The scanning loop computes exactly the winners. |
| Search.Share | curling2.py:448 | The winners' shares are positive and add up to 10000. |
| Search.TerminalValues | curling2.py:437-450 | A finished game has no winner, so the division raises, exactly when every total is below 0. |
| Search.NoWinnerIff | curling2.py:438-448 | There is no winner exactly when every total is below 0. |
| Search.TerminalEval | curling2.py:437-450 | The loop gives each loser -500 and each winner an equal share of 10000 on top. |
| Search.WinnersValuedAbove | curling2.py:437-450 | Winners are valued alike and above every non-winner. |
| Search.TerminalValuesSum | curling2.py:437-450 | The values of a finished game add up to 10000 - 500 per player. |
| Search.EdgeCells | curling2.py:402-417 | The sixteen edge cells visited, all inside the board. |
| Search.AddEdgesFails | curling2.py:407-417 | The edge loops raise exactly when a visited card belongs to someone outside the game. |
| Search.EdgeValues | curling2.py:398-418 | The edge loops add the weighted value of each visited card to its owner's entry. |
| Search.Relative | curling2.py:431-433 | Doubling less the sum keeps the players' order: each difference is doubled. |
| Search.RelativeSum | curling2.py:431-433 | The relative values sum to 2s - Ns; for two players they cancel out. |
| Search.AddTerms | curling2.py:425-430 | The per-player loop adds each term to the edge value. It raises on a final board. |
| Search.MakeRelative | curling2.py:431-433 | Each value becomes twice itself less the sum taken before the loop. |
| Search.RunningEval | curling2.py:396-433 | The value of a running game: edge values plus terms, made relative. |
| Search.HeuristicEval | curling2.py:395-452 | A finished game gets the terminal values of the totals, a running one the estimate; one value per player. |
| Search.ScannedStep | curling2.py:381-386 | A strictly better value restarts the best plies, an equal one joins them, and a worse one is passed over. |
| Search.ScannedChosen | curling2.py:381-387 | After the loop any of the best plies is a valid choice. |
| Search.Leaf | curling2.py:395-452 | `heuristic_eval` on a position: the terminal values when the game is over, the estimate otherwise; one entry per player. |
| Search.OptionsAt | curling2.py:360 | `enum_plies` on a position offers at least one ply whenever it does not raise. |
| Search.TrialOf | curling2.py:600-626 | A test move goes through exactly when the board accepts the ply and is not final. It leaves the new grid, flags the card played and the discard discarded, and passes the turn. |
| Search.TestAt | curling2.py:600-626 | The same on a position: the grid stays square, the side scores keep one entry per player, and the played and discarded flags grow by the card and the discard. |
| Search.BestOf | curling2.py:381-386 | The index of the first value map whose entry for the mover is no less than any other's and greater than every earlier one's. |
| Search.FirstMaximalUnique | curling2.py:381-386 | Only the first maximal index meets that description. |
| Search.PlyValue | curling2.py:366-376 | One candidate tested, valued and undone, at any depth. The grid comes back, the candidate card is not flagged played and the discard not flagged discarded afterwards, and no flag is left set that was not set before. |
| Search.Valued | curling2.py:367-371 | When the game ends or the depth is spent, the value is the heuristic's and the tested position stays. Otherwise it is the best map a search one level deeper finds. |
| Search.ScanAt | curling2.py:365-376 | The candidates in order, each on the position the previous one left; one value map per candidate, or the first error. |
| Search.SearchAt | curling2.py:358-388 | `tree_search` on a position: the plies `enum_plies` offers with their value maps, never an empty list. |
| Search.ScanErrSticks | curling2.py:365-376 | A candidate that raises ends the loop with its error, whatever follows. |
| Search.ScanOneMore | curling2.py:365-376 | One more round of the loop appends the candidate's value map and moves to the position it leaves, or ends with its error. |
| Search.PlyRestores | curling2.py:372-376 | At depth 0 the undo leaves the grid and the flags less the card's and the discard's; this is the starting position exactly when neither flag was set before. |
| Search.ClearedFlags | curling2.py:372-374 | Setting two flags and clearing them gives the old flags less those two, which are the old ones exactly when neither was set. |
| Search.UndoneAtZero | curling2.py:366-376 | At depth 0 the valuation leaves the tested position, so only the undo changes it. |
| Search.TestDiscardsACell | curling2.py:600-626 | The discard of a test move is a card that was on the grid. |
| Search.LeafIgnoresDiscarded | curling2.py:395-452 | The heuristic gives the same values on positions with the same grid and played flags, whatever the discarded flags. |
| Search.ImmediateAgrees | curling2.py:366-369 | A candidate tested and valued at once gets the same result on positions with the same grid, the same played flags and the same discarded flags on the listed blanks. |
| Search.PlyAtZero | curling2.py:366-376 | At depth 0, on fresh flags, a candidate from the hand gets the heuristic value of the position its test move leaves, and the undo gives back the grid, the played flags and the listed blanks' discarded flags. |
| Search.ScanAtZero | curling2.py:365-376 | At depth 0, on fresh flags, the loop values every candidate by the heuristic of its own test move on the starting position, raises with the first candidate's error, and leaves a position that agrees with the start on the grid, the played flags and the listed blanks' discarded flags. |
| Search.DepthZeroPicksBest | curling2.py:358-388 | At depth 0, on fresh flags, every ply `enum_plies` offers is valued by the heuristic after its test move, the position comes back with the same grid, played flags and listed blanks' discarded flags, and the best map's value for the mover is no less than any offered ply's. |
| Search.Undo | curling2.py:372-376 | Undoing clears the card's played flag and the discard's discarded flag, and puts back the stored grid. |
| Search.TestStep | curling2.py:366 | `test_move` on the game does what `TestAt` says on its position, and leaves the game at the tested position. |
| Search.LeafStep | curling2.py:368-369 | `heuristic_eval` on the tested game is `Leaf` of the tested position. |
| Search.DeeperStep | curling2.py:370-371 | The recursive call returns the best map of `SearchAt` one level deeper, and leaves the position that search leaves. |
| Search.ValueStep | curling2.py:367-371 | The valuation of a tested game is `Valued`, and it leaves the position `Valued` names. |
| Search.TryPly | curling2.py:366-376 | One candidate on the game returns the value map `PlyValue` gives, raises with its error, and leaves its position. |
| Search.TryNext | curling2.py:366-386 | One round of the loop: the scan grows by the candidate, the stored grid is back, and the best plies are updated as the comparison says. |
| Search.ScanPlies | curling2.py:365-387 | The loop computes `ScanAt`. The returned map is the first one maximal for the mover, and the returned ply is one that achieves it. |
| Search.TreeSearch | curling2.py:358-388 | `tree_search` computes `SearchAt`: the candidates are what `enum_plies` offers, each value map is that candidate's `PlyValue`, the returned map is the first maximal one for the mover, and the returned ply achieves it. An `enum_plies` error is raised with nothing changed. |

## Left out

- Human and random players: `HumanPlayer.make_move` and `AIPlayer` read input or draw random moves. They are not part of this model.
- `AITreeSearch.make_move`, `GameState`, `StartGameState`, `gameloop`, `turn` and `online_turn` are not part of this model. Neither are `dump`/`load` (pickle files), printing, `main` and `averages`.
- The five-second clock check in `online_turn` (curling2.py:549-570) and the `save` option are I/O and are left out.
- Floating-point values in `heuristic_eval` are exact reals, so rounding is not modelled.
- `int(name)` is modelled for plain decimal numerals only. Other names (signs, spaces, underscores) are treated as raising.
- Boards have odd sizes of at least 3, with the joker at the centre. The blank cells must avoid the centre, because Python would overwrite the joker there.
- The joker is never offered as a ply: `Update`, `TestMove`, `MakeMove` and `TreeSearch` require that no hand holds it. The source never deals it to a player.
- Search.TreeSearch: `random.choice` among the best plies is a nondeterministic choice. The contract says only that the chosen ply achieves the best value for the mover.
- Search.DepthZeroPicksBest: the link from each candidate to the heuristic value of its own test move is proved at depth 0 and on fresh flags only. Deeper levels are exactly `SearchAt` one level down, but their values are not restated in terms of the heuristic. The position left behind is stated only up to the discarded flags of cards other than the listed blanks.
- `test_move` does not take the card out of the hand. So `enum_plies` at a deeper level can offer a card again that a higher level has already test-played. The model does this as written: the hands of the `Setting` are fixed during a search.
- A card owned by no player counts for nothing in the edge loops. A card owned by someone outside the game raises (`UnknownOwner`), where Python raises a `KeyError`.
- On a 3x3 board the central edge cells include the corners, so the edge loops visit them more than once. This is modelled as written.
- A refused test move for a human player returns a string that `tree_search` cannot unpack. This is modelled as the error `Refused`.
- Games.Game.MakeMove: the board's answer (`placed`) is a ghost out-parameter. The history entry for a refusal records no discard.
- `Ply` turning a card given as the string `10` into `0` is not modelled: cards are always card values here.
- The search depth is a natural number, and the recursion ends at 0 as in the source.
- Player names play no part in any property. The `AI` flag decides whether a refused ply raises `AIError` or comes back as `Rejected`/`TestRejected` in `MakeMove` and `TestMove`.

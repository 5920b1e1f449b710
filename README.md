# Warlok chess-with-cards engine, modelled in Dafny

Warlok is a 3D chess game played with cards. It was written twice in
Python (the single-file `3d_chess.py` and the split `src/` version, both
built on Ursina) and twice in TypeScript on three.js (the
`apps/frontend` game and the older `web/` prototype). This project models
the rules engine inside those programs:

- the 8 x 8 grid of pieces, indexed `grid[z][x]`, and its initial layout;
- the six per-kind move generators (pawn, rook, knight, bishop, queen,
  king). Their shapes are those of Article 3 of the FIDE Laws of Chess,
  without castling, en passant, promotion or check;
- the turn gate and legal-move filter of `GameRules`, and the move
  executor `ChessActions.release_piece`;
- the `CardSystem` card economy: deck, hand, a selection capped at five,
  and the deck statistics;
- the TypeScript board managers, the two `GameState` classes and the
  bot's scan for empty squares.

Modules follow the source files:

| module | models |
|---|---|
| `Core` | squares, bounds, kinds, sides, grids as `seq<seq<_>>` with `Filled` and `Write` |
| `Entities` | the Python `ChessPiece` (kind, colour, grid coordinates, stored valid moves) |
| `Moves` | what the six generators return, as functions, and their properties |
| `Pieces` | the generators of `src/entities/pieces.py` (the copy in `3d_chess.py` is the same code), as loops proved equal to `Moves` |
| `Rules` | `GameRules`, the module-level `VIRTUAL_GRID` and `piece_entities`, and `ChessActions` of `3d_chess.py` |
| `Layout` | the `piece_positions` table and the nested loop that fills a grid from it |
| `StateManager`, `PyBoard` | `src/game/state_manager.py` and `create_pieces` of `src/game/board.py` |
| `Shared` | the TypeScript `ChessPiece`, the card record, and the `setupInitialPieces` placement that both board managers share |
| `Cards` | `CardSystem` of `apps/frontend/src/game/card.ts` |
| `FrontState`, `FrontBoard`, `Bot` | `state.ts`, `board.ts` and `bot.ts` of `apps/frontend/src/game` |
| `WebState`, `WebBoard`, `WebGame` | `state.ts`, `board.ts` and `game.ts` of `web/src` |

State the source changes in place is modelled the same way in Dafny:

- Mutated objects are classes with `modifies` clauses, and grids are
  `seq` fields that the methods reassign.
- The generators, the bot's scan and the setup are methods with loops.
  Each is proved equal to a specification function, and the properties
  are lemmas about that function.
- Randomness is a nondeterministic choice. `shuffleDeck` returns some
  permutation of the deck, and the bot picks some card and some empty
  square.
- A TypeScript call that throws (a `TypeError` on `undefined`) is an
  outcome the method returns (`thrown`, or `Failed`), together with the
  state reached before the throw.

Where the code and its intent differ, the model follows the code:

- In the frontend, `handleBoardClick` calls `CardSystem.placeCardOnBoard`.
  That method only lays a card mesh in the UI scene, so a click never
  writes `virtualGrid`.
- `Bot.makeMove` calls `gameState.switchTurn()`, which the frontend
  `GameState` does not define. The call throws after the card is laid,
  so the turn never changes.
- The `boardCards` filter before the push in `web/src/board.ts` compares
  a mesh position with the integer grid coordinates. A card mesh stands
  at `gridX - 3.5`, so the filter keeps every card.

## Model

| member | source | states |
|---|---|---|
| Core.Other | 3d_chess.py:534-536 | the other side is never the same side |
| Core.OtherTwice | 3d_chess.py:534-536 | switching sides twice restores the side |
| Core.Filled | 3d_chess.py:14 | an 8 x 8 grid whose every cell holds the given value |
| Core.Write | 3d_chess.py:599-600 | writing one cell sets that cell and leaves every other in-bounds cell as it was |
| Core.CellAt | 3d_chess.py:427-430 | the i-th square in row-major order is on the board and has index i |
| Core.CellAtIndex | 3d_chess.py:427-430 | every board square has an index in 0..63, and the index maps back to that square |
| Core.CellIndexInjective | 3d_chess.py:427-430 | two board squares with the same row-major index are equal |
| Core.RemoveFirst | 3d_chess.py:595-596 | `list.remove`: the list is unchanged when the value is absent; otherwise it loses exactly one occurrence of it |
| Core.RemoveFirstAt | 3d_chess.py:595-596 | the occurrence `list.remove` drops is the first: the result is the list cut around the first position of the value |
| Entities.ChessPiece.constructor | 3d_chess.py:216-226 | a new piece has the given kind, colour and grid coordinates, and no stored moves |
| Entities.ChessPiece.CanCapture | 3d_chess.py:243-244 | a piece may take a piece of the other colour, and so never itself |
| Moves.Ray | 3d_chess.py:314-324 | every square of a ray is on the board |
| Moves.RayShape | 3d_chess.py:314-324 | a ray is empty iff the first step leaves the board; it starts one step from the piece; each square before the last is empty and followed by the next step; it ends at the edge or on the first occupied square |
| Moves.RayBlockedAtOnce | 3d_chess.py:314-324 | when the adjacent square is occupied, whatever its colour, the ray is that square alone |
| Moves.RayEndsAtFirstPiece | 3d_chess.py:354-364 | an occupied square on a ray is its last square: nothing beyond a blocker is offered |
| Moves.SlideAppend | 3d_chess.py:375-390 | walking two direction lists in turn gives the two results concatenated |
| Moves.SlideMember | 3d_chess.py:354-364 | a square is offered by a sliding generator iff it is on the ray of one of its directions |
| Moves.SlideOnBoard | 3d_chess.py:375-390 | every square a sliding generator offers is on the board |
| Moves.QueenIsRookThenBishop | src/entities/pieces.py:155-170 | the queen's result is the rook's result followed by the bishop's |
| Moves.JumpsMember | 3d_chess.py:334-343 | a square is offered by the knight or king generator iff it is one of the offsets from the piece, on the board, and empty or held by an enemy |
| Moves.JumpsOnBoard | 3d_chess.py:401-411 | every square a knight or king offers is on the board, and empty or held by an enemy |
| Moves.PawnCapturesMember | 3d_chess.py:299-304 | a square is offered by the capture loop iff its column is the pawn's shifted by one of the loop's offsets, its row is one step forward, it is on the board and an enemy holds it |
| Moves.PawnRules | 3d_chess.py:285-304 | black moves +z and white -z. The one-step is offered iff on the board and empty. The two-step is offered iff the one-step was, the pawn is on its start row (black z == 1, white z == 6) and the second square is empty. A diagonal is offered iff it holds an enemy. Nothing else is offered |
| Moves.PawnNoTwoStepOffStartRow | 3d_chess.py:292-296 | a pawn off its start row is never offered two squares |
| Moves.PawnTargets | 3d_chess.py:283-306 | the pawn's list is its forward steps followed by its diagonal captures; PawnRules states which squares those are |
| Moves.Candidates | 3d_chess.py:283-411 | each kind's list is its own generator's; CandidatesOnBoard and the Member lemmas state what those lists hold |
| Moves.CandidatesOnBoard | 3d_chess.py:283-411 | every square any of the six generators offers is on the board |
| Pieces.RayMoves | src/entities/pieces.py:94-104 | the `while True` loop returns exactly the ray of one direction |
| Pieces.SlideMoves | src/entities/pieces.py:94-104 | the loop over a direction list returns the rays concatenated in list order |
| Pieces.JumpMoves | src/entities/pieces.py:114-123 | the offset loop returns exactly the in-bounds offsets that are empty or held by an enemy, in list order |
| Pieces.PawnCaptureMoves | src/entities/pieces.py:79-84 | the `dx in [-1, 1]` loop returns exactly the enemy-held diagonal squares |
| Pieces.PawnMoves | src/entities/pieces.py:62-86 | Pawn.get_valid_moves returns the pawn's specified targets |
| Pieces.RookMoves | src/entities/pieces.py:88-107 | Rook.get_valid_moves returns the rays of the four orthogonal directions |
| Pieces.KnightMoves | src/entities/pieces.py:109-126 | Knight.get_valid_moves returns the knight's specified jumps |
| Pieces.BishopMoves | src/entities/pieces.py:128-147 | Bishop.get_valid_moves returns the rays of the four diagonals |
| Pieces.QueenMoves | src/entities/pieces.py:149-173 | Queen.get_valid_moves returns the eight rays, which equal the rook's result followed by the bishop's |
| Pieces.KingMoves | src/entities/pieces.py:175-194 | King.get_valid_moves returns the king's specified steps |
| Pieces.GetValidMoves | src/entities/pieces.py:62-194 | dispatch on the piece's class returns that kind's candidates, all on the board; the grid is only read |
| Pieces.PieceClassesComplete | src/entities/pieces.py:196-204 | piece_classes maps each of the six kind names to its own kind and holds no other name |
| Rules.TurnAllows | 3d_chess.py:488-494 | a piece may move exactly when the side on move is its colour |
| Rules.CanMoveToPosition | 3d_chess.py:496-513 | accepted iff on the board and empty or held by a piece of the other colour, which is the landing test of the knight and king generators |
| Rules.LegalMoves | 3d_chess.py:515-532 | no moves for a piece of the side not on move; otherwise no more squares than the generator offers (LegalMovesExactly gives the members) |
| Rules.KeepAllowed | 3d_chess.py:523-530 | the filter never yields more squares than it was given |
| Rules.KeepAllowedMembers | 3d_chess.py:523-530 | the filter keeps exactly the candidates that `can_move_to_position` accepts, and never adds any |
| Rules.LegalMovesExactly | 3d_chess.py:515-532 | wrong turn gives no moves; otherwise a square is legal iff the generator offers it and it is in bounds and empty or held by a piece the mover can capture |
| Rules.LegalMovesNeverFriendly | 3d_chess.py:496-513 | a legal move is on the board and never lands on a piece of the mover's colour |
| Rules.SlidingBlockerDropped | 3d_chess.py:314-324 | on a rook ray, a square is legal iff it is empty or an enemy: the friendly blocker the generator offered is dropped |
| Rules.FilterMoves | 3d_chess.py:525-530 | the filter loop returns the filtered list |
| Rules.GameRules.constructor | 3d_chess.py:461-462 | the game starts with white to move |
| Rules.GameRules.CanMove | 3d_chess.py:488-494 | a piece that may move now may not once the turn has switched, and the reverse |
| Rules.GameRules.GetValidMoves | 3d_chess.py:515-532 | get_valid_moves returns the legal moves for the current turn |
| Rules.GameRules.SwitchTurn | 3d_chess.py:534-536 | the turn becomes the other side |
| Rules.WithoutCaptured | 3d_chess.py:589-596 | no capture, or a captured piece not in the list, leaves piece_entities as it was; otherwise exactly one occurrence is removed |
| Rules.ChessWorld.constructor | 3d_chess.py:11-14 | VIRTUAL_GRID starts all None and piece_entities empty |
| Rules.ChessWorld.StartGame | 3d_chess.py:425-450 | piece_entities is cleared. Each square with a layout entry gets a new piece of that kind, black iff z <= 1. Squares without an entry are untouched. piece_entities lists the new pieces in loop order, each made during the call |
| Rules.ChessWorld.ExecuteMove | 3d_chess.py:587-612 | the target holds the piece, the source is cleared, no other cell changes, the piece records the target, and the captured piece leaves piece_entities |
| Rules.OthersElsewhere | 3d_chess.py:599-600 | in a grid whose pieces record their squares, a piece stands on no cell but its own |
| Rules.MovedCoherent | 3d_chess.py:599-604 | after the move every piece on the grid still records its own square |
| Rules.ChessActions.constructor | 3d_chess.py:545-551 | nothing selected, no target, not dragging, mouse not pressed |
| Rules.ChessActions.SelectPiece | 3d_chess.py:553-570 | ignored unless the left button is held and not already pressed. Then the press is recorded, and a piece of the side to move becomes the selection and stores its legal moves. Any other piece changes nothing more |
| Rules.ChessActions.ReleasePiece | 3d_chess.py:572-627 | a target among the stored moves executes the move, drops the capture, clears the stored moves and switches the turn once. Any other release changes neither the grid, nor the list, nor the piece's square, nor the turn. The selection is reset in every case |
| Layout.PiecePositionsIsGrid | 3d_chess.py:169-178 | the layout table is 8 x 8 |
| Layout.PiecePositionsRows | 3d_chess.py:169-178 | back rows on z == 0 and z == 7 in the order rook, knight, bishop, queen, king, bishop, knight, rook; pawns on z == 1 and z == 6; rows 2-5 empty |
| Layout.LayoutCellsUpTo | 3d_chess.py:427-430 | the listed squares are on the board, before the bound, and have an entry |
| Layout.LayoutCellsUpToExactly | 3d_chess.py:427-430 | a square is listed iff it is on the board, before the bound, and has an entry |
| Layout.PiecePositionsCount | 3d_chess.py:169-178 | the first 16 and the last 16 squares have entries, the 32 between have none |
| Layout.PiecePositionsHas32 | 3d_chess.py:169-178 | the table has 32 entries |
| Layout.Populate | 3d_chess.py:427-450 | squares without an entry are untouched; each square with an entry holds a new piece of that kind, colour and square; the pieces are listed in row-major order, each made during the call |
| StateManager.GameStateManager.constructor | src/game/state_manager.py:2-7 | both lists are empty, the grid is 8 x 8 and all None, nothing is selected |
| StateManager.GameStateManager.ClearState | src/game/state_manager.py:9-14 | from any state, the initial state is restored on the same two list objects; from the initial state nothing changes |
| PyBoard.CreatePieces | src/game/board.py:26-50 | each square with an entry in the table of src/constants.py:12-21 holds a new piece of that kind and square, black iff row < 4; other cells are untouched; piece_entities grows by exactly the 32 new pieces, in loop order, each made during the call; the selections and card_entities are unchanged |
| Shared.Piece.constructor | apps/frontend/src/game/board.ts:287-293 | a new piece has the given type, colour and grid coordinates |
| Shared.ModelKey | apps/frontend/src/game/board.ts:181 | the key `${color}_${type}`; ModelKeyInjective shows it names one colour and one type |
| Shared.ModelKeyInjective | apps/frontend/src/game/board.ts:181 | the model key `${color}_${type}` names one colour and one type |
| Shared.Moved | apps/frontend/src/game/board.ts:233-234 | movePiece's two writes on the grid; MovedCells states the cells that result |
| Shared.MovedCells | apps/frontend/src/game/board.ts:233-234 | after a move the target holds the piece, the source is null when it differs from the target, and every other cell is unchanged |
| Shared.RowCalls | apps/frontend/src/game/board.ts:165-170 | one placement per position of a table row, white for z <= 4 and black for z > 4 |
| Shared.PawnCallsAt | apps/frontend/src/game/board.ts:174-177 | call i of the pawn loop is a pawn on column i / 2: white on row 1 for even i, black on row 6 for odd i, so each column gets a white then a black pawn |
| Shared.SetupCallsShape | apps/frontend/src/game/board.ts:156-177 | the setup makes 32 placements on 32 distinct squares: back-rank kinds on rows 0 and 7, pawns on rows 1 and 6, white on the low rows and black on the high rows |
| Shared.SetupCallsCover | apps/frontend/src/game/board.ts:156-177 | every square of rows 0, 1, 6 and 7 receives a placement |
| Shared.WithModelMember | apps/frontend/src/game/board.ts:182-187 | the placements that happen are exactly those whose model exists |
| Shared.LayCells | apps/frontend/src/game/board.ts:217-218 | laying placements on distinct squares puts each piece on its square and leaves every other square as it was |
| Shared.SetupCells | apps/frontend/src/game/board.ts:148-221 | after the setup each square that has a table or pawn entry with a model holds a new piece of that type and square, black iff z > 4 |
| Shared.SetupKeeps | apps/frontend/src/game/board.ts:148-221 | after the setup every square without a placement that has a model is as it was |
| Shared.PlaceInitial | apps/frontend/src/game/board.ts:180-221 | placeInitialPiece changes nothing when the model is missing; otherwise it appends a new piece and writes it on its square |
| Shared.SetupGrid | apps/frontend/src/game/board.ts:148-178 | the placements run in table order and then the pawn loop; the grid is the result of laying them, and every piece placed is made during the call |
| Cards.NewDeckCards | apps/frontend/src/game/card.ts:90-113 | the new deck has one card per texture, in order, each a pawn of the given colour |
| Cards.NewDeckMembers | apps/frontend/src/game/card.ts:90-115 | any shuffle of the new deck has one card per texture (seven), all pawns of the given colour, one per texture |
| Cards.RemoveFirstNoDup | apps/frontend/src/game/card.ts:262 | deleting from a duplicate-free selection removes that mesh and keeps the others, without duplicates |
| Cards.AppendNoDup | apps/frontend/src/game/card.ts:244 | adding a mesh the set does not hold keeps it duplicate-free |
| Cards.Range | apps/frontend/src/game/card.ts:323-377 | the hand display makes consecutive new mesh ids, one per card |
| Cards.IndexOf | apps/frontend/src/game/card.ts:468 | `indexOf` returns -1 iff the value is absent, and otherwise the first index holding it |
| Cards.Splice1Removes | apps/frontend/src/game/card.ts:390-393 | `splice(index, 1)` removes the element at the index (counted from the end when negative), or nothing when the index is past the end |
| Cards.ReversedStep | apps/frontend/src/game/card.ts:139-141 | drawing one more card from the deck's end appends it after the cards already drawn |
| Cards.DrawCount | apps/frontend/src/game/card.ts:139 | the loop draws min(count, deck size) cards, none for a count of 0 or less |
| Cards.Reversed | apps/frontend/src/game/card.ts:139-141 | the cards drawn one by one from the deck's end are as many as the cards taken from it |
| Cards.ReversedAt | apps/frontend/src/game/card.ts:139-141 | the cards drawn one by one from the deck's end are that part of the deck in reverse order: the i-th drawn is the i-th from the end |
| Cards.KindTotalIsSize | apps/frontend/src/game/card.ts:456-463 | the per-type counts of a deck add up to its size |
| Cards.TallyTotal | apps/frontend/src/game/card.ts:456-463 | the values of a per-type tally add up to the deck size |
| Cards.KindNameInjective | apps/frontend/src/game/card.ts:458 | distinct piece types give distinct keys |
| Cards.CardSystem.constructor | apps/frontend/src/game/card.ts:35-88 | an empty hand, no selection, and a shuffled white deck |
| Cards.CardSystem.InitializeDeck | apps/frontend/src/game/card.ts:90-117 | the old deck is replaced by a permutation of the seven new pawn cards; the hand and selection are unchanged |
| Cards.CardSystem.ShuffleDeck | apps/frontend/src/game/card.ts:119-124 | the deck is permuted: same multiset; nothing else changes |
| Cards.CardSystem.UpdateHandDisplay | apps/frontend/src/game/card.ts:323-377 | every card gets a new mesh; the deck, hand and selection are unchanged |
| Cards.CardSystem.AddCard | apps/frontend/src/game/card.ts:384-388 | the card is appended to the hand, and the display is rebuilt |
| Cards.CardSystem.DrawCard | apps/frontend/src/game/card.ts:126-135 | an empty deck returns null and changes nothing. Otherwise the former last deck card is returned, the deck loses it and the hand gains it at its end. The hand size is never checked, and the deck size plus the hand size is conserved |
| Cards.CardSystem.DrawInitialHand | apps/frontend/src/game/card.ts:137-144 | exactly min(count, deck size) cards move from the deck's end to the hand, in draw order. With no draw the meshes stay; after a draw the meshes are consecutive new ids, so no previously selected mesh is displayed any more |
| Cards.CardSystem.GetRemainingDeckSize | apps/frontend/src/game/card.ts:146-148 | the deck size |
| Cards.CardSystem.ClearSelection | apps/frontend/src/game/card.ts:451-453 | the selection becomes empty unless a selected mesh is no longer displayed, in which case the deselection throws at the first such mesh |
| Cards.CardSystem.ResetDeck | apps/frontend/src/game/card.ts:150-158 | the hand is emptied and the mesh counter is kept. Without a throw, the selection and meshes become empty and the deck becomes a permutation of the seven new cards. When clearing the selection throws at its first undisplayed mesh, the deck stays empty, the meshes stay, and the selection keeps the meshes after that one |
| Cards.CardSystem.RemoveCard | apps/frontend/src/game/card.ts:390-393 | the hand is spliced at the index and the display rebuilt |
| Cards.CardSystem.CardOf | apps/frontend/src/game/card.ts:438-443 | `cards[cardMeshes.indexOf(mesh)]`; CardOfShown states when it is defined and which card it is |
| Cards.CardSystem.SelectedCards | apps/frontend/src/game/card.ts:438-443 | one entry per selected mesh, in selection order: that mesh's card, or undefined for a mesh no longer displayed |
| Cards.CardSystem.CardOfShown | apps/frontend/src/game/card.ts:438-443 | a mesh has a card iff it is displayed, and then its card is the one at its index |
| Cards.CardSystem.IsHandFull | apps/frontend/src/game/card.ts:446-448 | at least five meshes selected; HandFullAtMax shows that means exactly five |
| Cards.CardSystem.HandFullAtMax | apps/frontend/src/game/card.ts:446-448 | the hand is full iff exactly five cards are selected, which is the most the selection can hold |
| Cards.CardSystem.HandleClick | apps/frontend/src/game/card.ts:205-241 | a selected mesh is deselected; an unselected one is selected only while fewer than five are; the deck, hand and meshes are unchanged |
| Cards.CardSystem.PlaceCardOnBoard | apps/frontend/src/game/card.ts:399-435 | no selection returns null; a first selected mesh that is no longer displayed throws; otherwise the card laid is that mesh's card. The hand is unchanged |
| Cards.CardSystem.GetDeckStats | apps/frontend/src/game/card.ts:456-463 | the result counts the deck's cards per piece type, and the counts add up to the deck size |
| Cards.CardSystem.RemoveSelectedCard | apps/frontend/src/game/card.ts:465-484 | nothing happens without a selection or when the first selected mesh is not displayed. Otherwise that card and mesh are removed at the same index, the mesh leaves the selection, and the display is rebuilt |
| FrontState.SetCell | apps/frontend/src/game/state.ts:63-67 | the written grid is still 8 x 8 |
| FrontState.SetThenGet | apps/frontend/src/game/state.ts:55-67 | after setPieceAt in bounds, getPieceAt there gives the value; out of bounds it gives null; other cells read as before; out-of-bounds writes change nothing |
| FrontState.GameState.constructor | apps/frontend/src/game/state.ts:11-29 | both grids are 8 x 8 and all null, white to play, nothing selected or laid |
| FrontState.GameState.GetPieceAt | apps/frontend/src/game/state.ts:55-60 | any square off the board reads null |
| FrontState.GameState.SetPieceAt | apps/frontend/src/game/state.ts:63-67 | in bounds, the cell is set and no other cell changes; out of bounds nothing changes |
| FrontBoard.BoardManager.constructor | apps/frontend/src/game/board.ts:18-30 | no pieces and no models yet |
| FrontBoard.BoardManager.SetPieceModels | apps/frontend/src/game/board.ts:32-39 | only the first call sets the models |
| FrontBoard.BoardManager.SetupInitialPieces | apps/frontend/src/game/board.ts:148-178 | nothing happens when pieces is non-empty. Unset models throw at the first placement. Otherwise the grid is the setup laid and pieces lists the new pieces, each made during the call. The other state is unchanged |
| FrontBoard.BoardManager.GetPieceAt | apps/frontend/src/game/board.ts:224-226 | the cell of virtualGrid; MovePiece states its effect through it |
| FrontBoard.BoardManager.MovePiece | apps/frontend/src/game/board.ts:229-244 | the old cell is null, the new cell holds the piece, the piece records the new square, and no other cell changes |
| FrontBoard.BoardManager.PlaceCardOnBoard | apps/frontend/src/game/board.ts:246-304 | one card is appended to boardCards. With a model, a new piece of the card's colour and type is appended to pieces and written on the square. Without one, pieces and the grid are unchanged. Unset models throw |
| FrontBoard.BoardManager.HandleBoardClick | apps/frontend/src/game/board.ts:321-340 | a card is laid only when the clicked square's board cell is empty and a card is selected. Then the first selected card is removed from the hand and selection, unless laying it threw, and the hand display is rebuilt with new meshes. The deck is unchanged, and a click that lays nothing changes nothing |
| Bot.EmptyInRowShape | apps/frontend/src/game/bot.ts:102-106 | the inner loop lists a square of row z iff it is before the bound and empty, left to right |
| Bot.EmptyRowsMembers | apps/frontend/src/game/bot.ts:97-110 | a square is listed iff it is on the board, in a scanned row, and empty |
| Bot.EmptyRowsOrdered | apps/frontend/src/game/bot.ts:101-107 | the list is in strictly increasing row-major order, so no square appears twice |
| Bot.EmptyInRowCount | apps/frontend/src/game/bot.ts:102-106 | the inner loop lists the columns scanned minus the occupied ones |
| Bot.EmptyRowsCount | apps/frontend/src/game/bot.ts:101-107 | the scan lists 8 squares per row scanned minus the occupied cells of those rows |
| Bot.Bot.constructor | apps/frontend/src/game/bot.ts:62-67 | the bot holds the given state and board manager |
| Bot.Bot.FindEmptySpaces | apps/frontend/src/game/bot.ts:97-110 | exactly the empty squares, each once, in row-major order (z outer, x inner), 64 minus the occupied cells in all |
| Bot.Bot.MakeMove | apps/frontend/src/game/bot.ts:69-95 | with no empty square nothing changes. Otherwise one of the six bot cards is laid on a square that was empty, through the board manager. The turn is unchanged |
| WebState.GameState.constructor | web/src/state.ts:10-21 | an 8 x 8 grid of null, white to play, nothing selected or laid |
| WebBoard.BoardManager.constructor | web/src/board.ts:15-21 | no pieces and no models yet |
| WebBoard.BoardManager.SetPieceModels | web/src/board.ts:23-30 | only the first call sets the models |
| WebBoard.BoardManager.SetupInitialPieces | web/src/board.ts:102-165 | as in the frontend: skipped when pieces is non-empty, throws on unset models, otherwise the setup laid with pieces made during the call |
| WebBoard.BoardManager.GetPieceAt | web/src/board.ts:168-170 | the cell of virtualGrid; MovePiece states its effect through it |
| WebBoard.BoardManager.MovePiece | web/src/board.ts:173-188 | the old cell is null, the new cell holds the piece, the piece records the new square, and no other cell changes |
| WebBoard.BoardManager.PlaceCardOnBoard | web/src/board.ts:190-217 | exactly one card is appended to boardCards, and virtualGrid is never written. One new piece of the card's colour and type on the square is appended to state.pieces, unless the model is missing or unset, which throws |
| WebGame.LayKeeps | web/src/game.ts:43-45 | a square no piece stands on keeps its initial value |
| WebGame.LayFills | web/src/game.ts:43-45 | a square some piece stands on is not null |
| WebGame.LayLast | web/src/game.ts:43-45 | a piece no later piece shares a square with is found on its square: the last one wins |
| WebGame.BoardCells | web/src/game.ts:38-48 | a cell of the rebuilt board is null iff no piece stands there, and otherwise holds the last such piece |
| WebGame.BoardStep | web/src/game.ts:43-45 | one forEach step writes one more piece on its square |
| WebGame.GameState.constructor | web/src/game.ts:5-10 | white to play, nothing selected, no pieces |
| WebGame.GameState.HandlePieceSelection | web/src/game.ts:12-17 | a piece of the side not to play is ignored; otherwise it becomes the selection |
| WebGame.GameState.GetBoardState | web/src/game.ts:38-48 | a fresh 8 x 8 grid of null with each piece written on its own square in list order |

## Left out

- Rendering, in both languages:
  - Ursina entities, shaders, markers, colours and heights, camera control;
  - three.js meshes, textures, raycasting, gsap animations, the scene and lights.
  The ray that picks a square or a card is a parameter: the square or mesh hit, or none.
- Floating-point coordinates: `getGridPosition`, the world offsets and the card layout positions.
- Randomness: `Math.random` in `shuffleDeck` and in the bot's choices is a nondeterministic pick.
- The one-second delay in `makeMove`, and the texture and model loading callbacks.
- Console logging and `print` tracing, and the 'k' debug key that destroys a black piece.
- `update_cards_for_turn` in `switch_turn` and the camera rotation target: they belong to the card UI and the camera.
- The `getValidMoves` stubs of the two TypeScript `core.ts` files, which return no moves. The TypeScript move highlighting built on them is left out, and so is web `highlightValidMoves`.
- `cardType` and `monsterType` of the cards `initializeDeck` makes: no code reads them.
- The hover state of `CardSystem` and the stored mesh positions, apart from the throw a missing position causes.
- The backend, the React/Next pages and `src/entities/cards.py`, which builds Ursina entities.
- Rules.ChessWorld.ExecuteMove, FrontBoard.BoardManager.GetPieceAt, FrontBoard.BoardManager.MovePiece, WebBoard.BoardManager.GetPieceAt, WebBoard.BoardManager.MovePiece: require in-bounds squares. Off the board the source indexes an undefined row and throws, or writes past the row.
- WebGame.GameState.GetBoardState: requires every piece to stand on the board. A piece off the board makes the source throw or write past a row.
- FrontBoard.BoardManager.PlaceCardOnBoard: requires an in-bounds square, because its only callers (the bot's empty squares) pass one.
- Bot.Bot.MakeMove: does not flip the turn. `switchTurn` is not defined on the frontend `GameState`, so the call throws after the card is laid.
- FrontBoard.BoardManager.HandleBoardClick: the card the click lays is only a UI mesh, so the grid and the pieces are not changed.
- Rules.ChessActions.SelectPiece: the piece's height and the shown markers are rendering.
- A piece's model object and its `clone()` are left out. Only whether the models map holds a key is modelled.

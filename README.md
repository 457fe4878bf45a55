# Chess server and client tokens, modelled in Dafny

The model covers three parts of the chess server and client.

- **The rule engine of the server** (`server/chess.hpp`). A `Point` is a square given as (row, column), with row 0 being rank 8. A `Board` is an 8×8 grid of pieces, and every piece records its own square. Each piece kind has a `valid_move` predicate. Class `Chess` holds the side to move, the pawn that may be taken en passant, the pawn waiting for its promotion letter and the two kings. It accepts move tokens: "e2e4", "O-O", "O-O-O" and "=Q".
- **The session layer of the server** (`server/server.cpp`). A `Game` binds two connections to one engine. It refuses moves from the player whose turn it is not, and answers every move. The `Server` pairs connections through a single waiting slot.
- **The move-token encoder of the Qt client** (`client/chess_gui.hpp`). It turns a drag from one square to another into the token the server parses.

How the source maps onto Dafny:

- Pieces are value records (`Pieces.Piece`) that carry kind, colour, square and the `moved` and en-passant flags.
- The board is a class over an `array2`. Its contents as a value are `Board.Cells()`.
- Module `Rules` states what every engine operation does to the abstract state `ChessState`. Class `Engine.Chess` performs the same operations step by step, and each method is proved to yield exactly the state the `Rules` function describes.
- The engine's pointers become squares: the en-passant pawn and the two kings are tracked by their squares. The pawn waiting for promotion is kept as a record of the pawn on its last-rank square.
- The invariant `Rules.Inv` says:
  - every piece records its own square;
  - the only piece flagged en passant is a pawn of the side not to move, on the tracked square;
  - every king stands on the square tracked for its colour.
- Socket writes are not performed: each session operation returns the messages it writes, in order, as its outbox.
- A C `int` is `CInt.int32`, and `^` is defined bit by bit on its two's-complement reading.

Files, in order of dependency:

- `coords.dfy`: `Point`, `from_string` and `to_string`.
- `pieces.dfy`: the piece records.
- `grid.dfy`: the board as a value.
- `board.dfy`: class `Board`.
- `legality.dfy`: the `valid_move` predicates.
- `attack.dfy`: `under_attack`.
- `rules.dfy`: the engine as functions on `ChessState`, plus the starting position and the properties of the rules.
- `engine.dfy`: class `Chess`.
- `cint.dfy`: C `int` and `^`.
- `server.dfy`: `Game`, `Client` and `Server`.
- `gui.dfy`: the client's tokens.

Quirks of the code that the model keeps on purpose:

- **Unreadable tokens.** A token that is neither two squares, a castling nor a promotion gets `INVALID_MOVE` (-7), not `INVALID_FORMAT` (server/chess.hpp:390). `RuleFacts.OpeningUnreadable` shows this for "e9e4".
- **Pending promotions.** A pawn waiting for its promotion letter does not block other moves, because `enter_move` never consults `m_to_promote`. `RuleFacts.PendingPromotionDoesNotBlock` proves this.
- **Colours.** The second player to join is White and moves first (server/server.cpp:24, with `setup` giving the turn to `WHITE = 1`). `Session.Server.OnConnect` states this: "your turn" goes to the newcomer.
- **The unscanned diagonal.** `bishop_moves` lists `(1, -1)` twice and never `(-1, 1)` (server/chess.hpp:446). `Attack.BishopSteps` keeps the list as written. `AttackQuirks.BlindDiagonal` exhibits the consequence:
  - a black bishop on b2 may move to a1;
  - `under_attack` still reports a white king on a1 as safe.

## Model

| member | source | states |
|---|---|---|
| Coords.FromString | server/chess.hpp:18-22 | parsing succeeds exactly when the first character is a file letter a–h and the second a rank digit 1–8; the column is the letter's distance from 'a' and the row is '8' minus the digit |
| Coords.ToStringRoundTrip | server/chess.hpp:18-28 | every on-board square printed by to_string parses back to the same square |
| Coords.FromStringRoundTrip | server/chess.hpp:18-28 | a string that parses prints back to the same two characters |
| Pieces.NewPiece | server/chess.hpp:140 | a new piece has the requested kind and colour, has not moved and is not flagged en passant |
| Pieces.Moved | server/chess.hpp:142-145 | Piece::move and its overrides: the position becomes the target; pawns, rooks and kings record that they moved, other kinds keep the flag; kind, colour and en-passant flag unchanged |
| Grids.EmptyGrid | server/chess.hpp:100-104 | every square of the cleared board is empty |
| Grids.SetCell | server/chess.hpp:128-133 | the square holds the new piece with its position set to that square, every other square is unchanged, and position consistency is preserved |
| Grids.MoveCellsEffect | server/chess.hpp:113-120 | after move_piece the former occupant of p1 stands on p2 (marked as moved), p1 is empty, no other square changes, and consistency is preserved |
| Grids.RestoreIsIdentity | server/chess.hpp:393-403 | setting the two squares of a trial move back to their former occupants gives back exactly the original board |
| Boards.Board.constructor | server/chess.hpp:98 | a new board is 8×8 and empty |
| Boards.Board.Get | server/chess.hpp:122-126 | the occupant of the square; on a valid board its recorded position is that square, so the "Error" diagnostic never fires |
| Boards.Board.Set | server/chess.hpp:128-133 | returns the former occupant; the board becomes SetCell of the old one; every other array cell keeps its value |
| Boards.Board.SetPiece | server/chess.hpp:106-111 | returns the former occupant; the board becomes SetCell of the old one |
| Boards.Board.MovePiece | server/chess.hpp:113-120 | returns the former occupant of p2; the board becomes MoveCells of the old one |
| Boards.Board.Clear | server/chess.hpp:100-104 | the loops leave every square empty |
| Legality.PathClearAll | server/chess.hpp:197-198 | the stepping loop passes exactly when each of the squares it visits is on the board and empty |
| Legality.SlideScan | server/chess.hpp:196-199 | the loop from the square after the start up to the target visits exactly the squares strictly between them |
| Legality.Slide | server/chess.hpp:196-199 | the slide test holds exactly when nothing stands between the two squares |
| Legality.PawnStatusAsWritten | server/chess.hpp:147-174 | Pawn::valid_move as written: a status from 0 to 4, or no status where line 169 dereferences an empty square |
| Legality.PawnStatus | server/chess.hpp:147-174 | status 2 exactly for the unmoved pawn's double step over and onto empty squares; 4 exactly for a legal single step or diagonal capture onto the last rank, 1 for the same moves elsewhere; 3 exactly for a diagonal step onto an empty square of the en-passant rank with a flagged pawn behind it; 0 otherwise |
| Legality.PawnStatusAgrees | server/chess.hpp:161-171 | the corrected predicate equals the original wherever the original does not crash; the original crashes exactly on a diagonal step onto an empty square of the en-passant rank with an empty square behind it |
| Legality.PawnNullDereference | server/chess.hpp:164-169 | a white pawn on e5 stepping to f6 on an otherwise empty board reaches the null dereference |
| Legality.KnightMove | server/chess.hpp:183-186 | 1 exactly when the target is an L-shaped jump away (neither difference zero, distances summing to 3), else 0 |
| Legality.BishopMove | server/chess.hpp:193-200 | 1 exactly when the target is on a diagonal and nothing stands between, else 0 |
| Legality.RookMove | server/chess.hpp:213-220 | 1 exactly when the target is on the same rank or file and nothing stands between, else 0 |
| Legality.QueenMove | server/chess.hpp:229-238 | 1 exactly when a bishop or a rook on the queen's square could make the move |
| Legality.KingMove | server/chess.hpp:251-254 | 1 exactly when the target is at most one square away in each direction |
| Legality.ValidMove | server/chess.hpp:88 | the virtual valid_move gives a status from 0 to 4, and only a pawn gives 2 or more |
| Attack.JumpHitFinds | server/chess.hpp:482-499 | the knight and pawn loops report the kind's bit value exactly when one of the offset squares holds an enemy piece of that kind, and 0 otherwise |
| Attack.RayHitSound | server/chess.hpp:458-468 | a ray reports an attacker only when an enemy of a sliding kind stands behind empty squares, and the value is that piece's bit value |
| Attack.RayHitComplete | server/chess.hpp:458-468 | an enemy of a sliding kind behind empty squares is reported with its bit value |
| Attack.RayHitEmpty | server/chess.hpp:460-462 | a ray whose squares up to the edge are empty reports nothing |
| Attack.FirstRayHitNone | server/chess.hpp:458-468 | the loop over directions reports 0 exactly when no direction meets an attacker |
| AttackQuirks.BlindDiagonal | server/chess.hpp:445-447 | with the duplicated bishop direction, a black bishop on b2 may move to a1, yet a white king on a1 is reported safe |
| Rules.SwitchTurn | server/chess.hpp:529-535 | the other side moves, no pawn is tracked or flagged en passant, every piece keeps its square and all else is unchanged; the invariant holds |
| Rules.MoveOn | server/chess.hpp:113-120 | move_piece on the engine's board: the grid becomes MoveCells, the tracked king of the mover's colour follows a moving king, the rest is unchanged |
| Rules.MoveOnInv | server/chess.hpp:352-356 | a move keeps the invariant when the flagged pawn, if it moves, is tracked where it lands |
| Rules.MoverUnflagged | server/chess.hpp:345 | a piece of the side to move never carries the en-passant flag |
| Rules.EnPassantTracked | server/chess.hpp:364-367 | a pawn status of 3 means that the tracked en-passant pawn stands behind the target, so m_en_passant is not null there |
| Rules.DoublePushInv | server/chess.hpp:357-363 | switching the turn, then flagging and moving the pawn, keeps the invariant |
| Rules.EnPassantInv | server/chess.hpp:364-370 | removing the captured pawn and moving the capturer keeps the invariant |
| Rules.PromotionMoveInv | server/chess.hpp:371-375 | remembering the pawn and moving it to the last rank keeps the invariant |
| Rules.Perform | server/chess.hpp:352-376 | the move for the status of valid_move keeps the invariant; the turn passes except on status 4, and status 4 alone records the pending pawn |
| Rules.StepAsWritten | server/chess.hpp:352-355 | the status-1 branch as written: it fails (a write into the deleted pawn) only when the captured piece is the tracked en-passant pawn, and otherwise it is Perform |
| Rules.CoordMove | server/chess.hpp:341-376 | IDLE_MOVE exactly when the squares are equal, NO_SUCH_PIECE exactly when the start is empty, NOT_IN_TURN exactly for the opponent's piece; every error leaves the state unchanged; an accepted move or PROMOTION is Perform, with the turn passing only when accepted |
| Rules.CastlingSquares | server/chess.hpp:405-429 | the king, rook and target squares are on the board and distinct; the king lands two steps along; the rook lands on the square the king crosses, rook_position + (0, 3) or (0, -2) |
| Rules.CastlingSquaresNamed | server/chess.hpp:407-413 | the squares are the ones the source names: e1, a1, h1 for White and e8, a8, h8 for Black |
| Rules.CastlingPieces | server/chess.hpp:414-418 | ACCEPTED exactly when an unmoved king and an unmoved rook stand on their home squares; otherwise NO_SUCH_PIECE or INVALID_MOVE |
| Rules.CastlingVerdict | server/chess.hpp:414-432 | the outcome of the castling tests; ACCEPTED implies that a king and a rook stand on their home squares |
| Rules.CastlingVerdictSteps | server/chess.hpp:414-432 | the verdict is the code of the piece tests when they fail, else that of the rook-path and passage tests |
| Rules.CastlingRefused | server/chess.hpp:416-418 | a castling whose pieces are missing or have moved returns that code and changes nothing |
| Rules.Castling | server/chess.hpp:405-436 | handle_castling: every refusal leaves the state unchanged; ACCEPTED performs the king's and the rook's moves and does not switch the turn |
| Rules.CastlingInv | server/chess.hpp:405-436 | castling keeps the invariant |
| Rules.CastlingMovesKeepInv | server/chess.hpp:433-434 | the two moves of castling keep the invariant |
| Rules.CastlingMovesInv | server/chess.hpp:433-434 | the first move leaves the rook where it was, and both moves keep the invariant |
| Rules.PromotedInv | server/chess.hpp:523-525 | replacing the pending pawn by an unflagged non-king piece keeps the invariant |
| Rules.HandlePromotion | server/chess.hpp:504-527 | INVALID_MOVE exactly when no pawn is pending; INVALID_FORMAT exactly for a letter other than N, B, R or Q; both leave the state unchanged; ACCEPTED puts a new unmoved piece of that kind and the pawn's colour on the pawn's square, clears the pending pawn, keeps the turn, the en-passant square and both king trackers, and changes no other square |
| Rules.SwitchIfAccepted | server/chess.hpp:378-388 | after castling or promotion, the turn passes exactly when the result is ACCEPTED |
| Rules.EnterMove | server/chess.hpp:339-391 | the result is one of the nine codes; every negative code leaves the state unchanged; the turn passes exactly on ACCEPTED; the invariant holds |
| RuleFacts.InitialState | server/chess.hpp:280-323 | the starting position satisfies the engine's invariant |
| RuleFacts.ScanKings | server/chess.hpp:330-336 | the scan of setup(board) leaves each king tracker either unchanged or on a king of its colour |
| RuleFacts.ScanKingsFinds | server/chess.hpp:330-336 | if a king of the colour lies among the scanned squares, the tracker ends on a king of that colour |
| RuleFacts.OnlyKingFound | server/chess.hpp:330-336 | with exactly one king of a colour, the scan ends on it |
| RuleFacts.StartKings | server/chess.hpp:322-336 | in the starting position the scan finds the kings on e1 and e8 |
| RuleFacts.CoordMoveOrder | server/chess.hpp:347-351 | for the mover's own piece: SQUARE_OCCUPIED exactly for an own piece on the target; CHECK exactly when the target is free of own pieces and the king would be attacked; INVALID_MOVE, PROMOTION and ACCEPTED exactly by valid_move's status when neither applies |
| RuleFacts.PerformEffect | server/chess.hpp:352-376 | a performed move empties p1, puts the moved piece on p2 and removes a pawn taken en passant; the king tracker follows its king; all other squares are unchanged apart from en-passant flags |
| RuleFacts.DoublePushFlags | server/chess.hpp:357-363 | after a double step the opponent is to move and the pawn on its new square is flagged and tracked |
| RuleFacts.FlagLastsOneTurn | server/chess.hpp:529-535 | after any accepted move no piece of the opponent of the mover carries the en-passant flag |
| RuleFacts.PendingPromotionDoesNotBlock | server/chess.hpp:339-351 | a pending promotion pawn does not change the outcome of any coordinate move |
| RuleFacts.CaptureOfFlaggedPawn | server/chess.hpp:352-355 | in any position with White to move, a white pawn on e4 and the black pawn just flagged on d5 (as after 1.e4 d5), exd5 gets pawn status 1 and captures the tracked en-passant pawn, and the as-written step then writes into that deleted pawn |
| RuleFacts.CaptureEndsTracking | server/chess.hpp:352-355 | capturing the flagged pawn with a status-1 move leaves nothing tracked, passes the turn, and leaves the board exactly as the move made it |
| RuleFacts.CastlingPreconditions | server/chess.hpp:414-432 | castling is accepted exactly when the unmoved king and rook are on their home squares with nothing between them, and the king's square, the square it crosses and its target are unattacked |
| RuleFacts.CastlingEffect | server/chess.hpp:433-435 | castling puts the king two squares along and the rook on the square the king crossed, empties both home squares, moves the king tracker and changes nothing else |
| RuleFacts.TwoMoves | server/chess.hpp:433-434 | the two successive move_piece calls, square by square |
| RuleFacts.OpeningIdle | server/chess.hpp:341-342 | in the starting position "e2e2" is IDLE_MOVE |
| RuleFacts.OpeningEmptySquare | server/chess.hpp:343-344 | in the starting position "e4e5" (e4 empty) is NO_SUCH_PIECE |
| RuleFacts.OpeningNotInTurn | server/chess.hpp:345 | in the starting position, White to move, "e7e5" is NOT_IN_TURN |
| RuleFacts.OpeningOwnPiece | server/chess.hpp:346-347 | in the starting position "e1e2" (king onto its own pawn) is SQUARE_OCCUPIED |
| RuleFacts.OpeningNoPromotion | server/chess.hpp:385-388 | in the starting position "=Q" is INVALID_MOVE because no pawn awaits promotion |
| RuleFacts.OpeningUnreadable | server/chess.hpp:390 | in the starting position the unreadable "e9e4" is INVALID_MOVE, not INVALID_FORMAT |
| RuleFacts.OpeningCastlingBlocked | server/chess.hpp:377-384 | in the starting position "O-O" and "O-O-O" are refused with SQUARE_OCCUPIED |
| RuleFacts.OpeningKingsRookBlocked | server/chess.hpp:419 | in the starting position the h1 rook's path to the king is blocked, so "O-O" gets SQUARE_OCCUPIED |
| RuleFacts.OpeningQueensRookBlocked | server/chess.hpp:419 | in the starting position the a1 rook's path to the king is blocked, so "O-O-O" gets SQUARE_OCCUPIED |
| Engine.Chess.Setup | server/chess.hpp:280-323 | Chess::setup builds a fresh board holding the starting position with White to move and the kings tracked on e1 and e8 |
| Engine.Chess.PlacePieces | server/chess.hpp:294-317 | the placing lines put every piece of both sides on its starting square of the cleared board |
| Engine.Chess.Place | server/chess.hpp:284-292 | NEW_W_PIECE and NEW_B_PIECE place a new unmoved piece on one square and change no other |
| Engine.Chess.PlaceBackRank | server/chess.hpp:298-305 | the eight back-rank pieces of one side on their files, other rows unchanged |
| Engine.Chess.Restart | server/chess.hpp:325-337 | setup(board, turn) sets the turn, clears the pending pawns and sets the king trackers to the result of the scan |
| Engine.Chess.FindKings | server/chess.hpp:330-336 | the nested loop computes the king scan for both colours |
| Engine.Chess.Ray | server/chess.hpp:460-467 | one ray loop of under_attack returns the ray's specified hit |
| Engine.Chess.Rays | server/chess.hpp:458-480 | the loop over the four ray directions returns the first ray's hit |
| Engine.Chess.Jumps | server/chess.hpp:482-499 | the knight and pawn loops return JumpHit |
| Engine.Chess.UnderAttack | server/chess.hpp:438-502 | under_attack returns the bit value of the first attacker found on the bishop rays, rook rays, knight jumps and pawn squares, in that order, or 0 |
| Engine.Chess.MoveTracked | server/chess.hpp:353 | move_piece on the engine's board, with the king trackers following |
| Engine.Chess.Check | server/chess.hpp:393-403 | check leaves the whole state as it was and returns the attack on the mover's king after the trial move |
| Engine.Chess.TryMove | server/chess.hpp:394-402 | the set, test and restore sequence leaves the board unchanged and returns the attack on the simulated board |
| Engine.Chess.SwitchTurn | server/chess.hpp:529-535 | the new state is Rules.SwitchTurn of the old one, and the new side is returned |
| Engine.Chess.EnterMove | server/chess.hpp:339-391 | enter_move returns the code and produces the state that Rules.EnterMove gives, keeping the invariant |
| Engine.Chess.CastleKeepingValid | server/chess.hpp:378-384 | handle_castling as called from enter_move produces Rules.Castling and keeps the invariant |
| Engine.Chess.MoveByCoords | server/chess.hpp:341-376 | the coordinate branch produces exactly Rules.CoordMove |
| Engine.Chess.PerformMove | server/chess.hpp:352-376 | the four status branches produce Rules.Perform |
| Engine.Chess.StepMove | server/chess.hpp:352-356 | status 1: the move, then switchTurn |
| Engine.Chess.DoublePush | server/chess.hpp:357-363 | status 2: switchTurn, the pawn flagged and tracked, then the move |
| Engine.Chess.TakeEnPassant | server/chess.hpp:364-370 | status 3: the captured pawn removed and untracked, the move, then switchTurn |
| Engine.Chess.PromotionMove | server/chess.hpp:371-375 | status 4: the pawn recorded as pending on its target square, the move, the turn kept |
| Engine.Chess.HandleCastling | server/chess.hpp:405-436 | handle_castling produces the code and state of Rules.Castling |
| Engine.Chess.CastlingTests | server/chess.hpp:405-432 | the tests leave the state unchanged and return the castling verdict and the four squares |
| Engine.Chess.PieceTests | server/chess.hpp:414-418 | the piece tests return the code of Rules.CastlingPieces and the king and rook they read |
| Engine.Chess.CastlingPlan | server/chess.hpp:406-429 | the home squares, targets and unit step of the castling |
| Engine.Chess.PathTest | server/chess.hpp:419-432 | the rook's path test and the passage loop return the code of Rules.CastlingPath |
| Engine.Chess.HomeSquares | server/chess.hpp:406-413 | Point("e1") and the other literals give the king's and the rook's home squares |
| Engine.Chess.CastlingPair | server/chess.hpp:433-434 | the two move_piece calls produce Rules.CastlingMoves |
| Engine.Chess.PassageAttacked | server/chess.hpp:430-432 | the loop and the final test report 0 exactly when the king's square, the crossed square and the target square are unattacked |
| Engine.Chess.HandlePromotion | server/chess.hpp:504-527 | handle_promotion produces the code and state of Rules.HandlePromotion |
| Engine.Chess.Promote | server/chess.hpp:523-525 | a new piece of the chosen kind and the pawn's colour replaces the pawn, and nothing is pending |
| CInt.Unsigned | server/server.cpp:54 | the two's-complement bits of a C int, read unsigned, are below 2^32 |
| CInt.Signed | server/server.cpp:54 | reading a 32-bit pattern back as an int is the inverse of Unsigned |
| CInt.XorNatBound | server/server.cpp:54 | `^` of two n-bit numbers is an n-bit number, so the result of `^` on ints is an int |
| CInt.Xor | server/server.cpp:54 | the bits of a ^ b are the bitwise exclusive or of the bits of a and b |
| CInt.XorNatCancels | server/server.cpp:54 | `(a ^ b) ^ a == b` on naturals |
| CInt.XorNatSymmetric | server/server.cpp:54 | `^` on naturals commutes |
| CInt.XorCancels | server/server.cpp:54 | `a ^ b ^ a == b` and `a ^ b ^ b == a` on ints |
| CInt.XorCommutes | server/server.cpp:54 | `^` on ints commutes |
| Session.Broadcast | server/server.cpp:57-60 | send(response) writes the text to the first player, then to the second |
| Session.Reply | server/server.cpp:37-46 | an outcome of 0, 1 or 2 broadcasts the move; any other outcome sends "invalid move" to the mover only |
| Session.ReplyRecipients | server/server.cpp:37-46 | a rejected move is answered only to its sender; an accepted move or PROMOTION reaches both players with the move text |
| Session.Game.constructor | server/server.cpp:16 | a new game has no players and no engine yet |
| Session.Game.Add | server/server.cpp:18-20 | the descriptor is appended to the players |
| Session.Game.Setup | server/server.cpp:22-27 | the engine is set up in the starting position, "setup" goes to both players, then "your turn" to the player of the side to move |
| Session.Game.AcceptMove | server/server.cpp:29-50 | a sender who is not the player to move gets "not your turn" and nothing else changes; otherwise the engine state becomes Rules.EnterMove of the old one, the reply follows Reply, and "your turn" goes to the player to move after the move |
| Session.Game.Other | server/server.cpp:54 | for either player, other returns the opposite player |
| Session.Client.constructor | server/server.cpp:72 | the client keeps its descriptor and has no game yet |
| Session.Client.JoinGame | server/server.cpp:74-77 | the client's descriptor is appended to the game's players and the client records the game |
| Session.Server.constructor | server/server.cpp:96-99 | no client waits, and all 32 table slots are empty |
| Session.Server.OnConnect | server/server.cpp:126-146 | for a descriptor of 32 or more: "server is full" and nothing else changes. Otherwise the new client fills its slot. With no one waiting it becomes the waiting client. Otherwise both clients, the waiting one first, join a fresh game appended to the list; the slot is emptied; both receive "setup" and the newcomer gets "your turn". One slot means at most one client ever waits |
| MoveToken.SwitchColor | client/chess_gui.hpp:95 | switchColor maps WHITE to BLACK and BLACK to WHITE |
| MoveToken.SwitchColorInvolution | client/chess_gui.hpp:95 | switching twice gives back any colour code |
| MoveToken.PointToString | client/chess_gui.hpp:257-260 | the two characters are exactly what the server's to_string prints for the square at row y, column x |
| MoveToken.PointToStringParsed | client/chess_gui.hpp:257-260 | for an on-board QPoint(x, y), the server's from_string succeeds and yields row y, column x |
| MoveToken.FormMove | client/chess_gui.hpp:239-255 | "O-O" for a drag from the king's file of rank 1 or 8 two files right on the same rank, "O-O-O" for two files left, otherwise the two squares' characters |
| MoveToken.FormMoveCastling | client/chess_gui.hpp:244-250 | the token is "O-O" exactly for a king-file drag ending on the g file and "O-O-O" exactly for one ending on the c file; the answer depends only on the coordinates, never on the dragged piece; every token has 3, 4 or 5 characters |
| MoveToken.FormMoveCoordinates | client/chess_gui.hpp:251-254 | on the server, a non-castling drag between two on-board squares is the coordinate move between those same squares |
| MoveToken.FormMoveCastles | client/chess_gui.hpp:244-248 | on the server, a castling drag is castling on the side the king moves to |

## Left out

- The epoll loop, `accept`, `read`, `close`, `Server::run`, `Server::on_request` and `create_socket` (server/server.cpp:101-123, 148-167) are I/O plumbing. Writes are modelled as the outbox each operation returns; reads are not modelled.
- `Client::make_move` is only reached from `on_request`, so it is left out with it. The accessors `player1`, `player2`, `Client::game`, `Chess::turn` and `Chess::board` are read directly as fields.
- The `m_clients` entries that stay behind after a connection closes, and the uninitialised `m_game` of a waiting client, are undefined behaviour. The model's client starts with no game.
- Boards.Board.constructor: the source's `Board()` leaves the squares unset (server/chess.hpp:98). `setup` always clears them first (server/chess.hpp:280-282), so the model's board starts empty.
- `new` and `delete` are not modelled. A captured or replaced piece simply leaves its square.
- Legality.ValidMove, Rules.CoordMove, Rules.EnterMove, Engine.Chess.EnterMove, Session.Game.AcceptMove: pawns use the corrected `Legality.PawnStatus`, not `Legality.PawnStatusAsWritten`. On the Findings input (a white pawn e5→f6 with f6 and f5 empty and the king safe) the source dereferences a null pointer at server/chess.hpp:165-169 and the server dies; the model answers INVALID_MOVE, and `AcceptMove` sends "invalid move" and then "your turn".
- Rules.SwitchTurn, Rules.Perform, Engine.Chess.SwitchTurn: when a status-1 move captures the pawn `m_en_passant` points to (1.e4 d5 2.exd5), the source deletes that pawn at server/chess.hpp:355 and `switchTurn` then writes into the freed pawn (server/chess.hpp:530-531). The model instead clears the flag of the piece now on the tracked square, which is the unflagged capturer, so the board is just the move (`RuleFacts.CaptureEndsTracking`). This is the second Findings row.
- Rules.CheckSpec, Engine.Chess.Check: `under_attack` ignores kings and misses the (-1, 1) diagonal, so a king can be captured. After that, `m_kings[c]` dangles and the next `check` reads the freed king's `pos()` (server/chess.hpp:398-399). The model keeps the square where the king was captured and tests for attacks on that square.
- Session.Server.OnConnect: requires a descriptor of 0 or more. A failed `accept` returns -1, and the source would then write to `m_clients[-1]`; that case is not modelled.
- Session.Message: the terminating NUL byte that every write also sends is implied, not stored.
- Rules.HandlePromotion: `m_to_promote` is modelled as a record of the pawn on its last-rank square. If the pending pawn is captured before the letter arrives, the source reads freed memory; the model places the new piece on that square instead.
- Boards.Board.Get: the "Error" diagnostic is not modelled. Instead, the board invariant proves that it never fires.
- The static `char` buffers of `Point::to_string` and `formMove` are not modelled. The model returns fresh strings.
- `Point::operator<` is never called by the core, so it is not modelled.
- The commented-out board printer and the `ostream` output are not modelled.
- Checkmate, stalemate, draws and attacks by the enemy king are not modelled, because the source does not implement them. `under_attack` ignores kings, and the model does too.
- The Qt widgets, rendering, mouse handling, `QTcpSocket` and the widget overrides of `move_piece` and `set_piece` are not modelled.
- Coordinates and engine integers are unbounded integers. Every value they take lies in the board's small range, so no wrap-around can occur. A character written from an integer is taken modulo 256 (`Coords.ByteChar`), as the C cast is.

## Findings

| source | as written | input that shows it | evidently intended | confidence | as-written member | corrected member |
|---|---|---|---|---|---|---|
| server/chess.hpp:164-169 | a diagonal pawn step onto an empty square of the en-passant rank reads the square behind it and dereferences it without a null check | a white pawn on e5 steps to f6 while f5 is empty | an empty square behind means no en-passant capture, status 0 | high, not executed | Legality.PawnStatusAsWritten, Legality.PawnNullDereference | Legality.PawnStatus, Legality.PawnStatusAgrees |
| server/chess.hpp:352-355 | a status-1 capture deletes the captured piece even when it is the pawn `m_en_passant` points to, and `switchTurn` then calls `en_passant(false)` on the freed pawn | 1.e4 d5 2.exd5 | the captured pawn's tracking ends with it: nothing is written, and the board after the move is the move alone | high, not executed | Rules.StepAsWritten, RuleFacts.CaptureOfFlaggedPawn | Rules.Perform, RuleFacts.CaptureEndsTracking |

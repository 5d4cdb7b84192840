# A verified model of a small C chess engine

This project models the rules engine of a small chess library written in C
(`src/source/chess.c`, with the identities, enumerations and macros of
`src/chess.h`). A game is a 64-square board of signed identities. Bits 0-2 of an
identity hold the piece type and bit 3 holds the team; -1 (NONE) marks an empty
square. Next to the board the engine keeps:

- sixteen en-passant slots;
- a cached square for each king;
- a "has castled" flag per team;
- a captured-material score per team;
- the side to move.

The library's entry points are modelled:

- `chess_init` sets up the board.
- `chess_move` validates a move and applies it: an ordinary move, an en-passant
  capture, a double pawn step or a castling.
- `chess_compute_moves` lists a piece's destinations. It filters moves that
  leave the king attacked and adds the castling squares.
- `chess_status` scans the board for checked kings and available moves.
- `chess_promote_pawn`, `chess_contains_move`, `chess_index_name`,
  `chess_index_to_id`, `chess_turn`, `chess_score` and `chess_can_castle`.

Pure parts are Dafny functions and lemmas. Operations that work on the board
in place are methods. They act on `array<int>` buffers: the board, a scratch
copy of it, the en-passant slots and the move lists. The game itself is the
class `Engine.Game`. Each method is proved equal to a specification function
on the game's value (`Rules.State`), and the rules are proved about those
functions in `Laws`.

Modules, in dependency order:

| module | file | contents |
|---|---|---|
| `Pieces` | pieces.dfy | identities: team and type extraction, `CHESS_ID`, the enumerations |
| `Squares` | squares.dfy | the eight `index_*` step functions, their (rank, file) geometry, square names |
| `EnPassant` | targets.dfy | the sixteen en-passant slots: add, clear, membership |
| `Moves` | moves.dfy | pseudo-moves per piece type (`compute_moves`, `move_until_obstacle`) and their geometry |
| `Legality` | legality.dfy | attacks, `is_checked_king`, `compute_check_moves`, `eliminate_checked_moves` |
| `Castling` | castling.dfy | `compute_castling` |
| `Rules` | rules.dfy | the game value and `chess_move`, `chess_compute_moves`, `chess_status`, `chess_promote_pawn` as functions |
| `Laws` | laws.dfy | what those functions promise |
| `Engine` | engine.dfy | `chess_init` and the class `Game`, whose methods follow the `Rules` functions |

### What the code does, as written

The model follows `chess.c` wherever it and `chess.h` disagree. The header is an
older revision:

- It declares `chess_status(game, team)` returning one status, where `chess.c`
  defines `chess_status(game, out_white, out_black)` returning a bool.
- Its game struct has no `score` and no `kings_history`.
- It does not define `CHESS_WHITE` / `CHESS_BLACK`. The model takes them to be
  `CHESS_FIRST` / `CHESS_SECOND`, as the comments in `chess.c` describe.

Several behaviours differ from the rules of chess. They are modelled as the
code has them, and lemmas in `Laws` and `Moves` state them:

- `eliminate_checked_moves` never removes the last candidate, even when that
  candidate's trial leaves the king attacked (`Legality.KeptMovesExact`).
- When the mover's king is not in check, `chess_move` accepts every pseudo-move.
  It does not apply the filtering that `chess_compute_moves` uses
  (`Laws.MoveAcceptsPseudoMoves`).
- A castling keeps the turn with the side that castled (`Laws.CastleEffect`).
- A rook castling leaves the king cache naming the square the king has just
  left (`Laws.CastleEffect`).
- The "has castled" flag is set only by a castling. Moving a king or a rook
  does not set it.
- Castling ignores what stands on the partner square.
- En-passant targets do not expire when the opponent replies. A slot is
  emptied only when its pawn moves on, when a piece lands on its square, or when
  a promotion happens there. The slot of a pawn captured en passant is never
  emptied (`Laws.ExecuteEffect`, `Laws.SlotsRefreshed`).
- `chess_compute_moves` lists a rook's castling square twice, because a rook
  ignores the side argument (`Laws.RookCastlingListedTwice`).
- A pawn's en-passant diagonal can land on a piece of its own team
  (`Moves.EnPassantOntoOwnPiece`).
- When a move captures en passant and its destination also holds an opposing
  piece, both pieces leave the board. The pawn's value (1) is the only value
  scored (`Laws.ExecuteEffect`).
- `chess_status` tests `CHESS_TEAM(board[i] == CHESS_WHITE)`, which applies the
  team macro to a comparison result that is 0 or 1. Every checked king is
  therefore reported in the second team's report. The first team's report is
  only ever normal or stalemate (`Laws.StatusMeaning`).
- `chess_status` returns `CHESS_CHECKMATE` (true as a bool) without writing
  any report when a king cache is NONE (`Rules.Status`).

## Model

| member | source | states |
|---|---|---|
| Pieces.Team | src/chess.h:45 | bit 3 of the identity: the first team for identities 0-7, the second for 8-15 |
| Pieces.Type | src/chess.h:46 | the low three bits: a value in 0..7, equal to the identity for the first team and to identity-8 for the second |
| Pieces.MakeId | src/chess.h:47 | `CHESS_ID` yields an identity whose team and type decode back to its arguments, and which is never NONE |
| Pieces.MakeIdInjective | src/chess.h:45-47 | different (team, type) pairs give different identities |
| Pieces.MakeIdIsCell | src/chess.h:9-16 | the identity of a real piece type is a valid board cell |
| Pieces.CellDecodes | src/chess.h:45-47 | every non-empty valid cell is `CHESS_ID` of its own team and type |
| Pieces.NoneDecodes | src/chess.h:48 | NONE decodes to the second team and type 7, which is no piece type |
| Squares.IndexAdvance | src/source/chess.c:40-49 | `index_advance` gives NONE or a square |
| Squares.IndexAdvanceLeft | src/source/chess.c:51-67 | `index_advance_left` gives NONE or a square |
| Squares.IndexAdvanceRight | src/source/chess.c:69-85 | `index_advance_right` gives NONE or a square |
| Squares.IndexRetreatLeft | src/source/chess.c:87-103 | `index_retreat_left` gives NONE or a square |
| Squares.IndexRetreatRight | src/source/chess.c:105-121 | `index_retreat_right` gives NONE or a square |
| Squares.IndexRetreat | src/source/chess.c:123-132 | `index_retreat` gives NONE or a square |
| Squares.IndexLeft | src/source/chess.c:134-150 | `index_left` gives NONE or a square |
| Squares.IndexRight | src/source/chess.c:152-168 | `index_right` gives NONE or a square |
| Squares.Step | src/source/chess.c:40-168 | the step function of a direction gives NONE or a square |
| Squares.StepGeometry | src/source/chess.c:40-168 | each step function is a fixed (rank, file) displacement that depends on the team and gives NONE when it would leave the board |
| Squares.DisplacedSquare | src/source/chess.c:40-168 | a displaced square that exists has exactly the displaced rank and file |
| Squares.StepInverse | src/source/chess.c:40-168 | the opposite step undoes every step that stays on the board |
| Squares.RetreatUndoesAdvance | src/source/chess.c:40-132 | retreating undoes an advance, which en-passant detection relies on |
| Squares.DisplacementIsStep | src/source/chess.c:40-168 | a square at a direction's displacement is that direction's step |
| Squares.DirectionOf | src/source/chess.c:40-168 | every unit displacement is the displacement of some step function, for each team |
| Squares.StepReach | src/source/chess.c:17-35 | a step exists exactly while the reach along the direction is positive, and each step lowers the reach by one, so rays end |
| Squares.IndexName | src/source/chess.c:959-967 | `chess_index_name` fails exactly off the board and otherwise gives a file letter a-h and a rank digit 1-8 |
| Squares.NameRoundTrip | src/source/chess.c:963-965 | parsing a square's name gives the square back |
| Squares.NameInjective | src/source/chess.c:963-965 | different squares have different names |
| EnPassant.FirstSlot | src/source/chess.c:171-175 | the scan stops at the first slot holding the value, or at the end |
| EnPassant.IsEnPassantTarget | src/source/chess.c:188-195 | a square is a target exactly when some slot holds it |
| EnPassant.AddTarget | src/source/chess.c:170-177 | adding writes the square into one free slot, the first one, and changes nothing when no slot is free |
| EnPassant.ClearTarget | src/source/chess.c:179-186 | clearing empties the first slot holding the square, and changes nothing when none holds it |
| EnPassant.AddWritesFirstFree | src/source/chess.c:170-177 | adding is exactly a write of the square into the first free slot |
| EnPassant.ClearEmptiesFirstMatch | src/source/chess.c:179-186 | clearing is exactly a write of NONE into the first matching slot |
| EnPassant.ClearRemovesSingle | src/source/chess.c:179-195 | when a square occupies at most one slot, it is no longer a target after clearing |
| Moves.Landings | src/source/chess.c:303-376 | the kept targets are exactly the listed targets that are empty or hold an opposing piece |
| Moves.EnPassantTargetFromMove | src/source/chess.c:197-222 | a victim is found exactly when the move is a forward diagonal onto a square behind which an opposing pawn stands on a target square, and the victim is that square |
| Moves.EnPassantVictimBeside | src/source/chess.c:197-222 | the victim stands on the mover's rank, on an adjacent file |
| Moves.Ray | src/source/chess.c:17-35 | the squares a slide lists are on the board and no more than the reach |
| Moves.RayUnfold | src/source/chess.c:17-35 | a ray stops before an own piece, ends on an opposing piece, continues past an empty square and ends at the edge |
| Moves.RayMember | src/source/chess.c:17-35 | a square is on a ray exactly when it is reached by some number of steps past only empty squares and is available to the mover |
| Moves.Slides | src/source/chess.c:291-386 | a sliding piece's destinations are on the board, at most seven per direction |
| Moves.SlidesMember | src/source/chess.c:291-386 | a sliding piece's destinations are the union of its directions' rays |
| Moves.SlidesAvailable | src/source/chess.c:17-35 | every slide destination is empty or holds an opposing piece |
| Moves.RookMovesStraight | src/source/chess.c:297-302 | a rook's destinations share its rank or its file, and differ from its square |
| Moves.BishopMovesDiagonal | src/source/chess.c:291-296 | a bishop's destinations lie on one of its diagonals, and differ from its square |
| Moves.KnightMoves | src/source/chess.c:303-376 | at most eight knight destinations, all on the board |
| Moves.KingMoves | src/source/chess.c:387-436 | at most eight king destinations, all on the board |
| Moves.KnightMovesGeometry | src/source/chess.c:303-376 | a square is a knight destination exactly when it is a (1,2) or (2,1) jump away and is available |
| Moves.KingMovesGeometry | src/source/chess.c:387-436 | a square is a king destination exactly when it is adjacent and available |
| Moves.PawnMoves | src/source/chess.c:233-290 | at most six pawn destinations, all on the board |
| Moves.PawnCaptures | src/source/chess.c:241-287 | at most four capture entries (two ordinary, two en passant), all on the board |
| Moves.PawnMember | src/source/chess.c:233-290 | a pawn destination is the empty square ahead, a forward diagonal holding an opposing piece or capturing en passant, or from the home rank the empty square two ahead past an empty one; nothing is listed when the pawn cannot advance |
| Moves.PawnPushes | src/source/chess.c:236-270 | a pawn destination on an empty square is one rank ahead, or two ranks ahead from the home rank |
| Moves.PawnDiagonals | src/source/chess.c:241-287 | a pawn destination off its file is a forward diagonal holding an opposing piece or capturing en passant |
| Moves.PawnMovesComplete | src/source/chess.c:233-290 | each of those pawn moves is listed |
| Moves.EnPassantOntoOwnPiece | src/source/chess.c:250-257 | a concrete position in which a pawn's en-passant diagonal is a square of its own team's knight |
| Moves.PseudoMoves | src/source/chess.c:224-441 | nothing for an empty square; every destination is on the board; at most 56 destinations for a queen, 28 for other pieces and 8 for a king |
| Moves.PseudoMovesOccupancy | src/source/chess.c:224-441 | every pseudo-move lands on an empty square or an opposing piece, except a pawn's en-passant diagonal |
| Moves.ContainsMove | src/source/chess.c:443-448 | true exactly when the square is among the first `size` entries |
| Moves.MoveUntilObstacle | src/source/chess.c:17-35 | appends exactly the ray of the direction to the move buffer |
| Moves.SlideAll | src/source/chess.c:291-386 | writes exactly the union of the rays of the given directions |
| Moves.LandAll | src/source/chess.c:303-436 | writes exactly the available targets, in order |
| Moves.PawnInto | src/source/chess.c:233-290 | writes exactly the pawn's destinations |
| Moves.PawnCapturesInto | src/source/chess.c:241-287 | appends exactly the capture entries |
| Moves.ComputeMoves | src/source/chess.c:224-441 | `compute_moves` writes exactly the pseudo-moves, at most 56 |
| Legality.Attacks | src/source/chess.c:456-464 | definition: the piece on a square is of another team and its pseudo-moves contain the target (no ensures; `Legality.AttacksFrom` is proved equal to it) |
| Legality.Attacked | src/source/chess.c:455-467 | definition: some square holds such an attacker (no ensures; `Legality.AttackedAt` is proved equal to it) |
| Legality.IsCheckedKing | src/source/chess.c:450-468 | definition: the square is attacked by a team other than its occupant's (no ensures; `Legality.IsCheckedKingAt` is proved equal to it) |
| Legality.PawnAttacks | src/source/chess.c:450-468 | because the attack test uses pseudo-moves, a pawn attacks the empty square ahead of it and not an empty forward diagonal it cannot take en passant |
| Legality.Simulate | src/source/chess.c:492-494 | the trial board: the source square empties, the destination receives the mover, every other square is unchanged |
| Legality.SafeMoves | src/source/chess.c:489-506 | no more survivors than candidates, all on the board (membership in `Legality.SafeMovesMember`) |
| Legality.FilterMember | src/source/chess.c:489-506 | an entry is kept exactly when some position holding it has a passing verdict |
| Legality.FilterSubsequence | src/source/chess.c:489-506 | the kept entries keep their order |
| Legality.SafeMovesMember | src/source/chess.c:489-506 | a candidate survives exactly when its trial leaves the king unattacked |
| Legality.SafeMovesSubsequence | src/source/chess.c:489-506 | the survivors keep their order |
| Legality.CheckMoves | src/source/chess.c:470-508 | at most 56 destinations, all on the board |
| Legality.CheckMovesExact | src/source/chess.c:470-508 | `compute_check_moves` gives, in order, exactly the pseudo-moves whose trial leaves the (possibly moved) king unattacked |
| Legality.KeptMoves | src/source/chess.c:510-540 | no more than the candidates, all on the board |
| Legality.KeptMovesExact | src/source/chess.c:510-540 | the last candidate always survives, and any other candidate survives exactly when its trial keeps the king safe |
| Legality.KeptMovesKeepSafe | src/source/chess.c:510-540 | every candidate whose trial keeps the king safe survives |
| Legality.KeptUnsafeIsLast | src/source/chess.c:530-537 | a survivor whose trial leaves the king attacked is the last candidate |
| Legality.KeptMovesSubsequence | src/source/chess.c:510-540 | the survivors keep their order |
| Legality.FindMove | src/source/chess.c:443-448 | `chess_contains_move` over the array equals membership in its first `size` entries |
| Legality.AttacksFrom | src/source/chess.c:456-464 | one square of the attack scan: an opposing piece whose pseudo-moves contain the target |
| Legality.AttackedAt | src/source/chess.c:455-467 | the scan finds an attacker exactly when some opposing piece's pseudo-moves contain the square |
| Legality.IsCheckedKingAt | src/source/chess.c:450-468 | `is_checked_king` equals the specification over the board's contents |
| Legality.TrialIsChecked | src/source/chess.c:490-502 | the commit-and-rollback trial restores the scratch board and reports whether the king would be attacked |
| Legality.ComputeCheckMoves | src/source/chess.c:470-508 | the method writes exactly `CheckMoves` |
| Legality.KeepSafe | src/source/chess.c:489-506 | the trial loop writes exactly the candidates whose verdict passes, leaving the scratch board as it was |
| Legality.EliminateCheckedMoves | src/source/chess.c:510-540 | the in-place compaction leaves exactly `KeptMoves` of the original candidates in front and nothing beyond them changed |
| Legality.Compact | src/source/chess.c:516-539 | the compaction loop keeps the passing candidates before the last one, then the last one |
| Legality.ShiftDown | src/source/chess.c:532-534 | the inner loop moves the tail one place toward the front and leaves the rest alone |
| Castling.CastlingSquare | src/source/chess.c:590-710 | `compute_castling` gives NONE or a square |
| Castling.CastlingAvailable | src/source/chess.c:590-710 | castling is offered exactly for a king or rook of a team that has not castled, with the path between the two squares empty and no square of the range attacked; a king is offered its home-rank corner, a rook its king's home square |
| Castling.RookIgnoresSide | src/source/chess.c:623-675 | a rook gets the same answer whichever side is asked for |
| Castling.KingOnHomeSquare | src/source/chess.c:604-707 | a king on its home square may castle toward a corner exactly when its team has not castled, the squares in between are empty and no square from king to corner is attacked |
| Castling.RookOnCorner | src/source/chess.c:623-707 | the same for a rook on a corner, paired with the king's home square |
| Castling.EmptyBetween | src/source/chess.c:604-676 | definition: every square strictly between the bounds is empty (no ensures; `Castling.ScanEmpty` is proved equal to it) |
| Castling.RangeAttacked | src/source/chess.c:678-707 | definition: some square of the inclusive range is attacked by the other team (no ensures; `Castling.ScanAttacked` is proved equal to it) |
| Castling.ScanEmpty | src/source/chess.c:609-613 | the emptiness loop finds no piece exactly when every square strictly between the bounds is empty |
| Castling.ScanAttacked | src/source/chess.c:681-707 | the attack loop finds a hit exactly when some square of the inclusive range is attacked |
| Castling.ComputeCastling | src/source/chess.c:590-710 | the method equals `CastlingSquare` on the board's contents |
| Rules.Init | src/source/chess.c:542-588 | definition: the game `chess_init` builds (no ensures; its properties are `Rules.InitialGame` and `Rules.InitialLayout`) |
| Rules.InitialGame | src/source/chess.c:542-588 | the initial game is valid with both kings cached, the first team to move, no castling and no score, and no en-passant target |
| Rules.InitialLayout | src/source/chess.c:558-587 | the kings' caches point at their kings, pawns on ranks 2 and 7, ranks 3-6 empty, and mirrored back ranks |
| Rules.Toggle | src/source/chess.c:808-810 | the turn always changes |
| Rules.Castle | src/source/chess.c:747-758 | the castling swap puts the mover on the partner square, bans the team's castling and keeps the turn, the score and the slots |
| Rules.PawnTargets | src/source/chess.c:765-782 | the refreshed slots, sixteen of them, unchanged when the mover is not a pawn |
| Rules.Passed | src/source/chess.c:783-792 | a victim exists only for a pawn move and is the square one retreat step behind the destination |
| Rules.PassedIsPawn | src/source/chess.c:783-792 | the en-passant victim is an opposing pawn distinct from both squares, so the victim-is-king branch never runs |
| Rules.Execute | src/source/chess.c:761-817 | the source square empties, the turn passes and the castling bans stay (the full effect in `Laws.ExecuteEffect`) |
| Rules.Candidates | src/source/chess.c:738-741 | the destinations `chess_move` validates against are all on the board |
| Rules.Move | src/source/chess.c:723-819 | a rejected move leaves the game unchanged; an accepted one has two distinct on-board squares and a piece of the side to move (the branches in `Laws.MoveBranches`) |
| Rules.FreeMoves | src/source/chess.c:834-843 | at most 58 moves, all on the board |
| Rules.LegalMoves | src/source/chess.c:821-846 | at most 58 moves, all on the board (soundness and completeness in `Laws.LegalMovesSound` and `Laws.LegalMovesComplete`) |
| Rules.ScanSquare | src/source/chess.c:881-916 | one scan step: an empty square changes nothing, the first team's report is never touched, continuation can only be lost and a found move or a set report is never lost |
| Rules.Status | src/source/chess.c:859-929 | gives up exactly when a king cache is NONE (the reports' meaning in `Laws.StatusMeaning`) |
| Rules.Promote | src/source/chess.c:931-957 | the result is SUCCESS or INVALID, and INVALID leaves the game unchanged (the full effect in `Laws.PromoteEffect`) |
| Rules.PieceAt | src/source/chess.c:852-857 | NONE off the board, the square's identity on it |
| Rules.ScoreOf | src/source/chess.c:969-974 | the team's score, or 0 for a value that is not a team |
| Rules.CanCastle | src/source/chess.c:975-978 | true exactly for a team that has not castled |
| Laws.ScanFacts | src/source/chess.c:880-917 | after any prefix of the scan: the first report untouched, the second set exactly when a checked king was seen and holding the verdict on the last one, continuation exactly when no checked king lacked moves, a move found exactly when a movable piece precedes any mate |
| Laws.ReportFacts | src/source/chess.c:869-928 | the final report in terms of the per-square flags |
| Laws.StatusMeaning | src/source/chess.c:859-929 | with both kings cached: stalemate exactly when no piece moves and no king is checked; true exactly when every checked king has a move and some piece does; a checked king puts the second report to check or checkmate; checkmate only for a checked king without moves |
| Laws.ExecuteEffect | src/source/chess.c:761-817 | an ordinary move: the mover lands and leaves, the en-passant victim is removed, no other square changes, the result and score changes as the code computes them, the king cache follows a king, the turn passes, the slots change only as refreshed, and the square of a pawn taken en passant stays a target |
| Laws.MoveBranches | src/source/chess.c:723-819 | `chess_move` rejects (game unchanged) exactly on bad squares, the wrong side, or a destination that is neither castling nor a candidate; castles; or commits |
| Laws.CastleEffect | src/source/chess.c:742-759 | castling swaps the two squares, sets the team's castling flag, keeps the turn, the score and the slots, and moves only a king's cache |
| Laws.CastleOnce | src/source/chess.c:600-748 | after a castling the same team moves and cannot castle again |
| Laws.MovePreservesValid | src/source/chess.c:723-819 | every move keeps the game well formed and both kings cached |
| Laws.CastlePreservesValid | src/source/chess.c:747-759 | a castling swap keeps the game well formed and keeps both king caches on the board |
| Laws.ExecutePreservesValid | src/source/chess.c:761-817 | an ordinary move keeps the game well formed and keeps both king caches on the board |
| Laws.LegalMovesOfMover | src/source/chess.c:821-828 | only an on-board piece of the side to move has listed moves |
| Laws.LegalMovesSound | src/source/chess.c:821-846 | every listed move is a safe pseudo-move, or outside check the last pseudo-move or a castling square |
| Laws.LegalMovesComplete | src/source/chess.c:821-846 | every pseudo-move that keeps the king safe is listed |
| Laws.FreeMovesKeepKept | src/source/chess.c:834-843 | the castling squares are appended after the kept pseudo-moves |
| Laws.ListedMovesAccepted | src/source/chess.c:723-846 | every listed move to another square is accepted by `chess_move` |
| Laws.MoveAcceptsPseudoMoves | src/source/chess.c:740-761 | outside check every pseudo-move is accepted, whether or not it exposes the king |
| Laws.RookCastlingListedTwice | src/source/chess.c:836-843 | a rook's castling square ends the list twice |
| Laws.PromoteEffect | src/source/chess.c:931-957 | promotion fails (game unchanged) exactly off the board, for a pawn as new type, on a non-pawn or off the far rank; success places the new piece of the same team, changes no other square and empties the first slot that holds the square |
| Engine.FillNone | src/source/chess.c:554-556 | every square becomes NONE |
| Engine.PlacePawns | src/source/chess.c:560-577 | a rank of eight pawns of the team, nothing else changed |
| Engine.PlaceBackRank | src/source/chess.c:564-586 | the back-rank pieces of the team, nothing else changed |
| Engine.SetUpBoard | src/source/chess.c:554-586 | the board becomes the initial board |
| Engine.Game.constructor | src/source/chess.c:542-588 | `chess_init` gives the initial game |
| Engine.Game.AddEnPassantTarget | src/source/chess.c:170-177 | the slots become `AddTarget` of the old slots |
| Engine.Game.ClearEnPassantTarget | src/source/chess.c:179-186 | the slots become `ClearTarget` of the old slots |
| Engine.Game.Commit | src/source/chess.c:761-817 | the accepted-move branch keeps the game well formed, turns it into `Execute` of the old game and returns its result |
| Engine.Game.TakeEnPassant | src/source/chess.c:765-793 | the pawn branch refreshes the slots and removes the victim as `Execute` does |
| Engine.Game.Land | src/source/chess.c:794-816 | scoring and landing complete `Execute` |
| Engine.Game.ScoreCapture | src/source/chess.c:794-803 | the result and score as `Execute` computes them |
| Engine.Game.PlaceMover | src/source/chess.c:804-815 | board, slots, turn and king cache as `Execute` leaves them |
| Engine.Game.CastleSwap | src/source/chess.c:747-758 | the game stays well formed and becomes `Castle` of the old game |
| Engine.Game.ChessMove | src/source/chess.c:723-819 | `chess_move` keeps the game well formed, turns it into `Move` of the old game and returns its result |
| Engine.Game.ChessComputeMoves | src/source/chess.c:821-846 | `chess_compute_moves` writes exactly `LegalMoves`, at most 64 |
| Engine.Game.ListFreeMoves | src/source/chess.c:834-843 | writes exactly `FreeMoves` |
| Engine.Game.ChessStatus | src/source/chess.c:859-929 | `chess_status` returns exactly `Status` of the game |
| Engine.Game.StatusSquare | src/source/chess.c:881-916 | one square of the scan, as `ScanSquare` with that square's flags |
| Engine.Game.PromotePawn | src/source/chess.c:931-957 | `chess_promote_pawn` keeps the game well formed, turns it into `Promote` of the old game and returns its result |

## Left out

- `update_king_history` and the `kings_history` array: nothing in the modelled operations reads the history, so it is not part of the state.
- `chess_index_name` writes the name with `sprintf` into a caller's buffer. `Squares.IndexName` returns the two characters as an optional string, and the buffer and its NULL check are not modelled.
- The C integer widths: identities, squares and sizes are `signed char` in C and unbounded `int` in the model. Every identity, square and size involved stays within -2..64, so no wrap-around can occur. The type of the scores is not declared in `src/chess.h` as it stands, so the scores are unbounded integers with no modelled overflow.
- The NULL checks on the game argument and on the two status out-parameters. The model has no null game, and `chess_status` returns both reports as a value (`Rules.StatusReport`) instead of writing them through its out-parameters.
- A cached king square that is NONE makes `is_checked_king` read `board[-1]`, which is undefined behaviour in C. Every operation that consults the mover's king (`Rules.Move`, `Rules.LegalMoves`, `Engine.Game.ChessMove`, `Engine.Game.ChessComputeMoves`) therefore requires that cache to name a square. A king can leave the board only through a capture, and the model proves that every move keeps both caches on the board (`Laws.MovePreservesValid`).
- After an en-passant capture, `chess_move` clears the opposing king cache when the victim is a king. `Rules.PassedIsPawn` proves that the victim is always a pawn, so the model has no such branch.
- `chess_promote_pawn` accepts any `chess_type_t`. The model requires the new type to be a real piece type (0..5), because a larger value would make an identity outside the valid cells.
- The `no_castle` flags are `chess_bool_t` in C and `bool` in the model.
- `chess_turn` is the `turn` field of `Rules.State`, read directly, so it has no member of its own.
- Laws.LegalMovesComplete: requires the mover's king cache to hold the mover's king. Without that, `compute_check_moves` returns nothing, and the lemma would not hold.
- Concurrency and I/O: the library has none in the modelled core.

/** The game as a value: the board, the en-passant slots, the king-square cache, the
    castling bans, the scores and the side to move, and the entry points of the engine
    as functions from one game value to the next. The class in the Engine module is
    proved to follow these functions. */
module Rules {
  import opened Pieces
  import opened Squares
  import opened EnPassant
  import opened Moves
  import opened Legality
  import opened Castling

  datatype State = State(
    board: seq<int>,     // the identity on each square, or NONE
    eps: seq<int>,       // the en-passant slots
    kings: seq<int>,     // the cached king square of each team, or NONE
    noCastle: seq<bool>, // set once a team has castled
    score: seq<int>,     // the material each team has captured
    turn: TeamId)

  /** The result of an operation together with the game after it. */
  datatype Outcome = Outcome(state: State, result: int)

  /** The "illegal move or invalid arguments" result of `chess_move`. */
  const ILLEGAL: int := -2

  predicate Shaped(s: State) {
    |s.board| == 64 && |s.eps| == TARGET_SLOTS && |s.kings| == 2 && |s.noCastle| == 2 && |s.score| == 2
  }

  /** Every square holds NONE or a real identity, every cached king square and every
      en-passant slot is NONE or a square, and no score is negative. */
  predicate Valid(s: State) {
    && Shaped(s)
    && (forall i :: 0 <= i < 64 ==> IsCell(s.board[i]))
    && (forall t :: 0 <= t < 2 ==> s.kings[t] == NONE || OnBoard(s.kings[t]))
    && (forall k :: 0 <= k < TARGET_SLOTS ==> s.eps[k] == NONE || OnBoard(s.eps[k]))
    && (forall t :: 0 <= t < 2 ==> s.score[t] >= 0)
  }

  /** Both teams' kings are cached, as every rule query needs. */
  predicate KingsPresent(s: State)
    requires Shaped(s)
  {
    OnBoard(s.kings[FIRST]) && OnBoard(s.kings[SECOND])
  }

  // ---------------------------------------------------------------------------
  // chess_init

  const BackRank: seq<int> := [ROOK, KNIGHT, BISHOP, QUEEN, KING, BISHOP, KNIGHT, ROOK]

  /** The standard starting position: the first team on ranks 1-2, the second on 7-8. */
  function InitialBoard(): (b: seq<int>)
    ensures |b| == 64
  {
    seq(64, i requires 0 <= i < 64 =>
      if i < 8 then MakeId(FIRST, BackRank[i])
      else if i < 16 then MakeId(FIRST, PAWN)
      else if i < 48 then NONE
      else if i < 56 then MakeId(SECOND, PAWN)
      else MakeId(SECOND, BackRank[i - 56]))
  }

  function Init(): (s: State) {
    State(InitialBoard(), seq(TARGET_SLOTS, _ => NONE), [4, 60], [false, false], [0, 0], FIRST)
  }

  /** The initial game is valid, the first team moves, nobody has castled or scored and
      no square is an en-passant target. */
  lemma InitialGame()
    ensures var s := Init();
      && Valid(s) && KingsPresent(s) && s.turn == FIRST
      && s.noCastle == [false, false] && s.score == [0, 0]
      && (forall i :: i != NONE ==> !IsEnPassantTarget(s.eps, i))
  {
    var s := Init();
    forall i | 0 <= i < 64 ensures IsCell(s.board[i]) {
      if i < 8 {
        MakeIdIsCell(FIRST, BackRank[i]);
      } else if 56 <= i {
        MakeIdIsCell(SECOND, BackRank[i - 56]);
      }
    }
  }

  /** The starting layout: each king cache points at that team's king, the pawns fill
      ranks 2 and 7, ranks 3 to 6 are empty, and the two back ranks mirror each other. */
  lemma InitialLayout()
    ensures var b := Init().board;
      && b[Init().kings[FIRST]] == MakeId(FIRST, KING) && b[Init().kings[SECOND]] == MakeId(SECOND, KING)
      && (forall i :: 16 <= i < 48 ==> b[i] == NONE)
      && (forall i :: 8 <= i < 16 ==> b[i] == MakeId(FIRST, PAWN))
      && (forall i :: 48 <= i < 56 ==> b[i] == MakeId(SECOND, PAWN))
      && (forall f :: 0 <= f < 8 ==> b[f] == MakeId(FIRST, BackRank[f]) && b[56 + f] == MakeId(SECOND, BackRank[f]))
  {
  }

  // ---------------------------------------------------------------------------
  // chess_move

  /** `++turn > 1` wraps back to the first team. */
  function Toggle(t: TeamId): (r: TeamId)
    ensures r != t
  {
    if t + 1 > 1 then FIRST else t + 1
  }

  /** The castling square `chess_move` compares the destination with: the king-side
      answer, or the queen-side one when the king-side answer is not the destination. */
  function CastlingTarget(s: State, from: int, to: int): int
    requires Shaped(s) && OnBoard(from)
  {
    var o := CastlingSquare(s.eps, s.board, s.noCastle, from, false);
    if o != to then CastlingSquare(s.eps, s.board, s.noCastle, from, true) else o
  }

  /** The castling swap: the mover and the partner square trade places, the team loses
      its castling right, and the king cache follows only when the mover is the king. */
  function Castle(s: State, from: int, to: int): (r: State)
    requires Shaped(s) && OnBoard(from) && OnBoard(to)
    ensures Shaped(r) && r.board[to] == s.board[from]
    ensures r.noCastle[Team(s.board[from])] && r.turn == s.turn && r.score == s.score && r.eps == s.eps
  {
    var id := s.board[from];
    var team := Team(id);
    s.(board := s.board[to := id][from := s.board[to]],
       noCastle := s.noCastle[team := true],
       kings := if Type(id) == KING then s.kings[team := to] else s.kings)
  }

  /** A pawn double step: two ranks forward from the pawn's point of view. */
  predicate DoubleStep(team: TeamId, from: int, to: int) {
    (team == FIRST && from == to - 16) || (team == SECOND && from == to + 16)
  }

  /** The en-passant slots after a pawn leaves `from`, before the landing is recorded. */
  function PawnTargets(s: State, from: int, to: int): (r: seq<int>)
    requires Shaped(s) && OnBoard(from)
    ensures |r| == TARGET_SLOTS
    ensures Type(s.board[from]) != PAWN ==> r == s.eps
  {
    var id := s.board[from];
    if Type(id) != PAWN then s.eps
    else
      var cleared := ClearTarget(s.eps, from);
      if DoubleStep(Team(id), from, to) then AddTarget(cleared, to) else cleared
  }

  /** The pawn a move captures en passant, or NONE. */
  function Passed(s: State, from: int, to: int): (v: int)
    requires Shaped(s) && OnBoard(from)
    ensures v != NONE ==> Type(s.board[from]) == PAWN && v == Step(Retreat, Team(s.board[from]), to)
  {
    if Type(s.board[from]) == PAWN then EnPassantTargetFromMove(PawnTargets(s, from, to), s.board, from, to)
    else NONE
  }

  /** The en-passant victim is an opposing pawn beside the mover; in particular it is
      never a king, so the source's clearing of the victim team's king cache after an
      en-passant capture never takes effect. */
  lemma PassedIsPawn(s: State, from: int, to: int)
    requires Shaped(s) && OnBoard(from)
    ensures var v := Passed(s, from, to);
      v != NONE ==>
        (&& OnBoard(v) && s.board[v] != NONE && Type(s.board[v]) == PAWN
         && Team(s.board[v]) != Team(s.board[from]) && v != from && v != to)
  {
    var v := Passed(s, from, to);
    if v != NONE {
      EnPassantVictimBeside(PawnTargets(s, from, to), s.board, from, to);
      var team := Team(s.board[from]);
      StepGeometry(Retreat, team, to);
    }
  }

  /** Commits an accepted ordinary move: the en-passant victim leaves its square, the
      victim's value is added to the mover's score, the mover lands on `to` and leaves
      `from`, the en-passant slots are refreshed, the turn passes and the king cache
      follows a king. The result is the victim square, or NONE. */
  function Execute(s: State, from: int, to: int): (o: Outcome)
    requires Valid(s) && OnBoard(from) && OnBoard(to)
    ensures Shaped(o.state) && o.state.board[from] == NONE
    ensures o.state.turn != s.turn && o.state.noCastle == s.noCastle
  {
    var id := s.board[from];
    var team := Team(id);
    var eps1 := PawnTargets(s, from, to);
    var added := Type(id) == PAWN && DoubleStep(team, from, to);
    var v := Passed(s, from, to);
    assert v != NONE ==> OnBoard(v);
    var board1 := if v != NONE then s.board[v := NONE] else s.board;
    PassedIsPawn(s, from, to);
    var gain1 := if v != NONE then Scoring[Type(s.board[v])] else 0;
    var result := if board1[to] != NONE && Team(board1[to]) != team then to else v;
    assert result != NONE ==> OnBoard(result);
    var gain := if result != NONE && gain1 == 0 && board1[result] != NONE then Scoring[Type(board1[result])] else gain1;
    var score := if result != NONE then s.score[team := s.score[team] + gain] else s.score;
    var board2 := board1[to := board1[from]];
    var eps2 := if !added && board2[to] != NONE then ClearTarget(eps1, to) else eps1;
    var kings2 := if Type(id) == KING then s.kings[team := to] else s.kings;
    Outcome(State(board2[from := NONE], eps2, kings2, s.noCastle, score, Toggle(s.turn)), result)
  }

  /** The move is a castling: the arguments pass the guards, the king is not in check,
      and the destination is the piece's castling square. */
  predicate IsCastling(s: State, from: int, to: int)
    requires Valid(s) && OnBoard(s.kings[s.turn])
  {
    && OnBoard(from) && OnBoard(to) && from != to && s.turn == Team(s.board[from])
    && !IsCheckedKing(s.eps, s.board, s.kings[s.turn])
    && CastlingTarget(s, from, to) == to
  }

  /** The destinations `chess_move` validates an ordinary move against: the filtered
      moves when the king is in check, the unfiltered pseudo-moves otherwise. */
  function Candidates(s: State, from: int): (r: seq<int>)
    requires Valid(s) && OnBoard(s.kings[s.turn]) && OnBoard(from)
    ensures forall m :: m in r ==> OnBoard(m)
  {
    var king := s.kings[s.turn];
    if IsCheckedKing(s.eps, s.board, king) then CheckMoves(s.eps, s.board, from, king)
    else PseudoMoves(s.eps, s.board, from)
  }

  /** `chess_move`. */
  function Move(s: State, from: int, to: int): (o: Outcome)
    requires Valid(s) && OnBoard(s.kings[s.turn])
    ensures o.result == ILLEGAL ==> o.state == s
    ensures o.result != ILLEGAL ==> OnBoard(from) && OnBoard(to) && from != to && Team(s.board[from]) == s.turn
  {
    if !OnBoard(from) || !OnBoard(to) || from == to then Outcome(s, ILLEGAL)
    else if s.turn != Team(s.board[from]) then Outcome(s, ILLEGAL)
    else if IsCastling(s, from, to) then Outcome(Castle(s, from, to), NONE)
    else if to in Candidates(s, from) then Execute(s, from, to)
    else Outcome(s, ILLEGAL)
  }

  // ---------------------------------------------------------------------------
  // chess_compute_moves

  lemma PseudoMovesAllOnBoard(eps: seq<int>, b: seq<int>, index: int)
    requires IsBoard(b) && OnBoard(index)
    ensures AllOnBoard(PseudoMoves(eps, b, index))
  {
    var ms := PseudoMoves(eps, b, index);
    forall k | 0 <= k < |ms| ensures OnBoard(ms[k]) {
      assert ms[k] in ms;
    }
  }

  /** The eliminated candidates followed by the castling squares found king-side and
      then queen-side: the moves `chess_compute_moves` lists outside check. */
  function FreeMoves(s: State, index: int, king: int): (r: seq<int>)
    requires Shaped(s) && OnBoard(index) && OnBoard(king)
    ensures |r| <= 58 && forall m :: m in r ==> OnBoard(m)
  {
    PseudoMovesAllOnBoard(s.eps, s.board, index);
    var ms := KeptMoves(s.eps, s.board, index, king, PseudoMoves(s.eps, s.board, index));
    var c0 := CastlingSquare(s.eps, s.board, s.noCastle, index, false);
    var ms1 := if c0 != NONE then ms + [c0] else ms;
    var c1 := CastlingSquare(s.eps, s.board, s.noCastle, index, true);
    if c1 != NONE then ms1 + [c1] else ms1
  }

  /** `chess_compute_moves`: nothing off the board or for a piece not of the side to
      move; the filtered moves in check; otherwise the eliminated pseudo-moves followed
      by the castling squares. */
  function LegalMoves(s: State, index: int): (r: seq<int>)
    requires Valid(s) && OnBoard(s.kings[s.turn])
    ensures |r| <= 58 && forall m :: m in r ==> OnBoard(m)
  {
    if !OnBoard(index) then []
    else if s.turn != Team(s.board[index]) then []
    else
      var king := s.kings[s.turn];
      if IsCheckedKing(s.eps, s.board, king) then CheckMoves(s.eps, s.board, index, king)
      else FreeMoves(s, index, king)
  }

  // ---------------------------------------------------------------------------
  // chess_status

  /** The running state of the status scan: the two reports, whether a move was found,
      whether a report was written for each team, and whether play can continue. */
  datatype Scan = Scan(white: int, black: int, hasMove: bool, setWhite: bool, setBlack: bool, canContinue: bool)

  /** The answer of `chess_status`: when a king cache is empty it returns early with a
      true result and writes no report. */
  datatype StatusReport = KingMissing | Report(ok: bool, white: int, black: int)

  /** The square holds a king that is attacked. */
  predicate CheckedKingAt(s: State, i: int)
    requires Shaped(s) && OnBoard(i)
  {
    s.board[i] != NONE && Type(s.board[i]) == KING && IsCheckedKing(s.eps, s.board, i)
  }

  predicate HasMovesAt(s: State, i: int)
    requires Valid(s) && KingsPresent(s) && OnBoard(i)
  {
    LegalMoves(s, i) != []
  }

  /** One square of the scan. The team test of the source applies the team extraction
      to the result of a comparison, which is 0 or 1 and so never has bit 3 set: every
      checked king is reported in the second team's report. */
  function ScanSquare(a: Scan, occupied: bool, checkedKing: bool, moves: bool): (r: Scan)
    ensures !occupied ==> r == a
    ensures r.white == a.white && r.setWhite == a.setWhite
    ensures (r.canContinue ==> a.canContinue) && (a.hasMove ==> r.hasMove) && (a.setBlack ==> r.setBlack)
  {
    if !occupied then a
    else
      var a1 :=
        if !checkedKing then a
        else if !moves then a.(black := CHECKMATE, canContinue := false, setBlack := true)
        else a.(black := CHECK, setBlack := true);
      if a1.canContinue && moves then a1.(hasMove := true) else a1
  }

  const Start: Scan := Scan(NORMAL, NORMAL, false, false, false, true)

  /** The scan over the first `n` squares, each described by three flags: occupied, a
      checked king, has moves. */
  function ScanOf(occ: seq<bool>, chk: seq<bool>, mv: seq<bool>, n: nat): (a: Scan)
    requires n <= |occ| == |chk| == |mv|
  {
    if n == 0 then Start
    else ScanSquare(ScanOf(occ, chk, mv, n - 1), occ[n - 1], chk[n - 1], mv[n - 1])
  }

  function Occupied(s: State): (r: seq<bool>)
    requires Shaped(s)
    ensures |r| == 64
  {
    seq(64, i requires 0 <= i < 64 => s.board[i] != NONE)
  }

  function CheckedKings(s: State): (r: seq<bool>)
    requires Shaped(s)
    ensures |r| == 64
  {
    seq(64, i requires 0 <= i < 64 => CheckedKingAt(s, i))
  }

  function Movable(s: State): (r: seq<bool>)
    requires Valid(s) && KingsPresent(s)
    ensures |r| == 64
  {
    seq(64, i requires 0 <= i < 64 => HasMovesAt(s, i))
  }

  function Finish(a: Scan): StatusReport {
    if !a.hasMove && !a.setWhite && !a.setBlack then Report(false, STALEMATE, STALEMATE)
    else Report(a.canContinue, a.white, a.black)
  }

  /** `chess_status`. */
  function Status(s: State): (r: StatusReport)
    requires Valid(s)
    ensures r.KingMissing? <==> s.kings[FIRST] == NONE || s.kings[SECOND] == NONE
  {
    if s.kings[FIRST] == NONE || s.kings[SECOND] == NONE then KingMissing
    else Finish(ScanOf(Occupied(s), CheckedKings(s), Movable(s), 64))
  }

  // ---------------------------------------------------------------------------
  // chess_promote_pawn

  /** `chess_promote_pawn`: a pawn on the far rank of its team becomes a piece of type
      `newType` of the same team, and the square leaves the en-passant set. */
  function Promote(s: State, index: int, newType: int): (o: Outcome)
    requires Valid(s) && IsType(newType)
    ensures o.result == SUCCESS || o.result == INVALID
    ensures o.result == INVALID ==> o.state == s
  {
    if !OnBoard(index) || newType == PAWN then Outcome(s, INVALID)
    else
      var id := s.board[index];
      var team := Team(id);
      if Type(id) != PAWN then Outcome(s, INVALID)
      else if team == FIRST && index < 56 then Outcome(s, INVALID)
      else if team == SECOND && index >= 8 then Outcome(s, INVALID)
      else Outcome(s.(eps := ClearTarget(s.eps, index), board := s.board[index := MakeId(team, newType)]), SUCCESS)
  }

  // ---------------------------------------------------------------------------
  // Accessors

  /** `chess_index_to_id`. */
  function PieceAt(s: State, index: int): (id: int)
    requires Shaped(s)
    ensures !OnBoard(index) ==> id == NONE
    ensures OnBoard(index) ==> id == s.board[index]
  {
    if index < 0 || index > 63 then NONE else s.board[index]
  }

  /** `chess_score`: zero for a value that is not a team. */
  function ScoreOf(s: State, team: int): (r: int)
    requires Shaped(s)
    ensures (team == FIRST || team == SECOND) ==> r == s.score[team]
    ensures !(team == FIRST || team == SECOND) ==> r == 0
  {
    if team < 0 || team > 1 then 0 else s.score[team]
  }

  /** `chess_can_castle`: false for a value that is not a team. */
  function CanCastle(s: State, team: int): (r: bool)
    requires Shaped(s)
    ensures r <==> (team == FIRST || team == SECOND) && !s.noCastle[team]
  {
    if team < 0 || team > 1 then false else !s.noCastle[team]
  }
}

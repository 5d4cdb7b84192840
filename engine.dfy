/** The game record the engine mutates in place: the board and the en-passant slots are
    fixed-size buffers, the two-entry king cache, castling bans and scores are fields
    that the operations reassign. Every operation is proved to take the game from
    `Snapshot()` to the state the corresponding function of the Rules module gives. */
module Engine {
  import opened Pieces
  import opened Squares
  import opened EnPassant
  import opened Moves
  import opened Legality
  import opened Castling
  import opened Rules
  import opened Laws

  /** Empties every entry of a buffer. */
  method FillNone(a: array<int>)
    modifies a
    ensures forall j :: 0 <= j < a.Length ==> a[j] == NONE
  {
    for i := 0 to a.Length
      invariant forall j :: 0 <= j < i ==> a[j] == NONE
    {
      a[i] := NONE;
    }
  }

  /** Fills the eight squares from `base` with pawns of `team`. */
  method PlacePawns(b: array<int>, base: int, team: TeamId)
    requires 0 <= base && base + 8 <= b.Length
    modifies b
    ensures forall j :: 0 <= j < b.Length ==> b[j] == if base <= j < base + 8 then MakeId(team, PAWN) else old(b[j])
  {
    for i := 0 to 8
      invariant forall j :: 0 <= j < b.Length ==> b[j] == if base <= j < base + i then MakeId(team, PAWN) else old(b[j])
    {
      b[base + i] := MakeId(team, PAWN);
    }
  }

  /** Puts the pieces of `team` on the eight squares from `base`, in back-rank order. */
  method PlaceBackRank(b: array<int>, base: int, team: TeamId)
    requires 0 <= base && base + 8 <= b.Length
    modifies b
    ensures forall j :: 0 <= j < b.Length ==> b[j] == if base <= j < base + 8 then MakeId(team, BackRank[j - base]) else old(b[j])
  {
    b[base] := MakeId(team, ROOK);
    b[base + 1] := MakeId(team, KNIGHT);
    b[base + 2] := MakeId(team, BISHOP);
    b[base + 3] := MakeId(team, QUEEN);
    b[base + 4] := MakeId(team, KING);
    b[base + 5] := MakeId(team, BISHOP);
    b[base + 6] := MakeId(team, KNIGHT);
    b[base + 7] := MakeId(team, ROOK);
  }

  /** The board part of `chess_init`: everything empty, then the pawn ranks and the back
      ranks of both teams. */
  method SetUpBoard(b: array<int>)
    requires b.Length == 64
    modifies b
    ensures b[..] == InitialBoard()
  {
    FillNone(b);
    PlacePawns(b, 8, FIRST);
    PlaceBackRank(b, 0, FIRST);
    PlacePawns(b, 48, SECOND);
    PlaceBackRank(b, 56, SECOND);
    assert forall j :: 0 <= j < 64 ==> b[j] == InitialBoard()[j];
  }

  class Game {
    var board: array<int>
    var eps: array<int>
    var kings: seq<int>
    var noCastle: seq<bool>
    var score: seq<int>
    var turn: TeamId

    /** The game as a value. */
    function Snapshot(): State
      reads this, board, eps
    {
      State(board[..], eps[..], kings, noCastle, score, turn)
    }

    ghost predicate Valid()
      reads this, board, eps
    {
      board.Length == 64 && eps.Length == TARGET_SLOTS && board != eps && Rules.Valid(Snapshot())
    }

    /** `chess_init`: every slot empty, the pieces in their starting squares, the kings
        cached on e1 and e8, no castling yet, no score, the first team to move. */
    constructor ()
      ensures Valid() && Snapshot() == Init()
      ensures fresh(board) && fresh(eps)
    {
      turn := FIRST;
      score := [0, 0];
      noCastle := [false, false];
      var e := new int[TARGET_SLOTS];
      FillNone(e);
      var b := new int[64];
      SetUpBoard(b);
      assert e[..] == seq(TARGET_SLOTS, _ => NONE);
      board := b;
      eps := e;
      kings := [4, 60];
      InitialGame();
    }

    /** `add_en_passant_target`: the first free slot receives `index`. */
    method AddEnPassantTarget(index: int)
      requires eps.Length == TARGET_SLOTS
      modifies eps
      ensures eps[..] == AddTarget(old(eps[..]), index)
    {
      ghost var slots := eps[..];
      for i := 0 to TARGET_SLOTS
        invariant eps[..] == slots
        invariant forall j :: 0 <= j < i ==> slots[j] != NONE
      {
        if eps[i] == NONE {
          AddWritesFirstFree(slots, index, i);
          eps[i] := index;
          return;
        }
      }
    }

    /** `clear_en_passant_target`: the first slot holding `index` is emptied. */
    method ClearEnPassantTarget(index: int)
      requires eps.Length == TARGET_SLOTS
      modifies eps
      ensures eps[..] == ClearTarget(old(eps[..]), index)
    {
      ghost var slots := eps[..];
      for i := 0 to TARGET_SLOTS
        invariant eps[..] == slots
        invariant forall j :: 0 <= j < i ==> slots[j] != index
      {
        if eps[i] == index {
          ClearEmptiesFirstMatch(slots, index, i);
          eps[i] := NONE;
          return;
        }
      }
    }

    /** The commit part of `chess_move` for an accepted ordinary move. */
    method Commit(from: int, to: int) returns (result: int)
      requires Valid() && OnBoard(from) && OnBoard(to) && from != to
      modifies this, board, eps
      ensures board == old(board) && eps == old(eps)
      ensures Valid() && Snapshot() == Execute(old(Snapshot()), from, to).state
      ensures result == Execute(old(Snapshot()), from, to).result
    {
      ghost var s := Snapshot();
      var added, gain, victim := TakeEnPassant(from, to);
      result := Land(s, from, to, added, gain, victim);
      ExecutePreservesValid(s, from, to);
    }

    /** The pawn part of the commit: the slot of `from` is cleared, a double step records
        `to`, and a pawn taken en passant leaves the board and is scored. The source also
        clears the victim team's king cache when that victim is a king; the victim is
        always a pawn (Rules.PassedIsPawn), so that step is left out. */
    method TakeEnPassant(from: int, to: int) returns (added: bool, gain: int, victim: int)
      requires Valid() && OnBoard(from) && OnBoard(to)
      modifies board, eps
      ensures var s, v := old(Snapshot()), Passed(old(Snapshot()), from, to);
        && eps[..] == PawnTargets(s, from, to)
        && board[..] == (if v != NONE then s.board[v := NONE] else s.board)
        && gain == (if v != NONE then Scoring[Type(s.board[v])] else 0)
        && victim == v
        && added == (Type(s.board[from]) == PAWN && DoubleStep(Team(s.board[from]), from, to))
    {
      ghost var s := Snapshot();
      var id := board[from];
      var team := Team(id);
      added, gain, victim := false, 0, NONE;
      if Type(id) == PAWN {
        ClearEnPassantTarget(from);
        if team == FIRST {
          if from == to - 16 {
            AddEnPassantTarget(to);
            added := true;
          }
        } else if team == SECOND {
          if from == to + 16 {
            AddEnPassantTarget(to);
            added := true;
          }
        }
        assert eps[..] == PawnTargets(s, from, to);
        var attack := EnPassantTargetFromMove(eps[..], board[..], from, to);
        PassedIsPawn(s, from, to);
        if attack != NONE {
          gain := Scoring[Type(board[attack])];
          board[attack] := NONE;
          victim := attack;
        }
      }
    }

    /** The rest of the commit, on the board the pawn part left: the capture is scored,
        then the mover lands. */
    method Land(ghost s: State, from: int, to: int, added: bool, gain0: int, victim: int) returns (result: int)
      requires board.Length == 64 && eps.Length == TARGET_SLOTS && board != eps
      requires Rules.Valid(s) && OnBoard(from) && OnBoard(to) && from != to
      requires var v := Passed(s, from, to);
        && eps[..] == PawnTargets(s, from, to)
        && board[..] == (if v != NONE then s.board[v := NONE] else s.board)
        && gain0 == (if v != NONE then Scoring[Type(s.board[v])] else 0)
        && victim == v
        && added == (Type(s.board[from]) == PAWN && DoubleStep(Team(s.board[from]), from, to))
      requires kings == s.kings && noCastle == s.noCastle && score == s.score && turn == s.turn
      modifies this, board, eps
      ensures board == old(board) && eps == old(eps)
      ensures Snapshot() == Execute(s, from, to).state
      ensures result == Execute(s, from, to).result
    {
      result := ScoreCapture(s, from, to, gain0, victim);
      PlaceMover(s, from, to, added);
    }

    /** The capture on `to`, if `to` holds an opposing piece, takes over the result; the
        value of the first capture found is added to the mover's score. */
    method ScoreCapture(ghost s: State, from: int, to: int, gain0: int, victim: int) returns (result: int)
      requires board.Length == 64
      requires Rules.Valid(s) && OnBoard(from) && OnBoard(to) && from != to
      requires var v := Passed(s, from, to);
        && board[..] == (if v != NONE then s.board[v := NONE] else s.board)
        && gain0 == (if v != NONE then Scoring[Type(s.board[v])] else 0)
        && victim == v
      requires score == s.score
      modifies this
      ensures board == old(board) && eps == old(eps) && kings == old(kings)
      ensures noCastle == old(noCastle) && turn == old(turn)
      ensures result == Execute(s, from, to).result && score == Execute(s, from, to).state.score
    {
      ExecuteEffect(s, from, to);
      var team := Team(board[from]);
      var gain := gain0;
      result := victim;
      if board[to] != NONE && Team(board[to]) != team {
        result := to;
      }
      if result != NONE {
        if gain == 0 && board[result] != NONE {
          gain := Scoring[Type(board[result])];
        }
        score := score[team := score[team] + gain];
      }
      ghost var t := Execute(s, from, to).state;
      assert score[team] == t.score[team] && score[1 - team] == t.score[1 - team];
    }

    /** The mover lands on `to`, the slot of `to` is cleared unless the move recorded it,
        the turn passes, the king cache follows a king, and `from` is emptied. */
    method PlaceMover(ghost s: State, from: int, to: int, added: bool)
      requires board.Length == 64 && eps.Length == TARGET_SLOTS && board != eps
      requires Rules.Valid(s) && OnBoard(from) && OnBoard(to) && from != to
      requires var v := Passed(s, from, to);
        && eps[..] == PawnTargets(s, from, to)
        && board[..] == (if v != NONE then s.board[v := NONE] else s.board)
        && added == (Type(s.board[from]) == PAWN && DoubleStep(Team(s.board[from]), from, to))
      requires kings == s.kings && noCastle == s.noCastle && turn == s.turn
      modifies this, board, eps
      ensures board == old(board) && eps == old(eps) && score == old(score)
      ensures var t := Execute(s, from, to).state;
        && board[..] == t.board && eps[..] == t.eps
        && kings == t.kings && noCastle == t.noCastle && turn == t.turn
    {
      PassedIsPawn(s, from, to);
      var id := board[from];
      var team := Team(id);
      board[to] := board[from];
      if !added && board[to] != NONE {
        ClearEnPassantTarget(to);
      }
      var next := turn + 1;
      if next > 1 {
        next := 0;
      }
      turn := next;
      if Type(id) == KING {
        kings := kings[team := to];
      }
      board[from] := NONE;
    }

    /** The castling swap of `chess_move`: the team's castling ban is set, the mover and
        the piece on `to` trade squares, and the king cache follows a king. */
    method CastleSwap(from: int, to: int)
      requires Valid() && OnBoard(from) && OnBoard(to)
      modifies this, board
      ensures board == old(board) && eps == old(eps)
      ensures Valid() && Snapshot() == Castle(old(Snapshot()), from, to)
    {
      CastlePreservesValid(Snapshot(), from, to);
      var id := board[from];
      var team := Team(id);
      noCastle := noCastle[team := true];
      var otherId := board[to];
      board[to] := board[from];
      board[from] := otherId;
      if Type(id) == KING {
        kings := kings[team := to];
      }
    }

    /** `chess_move`: rejects the move with ILLEGAL, castles (result NONE, same side to
        move), or commits an ordinary move and returns the captured square or NONE. */
    method ChessMove(from: int, to: int) returns (result: int)
      requires Valid() && OnBoard(kings[turn])
      modifies this, board, eps
      ensures board == old(board) && eps == old(eps)
      ensures Valid() && Snapshot() == Move(old(Snapshot()), from, to).state
      ensures result == Move(old(Snapshot()), from, to).result
    {
      ghost var s := Snapshot();
      if from < 0 || from > 63 || to < 0 || to > 63 || from == to {
        return ILLEGAL;
      }
      var id := board[from];
      var ty := Type(id);
      var team := Team(id);
      if turn != team {
        return ILLEGAL;
      }
      var tmpMoves := new int[64];
      var size: nat;
      var other := NONE;
      var king := kings[team];
      var checked := IsCheckedKingAt(eps, board, king);
      if checked {
        size := ComputeCheckMoves(eps, board, from, king, tmpMoves);
      } else {
        size := ComputeMoves(eps, board, from, tmpMoves);
        other := ComputeCastling(eps, board, noCastle, from, false);
        if other != to {
          other := ComputeCastling(eps, board, noCastle, from, true);
        }
        if other == to {
          assert IsCastling(s, from, to);
          CastleSwap(from, to);
          return NONE;
        }
      }
      assert !IsCastling(s, from, to);
      assert tmpMoves[..size] == Candidates(s, from);
      var found := FindMove(tmpMoves, size, to);
      if !found {
        assert Move(s, from, to) == Outcome(s, ILLEGAL);
        return ILLEGAL;
      }
      assert Move(s, from, to) == Execute(s, from, to);
      result := Commit(from, to);
    }

    /** `chess_compute_moves`: writes the listed moves of the piece on `index` into
        `out` and returns their number. */
    method ChessComputeMoves(index: int, out: array<int>) returns (size: nat)
      requires Valid() && OnBoard(kings[turn])
      requires out.Length >= 64 && out != board && out != eps
      modifies out
      ensures size <= 64
      ensures out[..size] == LegalMoves(Snapshot(), index)
    {
      ghost var s := Snapshot();
      if index < 0 || index > 63 {
        return 0;
      }
      var id := board[index];
      if turn != Team(id) {
        return 0;
      }
      var king := kings[Team(id)];
      var checked := IsCheckedKingAt(eps, board, king);
      if checked {
        size := ComputeCheckMoves(eps, board, index, king, out);
      } else {
        size := ListFreeMoves(index, king, out);
      }
    }

    /** The listing outside check: the pseudo-moves, the elimination, then the king-side
        and the queen-side castling squares when they are offered. */
    method ListFreeMoves(index: int, king: int, out: array<int>) returns (size: nat)
      requires Valid() && OnBoard(index) && OnBoard(king)
      requires out.Length >= 64 && out != board && out != eps
      modifies out
      ensures size <= 58
      ensures out[..size] == FreeMoves(Snapshot(), index, king)
    {
      size := ComputeMoves(eps, board, index, out);
      PseudoMovesAllOnBoard(eps[..], board[..], index);
      size := EliminateCheckedMoves(eps, board, index, king, out, size);
      var c := ComputeCastling(eps, board, noCastle, index, false);
      size := PushIf(c != NONE, c, out, size);
      c := ComputeCastling(eps, board, noCastle, index, true);
      size := PushIf(c != NONE, c, out, size);
    }

    /** `chess_status`: the report over all squares, or KingMissing when a king cache is
        empty. The source compares the identity with the first team before extracting
        the team, so its first-team branches are never taken; the scan below goes
        straight to the second team's report. */
    method ChessStatus() returns (r: StatusReport)
      requires Valid()
      ensures r == Status(Snapshot())
    {
      ghost var s := Snapshot();
      if kings[FIRST] == NONE {
        return KingMissing;
      }
      if kings[SECOND] == NONE {
        return KingMissing;
      }
      var a := Start;
      var moves := new int[64];
      for i := 0 to 64
        invariant a == ScanOf(Occupied(s), CheckedKings(s), Movable(s), i)
      {
        a := StatusSquare(i, moves, a);
      }
      if !a.hasMove && !a.setWhite && !a.setBlack {
        a := a.(canContinue := false, white := STALEMATE, black := STALEMATE);
      }
      return Report(a.canContinue, a.white, a.black);
    }

    /** One square of the `chess_status` scan: a checked king sets the second team's
        report to checkmate (and ends the search for moves) when it has no move, to
        check otherwise; then a piece with moves is noted while play can continue. */
    method StatusSquare(i: int, moves: array<int>, a: Scan) returns (r: Scan)
      requires Valid() && KingsPresent(Snapshot()) && OnBoard(i)
      requires moves.Length >= 64 && moves != board && moves != eps
      modifies moves
      ensures r == ScanSquare(a, board[i] != NONE, CheckedKingAt(Snapshot(), i), HasMovesAt(Snapshot(), i))
    {
      r := a;
      if board[i] != NONE {
        if KING == Type(board[i]) {
          var checked := IsCheckedKingAt(eps, board, i);
          if checked {
            var n := ChessComputeMoves(i, moves);
            if n == 0 {
              r := r.(black := CHECKMATE, canContinue := false, setBlack := true);
            } else {
              r := r.(black := CHECK, setBlack := true);
            }
          }
        }
        if r.canContinue {
          var n := ChessComputeMoves(i, moves);
          if n != 0 {
            r := r.(hasMove := true);
          }
        }
      }
    }

    /** `chess_promote_pawn`. */
    method PromotePawn(index: int, newType: int) returns (r: int)
      requires Valid() && IsType(newType)
      modifies board, eps
      ensures Valid() && Snapshot() == Promote(old(Snapshot()), index, newType).state
      ensures r == Promote(old(Snapshot()), index, newType).result
    {
      PromoteEffect(Snapshot(), index, newType);
      if index < 0 || index > 63 || newType == PAWN {
        return INVALID;
      }
      var id := board[index];
      var team := Team(id);
      if Type(id) != PAWN {
        return INVALID;
      }
      if team == FIRST {
        if index < 56 {
          return INVALID;
        }
      } else {
        if index >= 8 {
          return INVALID;
        }
      }
      ClearEnPassantTarget(index);
      board[index] := MakeId(team, newType);
      return SUCCESS;
    }
  }
}

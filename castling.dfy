/** Castling evaluation. A king castles toward a corner square of its home rank, a rook
    toward its team's king home square; the piece on the partner square is never
    examined. The path strictly between the two squares must be empty and no square of
    the inclusive range between them may be reached by a pseudo-move of the other team. */
module Castling {
  import opened Pieces
  import opened Squares
  import opened Moves
  import opened Legality

  /** The square a king is paired with: a corner of its home rank. */
  function KingPartner(team: TeamId, queenSide: bool): int {
    if team == FIRST then (if queenSide then 0 else 7)
    else (if queenSide then 56 else 63)
  }

  /** The square a rook is paired with: its team's king home square. */
  function RookPartner(team: TeamId): int {
    if team == FIRST then 4 else 60
  }

  /** The corner whose rook castles queen-side. */
  function QueenCorner(team: TeamId): int {
    if team == FIRST then 0 else 56
  }

  function Partner(team: TeamId, ty: int, queenSide: bool): int {
    if ty == KING then KingPartner(team, queenSide) else RookPartner(team)
  }

  /** The exclusive bounds of the emptiness scan, in the order the source scans them; a
      scan whose lower bound is not below its upper bound is empty. */
  function PathLow(team: TeamId, ty: int, index: int, queenSide: bool): int {
    var other := Partner(team, ty, queenSide);
    if ty == KING then (if queenSide then other else index)
    else (if index == QueenCorner(team) then index else other)
  }

  function PathHigh(team: TeamId, ty: int, index: int, queenSide: bool): int {
    var other := Partner(team, ty, queenSide);
    if ty == KING then (if queenSide then index else other)
    else (if index == QueenCorner(team) then other else index)
  }

  /** Every square strictly between `lo` and `hi` is empty. */
  predicate EmptyBetween(b: seq<int>, lo: int, hi: int)
    requires IsBoard(b) && 0 <= lo && hi <= 64
  {
    forall i :: lo < i < hi ==> b[i] == NONE
  }

  /** Some square of `lo..hi` (inclusive) is attacked by a team other than `team`. */
  predicate RangeAttacked(eps: seq<int>, b: seq<int>, team: TeamId, lo: int, hi: int)
    requires IsBoard(b)
  {
    exists i {:trigger Attacked(eps, b, team, i)} :: lo <= i <= hi && Attacked(eps, b, team, i)
  }

  function Max(a: int, c: int): int {
    if a >= c then a else c
  }

  /** `compute_castling`: the partner square when the piece on `index` may castle toward
      it, NONE otherwise. `noCastle[t]` is the castling ban of team `t`. */
  function CastlingSquare(eps: seq<int>, b: seq<int>, noCastle: seq<bool>, index: int, queenSide: bool): (r: int)
    requires IsBoard(b) && OnBoard(index) && |noCastle| == 2
    ensures r == NONE || OnBoard(r)
  {
    var id := b[index];
    var ty := Type(id);
    var team := Team(id);
    if ty != KING && ty != ROOK then NONE
    else if noCastle[team] then NONE
    else
      var other := Partner(team, ty, queenSide);
      if !EmptyBetween(b, PathLow(team, ty, index, queenSide), PathHigh(team, ty, index, queenSide)) then NONE
      else if RangeAttacked(eps, b, team, Min(index, other), Max(index, other)) then NONE
      else other
  }

  /** Castling is offered exactly when the piece is a king or a rook, its team has not
      castled, the path is empty and no square of the range is attacked; the square
      offered is a corner of the home rank for a king and the king home square for a rook. */
  lemma CastlingAvailable(eps: seq<int>, b: seq<int>, noCastle: seq<bool>, index: int, queenSide: bool)
    requires IsBoard(b) && OnBoard(index) && |noCastle| == 2
    ensures var r := CastlingSquare(eps, b, noCastle, index, queenSide);
      var ty, team := Type(b[index]), Team(b[index]);
      var other := Partner(team, ty, queenSide);
      && (r != NONE <==>
            && (ty == KING || ty == ROOK)
            && !noCastle[team]
            && (forall i :: PathLow(team, ty, index, queenSide) < i < PathHigh(team, ty, index, queenSide) ==> b[i] == NONE)
            && (forall i :: Min(index, other) <= i <= Max(index, other) ==> !Attacked(eps, b, team, i)))
      && (r != NONE && ty == KING ==> r == (if team == FIRST then (if queenSide then 0 else 7) else (if queenSide then 56 else 63)))
      && (r != NONE && ty == ROOK ==> r == (if team == FIRST then 4 else 60))
  {
  }

  /** A rook ignores the side it is asked about: both queries give the same answer. */
  lemma RookIgnoresSide(eps: seq<int>, b: seq<int>, noCastle: seq<bool>, index: int)
    requires IsBoard(b) && OnBoard(index) && |noCastle| == 2 && Type(b[index]) == ROOK
    ensures CastlingSquare(eps, b, noCastle, index, true) == CastlingSquare(eps, b, noCastle, index, false)
  {
  }

  /** The familiar rule for a king on its home square: castling toward a corner is
      offered exactly when the team may still castle, every square strictly between the
      king and the corner is empty, and no square from the king to the corner, both
      included, is attacked. */
  lemma KingOnHomeSquare(eps: seq<int>, b: seq<int>, noCastle: seq<bool>, queenSide: bool, team: TeamId)
    requires IsBoard(b) && |noCastle| == 2
    requires b[RookPartner(team)] == MakeId(team, KING)
    ensures var home := RookPartner(team);
      var corner := if queenSide then home - 4 else home + 3;
      var lo, hi := Min(home, corner), Max(home, corner);
      var r := CastlingSquare(eps, b, noCastle, home, queenSide);
      && (r != NONE ==> r == corner)
      && (r != NONE <==>
            && !noCastle[team]
            && (forall i :: lo < i < hi ==> b[i] == NONE)
            && (forall i :: lo <= i <= hi ==> !Attacked(eps, b, team, i)))
  {
    CastlingAvailable(eps, b, noCastle, RookPartner(team), queenSide);
  }

  /** The same for a rook on its corner: it is paired with the king home square. */
  lemma RookOnCorner(eps: seq<int>, b: seq<int>, noCastle: seq<bool>, queenSide: bool, team: TeamId)
    requires IsBoard(b) && |noCastle| == 2
    requires b[KingPartner(team, queenSide)] == MakeId(team, ROOK)
    ensures var corner := KingPartner(team, queenSide);
      var home := RookPartner(team);
      var lo, hi := Min(home, corner), Max(home, corner);
      var r := CastlingSquare(eps, b, noCastle, corner, queenSide);
      && (r != NONE ==> r == home)
      && (r != NONE <==>
            && !noCastle[team]
            && (forall i :: lo < i < hi ==> b[i] == NONE)
            && (forall i :: lo <= i <= hi ==> !Attacked(eps, b, team, i)))
  {
    CastlingAvailable(eps, b, noCastle, KingPartner(team, queenSide), queenSide);
  }

  // ---------------------------------------------------------------------------
  // The scans.

  /** Looks for an occupied square strictly between `lo` and `hi`. */
  method ScanEmpty(board: array<int>, lo: int, hi: int) returns (empty: bool)
    requires board.Length == 64 && 0 <= lo && hi <= 64
    ensures empty == EmptyBetween(board[..], lo, hi)
  {
    var i := lo + 1;
    while i < hi
      invariant lo + 1 <= i && (i <= hi || hi <= lo + 1)
      invariant forall j :: lo < j < i && j < hi ==> board[j] == NONE
    {
      if board[i] != NONE {
        return false;
      }
      i := i + 1;
    }
    return true;
  }

  /** For each square from `lo` to `hi`, scans the pieces of the other team for one that
      reaches it. */
  method ScanAttacked(eps: array<int>, board: array<int>, team: TeamId, lo: int, hi: int) returns (hit: bool)
    requires board.Length == 64
    ensures hit == RangeAttacked(eps[..], board[..], team, lo, hi)
  {
    ghost var e, b := eps[..], board[..];
    var i := lo;
    while i <= hi
      invariant lo <= i && (i <= hi + 1 || hi < lo)
      invariant forall j :: lo <= j < i && j <= hi ==> !Attacked(e, b, team, j)
      decreases hi - i
    {
      hit := AttackedAt(eps, board, team, i);
      if hit {
        return;
      }
      i := i + 1;
    }
    return false;
  }

  /** `compute_castling` over the live board. */
  method ComputeCastling(eps: array<int>, board: array<int>, noCastle: seq<bool>, index: int, queenSide: bool)
    returns (r: int)
    requires board.Length == 64 && OnBoard(index) && |noCastle| == 2
    ensures r == CastlingSquare(eps[..], board[..], noCastle, index, queenSide)
  {
    var id := board[index];
    var ty := Type(id);
    var team := Team(id);
    if ty != KING && ty != ROOK {
      return NONE;
    }
    if noCastle[team] {
      return NONE;
    }
    var other, lo, hi;
    if ty == KING {
      if team == FIRST {
        other := if queenSide then 0 else 7;
      } else {
        other := if queenSide then 56 else 63;
      }
      if queenSide {
        lo, hi := other, index;
      } else {
        lo, hi := index, other;
      }
    } else {
      var rookQueenSide := index == (if team == FIRST then 0 else 56);
      other := if team == FIRST then 4 else 60;
      if rookQueenSide {
        lo, hi := index, other;
      } else {
        lo, hi := other, index;
      }
    }
    var empty := ScanEmpty(board, lo, hi);
    if !empty {
      return NONE;
    }
    var hit;
    if other > index {
      hit := ScanAttacked(eps, board, team, index, other);
    } else {
      hit := ScanAttacked(eps, board, team, other, index);
    }
    if hit {
      return NONE;
    }
    return other;
  }
}

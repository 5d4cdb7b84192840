/** What the rules promise: the status report in terms of checked kings and available
    moves, the effect of an accepted move, the consistency between the listed moves and
    the moves `chess_move` accepts, and the effect of a promotion. */
module Laws {
  import opened Pieces
  import opened Squares
  import opened EnPassant
  import opened Moves
  import opened Legality
  import opened Castling
  import opened Rules

  // ---------------------------------------------------------------------------
  // The status scan

  /** Square `k` holds a checked king without moves. */
  predicate MateAt(occ: seq<bool>, chk: seq<bool>, mv: seq<bool>, k: int)
    requires |occ| == |chk| == |mv| && 0 <= k < |occ|
  {
    occ[k] && chk[k] && !mv[k]
  }

  /** No square below `k` holds a checked king without moves. */
  predicate NoMateBelow(occ: seq<bool>, chk: seq<bool>, mv: seq<bool>, k: int)
    requires |occ| == |chk| == |mv| && k <= |occ|
  {
    forall j :: 0 <= j < k ==> !MateAt(occ, chk, mv, j)
  }

  /** No square from `k + 1` up to `n` holds a checked king. */
  predicate LastChecked(occ: seq<bool>, chk: seq<bool>, k: int, n: int)
    requires |occ| == |chk| && 0 <= k < n <= |occ|
  {
    occ[k] && chk[k] && forall j :: k < j < n ==> !(occ[j] && chk[j])
  }

  /** The scan never touches the first team's report; the second team's report is set
      exactly when a checked king was seen, and then holds the verdict for the last one;
      play can continue exactly when no checked king lacks moves; and a move was found
      exactly when some occupied square has moves and no checked king without moves comes
      before it. */
  lemma {:induction false} ScanFacts(occ: seq<bool>, chk: seq<bool>, mv: seq<bool>, n: nat)
    requires n <= |occ| == |chk| == |mv|
    ensures var a := ScanOf(occ, chk, mv, n);
      && a.white == NORMAL && !a.setWhite
      && (a.setBlack <==> exists k :: 0 <= k < n && occ[k] && chk[k])
      && (!a.setBlack ==> a.black == NORMAL)
      && (a.setBlack ==> exists k :: 0 <= k < n && LastChecked(occ, chk, k, n)
                                     && a.black == (if mv[k] then CHECK else CHECKMATE))
      && (a.canContinue <==> NoMateBelow(occ, chk, mv, n))
      && (a.hasMove <==> exists k :: 0 <= k < n && occ[k] && mv[k] && NoMateBelow(occ, chk, mv, k))
  {
    if n > 0 {
      var m := n - 1;
      ScanFacts(occ, chk, mv, m);
      var a0 := ScanOf(occ, chk, mv, m);
      var a := ScanOf(occ, chk, mv, n);
      if occ[m] && chk[m] {
        assert LastChecked(occ, chk, m, n);
      } else if a.setBlack {
        var k :| 0 <= k < m && LastChecked(occ, chk, k, m) && a0.black == (if mv[k] then CHECK else CHECKMATE);
        assert LastChecked(occ, chk, k, n);
      }
      assert NoMateBelow(occ, chk, mv, n) <==> NoMateBelow(occ, chk, mv, m) && !MateAt(occ, chk, mv, m);
      if a.hasMove && !a0.hasMove {
        assert occ[m] && mv[m] && NoMateBelow(occ, chk, mv, m);
      }
    }
  }

  /** The final report over the flags of all squares, where a checked king always
      stands on an occupied square. */
  lemma ReportFacts(occ: seq<bool>, chk: seq<bool>, mv: seq<bool>)
    requires |occ| == |chk| == |mv|
    requires forall i :: 0 <= i < |occ| && chk[i] ==> occ[i]
    ensures var r := Finish(ScanOf(occ, chk, mv, |occ|));
      && r.Report?
      && (r.white == NORMAL || r.white == STALEMATE)
      && (r.white == STALEMATE <==> forall i :: 0 <= i < |occ| && occ[i] ==> !chk[i] && !mv[i])
      && (r.white == STALEMATE ==> r.black == STALEMATE && !r.ok)
      && (r.ok <==>
            && (forall i :: 0 <= i < |occ| && chk[i] ==> mv[i])
            && (exists i :: 0 <= i < |occ| && occ[i] && mv[i]))
      && ((exists i :: 0 <= i < |occ| && chk[i]) ==> r.black == CHECK || r.black == CHECKMATE)
      && (r.black == CHECKMATE ==> exists i :: 0 <= i < |occ| && chk[i] && !mv[i])
      && (!(exists i :: 0 <= i < |occ| && chk[i]) ==> r.black == r.white)
  {
    var n := |occ|;
    ScanFacts(occ, chk, mv, n);
    var a := ScanOf(occ, chk, mv, n);
    if a.black == CHECKMATE {
      var k :| 0 <= k < n && LastChecked(occ, chk, k, n) && a.black == (if mv[k] then CHECK else CHECKMATE);
      assert chk[k] && !mv[k];
    }
    if a.canContinue && !a.hasMove {
      forall i | 0 <= i < n && occ[i] ensures !mv[i] {
        assert NoMateBelow(occ, chk, mv, i);
      }
    }
    if exists i :: 0 <= i < n && occ[i] && mv[i] {
      var k :| 0 <= k < n && occ[k] && mv[k];
      if a.canContinue {
        assert NoMateBelow(occ, chk, mv, k);
      }
    }
    if a.canContinue {
      forall i | 0 <= i < n && chk[i] ensures mv[i] {
        assert !MateAt(occ, chk, mv, i);
      }
    }
    if forall i :: 0 <= i < n && chk[i] ==> mv[i] {
      forall i | 0 <= i < n ensures !MateAt(occ, chk, mv, i) {
      }
    }
  }

  /** With both kings cached, `chess_status` reports: the first team's report is normal
      unless the game is stalemated; stalemate exactly when no piece has a move and no
      king is in check; play continues exactly when every checked king has a move and
      some piece has one; and a checked king puts the second team's report to check or
      checkmate, checkmate only when a checked king has no move. */
  lemma StatusMeaning(s: State)
    requires Valid(s) && KingsPresent(s)
    ensures var r := Status(s);
      && r.Report?
      && (r.white == NORMAL || r.white == STALEMATE)
      && (r.white == STALEMATE <==>
            forall i :: 0 <= i < 64 && s.board[i] != NONE ==> !CheckedKingAt(s, i) && !HasMovesAt(s, i))
      && (r.white == STALEMATE ==> r.black == STALEMATE && !r.ok)
      && (r.ok <==>
            && (forall i :: 0 <= i < 64 && CheckedKingAt(s, i) ==> HasMovesAt(s, i))
            && (exists i :: 0 <= i < 64 && s.board[i] != NONE && HasMovesAt(s, i)))
      && ((exists i :: 0 <= i < 64 && CheckedKingAt(s, i)) ==> r.black == CHECK || r.black == CHECKMATE)
      && (r.black == CHECKMATE ==> exists i :: 0 <= i < 64 && CheckedKingAt(s, i) && !HasMovesAt(s, i))
      && (!(exists i :: 0 <= i < 64 && CheckedKingAt(s, i)) ==> r.black == r.white)
  {
    var occ, chk, mv := Occupied(s), CheckedKings(s), Movable(s);
    forall i | 0 <= i < 64 && chk[i] ensures occ[i] {
      NoneDecodes();
    }
    ReportFacts(occ, chk, mv);
    assert forall i :: 0 <= i < 64 ==> occ[i] == (s.board[i] != NONE) && chk[i] == CheckedKingAt(s, i) && mv[i] == HasMovesAt(s, i);
  }

  // ---------------------------------------------------------------------------
  // chess_move

  /** Which en-passant slots an ordinary move may change: a slot holding `from` or `to`
      may be emptied, and after a pawn's double step a free slot or the slot that held
      `from` may receive `to`. */
  predicate SlotsRefreshed(old_eps: seq<int>, eps: seq<int>, from: int, to: int, doubled: bool)
    requires |old_eps| == |eps|
  {
    forall k :: 0 <= k < |eps| && eps[k] != old_eps[k] ==>
      || (eps[k] == NONE && (old_eps[k] == from || old_eps[k] == to))
      || (doubled && eps[k] == to && (old_eps[k] == NONE || old_eps[k] == from))
  }

  /** An ordinary move: the mover lands on `to` and leaves `from`; the pawn taken en
      passant leaves its square; no other square changes. The result is `to` when it held
      an opposing piece, otherwise the en-passant victim or NONE. The mover's team gains
      the value of a pawn after an en-passant capture (even when `to` held an opposing
      piece too), otherwise the value of the piece on `to` if it was an opposing one; the
      other team's score does not change. The king cache follows a moving king, the
      castling bans stay, the turn passes, and a double step with a free slot makes `to`
      an en-passant target. The square of a pawn taken en passant stays a target: its
      slot is never emptied. */
  lemma ExecuteEffect(s: State, from: int, to: int)
    requires Valid(s) && OnBoard(from) && OnBoard(to) && from != to
    ensures var o := Execute(s, from, to);
      var t := o.state;
      var id := s.board[from];
      var team := Team(id);
      var v := Passed(s, from, to);
      var captured := s.board[to] != NONE && Team(s.board[to]) != team;
      var doubled := Type(id) == PAWN && DoubleStep(team, from, to);
      && Shaped(t)
      && t.board[to] == id && t.board[from] == NONE
      && (v != NONE ==> OnBoard(v) && t.board[v] == NONE && Type(s.board[v]) == PAWN && Team(s.board[v]) != team)
      && (forall i :: 0 <= i < 64 && i != from && i != to && i != v ==> t.board[i] == s.board[i])
      && o.result == (if captured then to else v)
      && t.score[team] == s.score[team] + (if v != NONE then Scoring[PAWN] else if captured then Scoring[Type(s.board[to])] else 0)
      && t.score[1 - team] == s.score[1 - team]
      && t.kings == (if Type(id) == KING then s.kings[team := to] else s.kings)
      && t.noCastle == s.noCastle
      && t.turn != s.turn
      && SlotsRefreshed(s.eps, t.eps, from, to, doubled)
      && (doubled && NONE in ClearTarget(s.eps, from) ==> IsEnPassantTarget(t.eps, to))
      && (v != NONE ==> IsEnPassantTarget(t.eps, v))
  {
    PassedIsPawn(s, from, to);
    var v := Passed(s, from, to);
    if v != NONE {
      var eps1 := PawnTargets(s, from, to);
      var k :| 0 <= k < |eps1| && eps1[k] == v;
      assert Execute(s, from, to).state.eps[k] == v;
    }
  }

  /** `chess_move` takes one of three branches: it rejects the move and leaves the game
      as it is, it castles and keeps the turn with the result NONE, or it commits an
      ordinary move. A move is rejected exactly when the squares are not two distinct
      squares, the piece is not of the side to move, or the move is neither a castling
      nor a candidate destination. */
  lemma MoveBranches(s: State, from: int, to: int)
    requires Valid(s) && OnBoard(s.kings[s.turn])
    ensures var o := Move(s, from, to);
      && (o.result == ILLEGAL <==>
            || !OnBoard(from) || !OnBoard(to) || from == to || s.turn != Team(s.board[from])
            || (!IsCastling(s, from, to) && to !in Candidates(s, from)))
      && (o.result == ILLEGAL ==> o.state == s)
      && (IsCastling(s, from, to) ==> o == Outcome(Castle(s, from, to), NONE))
      && (o.result != ILLEGAL && !IsCastling(s, from, to) ==> o == Execute(s, from, to))
  {
    if OnBoard(from) && OnBoard(to) && from != to {
      PassedIsPawn(s, from, to);
    }
  }

  /** A castling swaps the mover with its partner square and touches nothing else but
      the team's castling ban and, for a king, its cache: after a rook castles the cache
      still names the square the king has left. */
  lemma CastleEffect(s: State, from: int, to: int)
    requires Valid(s) && OnBoard(s.kings[s.turn]) && IsCastling(s, from, to)
    ensures var o := Move(s, from, to);
      var t := o.state;
      var id := s.board[from];
      && o.result == NONE
      && (Type(id) == KING || Type(id) == ROOK)
      && !s.noCastle[s.turn] && t.noCastle[s.turn] && t.noCastle[1 - s.turn] == s.noCastle[1 - s.turn]
      && t.board[to] == id && t.board[from] == s.board[to]
      && (forall i :: 0 <= i < 64 && i != from && i != to ==> t.board[i] == s.board[i])
      && t.turn == s.turn && t.score == s.score && t.eps == s.eps
      && t.kings == (if Type(id) == KING then s.kings[s.turn := to] else s.kings)
  {
    var q := CastlingSquare(s.eps, s.board, s.noCastle, from, false) != to;
    CastlingAvailable(s.eps, s.board, s.noCastle, from, q);
  }

  /** A team castles at most once: right after a castling the same team is to move, and
      no further castling of that team is accepted. */
  lemma CastleOnce(s: State, from: int, to: int, from2: int, to2: int)
    requires Valid(s) && OnBoard(s.kings[s.turn]) && IsCastling(s, from, to)
    ensures var t := Move(s, from, to).state;
      Valid(t) && OnBoard(t.kings[t.turn]) && !IsCastling(t, from2, to2)
  {
    CastleEffect(s, from, to);
    var t := Move(s, from, to).state;
    assert Valid(t) by {
      forall i | 0 <= i < 64 ensures IsCell(t.board[i]) {
        assert t.board[i] == s.board[i] || t.board[i] == s.board[from] || t.board[i] == s.board[to];
      }
    }
    if OnBoard(from2) && Team(t.board[from2]) == t.turn {
      CastlingAvailable(t.eps, t.board, t.noCastle, from2, false);
      CastlingAvailable(t.eps, t.board, t.noCastle, from2, true);
    }
  }

  /** Every move keeps the game well formed and both kings cached. */
  lemma MovePreservesValid(s: State, from: int, to: int)
    requires Valid(s) && KingsPresent(s)
    ensures var t := Move(s, from, to).state;
      Valid(t) && KingsPresent(t)
  {
    MoveBranches(s, from, to);
    if Move(s, from, to).result == ILLEGAL {
    } else if IsCastling(s, from, to) {
      CastlePreservesValid(s, from, to);
    } else {
      ExecutePreservesValid(s, from, to);
    }
  }

  /** A castling swap keeps the game well formed and does not lose a king cache. */
  lemma CastlePreservesValid(s: State, from: int, to: int)
    requires Valid(s) && OnBoard(from) && OnBoard(to)
    ensures var t := Castle(s, from, to);
      Valid(t) && (KingsPresent(s) ==> KingsPresent(t))
  {
    var t := Castle(s, from, to);
    forall i | 0 <= i < 64 ensures IsCell(t.board[i]) {
      assert t.board[i] == s.board[i] || t.board[i] == s.board[from] || t.board[i] == s.board[to];
    }
  }

  /** An ordinary move keeps the game well formed and does not lose a king cache. */
  lemma ExecutePreservesValid(s: State, from: int, to: int)
    requires Valid(s) && OnBoard(from) && OnBoard(to) && from != to
    ensures var t := Execute(s, from, to).state;
      Valid(t) && (KingsPresent(s) ==> KingsPresent(t))
  {
    var t := Execute(s, from, to).state;
    ExecuteEffect(s, from, to);
    var v := Passed(s, from, to);
    forall i | 0 <= i < 64 ensures IsCell(t.board[i]) {
      if i != from && i != to && i != v {
        assert t.board[i] == s.board[i];
      }
    }
    forall k | 0 <= k < TARGET_SLOTS ensures t.eps[k] == NONE || OnBoard(t.eps[k]) {
      if t.eps[k] != s.eps[k] {
        assert SlotsRefreshed(s.eps, t.eps, from, to, Type(s.board[from]) == PAWN && DoubleStep(Team(s.board[from]), from, to));
      }
    }
  }

  // ---------------------------------------------------------------------------
  // chess_compute_moves

  /** Only the side to move has moves, and only on the board. */
  lemma LegalMovesOfMover(s: State, index: int)
    requires Valid(s) && OnBoard(s.kings[s.turn])
    ensures LegalMoves(s, index) != [] ==> OnBoard(index) && s.board[index] != NONE && Team(s.board[index]) == s.turn
  {
    if OnBoard(index) && s.board[index] == NONE && Team(s.board[index]) == s.turn {
      var king := s.kings[s.turn];
      if !IsCheckedKing(s.eps, s.board, king) {
        assert PseudoMoves(s.eps, s.board, index) == [];
        assert CastlingSquare(s.eps, s.board, s.noCastle, index, false) == NONE by { NoneDecodes(); }
        assert CastlingSquare(s.eps, s.board, s.noCastle, index, true) == NONE by { NoneDecodes(); }
      }
    }
  }

  /** Every listed move is a square, and is one of: a pseudo-move whose trial keeps the
      king unattacked, the last pseudo-move (which the elimination never discards) when
      the king is not in check, or a castling square when the king is not in check. */
  lemma LegalMovesSound(s: State, index: int, m: int)
    requires Valid(s) && OnBoard(s.kings[s.turn]) && m in LegalMoves(s, index)
    ensures OnBoard(index) && OnBoard(m)
    ensures var king, ms := s.kings[s.turn], PseudoMoves(s.eps, s.board, index);
      || (m in ms && KeepsKingSafe(s.eps, s.board, index, king, m))
      || (!IsCheckedKing(s.eps, s.board, king) && ms != [] && m == ms[|ms| - 1])
      || (!IsCheckedKing(s.eps, s.board, king)
          && (m == CastlingSquare(s.eps, s.board, s.noCastle, index, false)
              || m == CastlingSquare(s.eps, s.board, s.noCastle, index, true)))
  {
    var r := LegalMoves(s, index);
    var king := s.kings[s.turn];
    assert OnBoard(index);
    assert AllOnBoard(r);
    var k :| 0 <= k < |r| && r[k] == m;
    var ms := PseudoMoves(s.eps, s.board, index);
    if IsCheckedKing(s.eps, s.board, king) {
      var b := s.board;
      if b[king] != NONE && Type(b[king]) == KING && b[index] != NONE && Team(b[index]) == Team(b[king]) {
        CheckMovesExact(s.eps, b, index, king, m);
      }
    } else {
      PseudoMovesAllOnBoard(s.eps, s.board, index);
      var kept := KeptMoves(s.eps, s.board, index, king, ms);
      if m in kept && ms != [] {
        KeptMovesExact(s.eps, s.board, index, king, ms, m);
        if m != ms[|ms| - 1] {
          var j :| 0 <= j < |ms| - 1 && ms[..|ms| - 1][j] == m;
          assert ms[j] == m;
        }
      }
    }
  }

  /** Every pseudo-move whose trial keeps the king unattacked is listed, provided the king
      cache of the side to move names its king. */
  lemma LegalMovesComplete(s: State, index: int, m: int)
    requires Valid(s) && OnBoard(s.kings[s.turn])
    requires s.board[s.kings[s.turn]] == MakeId(s.turn, KING)
    requires OnBoard(index) && s.board[index] != NONE && Team(s.board[index]) == s.turn
    requires m in PseudoMoves(s.eps, s.board, index) && KeepsKingSafe(s.eps, s.board, index, s.kings[s.turn], m)
    ensures m in LegalMoves(s, index)
  {
    var king := s.kings[s.turn];
    if IsCheckedKing(s.eps, s.board, king) {
      CheckMovesExact(s.eps, s.board, index, king, m);
    } else {
      PseudoMovesAllOnBoard(s.eps, s.board, index);
      KeptMovesKeepSafe(s.eps, s.board, index, king, PseudoMoves(s.eps, s.board, index), m);
      FreeMovesKeepKept(s, index, king, m);
    }
  }

  /** The castling squares are appended after the eliminated candidates. */
  lemma FreeMovesKeepKept(s: State, index: int, king: int, m: int)
    requires Shaped(s) && OnBoard(index) && OnBoard(king)
    requires AllOnBoard(PseudoMoves(s.eps, s.board, index))
    requires m in KeptMoves(s.eps, s.board, index, king, PseudoMoves(s.eps, s.board, index))
    ensures m in FreeMoves(s, index, king)
  {
  }

  /** Every listed move other than the piece's own square is accepted by `chess_move`. */
  lemma ListedMovesAccepted(s: State, index: int, m: int)
    requires Valid(s) && OnBoard(s.kings[s.turn]) && m in LegalMoves(s, index) && m != index
    ensures Move(s, index, m).result != ILLEGAL
  {
    LegalMovesSound(s, index, m);
    LegalMovesOfMover(s, index);
    MoveBranches(s, index, m);
    var king := s.kings[s.turn];
    var ms := PseudoMoves(s.eps, s.board, index);
    if !IsCheckedKing(s.eps, s.board, king) {
      PseudoMovesAllOnBoard(s.eps, s.board, index);
      var kept := KeptMoves(s.eps, s.board, index, king, ms);
      var c0 := CastlingSquare(s.eps, s.board, s.noCastle, index, false);
      if m in kept {
        if ms != [] {
          KeptMovesExact(s.eps, s.board, index, king, ms, m);
          if m != ms[|ms| - 1] {
            var j :| 0 <= j < |ms| - 1 && ms[..|ms| - 1][j] == m;
            assert ms[j] == m;
          }
        }
      } else if m != c0 {
        assert m == CastlingSquare(s.eps, s.board, s.noCastle, index, true);
      }
    }
  }

  /** Outside check `chess_move` accepts every pseudo-move, whether or not its trial keeps
      the king unattacked. */
  lemma MoveAcceptsPseudoMoves(s: State, from: int, to: int)
    requires Valid(s) && OnBoard(s.kings[s.turn]) && !IsCheckedKing(s.eps, s.board, s.kings[s.turn])
    requires OnBoard(from) && Team(s.board[from]) == s.turn && to != from
    requires to in PseudoMoves(s.eps, s.board, from)
    ensures Move(s, from, to).result != ILLEGAL
  {
    assert OnBoard(to);
    MoveBranches(s, from, to);
  }

  /** A rook's castling square is offered by both castling queries, so it is listed
      twice in a row at the end. */
  lemma RookCastlingListedTwice(s: State, index: int)
    requires Valid(s) && OnBoard(s.kings[s.turn]) && OnBoard(index)
    requires Type(s.board[index]) == ROOK && Team(s.board[index]) == s.turn
    requires !IsCheckedKing(s.eps, s.board, s.kings[s.turn])
    requires CastlingSquare(s.eps, s.board, s.noCastle, index, false) != NONE
    ensures var r, c := LegalMoves(s, index), CastlingSquare(s.eps, s.board, s.noCastle, index, false);
      |r| >= 2 && r[|r| - 2] == c && r[|r| - 1] == c
  {
    RookIgnoresSide(s.eps, s.board, s.noCastle, index);
  }

  // ---------------------------------------------------------------------------
  // chess_promote_pawn

  /** A promotion is refused exactly for a square off the board, a pawn as the new type,
      a square without a pawn, or a pawn not on the far rank of its team, and then the
      game is unchanged. A promotion that succeeds puts a piece of the new type and the
      same team on the square, removes the square from the en-passant slots and changes
      nothing else. */
  lemma PromoteEffect(s: State, index: int, newType: int)
    requires Valid(s) && IsType(newType)
    ensures var o := Promote(s, index, newType);
      && (o.result == SUCCESS || o.result == INVALID)
      && (o.result == INVALID <==>
            || !OnBoard(index) || newType == PAWN || Type(s.board[index]) != PAWN
            || (Team(s.board[index]) == FIRST && Rank(index) != 7)
            || (Team(s.board[index]) == SECOND && Rank(index) != 0))
      && (o.result == INVALID ==> o.state == s)
      && (o.result == SUCCESS ==>
            && o.state.board[index] == MakeId(Team(s.board[index]), newType)
            && Team(o.state.board[index]) == Team(s.board[index]) && Type(o.state.board[index]) == newType
            && (forall i :: 0 <= i < 64 && i != index ==> o.state.board[i] == s.board[i])
            && (forall k :: 0 <= k < TARGET_SLOTS && o.state.eps[k] != s.eps[k] ==> s.eps[k] == index && o.state.eps[k] == NONE)
            && (forall k :: 0 <= k < TARGET_SLOTS && s.eps[k] == index && index !in s.eps[..k] ==> o.state.eps[k] == NONE)
            && o.state.kings == s.kings && o.state.noCastle == s.noCastle
            && o.state.score == s.score && o.state.turn == s.turn
            && Valid(o.state))
  {
    var o := Promote(s, index, newType);
    if o.result == SUCCESS {
      MakeIdIsCell(Team(s.board[index]), newType);
      forall k | 0 <= k < TARGET_SLOTS && s.eps[k] == index && index !in s.eps[..k]
        ensures o.state.eps[k] == NONE
      {
        assert forall j :: 0 <= j < k ==> s.eps[..k][j] == s.eps[j];
        ClearEmptiesFirstMatch(s.eps, index, k);
      }
    }
  }
}

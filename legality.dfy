/** The attack test and the two legality filters. A candidate move is tried on a
    scratch copy of the board (the piece lands on the destination, its square empties)
    and kept when the mover's king is then not attacked. */
module Legality {
  import opened Pieces
  import opened Squares
  import opened Moves

  /** The piece on `j` belongs to a team other than `team` and its pseudo-moves reach `k`. */
  predicate Attacks(eps: seq<int>, b: seq<int>, j: int, team: TeamId, k: int)
    requires IsBoard(b) && OnBoard(j)
  {
    b[j] != NONE && Team(b[j]) != team && k in PseudoMoves(eps, b, j)
  }

  /** Some piece of a team other than `team` has `k` among its pseudo-moves. */
  predicate Attacked(eps: seq<int>, b: seq<int>, team: TeamId, k: int)
    requires IsBoard(b)
  {
    exists j {:trigger Attacks(eps, b, j, team, k)} :: 0 <= j < 64 && Attacks(eps, b, j, team, k)
  }

  /** `is_checked_king`: the square `king` is attacked by a team other than the one
      whose piece stands on it. */
  predicate IsCheckedKing(eps: seq<int>, b: seq<int>, king: int)
    requires IsBoard(b) && OnBoard(king)
  {
    Attacked(eps, b, Team(b[king]), king)
  }

  /** The attack test reuses the pawn's move list: a pawn attacks the empty square in
      front of it, and does not attack an empty forward diagonal unless it could take
      en passant there. */
  lemma PawnAttacks(eps: seq<int>, b: seq<int>, j: int, team: TeamId, k: int)
    requires IsBoard(b) && OnBoard(j) && b[j] != NONE && Type(b[j]) == PAWN && Team(b[j]) != team
    ensures var fore := Step(Advance, Team(b[j]), j);
      fore != NONE && b[fore] == NONE ==> Attacks(eps, b, j, team, fore) && Attacked(eps, b, team, fore)
    ensures var p := Team(b[j]);
      && (k == Step(AdvanceLeft, p, j) || k == Step(AdvanceRight, p, j))
      && OnBoard(k) && b[k] == NONE && !CapturesEnPassant(eps, b, j, k)
      ==> !Attacks(eps, b, j, team, k)
  {
    var p := Team(b[j]);
    PawnMovesComplete(eps, b, p, j);
    var fore := Step(Advance, p, j);
    if fore != NONE && b[fore] == NONE {
      assert Attacks(eps, b, j, team, fore);
    }
    if (k == Step(AdvanceLeft, p, j) || k == Step(AdvanceRight, p, j)) && OnBoard(k) && k in PseudoMoves(eps, b, j) {
      if k == Step(AdvanceLeft, p, j) {
        StepDelta(AdvanceLeft, p, j);
      } else {
        StepDelta(AdvanceRight, p, j);
      }
      PawnDiagonals(eps, b, p, j, k);
    }
  }

  /** The scratch board after moving the piece on `from` to `to`. */
  function Simulate(b: seq<int>, from: int, to: int): (r: seq<int>)
    requires IsBoard(b) && OnBoard(from) && OnBoard(to)
    ensures IsBoard(r) && r[from] == NONE
    ensures from != to ==> r[to] == b[from]
    ensures forall i :: 0 <= i < 64 && i != from && i != to ==> r[i] == b[i]
  {
    b[to := b[from]][from := NONE]
  }

  /** The king square to test after the trial: the destination when the king itself moves. */
  function TestKing(from: int, king: int, to: int): int {
    if from == king then to else king
  }

  /** The trial of one candidate leaves the king unattacked. */
  predicate KeepsKingSafe(eps: seq<int>, b: seq<int>, from: int, king: int, to: int)
    requires IsBoard(b) && OnBoard(from) && OnBoard(king) && OnBoard(to)
  {
    !IsCheckedKing(eps, Simulate(b, from, to), TestKing(from, king, to))
  }

  predicate AllOnBoard(ms: seq<int>) {
    forall k :: 0 <= k < |ms| ==> OnBoard(ms[k])
  }

  // ---------------------------------------------------------------------------
  // Filtering a move list by a row of verdicts.

  /** Keeps the entries of `ms` whose flag in `keep` is set, in order. */
  function Filter(ms: seq<int>, keep: seq<bool>): (r: seq<int>)
    requires |keep| == |ms|
    ensures |r| <= |ms|
    ensures forall x :: x in r ==> x in ms
  {
    if ms == [] then []
    else Filter(ms[..|ms| - 1], keep[..|keep| - 1]) + (if keep[|keep| - 1] then [ms[|ms| - 1]] else [])
  }

  lemma FilterSnoc(ms: seq<int>, keep: seq<bool>, i: nat)
    requires |keep| == |ms| && i < |ms|
    ensures Filter(ms[..i + 1], keep[..i + 1]) == Filter(ms[..i], keep[..i]) + (if keep[i] then [ms[i]] else [])
  {
    assert ms[..i + 1][..i] == ms[..i];
    assert keep[..i + 1][..i] == keep[..i];
  }

  /** An entry survives exactly when it occurs with its flag set. */
  lemma {:induction false} FilterMember(ms: seq<int>, keep: seq<bool>, m: int)
    requires |keep| == |ms|
    ensures m in Filter(ms, keep) <==> exists k :: 0 <= k < |ms| && ms[k] == m && keep[k]
    decreases |ms|
  {
    if ms != [] {
      var n := |ms| - 1;
      FilterMember(ms[..n], keep[..n], m);
      if m in Filter(ms, keep) && !(m in Filter(ms[..n], keep[..n])) {
        assert ms[n] == m && keep[n];
      }
      if exists k :: 0 <= k < |ms| && ms[k] == m && keep[k] {
        var k :| 0 <= k < |ms| && ms[k] == m && keep[k];
        if k < n {
          assert ms[..n][k] == m && keep[..n][k];
        }
      }
    }
  }

  /** `a` is `b` with some entries deleted. */
  predicate Subsequence(a: seq<int>, b: seq<int>)
    decreases |b|
  {
    if a == [] then true
    else if b == [] then false
    else if a[|a| - 1] == b[|b| - 1] then Subsequence(a[..|a| - 1], b[..|b| - 1])
    else Subsequence(a, b[..|b| - 1])
  }

  /** A subsequence of all entries but the last is a subsequence of all of them. */
  lemma {:induction false} SubsequenceOfPrefix(a: seq<int>, b: seq<int>)
    requires b != [] && Subsequence(a, b[..|b| - 1])
    ensures Subsequence(a, b)
    decreases |b|, 1
  {
    var bi := b[..|b| - 1];
    if a != [] && a[|a| - 1] == b[|b| - 1] {
      var ai := a[..|a| - 1];
      assert bi != [];
      var bii := bi[..|bi| - 1];
      if a[|a| - 1] == bi[|bi| - 1] {
        SubsequenceOfPrefix(ai, bi);
      } else {
        SubsequenceDropLast(a, bii);
        SubsequenceOfPrefix(ai, bi);
      }
    }
  }

  /** Dropping the last entry of a subsequence keeps it a subsequence. */
  lemma {:induction false} SubsequenceDropLast(a: seq<int>, c: seq<int>)
    requires a != [] && Subsequence(a, c)
    ensures Subsequence(a[..|a| - 1], c)
    decreases |c|, 2
  {
    var ai, ci := a[..|a| - 1], c[..|c| - 1];
    if a[|a| - 1] == c[|c| - 1] {
      SubsequenceOfPrefix(ai, c);
    } else {
      SubsequenceDropLast(a, ci);
      SubsequenceOfPrefix(ai, c);
    }
  }

  /** Filtering only deletes: the survivors keep their original order. */
  lemma {:induction false} FilterSubsequence(ms: seq<int>, keep: seq<bool>)
    requires |keep| == |ms|
    ensures Subsequence(Filter(ms, keep), ms)
    decreases |ms|
  {
    if ms != [] {
      var n := |ms| - 1;
      var r := Filter(ms, keep);
      var r0 := Filter(ms[..n], keep[..n]);
      FilterSubsequence(ms[..n], keep[..n]);
      if keep[n] {
        assert r[..|r| - 1] == r0;
      } else {
        assert r == r0;
        SubsequenceOfPrefix(r0, ms);
      }
    }
  }

  // ---------------------------------------------------------------------------
  // The two legality filters.

  /** The outcome of the trial of each candidate. */
  function Verdicts(eps: seq<int>, b: seq<int>, from: int, king: int, ms: seq<int>): (vs: seq<bool>)
    requires IsBoard(b) && OnBoard(from) && OnBoard(king) && AllOnBoard(ms)
    ensures |vs| == |ms|
  {
    seq(|ms|, k requires 0 <= k < |ms| => KeepsKingSafe(eps, b, from, king, ms[k]))
  }

  lemma VerdictsJudged(eps: seq<int>, b: seq<int>, from: int, king: int, ms: seq<int>)
    requires IsBoard(b) && OnBoard(from) && OnBoard(king) && AllOnBoard(ms)
    ensures Judged(eps, b, from, king, ms, Verdicts(eps, b, from, king, ms))
  {
  }

  /** The candidates whose trial leaves the king unattacked, in their original order. */
  function SafeMoves(eps: seq<int>, b: seq<int>, from: int, king: int, ms: seq<int>): (r: seq<int>)
    requires IsBoard(b) && OnBoard(from) && OnBoard(king) && AllOnBoard(ms)
    ensures |r| <= |ms| && AllOnBoard(r)
  {
    var r := Filter(ms, Verdicts(eps, b, from, king, ms));
    assert forall k :: 0 <= k < |r| ==> r[k] in ms;
    r
  }

  /** A candidate survives the filter exactly when it is one and its trial is safe. */
  lemma SafeMovesMember(eps: seq<int>, b: seq<int>, from: int, king: int, ms: seq<int>, m: int)
    requires IsBoard(b) && OnBoard(from) && OnBoard(king) && AllOnBoard(ms)
    ensures m in SafeMoves(eps, b, from, king, ms) <==> m in ms && KeepsKingSafe(eps, b, from, king, m)
  {
    var vs := Verdicts(eps, b, from, king, ms);
    FilterMember(ms, vs, m);
    if m in ms && KeepsKingSafe(eps, b, from, king, m) {
      var k :| 0 <= k < |ms| && ms[k] == m;
      assert vs[k];
    }
  }

  /** The safe filter keeps the candidates' order. */
  lemma SafeMovesSubsequence(eps: seq<int>, b: seq<int>, from: int, king: int, ms: seq<int>)
    requires IsBoard(b) && OnBoard(from) && OnBoard(king) && AllOnBoard(ms)
    ensures Subsequence(SafeMoves(eps, b, from, king, ms), ms)
  {
    FilterSubsequence(ms, Verdicts(eps, b, from, king, ms));
  }

  /** `compute_check_moves`: with a king on `king` of the mover's team, the pseudo-moves of
      the piece on `index` whose trial leaves that king unattacked; nothing otherwise. */
  function CheckMoves(eps: seq<int>, b: seq<int>, index: int, king: int): (r: seq<int>)
    requires IsBoard(b) && OnBoard(index) && OnBoard(king)
    ensures |r| <= 56 && AllOnBoard(r)
  {
    var id, kingId := b[index], b[king];
    if kingId == NONE || Type(kingId) != KING || id == NONE || Team(id) != Team(kingId) then []
    else
      var ms := PseudoMoves(eps, b, index);
      assert AllOnBoard(ms) by {
        forall k | 0 <= k < |ms| ensures OnBoard(ms[k]) {
          assert ms[k] in ms;
        }
      }
      SafeMoves(eps, b, index, king, ms)
  }

  /** Every move `compute_check_moves` returns is a pseudo-move that keeps the king safe,
      every such move is returned, and they come in the generator's order. */
  lemma CheckMovesExact(eps: seq<int>, b: seq<int>, index: int, king: int, m: int)
    requires IsBoard(b) && OnBoard(index) && OnBoard(king)
    requires b[king] != NONE && Type(b[king]) == KING && b[index] != NONE && Team(b[index]) == Team(b[king])
    ensures m in CheckMoves(eps, b, index, king) <==>
      m in PseudoMoves(eps, b, index) && KeepsKingSafe(eps, b, index, king, m)
    ensures Subsequence(CheckMoves(eps, b, index, king), PseudoMoves(eps, b, index))
  {
    var ms := PseudoMoves(eps, b, index);
    assert AllOnBoard(ms) by {
      forall k | 0 <= k < |ms| ensures OnBoard(ms[k]) {
        assert ms[k] in ms;
      }
    }
    SafeMovesMember(eps, b, index, king, ms, m);
    SafeMovesSubsequence(eps, b, index, king, ms);
  }

  /** `eliminate_checked_moves`: the safe candidates except that the last candidate is
      always kept, whatever its trial shows. */
  function KeptMoves(eps: seq<int>, b: seq<int>, index: int, king: int, ms: seq<int>): (r: seq<int>)
    requires IsBoard(b) && OnBoard(index) && OnBoard(king) && AllOnBoard(ms)
    ensures |r| <= |ms| && AllOnBoard(r)
  {
    if ms == [] then []
    else SafeMoves(eps, b, index, king, ms[..|ms| - 1]) + [ms[|ms| - 1]]
  }

  /** The survivors of the elimination: every entry but the last is kept exactly when its
      trial is safe, and the last entry always survives, at the end. */
  lemma KeptMovesExact(eps: seq<int>, b: seq<int>, index: int, king: int, ms: seq<int>, m: int)
    requires IsBoard(b) && OnBoard(index) && OnBoard(king) && AllOnBoard(ms) && ms != []
    ensures var r := KeptMoves(eps, b, index, king, ms);
      && r != [] && r[|r| - 1] == ms[|ms| - 1]
      && (m in r <==> m == ms[|ms| - 1] || (m in ms[..|ms| - 1] && KeepsKingSafe(eps, b, index, king, m)))
  {
    SafeMovesMember(eps, b, index, king, ms[..|ms| - 1], m);
  }

  /** A safe candidate survives the elimination. */
  lemma KeptMovesKeepSafe(eps: seq<int>, b: seq<int>, index: int, king: int, ms: seq<int>, m: int)
    requires IsBoard(b) && OnBoard(index) && OnBoard(king) && AllOnBoard(ms)
    requires m in ms && KeepsKingSafe(eps, b, index, king, m)
    ensures m in KeptMoves(eps, b, index, king, ms)
  {
    var n := |ms| - 1;
    var init := ms[..n];
    if m != ms[n] {
      var j :| 0 <= j < |ms| && ms[j] == m;
      assert init[j] == m;
      assert AllOnBoard(init) by {
        forall k | 0 <= k < n ensures OnBoard(init[k]) {
          assert init[k] == ms[k];
        }
      }
      SafeMovesMember(eps, b, index, king, init, m);
    }
  }

  /** Nothing but the last candidate can survive an unsafe trial. */
  lemma KeptUnsafeIsLast(eps: seq<int>, b: seq<int>, index: int, king: int, ms: seq<int>, m: int)
    requires IsBoard(b) && OnBoard(index) && OnBoard(king) && AllOnBoard(ms)
    requires m in KeptMoves(eps, b, index, king, ms) && !KeepsKingSafe(eps, b, index, king, m)
    ensures ms != [] && m == ms[|ms| - 1]
  {
    if ms != [] {
      SafeMovesMember(eps, b, index, king, ms[..|ms| - 1], m);
    }
  }

  /** Survivors keep their original order. */
  lemma KeptMovesSubsequence(eps: seq<int>, b: seq<int>, index: int, king: int, ms: seq<int>)
    requires IsBoard(b) && OnBoard(index) && OnBoard(king) && AllOnBoard(ms)
    ensures Subsequence(KeptMoves(eps, b, index, king, ms), ms)
  {
    if ms != [] {
      var init := ms[..|ms| - 1];
      var r := KeptMoves(eps, b, index, king, ms);
      SafeMovesSubsequence(eps, b, index, king, init);
      assert r[..|r| - 1] == SafeMoves(eps, b, index, king, init);
    }
  }

  // ---------------------------------------------------------------------------
  // The array procedures.

  /** `chess_contains_move`: scans the first `size` entries for `index`. */
  method FindMove(moves: array<int>, size: nat, index: int) returns (r: bool)
    requires size <= moves.Length
    ensures r == ContainsMove(moves[..], size, index)
  {
    var i := 0;
    while i < size
      invariant 0 <= i <= size
      invariant forall j :: 0 <= j < i ==> moves[j] != index
    {
      if moves[i] == index {
        assert moves[..size][i] == index;
        return true;
      }
      i := i + 1;
    }
    return false;
  }

  /** One square of the scan of `is_checked_king`. */
  method AttacksFrom(eps: array<int>, board: array<int>, j: int, team: TeamId, k: int) returns (r: bool)
    requires board.Length == 64 && OnBoard(j)
    ensures r == Attacks(eps[..], board[..], j, team, k)
  {
    var id := board[j];
    if id == NONE || Team(id) == team {
      return false;
    }
    var found := new int[64];
    var n := ComputeMoves(eps, board, j, found);
    r := FindMove(found, n, k);
  }

  /** Generates, square by square, the moves of every piece of a team other than `team`
      and looks for `k` among them. */
  method AttackedAt(eps: array<int>, board: array<int>, team: TeamId, k: int) returns (r: bool)
    requires board.Length == 64
    ensures r == Attacked(eps[..], board[..], team, k)
  {
    ghost var e, b := eps[..], board[..];
    var i := 0;
    while i < 64
      invariant 0 <= i <= 64
      invariant forall j :: 0 <= j < i ==> !Attacks(e, b, j, team, k)
    {
      r := AttacksFrom(eps, board, i, team, k);
      if r {
        return;
      }
      i := i + 1;
    }
    return false;
  }

  /** `is_checked_king`: the scan for an attacker of the team other than the king's. */
  method IsCheckedKingAt(eps: array<int>, board: array<int>, king: int) returns (r: bool)
    requires board.Length == 64 && OnBoard(king)
    ensures r == IsCheckedKing(eps[..], board[..], king)
  {
    r := AttackedAt(eps, board, Team(board[king]), king);
  }

  /** One trial: commit the move from `index` to `to` on the scratch board, test the
      king, and roll the scratch board back. */
  method TrialIsChecked(eps: array<int>, tmp: array<int>, index: int, king: int, to: int)
    returns (checked: bool)
    requires tmp.Length == 64 && OnBoard(index) && OnBoard(king) && OnBoard(to) && tmp != eps
    modifies tmp
    ensures tmp[..] == old(tmp[..])
    ensures checked == !KeepsKingSafe(eps[..], old(tmp[..]), index, king, to)
  {
    ghost var b := tmp[..];
    var victim := tmp[to];
    tmp[to] := tmp[index];
    tmp[index] := NONE;
    assert tmp[..] == Simulate(b, index, to);
    var testKing := king;
    if index == king {
      testKing := to;
    }
    checked := IsCheckedKingAt(eps, tmp, testKing);
    tmp[index] := tmp[to];
    tmp[to] := victim;
    assert tmp[..] == b;
  }

  /** The scratch copy of the board. */
  method CopyBoard(board: array<int>) returns (tmp: array<int>)
    requires board.Length == 64
    ensures fresh(tmp) && tmp[..] == board[..]
  {
    tmp := new int[64];
    forall i | 0 <= i < 64 {
      tmp[i] := board[i];
    }
  }

  /** `compute_check_moves`: writes into `out` the pseudo-moves of the piece on `index`
      that leave the king on `king` unattacked. */
  method ComputeCheckMoves(eps: array<int>, board: array<int>, index: int, king: int, out: array<int>)
    returns (size: nat)
    requires board.Length == 64 && OnBoard(index) && OnBoard(king)
    requires out.Length >= 56 && out != board && out != eps
    modifies out
    ensures size <= 56
    ensures out[..size] == CheckMoves(eps[..], board[..], index, king)
  {
    var id, kingId := board[index], board[king];
    if kingId == NONE || Type(kingId) != KING {
      return 0;
    }
    if id == NONE {
      return 0;
    }
    if Team(id) != Team(kingId) {
      return 0;
    }
    var tmp := CopyBoard(board);
    var moves := new int[64];
    var n := ComputeMoves(eps, board, index, moves);
    ghost var ms := moves[..n];
    assert AllOnBoard(ms) by {
      forall k | 0 <= k < n ensures OnBoard(ms[k]) {
        assert ms[k] in ms;
      }
    }
    ghost var vs := Verdicts(eps[..], board[..], index, king, ms);
    VerdictsJudged(eps[..], tmp[..], index, king, ms);
    size := KeepSafe(eps, tmp, index, king, moves, n, out, ms, vs);
  }

  /** The loop of `compute_check_moves`: tries each of the `n` candidates on the scratch
      board and appends the safe ones to `out`. */
  method KeepSafe(eps: array<int>, tmp: array<int>, index: int, king: int,
                  moves: array<int>, n: nat, out: array<int>, ghost ms: seq<int>, ghost vs: seq<bool>)
    returns (size: nat)
    requires tmp.Length == 64 && OnBoard(index) && OnBoard(king)
    requires n <= moves.Length && n <= out.Length
    requires tmp != eps && tmp != out && tmp != moves && out != eps && out != moves
    requires ms == moves[..n] && AllOnBoard(ms) && |vs| == n
    requires Judged(eps[..], tmp[..], index, king, ms, vs)
    modifies tmp, out
    ensures size <= n && tmp[..] == old(tmp[..])
    ensures out[..size] == Filter(ms, vs)
  {
    ghost var b := tmp[..];
    ghost var e := eps[..];
    size := 0;
    var i := 0;
    while i < n
      invariant 0 <= size <= i <= n && tmp[..] == b && eps[..] == e && moves[..n] == ms
      invariant out[..size] == Filter(ms[..i], vs[..i])
    {
      var to := moves[i];
      assert to == ms[i];
      var checked := Judge(eps, tmp, index, king, to, e, b, ms, vs, i);
      FilterSnoc(ms, vs, i);
      if !checked {
        out[size] := to;
        size := size + 1;
      }
      i := i + 1;
    }
    assert ms[..n] == ms && vs[..n] == vs;
  }

  /** `vs` holds the verdict of every candidate of `ms` against the board `b`. */
  ghost predicate Judged(e: seq<int>, b: seq<int>, index: int, king: int, ms: seq<int>, vs: seq<bool>)
  {
    && IsBoard(b) && OnBoard(index) && OnBoard(king) && AllOnBoard(ms) && |vs| == |ms|
    && forall k {:trigger KeepsKingSafe(e, b, index, king, ms[k])} ::
         0 <= k < |ms| ==> vs[k] == KeepsKingSafe(e, b, index, king, ms[k])
  }

  /** The trial of candidate `p`, whose verdict `vs[p]` is known: it reports the king
      attacked exactly when the verdict is unsafe. */
  method Judge(eps: array<int>, tmp: array<int>, index: int, king: int, to: int,
               ghost e: seq<int>, ghost b: seq<int>, ghost ms: seq<int>, ghost vs: seq<bool>, ghost p: nat)
    returns (checked: bool)
    requires tmp.Length == 64 && tmp != eps && e == eps[..] && b == tmp[..]
    requires Judged(e, b, index, king, ms, vs) && p < |ms| && to == ms[p]
    modifies tmp
    ensures tmp[..] == b
    ensures checked == !vs[p]
  {
    checked := TrialIsChecked(eps, tmp, index, king, to);
  }

  /** `eliminate_checked_moves`: removes, in place, every candidate but the last whose
      trial leaves the king on `king` attacked; the entries past the old size are kept. */
  method EliminateCheckedMoves(eps: array<int>, board: array<int>, index: int, king: int,
                               moves: array<int>, size: nat) returns (newSize: nat)
    requires board.Length == 64 && OnBoard(index) && OnBoard(king)
    requires size <= moves.Length && moves != board && moves != eps
    requires AllOnBoard(moves[..size])
    modifies moves
    ensures newSize <= size
    ensures moves[..newSize] == KeptMoves(eps[..], board[..], index, king, old(moves[..size]))
    ensures moves[size..] == old(moves[size..])
  {
    ghost var orig := moves[..size];
    ghost var b := board[..];
    ghost var e := eps[..];
    ghost var vs := Verdicts(e, b, index, king, orig);
    var tmp := CopyBoard(board);
    VerdictsJudged(e, tmp[..], index, king, orig);
    newSize := Compact(eps, tmp, index, king, moves, size, orig, vs);
    if size > 0 {
      var n := size - 1;
      assert Verdicts(e, b, index, king, orig[..n]) == vs[..n];
    }
  }

  /** The loop of `eliminate_checked_moves`, given the verdicts `vs` of the candidates:
      an entry judged unsafe is overwritten by shifting the rest down, unless it is the
      last one. */
  method Compact(eps: array<int>, tmp: array<int>, index: int, king: int,
                 moves: array<int>, size: nat, ghost orig: seq<int>, ghost vs: seq<bool>)
    returns (newSize: nat)
    requires tmp.Length == 64 && OnBoard(index) && OnBoard(king)
    requires size <= moves.Length && moves != tmp && tmp != eps && moves != eps
    requires orig == moves[..size] && AllOnBoard(orig) && |vs| == size
    requires Judged(eps[..], tmp[..], index, king, orig, vs)
    modifies moves, tmp
    ensures newSize <= size && tmp[..] == old(tmp[..])
    ensures size == 0 ==> newSize == 0
    ensures size > 0 ==> moves[..newSize] == Filter(orig[..size - 1], vs[..size - 1]) + [orig[size - 1]]
    ensures moves[size..] == old(moves[size..])
  {
    ghost var tail := moves[size..];
    ghost var b := tmp[..];
    ghost var e := eps[..];
    newSize := size;
    ghost var p: nat := 0;
    var i: nat := 0;
    assert moves[..] == orig + tail;
    while i < newSize
      invariant Compacted(moves[..], orig, vs, tail, i, newSize, p)
      invariant tmp[..] == b && eps[..] == e
      decreases newSize - i
    {
      i, newSize := CompactStep(eps, tmp, index, king, moves, i, newSize, e, b, orig, vs, tail, p);
      p := p + 1;
    }
    CompactedDone(moves[..], orig, vs, tail, i, newSize, p);
  }

  /** One pass of the compaction loop: the candidate at `i` is tried; an unsafe one that
      is not the last is overwritten by shifting the waiting entries down, otherwise it
      is settled. */
  method CompactStep(eps: array<int>, tmp: array<int>, index: int, king: int, moves: array<int>, i: nat, n: nat,
                     ghost e: seq<int>, ghost b: seq<int>, ghost orig: seq<int>, ghost vs: seq<bool>,
                     ghost tail: seq<int>, ghost p: nat)
    returns (i': nat, n': nat)
    requires tmp.Length == 64 && moves != tmp && tmp != eps && moves != eps
    requires e == eps[..] && b == tmp[..] && Judged(e, b, index, king, orig, vs)
    requires Compacted(moves[..], orig, vs, tail, i, n, p) && i < n
    modifies moves, tmp
    ensures tmp[..] == b
    ensures Compacted(moves[..], orig, vs, tail, i', n', p + 1) && n' - i' == n - i - 1
  {
    CompactedCurrent(moves[..], orig, vs, tail, i, n, p);
    var to := moves[i];
    var checked := Judge(eps, tmp, index, king, to, e, b, orig, vs, p);
    if checked && i < n - 1 {
      ghost var before := moves[..];
      ShiftDown(moves, i, n);
      CompactedShift(before, moves[..], orig, vs, tail, i, n, p);
      i', n' := i, n - 1;
    } else {
      CompactedKeep(moves[..], orig, vs, tail, i, n, p);
      i', n' := i + 1, n;
    }
  }

  /** The state of the compaction loop over the array contents `m`: `i` entries are
      settled (the survivors among the first `p` candidates, or, once all `size` are
      taken, the survivors among all but the last followed by the last), the candidates
      from `p` on wait in `m[i..n]`, and the entries past the old size are untouched. */
  ghost predicate Compacted(m: seq<int>, orig: seq<int>, vs: seq<bool>, tail: seq<int>, i: nat, n: nat, p: nat)
    requires |vs| == |orig|
  {
    var size := |orig|;
    && i <= n <= size && i <= p <= size && n - i == size - p && |m| == size + |tail|
    && (p < size ==> m[..i] == Filter(orig[..p], vs[..p]))
    && (p == size && size > 0 ==> m[..i] == Filter(orig[..size - 1], vs[..size - 1]) + [orig[size - 1]])
    && m[i..n] == orig[p..]
    && m[size..] == tail
  }

  lemma CompactedCurrent(m: seq<int>, orig: seq<int>, vs: seq<bool>, tail: seq<int>, i: nat, n: nat, p: nat)
    requires |vs| == |orig| && Compacted(m, orig, vs, tail, i, n, p) && i < n
    ensures p < |orig| && m[i] == orig[p]
  {
    assert m[i..n][0] == m[i];
  }

  /** Shifting the waiting candidates down over an unsafe one that is not the last. */
  lemma CompactedShift(m: seq<int>, m': seq<int>, orig: seq<int>, vs: seq<bool>, tail: seq<int>, i: nat, n: nat, p: nat)
    requires |vs| == |orig| && Compacted(m, orig, vs, tail, i, n, p) && i < n - 1 && !vs[p]
    requires |m'| == |m| && m'[..i] == m[..i] && m'[i..n - 1] == m[i + 1..n] && m'[n - 1..] == m[n - 1..]
    ensures Compacted(m', orig, vs, tail, i, n - 1, p + 1)
  {
    var size := |orig|;
    FilterSnoc(orig, vs, p);
    assert m[i + 1..n] == orig[p + 1..] by {
      assert m[i + 1..n] == m[i..n][1..];
    }
    assert m'[size..] == m'[n - 1..][size - (n - 1)..];
    assert m[size..] == m[n - 1..][size - (n - 1)..];
  }

  /** Settling the current candidate: a safe one, or the last, whatever its verdict. */
  lemma CompactedKeep(m: seq<int>, orig: seq<int>, vs: seq<bool>, tail: seq<int>, i: nat, n: nat, p: nat)
    requires |vs| == |orig| && Compacted(m, orig, vs, tail, i, n, p) && i < n && (vs[p] || i == n - 1)
    ensures Compacted(m, orig, vs, tail, i + 1, n, p + 1)
  {
    CompactedCurrent(m, orig, vs, tail, i, n, p);
    FilterSnoc(orig, vs, p);
    assert m[..i + 1] == m[..i] + [m[i]];
    assert m[i + 1..n] == m[i..n][1..];
  }

  lemma CompactedDone(m: seq<int>, orig: seq<int>, vs: seq<bool>, tail: seq<int>, i: nat, n: nat, p: nat)
    requires |vs| == |orig| && Compacted(m, orig, vs, tail, i, n, p) && i == n
    ensures |orig| == 0 ==> n == 0
    ensures |orig| > 0 ==> m[..n] == Filter(orig[..|orig| - 1], vs[..|orig| - 1]) + [orig[|orig| - 1]]
    ensures n <= |orig| && |m| == |orig| + |tail| && m[|orig|..] == tail
  {
  }

  /** Moves the entries `i+1 .. size-1` one place down, overwriting entry `i`. */
  method ShiftDown(moves: array<int>, i: nat, size: nat)
    requires i < size <= moves.Length
    modifies moves
    ensures moves[..i] == old(moves[..i])
    ensures moves[i..size - 1] == old(moves[i + 1..size])
    ensures moves[size - 1..] == old(moves[size - 1..])
  {
    var j := i + 1;
    while j < size
      invariant i + 1 <= j <= size
      invariant moves[..i] == old(moves[..i])
      invariant moves[i..j - 1] == old(moves[i + 1..j])
      invariant moves[j - 1..] == old(moves[j - 1..])
    {
      moves[j - 1] := moves[j];
      j := j + 1;
    }
  }
}

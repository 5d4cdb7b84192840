/** Pseudo-legal move generation: the destination squares a piece's movement rule
    reaches on a 64-square board, ignoring the safety of the mover's own king.
    The functions are the specification; MoveUntilObstacle and ComputeMoves fill an
    output buffer through a running counter and are proved to write exactly them. */
module Moves {
  import opened Pieces
  import opened Squares
  import opened EnPassant

  predicate IsBoard(b: seq<int>) {
    |b| == 64
  }

  /** A square the mover may land on: on the board and empty or held by the other team. */
  predicate Available(b: seq<int>, team: TeamId, t: int)
    requires IsBoard(b) && (t == NONE || OnBoard(t))
  {
    t != NONE && (b[t] == NONE || Team(b[t]) != team)
  }

  /** A square on the board that holds a piece of the other team. */
  predicate Opposing(b: seq<int>, team: TeamId, t: int)
    requires IsBoard(b) && (t == NONE || OnBoard(t))
  {
    t != NONE && b[t] != NONE && Team(b[t]) != team
  }

  /** `[t]` when `c` holds, otherwise nothing: one conditional append to the move buffer. */
  function When(c: bool, t: int): (r: seq<int>)
    ensures |r| <= 1
    ensures forall m :: m in r <==> c && m == t
  {
    if c then [t] else []
  }

  /** The available squares among the candidate targets, in order. */
  function Landings(b: seq<int>, team: TeamId, ts: seq<int>): (r: seq<int>)
    requires IsBoard(b) && forall t :: t in ts ==> t == NONE || OnBoard(t)
    ensures |r| <= |ts|
    ensures forall m :: m in r <==> m in ts && Available(b, team, m)
  {
    if ts == [] then []
    else
      var last := ts[|ts| - 1];
      Landings(b, team, ts[..|ts| - 1]) + When(Available(b, team, last), last)
  }

  // ---------------------------------------------------------------------------
  // En passant detection.

  /** The conditions under which a diagonal move captures en passant: `to` is a diagonal
      advance of `from`, the square one retreat-step behind `to` holds a pawn of the
      other team, and that square is in the target set. */
  predicate CapturesEnPassant(eps: seq<int>, b: seq<int>, from: int, to: int)
    requires IsBoard(b)
  {
    && OnBoard(from) && OnBoard(to) && b[from] != NONE
    && var team := Team(b[from]);
    && (to == Step(AdvanceLeft, team, from) || to == Step(AdvanceRight, team, from))
    && var v := Step(Retreat, team, to);
    && v != NONE && b[v] != NONE && Type(b[v]) == PAWN && Team(b[v]) != team
    && v in eps
  }

  /** The square of the pawn a move from `from` to `to` captures en passant, or NONE. */
  function EnPassantTargetFromMove(eps: seq<int>, b: seq<int>, from: int, to: int): (r: int)
    requires IsBoard(b)
    ensures r != NONE <==> CapturesEnPassant(eps, b, from, to)
    ensures r != NONE ==> r == Step(Retreat, Team(b[from]), to)
  {
    if from < 0 || from > 63 || to < 0 || to > 63 || b[from] == NONE then NONE
    else
      var id := b[from];
      var team := Team(id);
      var left := Step(AdvanceLeft, team, from);
      var tmp := if left != to then Step(AdvanceRight, team, from) else left;
      if tmp != to then NONE
      else
        var v := Step(Retreat, team, tmp);
        if v == NONE then NONE
        else
          var idCmp := b[v];
          if idCmp == NONE then NONE
          else if Type(idCmp) != PAWN || Team(idCmp) == team then NONE
          else if IsEnPassantTarget(eps, v) then v
          else NONE
  }

  /** The captured pawn stands beside the capturing pawn: same rank, adjacent file. */
  lemma EnPassantVictimBeside(eps: seq<int>, b: seq<int>, from: int, to: int)
    requires IsBoard(b) && EnPassantTargetFromMove(eps, b, from, to) != NONE
    ensures var v := EnPassantTargetFromMove(eps, b, from, to);
      OnBoard(v) && Rank(v) == Rank(from) && (File(v) == File(from) - 1 || File(v) == File(from) + 1)
  {
    var team := Team(b[from]);
    StepGeometry(AdvanceLeft, team, from);
    StepGeometry(AdvanceRight, team, from);
    StepGeometry(Retreat, team, to);
    assert Step(Retreat, team, to) != NONE;
    if to == Step(AdvanceLeft, team, from) {
      DisplacedSquare(from, RankDelta(AdvanceLeft, team), FileDelta(AdvanceLeft, team));
    } else {
      DisplacedSquare(from, RankDelta(AdvanceRight, team), FileDelta(AdvanceRight, team));
    }
    DisplacedSquare(to, RankDelta(Retreat, team), FileDelta(Retreat, team));
  }

  // ---------------------------------------------------------------------------
  // Sliding rays.

  /** `move_until_obstacle`: the squares from `index` in direction `d` up to the first
      occupied one, which is included only when it holds a piece of the other team. */
  function Ray(d: Direction, team: TeamId, index: int, b: seq<int>): (r: seq<int>)
    requires IsBoard(b) && index < 64
    ensures |r| <= Reach(d, team, index)
    ensures forall m :: m in r ==> OnBoard(m)
    decreases Reach(d, team, index)
  {
    var i := Step(d, team, index);
    if i == NONE then []
    else
      StepReach(d, team, index);
      if b[i] != NONE then (if Team(b[i]) == team then [] else [i])
      else [i] + Ray(d, team, i, b)
  }

  /** One step of a ray: nothing off the board or on a piece of the team, the square
      alone on an opposing piece, the square and the ray beyond it on an empty square. */
  lemma RayUnfold(d: Direction, team: TeamId, i: int, b: seq<int>)
    requires IsBoard(b) && i < 64
    ensures var j := Step(d, team, i);
      && (j == NONE ==> Ray(d, team, i, b) == [])
      && (j != NONE && b[j] != NONE && Team(b[j]) == team ==> Ray(d, team, i, b) == [])
      && (j != NONE && b[j] != NONE && Team(b[j]) != team ==> Ray(d, team, i, b) == [j])
      && (j != NONE && b[j] == NONE ==> Ray(d, team, i, b) == [j] + Ray(d, team, j, b))
  {
  }

  /** `k` steps in direction `d`. */
  function StepN(d: Direction, team: TeamId, i: int, k: nat): (r: int)
    requires i < 64
    ensures r < 64
    ensures k > 0 ==> r == NONE || OnBoard(r)
  {
    if k == 0 then i else Step(d, team, StepN(d, team, i, k - 1))
  }

  lemma {:induction false} StepNShift(d: Direction, team: TeamId, i: int, k: nat)
    requires i < 64
    ensures StepN(d, team, i, k + 1) == StepN(d, team, Step(d, team, i), k)
  {
    if k > 0 {
      StepNShift(d, team, i, k - 1);
    }
  }

  lemma {:induction false} StepNFromNone(d: Direction, team: TeamId, i: int, k0: nat, k: nat)
    requires i < 64 && k0 <= k && StepN(d, team, i, k0) == NONE
    ensures StepN(d, team, i, k) == NONE
    decreases k - k0
  {
    if k > k0 {
      StepNFromNone(d, team, i, k0, k - 1);
    }
  }

  /** Every square strictly before the k-th step of the ray is on the board and empty. */
  predicate ClearBefore(d: Direction, team: TeamId, i: int, b: seq<int>, k: nat)
    requires IsBoard(b) && i < 64
  {
    forall j :: 1 <= j < k ==> var s := StepN(d, team, i, j); s != NONE && b[s] == NONE
  }

  /** The squares a ray reaches from `index`: the k-th step, when every earlier step is
      empty and the k-th is empty or held by the other team. So a ray stops at the first
      occupied square and includes it only when it holds an opposing piece. */
  ghost predicate RayReaches(d: Direction, team: TeamId, index: int, b: seq<int>, m: int)
    requires IsBoard(b) && index < 64
  {
    exists k: nat :: 1 <= k && StepN(d, team, index, k) == m && m != NONE
      && Available(b, team, m) && ClearBefore(d, team, index, b, k)
  }

  /** Beyond an occupied first step nothing is reached: only that step itself can be. */
  lemma RayReachesBlocked(d: Direction, team: TeamId, index: int, b: seq<int>, m: int)
    requires IsBoard(b) && index < 64
    requires var i := Step(d, team, index); i != NONE && b[i] != NONE
    ensures RayReaches(d, team, index, b, m) <==> m == Step(d, team, index) && Available(b, team, m)
  {
    assert StepN(d, team, index, 1) == Step(d, team, index);
    if RayReaches(d, team, index, b, m) {
      var k: nat :| 1 <= k && StepN(d, team, index, k) == m && m != NONE
        && Available(b, team, m) && ClearBefore(d, team, index, b, k);
    }
    if m == Step(d, team, index) && Available(b, team, m) {
      assert ClearBefore(d, team, index, b, 1);
    }
  }

  /** Prefixing an empty first step: the k-th square from the next square is the
      (k+1)-th from `index`, with every square before it empty. */
  lemma ClearBeforeShift(d: Direction, team: TeamId, index: int, b: seq<int>, k: nat)
    requires IsBoard(b) && index < 64
    requires var i := Step(d, team, index); i != NONE && b[i] == NONE
    ensures ClearBefore(d, team, Step(d, team, index), b, k) <==> ClearBefore(d, team, index, b, k + 1)
  {
    var i := Step(d, team, index);
    assert StepN(d, team, index, 1) == i;
    forall j | 1 <= j < k
      ensures StepN(d, team, index, j + 1) == StepN(d, team, i, j)
    {
      StepNShift(d, team, index, j);
    }
    if ClearBefore(d, team, index, b, k + 1) {
      forall j | 1 <= j < k
        ensures var s := StepN(d, team, i, j); s != NONE && b[s] == NONE
      {
        assert 1 <= j + 1 < k + 1;
      }
    }
    if ClearBefore(d, team, i, b, k) {
      forall j | 1 <= j < k + 1
        ensures var s := StepN(d, team, index, j); s != NONE && b[s] == NONE
      {
        if j > 1 {
          assert StepN(d, team, index, (j - 1) + 1) == StepN(d, team, i, j - 1);
        }
      }
    }
  }

  lemma RayReachesExtend(d: Direction, team: TeamId, index: int, b: seq<int>, m: int)
    requires IsBoard(b) && index < 64
    requires var i := Step(d, team, index); i != NONE && b[i] == NONE
    requires m == Step(d, team, index) || RayReaches(d, team, Step(d, team, index), b, m)
    ensures RayReaches(d, team, index, b, m)
  {
    var i := Step(d, team, index);
    assert StepN(d, team, index, 1) == i;
    if m == i {
      assert ClearBefore(d, team, index, b, 1);
    } else {
      var k: nat :| 1 <= k && StepN(d, team, i, k) == m && m != NONE
        && Available(b, team, m) && ClearBefore(d, team, i, b, k);
      StepNShift(d, team, index, k);
      ClearBeforeShift(d, team, index, b, k);
    }
  }

  lemma RayReachesRest(d: Direction, team: TeamId, index: int, b: seq<int>, m: int)
    requires IsBoard(b) && index < 64
    requires var i := Step(d, team, index); i != NONE && b[i] == NONE
    requires RayReaches(d, team, index, b, m) && m != Step(d, team, index)
    ensures RayReaches(d, team, Step(d, team, index), b, m)
  {
    var i := Step(d, team, index);
    assert StepN(d, team, index, 1) == i;
    var k: nat :| 1 <= k && StepN(d, team, index, k) == m && m != NONE
      && Available(b, team, m) && ClearBefore(d, team, index, b, k);
    StepNShift(d, team, index, k - 1);
    ClearBeforeShift(d, team, index, b, k - 1);
    assert StepN(d, team, i, k - 1) == m;
  }

  /** A ray from `index` is exactly the set of squares it reaches. */
  lemma {:induction false} RayMember(d: Direction, team: TeamId, index: int, b: seq<int>, m: int)
    requires IsBoard(b) && index < 64
    ensures m in Ray(d, team, index, b) <==> RayReaches(d, team, index, b, m)
    decreases Reach(d, team, index)
  {
    var i := Step(d, team, index);
    if i == NONE {
      assert StepN(d, team, index, 1) == i;
      if RayReaches(d, team, index, b, m) {
        var k: nat :| 1 <= k && StepN(d, team, index, k) == m && m != NONE
          && Available(b, team, m) && ClearBefore(d, team, index, b, k);
        StepNFromNone(d, team, index, 1, k);
      }
    } else {
      StepReach(d, team, index);
      if b[i] != NONE {
        RayReachesBlocked(d, team, index, b, m);
      } else {
        RayMember(d, team, i, b, m);
        if m == i || RayReaches(d, team, i, b, m) {
          RayReachesExtend(d, team, index, b, m);
        }
        if RayReaches(d, team, index, b, m) && m != i {
          RayReachesRest(d, team, index, b, m);
        }
      }
    }
  }

  /** The rays of several directions, concatenated in order. */
  function Slides(ds: seq<Direction>, team: TeamId, index: int, b: seq<int>): (r: seq<int>)
    requires IsBoard(b) && index < 64
    ensures |r| <= 7 * |ds|
    ensures forall m :: m in r ==> OnBoard(m)
  {
    if ds == [] then [] else Slides(ds[..|ds| - 1], team, index, b) + Ray(ds[|ds| - 1], team, index, b)
  }

  lemma {:induction false} SlidesMember(ds: seq<Direction>, team: TeamId, index: int, b: seq<int>, m: int)
    requires IsBoard(b) && index < 64
    ensures m in Slides(ds, team, index, b) <==> exists k :: 0 <= k < |ds| && m in Ray(ds[k], team, index, b)
  {
    if ds != [] {
      SlidesMember(ds[..|ds| - 1], team, index, b, m);
      assert forall k :: 0 <= k < |ds| - 1 ==> ds[k] == ds[..|ds| - 1][k];
    }
  }

  const BishopDirections: seq<Direction> := [AdvanceLeft, AdvanceRight, RetreatLeft, RetreatRight]
  const RookDirections: seq<Direction> := [Advance, Retreat, Left, Right]
  const QueenDirections: seq<Direction> := BishopDirections + RookDirections

  // ---------------------------------------------------------------------------
  // Knight, king and pawn.

  /** A knight's path: three single steps taken in order. */
  datatype Path = Path(first: Direction, second: Direction, third: Direction)

  /** The square at the end of a path (NONE once a step fails). */
  function Walk(p: Path, team: TeamId, i: int): (r: int)
    requires i < 64
    ensures r == NONE || OnBoard(r)
  {
    Step(p.third, team, Step(p.second, team, Step(p.first, team, i)))
  }

  /** The squares the paths reach, one per path and in the same order. */
  function PathTargets(paths: seq<Path>, team: TeamId, i: int): (ts: seq<int>)
    requires i < 64
    ensures |ts| == |paths|
    ensures forall k :: 0 <= k < |ts| ==> ts[k] == Walk(paths[k], team, i)
    ensures forall t :: t in ts ==> t == NONE || OnBoard(t)
  {
    if paths == [] then [] else [Walk(paths[0], team, i)] + PathTargets(paths[1..], team, i)
  }

  /** The squares one step away in each direction, in the same order. */
  function StepTargets(ds: seq<Direction>, team: TeamId, i: int): (ts: seq<int>)
    requires i < 64
    ensures |ts| == |ds|
    ensures forall k :: 0 <= k < |ts| ==> ts[k] == Step(ds[k], team, i)
    ensures forall t :: t in ts ==> t == NONE || OnBoard(t)
  {
    if ds == [] then [] else [Step(ds[0], team, i)] + StepTargets(ds[1..], team, i)
  }

  /** The knight's eight candidate paths, in the generator's order: two steps forward
      then one sideways, two back then one sideways, two left then forward or back, two
      right then forward or back. */
  const KnightPaths: seq<Path> := [
    Path(Advance, Advance, Left), Path(Advance, Advance, Right),
    Path(Retreat, Retreat, Left), Path(Retreat, Retreat, Right),
    Path(Left, Left, Advance), Path(Left, Left, Retreat),
    Path(Right, Right, Advance), Path(Right, Right, Retreat)]

  /** The king's eight directions, in the generator's order. */
  const KingDirections: seq<Direction> := [
    Advance, Retreat, Left, Right, AdvanceLeft, AdvanceRight, RetreatLeft, RetreatRight]

  function KnightTargets(team: TeamId, index: int): (ts: seq<int>)
    requires index < 64
    ensures |ts| == 8 && forall t :: t in ts ==> t == NONE || OnBoard(t)
  {
    PathTargets(KnightPaths, team, index)
  }

  function KingTargets(team: TeamId, index: int): (ts: seq<int>)
    requires index < 64
    ensures |ts| == 8 && forall t :: t in ts ==> t == NONE || OnBoard(t)
  {
    StepTargets(KingDirections, team, index)
  }

  function KnightMoves(b: seq<int>, team: TeamId, index: int): (r: seq<int>)
    requires IsBoard(b) && index < 64
    ensures |r| <= 8
    ensures forall m :: m in r ==> OnBoard(m)
  {
    Landings(b, team, KnightTargets(team, index))
  }

  function KingMoves(b: seq<int>, team: TeamId, index: int): (r: seq<int>)
    requires IsBoard(b) && index < 64
    ensures |r| <= 8
    ensures forall m :: m in r ==> OnBoard(m)
  {
    Landings(b, team, KingTargets(team, index))
  }

  /** The rank a team's pawns start on: indices 8-15 for the first team, 48-55 for the second. */
  predicate OnHomeRank(team: TeamId, index: int) {
    (team == FIRST && 8 <= index < 16) || (team == SECOND && 48 <= index < 56)
  }

  function PawnMoves(eps: seq<int>, b: seq<int>, team: TeamId, index: int): (r: seq<int>)
    requires IsBoard(b) && OnBoard(index)
    ensures |r| <= 6
    ensures forall m :: m in r ==> OnBoard(m)
  {
    var fore := Step(Advance, team, index);
    if fore == NONE then []
    else
      When(b[fore] == NONE, fore)
      + PawnCaptures(eps, b, team, index)
      + (if OnHomeRank(team, index) && b[fore] == NONE then
           var two := Step(Advance, team, fore);
           When(two != NONE && b[two] == NONE, two)
         else [])
  }

  /** The diagonal squares a pawn may take: onto an opposing piece, then en passant. */
  function PawnCaptures(eps: seq<int>, b: seq<int>, team: TeamId, index: int): (r: seq<int>)
    requires IsBoard(b) && OnBoard(index)
    ensures |r| <= 4
    ensures forall m :: m in r ==> OnBoard(m)
  {
    var left := Step(AdvanceLeft, team, index);
    var right := Step(AdvanceRight, team, index);
    When(Opposing(b, team, left), left)
    + When(Opposing(b, team, right), right)
    + When(EnPassantTargetFromMove(eps, b, index, left) != NONE, left)
    + When(EnPassantTargetFromMove(eps, b, index, right) != NONE, right)
  }

  /** `compute_moves`: the pseudo-legal destinations of the piece on `index`; an empty
      square, or a value whose type is no piece type, has none. */
  function PseudoMoves(eps: seq<int>, b: seq<int>, index: int): (r: seq<int>)
    requires IsBoard(b) && OnBoard(index)
    ensures forall m :: m in r ==> OnBoard(m)
    ensures b[index] == NONE ==> r == []
    ensures |r| <= (if Type(b[index]) == QUEEN then 56 else 28)
    ensures Type(b[index]) == KING ==> |r| <= 8
  {
    var id := b[index];
    if id == NONE then []
    else
      var ty := Type(id);
      var team := Team(id);
      if ty == PAWN then PawnMoves(eps, b, team, index)
      else if ty == BISHOP then Slides(BishopDirections, team, index, b)
      else if ty == ROOK then Slides(RookDirections, team, index, b)
      else if ty == KNIGHT then KnightMoves(b, team, index)
      else if ty == QUEEN then Slides(QueenDirections, team, index, b)
      else if ty == KING then KingMoves(b, team, index)
      else []
  }

  // ---------------------------------------------------------------------------
  // Membership of a move list.

  function ContainsFrom(moves: seq<int>, size: nat, index: int, i: nat): (r: bool)
    requires i <= size <= |moves|
    ensures r <==> exists j :: i <= j < size && moves[j] == index
    decreases size - i
  {
    if i == size then false
    else if moves[i] == index then true
    else ContainsFrom(moves, size, index, i + 1)
  }

  /** `chess_contains_move`: whether `index` occurs among the first `size` entries. */
  function ContainsMove(moves: seq<int>, size: nat, index: int): (r: bool)
    requires size <= |moves|
    ensures r <==> index in moves[..size]
  {
    var r := ContainsFrom(moves, size, index, 0);
    assert r <==> index in moves[..size] by {
      if index in moves[..size] {
        var j :| 0 <= j < size && moves[..size][j] == index;
        assert moves[j] == index;
      }
    }
    r
  }

  // ---------------------------------------------------------------------------
  // Properties of the generator.

  /** Every destination is on the board and empty or held by the other team; the one
      exception is a pawn's en-passant diagonal, whose own square is never examined. */
  lemma {:induction false} SlidesAvailable(ds: seq<Direction>, team: TeamId, index: int, b: seq<int>, m: int)
    requires IsBoard(b) && index < 64 && m in Slides(ds, team, index, b)
    ensures Available(b, team, m)
  {
    SlidesMember(ds, team, index, b, m);
    var k :| 0 <= k < |ds| && m in Ray(ds[k], team, index, b);
    RayMember(ds[k], team, index, b, m);
  }

  lemma PseudoMovesOccupancy(eps: seq<int>, b: seq<int>, index: int, m: int)
    requires IsBoard(b) && OnBoard(index) && m in PseudoMoves(eps, b, index)
    ensures Available(b, Team(b[index]), m)
      || (Type(b[index]) == PAWN && CapturesEnPassant(eps, b, index, m))
  {
    var ty, team := Type(b[index]), Team(b[index]);
    if ty == BISHOP {
      SlidesAvailable(BishopDirections, team, index, b, m);
    } else if ty == ROOK {
      SlidesAvailable(RookDirections, team, index, b, m);
    } else if ty == QUEEN {
      SlidesAvailable(QueenDirections, team, index, b, m);
    }
  }

  // ---------------------------------------------------------------------------
  // Geometry of the generator.

  /** `k` times a unit delta (-1, 0 or 1), written without multiplication. */
  function Scale(k: nat, delta: int): int {
    if delta > 0 then k else if delta < 0 then -(k as int) else 0
  }

  /** One more unit step extends a scaled displacement by one. */
  lemma ScaledCompose(i: int, k: nat, dr: int, df: int)
    requires OnBoard(i) && k > 0 && -1 <= dr <= 1 && -1 <= df <= 1
    ensures Displaced(Displaced(i, Scale(k - 1, dr), Scale(k - 1, df)), dr, df)
      == Displaced(i, Scale(k, dr), Scale(k, df))
  {
    DisplacedCompose(i, Scale(k - 1, dr), Scale(k - 1, df), dr, df);
  }

  /** k steps in one direction are the displacement scaled by k. */
  lemma {:induction false} StepNGeometry(d: Direction, team: TeamId, i: int, k: nat)
    requires OnBoard(i)
    ensures StepN(d, team, i, k) == Displaced(i, Scale(k, RankDelta(d, team)), Scale(k, FileDelta(d, team)))
  {
    var dr, df := RankDelta(d, team), FileDelta(d, team);
    assert -1 <= dr <= 1 && -1 <= df <= 1;
    if k == 0 {
      assert Displaced(i, Scale(0, dr), Scale(0, df)) == i;
    } else {
      StepNGeometry(d, team, i, k - 1);
      var p := StepN(d, team, i, k - 1);
      assert StepN(d, team, i, k) == Step(d, team, p);
      StepGeometry(d, team, p);
      ScaledCompose(i, k, dr, df);
    }
  }

  /** A square a ray reaches lies k squares away along the ray's direction. */
  lemma RayOnLine(d: Direction, team: TeamId, index: int, b: seq<int>, m: int)
    requires IsBoard(b) && OnBoard(index) && m in Ray(d, team, index, b)
    ensures exists k: nat :: (1 <= k && Rank(m) == Rank(index) + Scale(k, RankDelta(d, team))
      && File(m) == File(index) + Scale(k, FileDelta(d, team)))
  {
    RayMember(d, team, index, b, m);
    var k: nat :| 1 <= k && StepN(d, team, index, k) == m && m != NONE
      && Available(b, team, m) && ClearBefore(d, team, index, b, k);
    StepNGeometry(d, team, index, k);
    DisplacedSquare(index, Scale(k, RankDelta(d, team)), Scale(k, FileDelta(d, team)));
  }

  /** A ray along a rank or a file stays on it; a diagonal ray stays on its diagonal. */
  lemma RayStraight(d: Direction, team: TeamId, index: int, b: seq<int>, m: int)
    requires IsBoard(b) && OnBoard(index) && m in Ray(d, team, index, b)
    requires RankDelta(d, team) == 0 || FileDelta(d, team) == 0
    ensures m != index && (Rank(m) == Rank(index) || File(m) == File(index))
  {
    RayOnLine(d, team, index, b, m);
  }

  lemma RayDiagonal(d: Direction, team: TeamId, index: int, b: seq<int>, m: int)
    requires IsBoard(b) && OnBoard(index) && m in Ray(d, team, index, b)
    requires d.AdvanceLeft? || d.AdvanceRight? || d.RetreatLeft? || d.RetreatRight?
    ensures m != index
    ensures Rank(m) - Rank(index) == File(m) - File(index)
      || Rank(m) - Rank(index) == File(index) - File(m)
  {
    RayOnLine(d, team, index, b, m);
  }

  /** Rook moves stay on the rank or the file; bishop moves stay on a diagonal. */
  lemma RookMovesStraight(team: TeamId, index: int, b: seq<int>, m: int)
    requires IsBoard(b) && OnBoard(index) && m in Slides(RookDirections, team, index, b)
    ensures m != index && (Rank(m) == Rank(index) || File(m) == File(index))
  {
    SlidesMember(RookDirections, team, index, b, m);
    var j :| 0 <= j < 4 && m in Ray(RookDirections[j], team, index, b);
    RayStraight(RookDirections[j], team, index, b, m);
  }

  lemma BishopMovesDiagonal(team: TeamId, index: int, b: seq<int>, m: int)
    requires IsBoard(b) && OnBoard(index) && m in Slides(BishopDirections, team, index, b)
    ensures m != index
    ensures Rank(m) - Rank(index) == File(m) - File(index)
      || Rank(m) - Rank(index) == File(index) - File(m)
  {
    SlidesMember(BishopDirections, team, index, b, m);
    var j :| 0 <= j < 4 && m in Ray(BishopDirections[j], team, index, b);
    assert j == 0 || j == 1 || j == 2 || j == 3;
    RayDiagonal(BishopDirections[j], team, index, b, m);
  }

  function Abs(x: int): int {
    if x < 0 then -x else x
  }

  /** Squares one king step apart: at most one rank and one file away, and distinct. */
  predicate Adjacent(i: int, m: int) {
    var dr := Rank(m) - Rank(i);
    var df := File(m) - File(i);
    Abs(dr) <= 1 && Abs(df) <= 1 && (dr != 0 || df != 0)
  }

  /** Squares a knight's jump apart: two ranks and one file, or one rank and two files. */
  predicate KnightJump(i: int, m: int) {
    var dr := Abs(Rank(m) - Rank(i));
    var df := Abs(File(m) - File(i));
    (dr == 2 && df == 1) || (dr == 1 && df == 2)
  }

  /** The total rank and file displacement of a path. */
  function PathRank(p: Path, team: TeamId): int {
    RankDelta(p.first, team) + RankDelta(p.second, team) + RankDelta(p.third, team)
  }

  function PathFile(p: Path, team: TeamId): int {
    FileDelta(p.first, team) + FileDelta(p.second, team) + FileDelta(p.third, team)
  }

  /** Every intermediate square of the path from (rank, file) stays on the board. */
  predicate PathOnBoard(p: Path, team: TeamId, rank: int, file: int) {
    var r1, f1 := rank + RankDelta(p.first, team), file + FileDelta(p.first, team);
    var r2, f2 := r1 + RankDelta(p.second, team), f1 + FileDelta(p.second, team);
    0 <= r1 < 8 && 0 <= f1 < 8 && 0 <= r2 < 8 && 0 <= f2 < 8
  }

  /** A defined walk moves by the path's total displacement. */
  lemma WalkDelta(p: Path, team: TeamId, i: int)
    requires i < 64 && Walk(p, team, i) != NONE
    ensures var s := Walk(p, team, i);
      OnBoard(i) && Rank(s) == Rank(i) + PathRank(p, team) && File(s) == File(i) + PathFile(p, team)
  {
    var j1 := Step(p.first, team, i);
    var j2 := Step(p.second, team, j1);
    StepDelta(p.third, team, j2);
    StepDelta(p.second, team, j1);
    StepDelta(p.first, team, i);
  }

  /** A walk whose end and intermediate squares lie on the board lands on its end square. */
  lemma WalkLands(p: Path, team: TeamId, i: int, m: int)
    requires OnBoard(i) && OnBoard(m) && PathOnBoard(p, team, Rank(i), File(i))
    requires Rank(m) == Rank(i) + PathRank(p, team) && File(m) == File(i) + PathFile(p, team)
    ensures Walk(p, team, i) == m
  {
    var j1 := Step(p.first, team, i);
    StepDefined(p.first, team, i);
    StepDelta(p.first, team, i);
    var j2 := Step(p.second, team, j1);
    StepDefined(p.second, team, j1);
    StepDelta(p.second, team, j1);
    SquareOf(m);
    StepDefined(p.third, team, j2);
    StepDelta(p.third, team, j2);
    SquareOf(Walk(p, team, i));
  }

  lemma KnightPathsJump(team: TeamId, k: int)
    requires 0 <= k < 8
    ensures var dr, df := Abs(PathRank(KnightPaths[k], team)), Abs(PathFile(KnightPaths[k], team));
      (dr == 2 && df == 1) || (dr == 1 && df == 2)
  {
  }

  /** The entry of the knight table whose displacement is (dr, df). */
  function KnightPathIndex(team: TeamId, dr: int, df: int): (k: int)
    requires (Abs(dr) == 2 && Abs(df) == 1) || (Abs(dr) == 1 && Abs(df) == 2)
    ensures 0 <= k < 8
    ensures PathRank(KnightPaths[k], team) == dr && PathFile(KnightPaths[k], team) == df
  {
    var f := Forward(team);
    if dr == 2 * f && df == -f then 0
    else if dr == 2 * f then 1
    else if dr == -2 * f && df == -f then 2
    else if dr == -2 * f then 3
    else if df == -2 * f && dr == f then 4
    else if df == -2 * f then 5
    else if dr == f then 6
    else 7
  }

  lemma KnightTargetJumps(team: TeamId, index: int, m: int)
    requires OnBoard(index) && m in KnightTargets(team, index) && m != NONE
    ensures OnBoard(m) && KnightJump(index, m)
  {
    var ts := KnightTargets(team, index);
    var k :| 0 <= k < 8 && ts[k] == m;
    WalkDelta(KnightPaths[k], team, index);
    KnightPathsJump(team, k);
  }

  /** Any jump whose landing square is on the board stays on the board part-way. */
  lemma KnightPathOnBoard(team: TeamId, index: int, m: int)
    requires OnBoard(index) && OnBoard(m) && KnightJump(index, m)
    ensures var k := KnightPathIndex(team, Rank(m) - Rank(index), File(m) - File(index));
      PathOnBoard(KnightPaths[k], team, Rank(index), File(index))
  {
    SquareOf(index);
    SquareOf(m);
  }

  lemma JumpIsKnightTarget(team: TeamId, index: int, m: int)
    requires OnBoard(index) && OnBoard(m) && KnightJump(index, m)
    ensures m in KnightTargets(team, index)
  {
    var ts := KnightTargets(team, index);
    var k := KnightPathIndex(team, Rank(m) - Rank(index), File(m) - File(index));
    KnightPathOnBoard(team, index, m);
    WalkLands(KnightPaths[k], team, index, m);
    assert ts[k] == m;
  }

  /** The knight's destinations are exactly the available squares a jump away. */
  lemma KnightMovesGeometry(b: seq<int>, team: TeamId, index: int, m: int)
    requires IsBoard(b) && OnBoard(index)
    ensures m in KnightMoves(b, team, index) <==> OnBoard(m) && KnightJump(index, m) && Available(b, team, m)
  {
    if m in KnightTargets(team, index) && m != NONE {
      KnightTargetJumps(team, index, m);
    }
    if OnBoard(m) && KnightJump(index, m) {
      JumpIsKnightTarget(team, index, m);
    }
  }

  lemma KingTargetAdjacent(team: TeamId, index: int, m: int)
    requires OnBoard(index) && m in KingTargets(team, index) && m != NONE
    ensures OnBoard(m) && Adjacent(index, m)
  {
    var ts := KingTargets(team, index);
    var k :| 0 <= k < 8 && ts[k] == m;
    StepDelta(KingDirections[k], team, index);
  }

  /** The position of each direction in the king's table. */
  function KingSlot(d: Direction): (k: int)
    ensures 0 <= k < 8 && KingDirections[k] == d
  {
    match d
    case Advance => 0
    case Retreat => 1
    case Left => 2
    case Right => 3
    case AdvanceLeft => 4
    case AdvanceRight => 5
    case RetreatLeft => 6
    case RetreatRight => 7
  }

  lemma AdjacentIsKingTarget(team: TeamId, index: int, m: int)
    requires OnBoard(index) && OnBoard(m) && Adjacent(index, m)
    ensures m in KingTargets(team, index)
  {
    var d := DirectionOf(team, Rank(m) - Rank(index), File(m) - File(index));
    DisplacementIsStep(d, team, index, m);
    assert KingTargets(team, index)[KingSlot(d)] == m;
  }

  /** The king's destinations are exactly the available adjacent squares. */
  lemma KingMovesGeometry(b: seq<int>, team: TeamId, index: int, m: int)
    requires IsBoard(b) && OnBoard(index)
    ensures m in KingMoves(b, team, index) <==> OnBoard(m) && Adjacent(index, m) && Available(b, team, m)
  {
    if m in KingTargets(team, index) && m != NONE {
      KingTargetAdjacent(team, index, m);
    }
    if OnBoard(m) && Adjacent(index, m) {
      AdjacentIsKingTarget(team, index, m);
    }
  }

  /** A defined step moves by its direction's deltas. */
  lemma StepDelta(d: Direction, team: TeamId, j: int)
    requires j < 64 && Step(d, team, j) != NONE
    ensures var s := Step(d, team, j);
      OnBoard(j) && Rank(s) == Rank(j) + RankDelta(d, team) && File(s) == File(j) + FileDelta(d, team)
  {
    StepGeometry(d, team, j);
    DisplacedSquare(j, RankDelta(d, team), FileDelta(d, team));
  }

  /** A step whose deltas stay on the board is defined. */
  lemma StepDefined(d: Direction, team: TeamId, j: int)
    requires OnBoard(j)
    requires 0 <= Rank(j) + RankDelta(d, team) < 8 && 0 <= File(j) + FileDelta(d, team) < 8
    ensures Step(d, team, j) != NONE
  {
    StepGeometry(d, team, j);
  }

  // ---------------------------------------------------------------------------
  // Pawns.

  predicate IsPawnOf(b: seq<int>, index: int, team: TeamId)
    requires IsBoard(b) && OnBoard(index)
  {
    b[index] != NONE && Type(b[index]) == PAWN && Team(b[index]) == team
  }

  /** Membership in the pawn's list, one case per generated square. */
  lemma PawnMember(eps: seq<int>, b: seq<int>, team: TeamId, index: int, m: int)
    requires IsBoard(b) && OnBoard(index)
    ensures var fore := Step(Advance, team, index);
      var left, right := Step(AdvanceLeft, team, index), Step(AdvanceRight, team, index);
      m in PawnMoves(eps, b, team, index) <==>
        && fore != NONE
        && ((b[fore] == NONE && m == fore)
            || (m == left && (Opposing(b, team, left) || EnPassantTargetFromMove(eps, b, index, left) != NONE))
            || (m == right && (Opposing(b, team, right) || EnPassantTargetFromMove(eps, b, index, right) != NONE))
            || (OnHomeRank(team, index) && b[fore] == NONE && Step(Advance, team, fore) != NONE
                && b[Step(Advance, team, fore)] == NONE && m == Step(Advance, team, fore)))
  {
  }

  /** A pawn move that stays on the pawn's file is a push onto an empty square: one
      square forward, or two from the home rank over an empty square. */
  lemma PawnPushes(eps: seq<int>, b: seq<int>, team: TeamId, index: int, m: int)
    requires IsBoard(b) && OnBoard(index) && IsPawnOf(b, index, team)
    requires m in PseudoMoves(eps, b, index) && File(m) == File(index)
    ensures b[m] == NONE
    ensures var fore := Step(Advance, team, index);
      (m == fore && Rank(m) == Rank(index) + Forward(team))
      || (OnHomeRank(team, index) && b[fore] == NONE && m == Step(Advance, team, fore)
          && Rank(m) == Rank(index) + 2 * Forward(team))
  {
    PawnMember(eps, b, team, index, m);
    var fore := Step(Advance, team, index);
    StepDelta(Advance, team, index);
    if m == Step(AdvanceLeft, team, index) {
      StepDelta(AdvanceLeft, team, index);
      assert false;
    }
    if m == Step(AdvanceRight, team, index) {
      StepDelta(AdvanceRight, team, index);
      assert false;
    }
    if m != fore {
      StepDelta(Advance, team, fore);
    }
  }

  /** A pawn move that changes file is one diagonal step forward, onto an opposing piece
      or as an en-passant capture. */
  lemma PawnDiagonals(eps: seq<int>, b: seq<int>, team: TeamId, index: int, m: int)
    requires IsBoard(b) && OnBoard(index) && IsPawnOf(b, index, team)
    requires m in PseudoMoves(eps, b, index) && File(m) != File(index)
    ensures m == Step(AdvanceLeft, team, index) || m == Step(AdvanceRight, team, index)
    ensures Rank(m) == Rank(index) + Forward(team) && Abs(File(m) - File(index)) == 1
    ensures Opposing(b, team, m) || CapturesEnPassant(eps, b, index, m)
  {
    var fore := Step(Advance, team, index);
    StepDelta(Advance, team, index);
    var two := Step(Advance, team, fore);
    if two != NONE { StepDelta(Advance, team, fore); }
    var left, right := Step(AdvanceLeft, team, index), Step(AdvanceRight, team, index);
    if m == left { StepDelta(AdvanceLeft, team, index); }
    if m == right { StepDelta(AdvanceRight, team, index); }
  }

  /** Every move the pawn rule allows is generated. */
  lemma PawnMovesComplete(eps: seq<int>, b: seq<int>, team: TeamId, index: int)
    requires IsBoard(b) && OnBoard(index) && IsPawnOf(b, index, team)
    ensures var fore := Step(Advance, team, index);
      fore != NONE ==>
        var ms := PseudoMoves(eps, b, index);
        && (b[fore] == NONE ==> fore in ms)
        && (forall t :: t in [Step(AdvanceLeft, team, index), Step(AdvanceRight, team, index)] ==>
              (Opposing(b, team, t) || CapturesEnPassant(eps, b, index, t)) ==> t in ms)
        && (OnHomeRank(team, index) && b[fore] == NONE ==>
              var two := Step(Advance, team, fore);
              two != NONE && b[two] == NONE ==> two in ms)
  {
  }

  /** The en-passant diagonal is produced without looking at the diagonal square itself:
      with a pawn on e5 (36), an opposing pawn on d5 (35) in the target set and the
      mover's own knight on d6 (43), the pawn is offered d6. */
  lemma EnPassantOntoOwnPiece()
    ensures var b := seq(64, i => if i == 36 then PAWN else if i == 35 then 8 + PAWN
                                 else if i == 43 then KNIGHT else NONE);
      var eps := [35] + seq(15, _ => NONE);
      43 in PseudoMoves(eps, b, 36) && b[43] != NONE && Team(b[43]) == Team(b[36])
  {
    var b := seq(64, i => if i == 36 then PAWN else if i == 35 then 8 + PAWN
                         else if i == 43 then KNIGHT else NONE);
    var eps := [35] + seq(15, _ => NONE);
    assert Step(AdvanceLeft, FIRST, 36) == 43;
    assert CapturesEnPassant(eps, b, 36, 43);
  }

  // ---------------------------------------------------------------------------
  // The generator over arrays: moves are appended to `out` through a running count.

  /** One step of `move_until_obstacle`: the next square `j` in direction `d`; whether
      it is taken (it is on the board and holds no piece of the team) and whether the
      ray goes on past it (it is taken and empty). */
  method RayNext(d: Direction, team: TeamId, i: int, board: array<int>) returns (j: int, take: bool, more: bool)
    requires board.Length == 64 && i < 64
    ensures take ==> OnBoard(j)
    ensures more ==> take
    ensures Ray(d, team, i, board[..]) == When(take, j) + (if more then Ray(d, team, j, board[..]) else [])
  {
    RayUnfold(d, team, i, board[..]);
    j := Step(d, team, i);
    if j == NONE {
      return j, false, false;
    }
    var occupied := board[j] != NONE;
    if occupied && Team(board[j]) == team {
      return j, false, false;
    }
    take := true;
    more := !occupied;
  }

  lemma AppendAssoc(a: seq<int>, b: seq<int>, c: seq<int>)
    ensures (a + b) + c == a + (b + c)
  {
  }

  /** One pass of the loop of `move_until_obstacle`: appends the next square when it is
      taken and says whether the ray goes on from it. `done` is what the loop has
      appended after `prefix` so far. */
  method RayExtend(d: Direction, team: TeamId, i: int, board: array<int>, out: array<int>, size: nat,
                   ghost b: seq<int>, ghost prefix: seq<int>, ghost done: seq<int>)
    returns (j: int, more: bool, newSize: nat, ghost newDone: seq<int>)
    requires board.Length == 64 && i < 64 && out != board && b == board[..]
    requires size == |prefix| + |done| && size + |Ray(d, team, i, b)| <= out.Length
    requires out[..size] == prefix + done
    modifies out
    ensures more ==> j < 64 && |newDone| == |done| + 1
    ensures newSize <= out.Length && newSize == |prefix| + |newDone| && out[..newSize] == prefix + newDone
    ensures done + Ray(d, team, i, b) == newDone + (if more then Ray(d, team, j, b) else [])
  {
    var take;
    j, take, more := RayNext(d, team, i, board);
    newSize := PushIf(take, j, out, size);
    AppendAssoc(prefix, done, When(take, j));
    AppendAssoc(done, When(take, j), if more then Ray(d, team, j, b) else []);
    newDone := done + When(take, j);
  }

  /** `move_until_obstacle`: appends the ray from `index` in direction `d` at `out[n..]`. */
  method MoveUntilObstacle(d: Direction, team: TeamId, index: int, board: array<int>, out: array<int>, n: nat)
    returns (size: nat)
    requires board.Length == 64 && index < 64 && n + 7 <= out.Length && out != board
    modifies out
    ensures size == n + |Ray(d, team, index, board[..])|
    ensures out[..size] == old(out[..n]) + Ray(d, team, index, board[..])
  {
    ghost var b := board[..];
    ghost var prefix := out[..n];
    ghost var done: seq<int> := [];
    ghost var all := Ray(d, team, index, b);
    var i := index;
    size := n;
    while true
      invariant i < 64 && size == n + |done| && |all| <= 7
      invariant done + Ray(d, team, i, b) == all
      invariant out[..size] == prefix + done
      decreases 7 - |done|
    {
      var j, more;
      j, more, size, done := RayExtend(d, team, i, board, out, size, b, prefix, done);
      if !more {
        assert done + [] == done;
        return;
      }
      i := j;
    }
  }

  /** Appends the rays of `ds` in order. */
  method SlideAll(ds: seq<Direction>, team: TeamId, index: int, board: array<int>, out: array<int>)
    returns (size: nat)
    requires board.Length == 64 && index < 64 && 7 * |ds| <= out.Length && out != board
    modifies out
    ensures size <= 7 * |ds|
    ensures out[..size] == Slides(ds, team, index, board[..])
  {
    size := 0;
    for k := 0 to |ds|
      invariant size <= 7 * k
      invariant out[..size] == Slides(ds[..k], team, index, board[..])
    {
      size := MoveUntilObstacle(ds[k], team, index, board, out, size);
      assert ds[..k + 1][..k] == ds[..k];
    }
    assert ds[..|ds|] == ds;
  }

  /** Appends `v` when `c` holds. */
  method PushIf(c: bool, v: int, out: array<int>, n: nat) returns (size: nat)
    requires n <= out.Length && (c ==> n < out.Length)
    modifies out
    ensures size == n + |When(c, v)|
    ensures out[..size] == old(out[..n]) + When(c, v)
  {
    size := n;
    if c {
      out[n] := v;
      size := n + 1;
    }
  }

  /** Appends the available squares among `ts`, in order. */
  method LandAll(team: TeamId, ts: seq<int>, board: array<int>, out: array<int>) returns (size: nat)
    requires board.Length == 64 && |ts| <= out.Length && out != board
    requires forall t :: t in ts ==> t == NONE || OnBoard(t)
    modifies out
    ensures size <= |ts|
    ensures out[..size] == Landings(board[..], team, ts)
  {
    ghost var b := board[..];
    size := 0;
    for k := 0 to |ts|
      invariant size <= k
      invariant out[..size] == Landings(b, team, ts[..k])
    {
      var t := ts[k];
      assert t in ts;
      var ok := t != NONE && (board[t] == NONE || Team(board[t]) != team);
      assert ts[..k + 1][..k] == ts[..k];
      assert Landings(b, team, ts[..k + 1]) == Landings(b, team, ts[..k]) + When(ok, t);
      size := PushIf(ok, t, out, size);
    }
    assert ts[..|ts|] == ts;
  }

  /** The pawn branch of `compute_moves`. */
  method PawnInto(eps: array<int>, board: array<int>, team: TeamId, index: int, out: array<int>)
    returns (size: nat)
    requires board.Length == 64 && OnBoard(index) && 6 <= out.Length && out != board && out != eps
    modifies out
    ensures size <= 6
    ensures out[..size] == PawnMoves(eps[..], board[..], team, index)
  {
    var fore := Step(Advance, team, index);
    if fore == NONE {
      return 0;
    }
    var empty := board[fore] == NONE;
    var two := Step(Advance, team, fore);
    var double := OnHomeRank(team, index) && empty && two != NONE && board[two] == NONE;
    size := PushIf(empty, fore, out, 0);
    assert out[..size] == When(empty, fore);
    size := PawnCapturesInto(eps, board, team, index, out, size);
    size := PushIf(double, two, out, size);
  }

  /** The four diagonal appends of the pawn branch: captures of opposing pieces first,
      then en-passant captures, left before right. */
  method PawnCapturesInto(eps: array<int>, board: array<int>, team: TeamId, index: int, out: array<int>, n: nat)
    returns (size: nat)
    requires board.Length == 64 && OnBoard(index) && n + 5 <= out.Length && out != board && out != eps
    modifies out
    ensures size == n + |PawnCaptures(eps[..], board[..], team, index)|
    ensures out[..size] == old(out[..n]) + PawnCaptures(eps[..], board[..], team, index)
  {
    var b, ep := board[..], eps[..];
    var left := Step(AdvanceLeft, team, index);
    var right := Step(AdvanceRight, team, index);
    ghost var pre := out[..n];
    ghost var w1, w2 := When(Opposing(b, team, left), left), When(Opposing(b, team, right), right);
    ghost var w3 := When(EnPassantTargetFromMove(ep, b, index, left) != NONE, left);
    ghost var w4 := When(EnPassantTargetFromMove(ep, b, index, right) != NONE, right);
    size := PushIf(Opposing(b, team, left), left, out, n);
    size := PushIf(Opposing(b, team, right), right, out, size);
    size := PushIf(EnPassantTargetFromMove(ep, b, index, left) != NONE, left, out, size);
    size := PushIf(EnPassantTargetFromMove(ep, b, index, right) != NONE, right, out, size);
    AppendAssoc(pre, w1, w2);
    AppendAssoc(pre, w1 + w2, w3);
    AppendAssoc(pre, (w1 + w2) + w3, w4);
  }

  /** `compute_moves`: writes the pseudo-legal destinations of the piece on `index` into
      `out` and returns their number. */
  method ComputeMoves(eps: array<int>, board: array<int>, index: int, out: array<int>) returns (size: nat)
    requires board.Length == 64 && OnBoard(index) && out.Length >= 64 && out != board && out != eps
    modifies out
    ensures size <= 56
    ensures out[..size] == PseudoMoves(eps[..], board[..], index)
  {
    var id := board[index];
    if id == NONE {
      return 0;
    }
    var ty := Type(id);
    var team := Team(id);
    if ty == PAWN {
      size := PawnInto(eps, board, team, index, out);
    } else if ty == BISHOP {
      size := SlideAll(BishopDirections, team, index, board, out);
    } else if ty == ROOK {
      size := SlideAll(RookDirections, team, index, board, out);
    } else if ty == KNIGHT {
      size := LandAll(team, KnightTargets(team, index), board, out);
    } else if ty == QUEEN {
      size := SlideAll(QueenDirections, team, index, board, out);
    } else if ty == KING {
      size := LandAll(team, KingTargets(team, index), board, out);
    } else {
      size := 0;
    }
  }
}

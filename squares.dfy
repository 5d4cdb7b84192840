/** The coordinate system: square index 0..63 with file = index % 8 and rank = index / 8,
    and the eight team-relative one-square steps. A step off the board, across the a/h
    file edge, or from NONE yields NONE. */
module Squares {
  import opened Pieces

  datatype Direction =
    | Advance | Retreat | Left | Right
    | AdvanceLeft | AdvanceRight | RetreatLeft | RetreatRight

  predicate OnBoard(i: int) {
    0 <= i < 64
  }

  function File(i: int): int {
    i % 8
  }

  function Rank(i: int): int {
    i / 8
  }

  function IndexAdvance(team: TeamId, index: int): (r: int)
    ensures r == NONE || OnBoard(r)
  {
    if index < 0 then NONE
    else
      var j := if team == FIRST then index + 8 else index - 8;
      if j < 0 || j > 63 then NONE else j
  }

  function IndexAdvanceLeft(team: TeamId, index: int): (r: int)
    ensures r == NONE || OnBoard(r)
  {
    if index < 0 then NONE
    else if team == FIRST then
      (if index % 8 == 0 || index + 7 > 63 then NONE
       else var j := index + 7; if j < 0 || j > 63 then NONE else j)
    else
      (if index % 8 == 0 || index - 9 < 0 then NONE
       else var j := index - 9; if j < 0 || j > 63 then NONE else j)
  }

  function IndexAdvanceRight(team: TeamId, index: int): (r: int)
    ensures r == NONE || OnBoard(r)
  {
    if index < 0 then NONE
    else if team == FIRST then
      (if index % 8 == 7 || index + 9 > 63 then NONE
       else var j := index + 9; if j < 0 || j > 63 then NONE else j)
    else
      (if index % 8 == 7 || index - 7 < 0 then NONE
       else var j := index - 7; if j < 0 || j > 63 then NONE else j)
  }

  function IndexRetreatLeft(team: TeamId, index: int): (r: int)
    ensures r == NONE || OnBoard(r)
  {
    if index < 0 then NONE
    else if team == FIRST then
      (if index % 8 == 0 || index - 9 < 0 then NONE
       else var j := index - 9; if j < 0 || j > 63 then NONE else j)
    else
      (if index % 8 == 0 || index + 7 > 63 then NONE
       else var j := index + 7; if j < 0 || j > 63 then NONE else j)
  }

  function IndexRetreatRight(team: TeamId, index: int): (r: int)
    ensures r == NONE || OnBoard(r)
  {
    if index < 0 then NONE
    else if team == FIRST then
      (if index % 8 == 7 || index - 7 < 0 then NONE
       else var j := index - 7; if j < 0 || j > 63 then NONE else j)
    else
      (if index % 8 == 7 || index + 9 > 63 then NONE
       else var j := index + 9; if j < 0 || j > 63 then NONE else j)
  }

  function IndexRetreat(team: TeamId, index: int): (r: int)
    ensures r == NONE || OnBoard(r)
  {
    if index < 0 then NONE
    else
      var j := if team == FIRST then index - 8 else index + 8;
      if j < 0 || j > 63 then NONE else j
  }

  function IndexLeft(team: TeamId, index: int): (r: int)
    ensures r == NONE || OnBoard(r)
  {
    if index < 0 then NONE
    else if team == FIRST then
      (if index % 8 == 0 then NONE
       else var j := index - 1; if j < 0 || j > 63 then NONE else j)
    else
      (if index % 8 == 7 then NONE
       else var j := index + 1; if j < 0 || j > 63 then NONE else j)
  }

  function IndexRight(team: TeamId, index: int): (r: int)
    ensures r == NONE || OnBoard(r)
  {
    if index < 0 then NONE
    else if team == FIRST then
      (if index % 8 == 7 then NONE
       else var j := index + 1; if j < 0 || j > 63 then NONE else j)
    else
      (if index % 8 == 0 then NONE
       else var j := index - 1; if j < 0 || j > 63 then NONE else j)
  }

  /** One step in direction `d`, dispatched to the eight step functions. */
  function Step(d: Direction, team: TeamId, index: int): (r: int)
    ensures r == NONE || OnBoard(r)
  {
    match d
    case Advance => IndexAdvance(team, index)
    case Retreat => IndexRetreat(team, index)
    case Left => IndexLeft(team, index)
    case Right => IndexRight(team, index)
    case AdvanceLeft => IndexAdvanceLeft(team, index)
    case AdvanceRight => IndexAdvanceRight(team, index)
    case RetreatLeft => IndexRetreatLeft(team, index)
    case RetreatRight => IndexRetreatRight(team, index)
  }

  function Opposite(d: Direction): Direction {
    match d
    case Advance => Retreat
    case Retreat => Advance
    case Left => Right
    case Right => Left
    case AdvanceLeft => RetreatRight
    case AdvanceRight => RetreatLeft
    case RetreatLeft => AdvanceRight
    case RetreatRight => AdvanceLeft
  }

  // ---------------------------------------------------------------------------
  // Geometric reference: each direction is a fixed (rank, file) displacement.

  /** +1 for the first team (whose advance raises the rank), -1 for the second. */
  function Forward(team: TeamId): int {
    if team == FIRST then 1 else -1
  }

  function RankDelta(d: Direction, team: TeamId): int {
    match d
    case Advance => Forward(team)
    case Retreat => -Forward(team)
    case Left => 0
    case Right => 0
    case AdvanceLeft => Forward(team)
    case AdvanceRight => Forward(team)
    case RetreatLeft => -Forward(team)
    case RetreatRight => -Forward(team)
  }

  /** The orthogonal sideways steps are mirrored for the second team; the four diagonal
      steps move toward the a-file ("left") or the h-file ("right") for both teams. */
  function FileDelta(d: Direction, team: TeamId): int {
    match d
    case Advance => 0
    case Retreat => 0
    case Left => -Forward(team)
    case Right => Forward(team)
    case AdvanceLeft => -1
    case AdvanceRight => 1
    case RetreatLeft => -1
    case RetreatRight => 1
  }

  /** The square reached by displacing `i` by (dr, df), or NONE if that leaves the board. */
  function Displaced(i: int, dr: int, df: int): int {
    if OnBoard(i) && 0 <= Rank(i) + dr < 8 && 0 <= File(i) + df < 8
    then i + 8 * dr + df
    else NONE
  }

  lemma DisplacedSquare(i: int, dr: int, df: int)
    requires Displaced(i, dr, df) != NONE
    ensures var j := Displaced(i, dr, df);
      OnBoard(j) && Rank(j) == Rank(i) + dr && File(j) == File(i) + df
  {
  }

  /** Every step is the geometric displacement of its direction: no step wraps across
      the a/h edge or leaves the board. */
  lemma StepGeometry(d: Direction, team: TeamId, i: int)
    requires i < 64
    ensures Step(d, team, i) == Displaced(i, RankDelta(d, team), FileDelta(d, team))
  {
  }

  /** Stepping back in the opposite direction undoes a defined step. */
  lemma StepInverse(d: Direction, team: TeamId, i: int)
    requires i < 64 && Step(d, team, i) != NONE
    ensures Step(Opposite(d), team, Step(d, team, i)) == i
  {
    StepGeometry(d, team, i);
    StepGeometry(Opposite(d), team, Step(d, team, i));
  }

  /** `index_retreat(t, index_advance(t, i)) == i` whenever the advance is defined. */
  lemma RetreatUndoesAdvance(team: TeamId, i: int)
    requires i < 64 && IndexAdvance(team, i) != NONE
    ensures IndexRetreat(team, IndexAdvance(team, i)) == i
  {
    StepInverse(Advance, team, i);
  }

  /** A square is determined by its rank and file. */
  lemma SquareOf(m: int)
    requires OnBoard(m)
    ensures m == 8 * Rank(m) + File(m) && 0 <= Rank(m) < 8 && 0 <= File(m) < 8
  {
  }

  predicate Aligned(a: int, c: int) {
    (a >= 0 && c >= 0) || (a <= 0 && c <= 0)
  }

  /** Two displacements pointing the same way on each axis compose: the intermediate
      square is on the board whenever the final one is. */
  lemma DisplacedCompose(i: int, a: int, b: int, c: int, e: int)
    requires OnBoard(i) || i == NONE
    requires Aligned(a, c) && Aligned(b, e)
    ensures Displaced(Displaced(i, a, b), c, e) == Displaced(i, a + c, b + e)
  {
    var j := Displaced(i, a, b);
    if j != NONE {
      DisplacedSquare(i, a, b);
    }
  }

  /** The direction of a one-square displacement (dr, df), for a team. */
  function DirectionOf(team: TeamId, dr: int, df: int): (d: Direction)
    requires -1 <= dr <= 1 && -1 <= df <= 1 && (dr != 0 || df != 0)
    ensures RankDelta(d, team) == dr && FileDelta(d, team) == df
  {
    var f := Forward(team);
    if dr == f && df == 0 then Advance
    else if dr == -f && df == 0 then Retreat
    else if dr == 0 && df == -f then Left
    else if dr == 0 && df == f then Right
    else if dr == f && df == -1 then AdvanceLeft
    else if dr == f && df == 1 then AdvanceRight
    else if dr == -f && df == -1 then RetreatLeft
    else RetreatRight
  }

  /** A square reached by a displacement is the step of that direction. */
  lemma DisplacementIsStep(d: Direction, team: TeamId, i: int, m: int)
    requires OnBoard(i) && OnBoard(m)
    requires Rank(m) - Rank(i) == RankDelta(d, team) && File(m) - File(i) == FileDelta(d, team)
    ensures Step(d, team, i) == m
  {
    StepGeometry(d, team, i);
    SquareOf(i);
    SquareOf(m);
  }

  // ---------------------------------------------------------------------------
  // Reach: how many steps a ray can take before it leaves the board.

  function Room(pos: int, delta: int): int {
    if delta > 0 then 7 - pos else if delta < 0 then pos else 7
  }

  function Min(a: int, b: int): int {
    if a <= b then a else b
  }

  function Reach(d: Direction, team: TeamId, i: int): (n: nat)
    ensures n <= 7
  {
    if OnBoard(i)
    then Min(Room(Rank(i), RankDelta(d, team)), Room(File(i), FileDelta(d, team)))
    else 0
  }

  /** A unit displacement is defined exactly when there is room left for it, and it uses
      up one unit of that room. */
  lemma DisplacedReach(i: int, dr: int, df: int)
    requires i < 64 && -1 <= dr <= 1 && -1 <= df <= 1 && (dr != 0 || df != 0)
    ensures var j := Displaced(i, dr, df);
      && (j != NONE <==> OnBoard(i) && Min(Room(Rank(i), dr), Room(File(i), df)) > 0)
      && (j != NONE ==> Min(Room(Rank(j), dr), Room(File(j), df)) == Min(Room(Rank(i), dr), Room(File(i), df)) - 1)
  {
    if Displaced(i, dr, df) != NONE {
      DisplacedSquare(i, dr, df);
    }
  }

  /** A step is defined exactly when some reach is left, and it uses up one step of it. */
  lemma StepReach(d: Direction, team: TeamId, i: int)
    requires i < 64
    ensures Step(d, team, i) != NONE <==> Reach(d, team, i) > 0
    ensures Step(d, team, i) != NONE ==> Reach(d, team, Step(d, team, i)) == Reach(d, team, i) - 1
  {
    StepGeometry(d, team, i);
    var dr, df := RankDelta(d, team), FileDelta(d, team);
    assert -1 <= dr <= 1 && -1 <= df <= 1 && (dr != 0 || df != 0);
    DisplacedReach(i, dr, df);
  }

  // ---------------------------------------------------------------------------
  // Square names.

  /** The two-character algebraic name of a square ("a1" for 0, "a2" for 8, "h8" for 63),
      or None when the index is off the board. */
  function IndexName(index: int): (r: Option<string>)
    ensures r.None? <==> !OnBoard(index)
    ensures r.Some? ==> |r.value| == 2 && 'a' <= r.value[0] <= 'h' && '1' <= r.value[1] <= '8'
  {
    if index < 0 || index > 63 then None
    else
      var x := index % 8;
      var y := index / 8 + 1;
      Some([(x + 'a' as int) as char, ((y - 1) + '1' as int) as char])
  }

  /** Reads a square name back: the inverse of IndexName. */
  function ParseName(name: string): Option<int> {
    if |name| == 2 && 'a' <= name[0] <= 'h' && '1' <= name[1] <= '8'
    then Some((name[1] as int - '1' as int) * 8 + (name[0] as int - 'a' as int))
    else None
  }

  lemma NameRoundTrip(index: int)
    requires OnBoard(index)
    ensures IndexName(index).Some? && ParseName(IndexName(index).value) == Some(index)
  {
  }

  lemma NameInjective(i: int, j: int)
    requires OnBoard(i) && OnBoard(j) && IndexName(i) == IndexName(j)
    ensures i == j
  {
    NameRoundTrip(i);
    NameRoundTrip(j);
  }

}

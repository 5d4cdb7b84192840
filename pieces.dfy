/** Piece identities, teams, types and the enum constants of the engine's header.
    A piece identity packs a team into bit 3 and a type into the low three bits.
    Identities are signed values; NONE (-1) marks an empty square or a missing index. */
module Pieces {

  /** The sentinel for "no piece" and "no square". */
  const NONE: int := -1

  /** Piece types. */
  const PAWN: int := 0
  const BISHOP: int := 1
  const ROOK: int := 2
  const KNIGHT: int := 3
  const QUEEN: int := 4
  const KING: int := 5

  /** Game status values. */
  const NORMAL: int := 0
  const CHECK: int := 1
  const CHECKMATE: int := 2
  const STALEMATE: int := 3

  /** Results of promotion and square naming. */
  const SUCCESS: int := 0
  const INVALID: int := 1

  type TeamId = t: int | 0 <= t <= 1

  datatype Option<T> = None | Some(value: T)

  /** The first team (white, starting on ranks 1-2) and the second (black, ranks 7-8). */
  const FIRST: TeamId := 0
  const SECOND: TeamId := 1

  /** Material value of a captured piece, indexed by piece type. */
  const Scoring: seq<int> := [1, 3, 5, 3, 9, 200]

  predicate IsType(ty: int) {
    PAWN <= ty <= KING
  }

  /** Bit 3 of the two's-complement representation of `id`. Dafny's `/` floors for a
      positive divisor, so `(id / 8) % 2` is that bit for negative values too. */
  function Team(id: int): (t: TeamId)
    ensures 0 <= id < 8 ==> t == FIRST
    ensures 8 <= id < 16 ==> t == SECOND
  {
    if (id / 8) % 2 == 1 then SECOND else FIRST
  }

  /** The low three bits of `id`. */
  function Type(id: int): (ty: int)
    ensures 0 <= ty < 8
    ensures 0 <= id < 8 ==> ty == id
    ensures 8 <= id < 16 ==> ty == id - 8
  {
    id % 8
  }

  /** Packs a team and a type: bit 3 holds the team, the low bits the type
      (an or with a three-bit type is an addition). */
  function MakeId(team: TeamId, ty: int): (id: int)
    requires 0 <= ty < 8
    ensures Team(id) == team && Type(id) == ty
    ensures id != NONE
  {
    (if team == SECOND then 8 else 0) + ty
  }

  /** A value a board square may hold: NONE or the identity of a real piece. */
  predicate IsCell(c: int) {
    c == NONE || (0 <= c <= 5) || (8 <= c <= 13)
  }

  lemma MakeIdInjective(t1: TeamId, ty1: int, t2: TeamId, ty2: int)
    requires 0 <= ty1 < 8 && 0 <= ty2 < 8
    requires MakeId(t1, ty1) == MakeId(t2, ty2)
    ensures t1 == t2 && ty1 == ty2
  {
    assert Team(MakeId(t1, ty1)) == t1 && Team(MakeId(t2, ty2)) == t2;
    assert Type(MakeId(t1, ty1)) == ty1 && Type(MakeId(t2, ty2)) == ty2;
  }

  /** Every real identity lies in 0..5 or 8..13 and decodes back to its parts. */
  lemma MakeIdIsCell(team: TeamId, ty: int)
    requires IsType(ty)
    ensures IsCell(MakeId(team, ty)) && MakeId(team, ty) != NONE
  {
  }

  lemma CellDecodes(c: int)
    requires IsCell(c) && c != NONE
    ensures IsType(Type(c)) && c == MakeId(Team(c), Type(c))
  {
  }

  /** The sentinel decodes to the second team and to type 7, which is no piece type. */
  lemma NoneDecodes()
    ensures Team(NONE) == SECOND && Type(NONE) == 7 && !IsType(Type(NONE))
  {
  }
}

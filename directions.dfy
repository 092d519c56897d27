/** The direction algebra of the simulator: the four facings, the four grid
    displacements, and the fixed table that maps a facing and a requested turn
    (itself written as a facing, Left or Right) to a displacement and a new
    facing. */
module Directions {

  datatype Option<T> = None | Some(value: T)

  /** The four cardinal facings of the ant. */
  datatype Direction = Up | Down | Right | Left

  /** The unit displacement applied to the ant after a turn. */
  datatype GridAction = DecRow | IncRow | DecCol | IncCol

  /** An entry of the turn table: what to do to the position, and where to face. */
  datatype NextAction = NextAction(gridAction: GridAction, dir: Direction)

  /** The display name of a facing. The datatype is closed, so the program's
      "invalid direction" panic has no counterpart. */
  function Name(d: Direction): string
  {
    match d
    case Up => "Up"
    case Down => "Down"
    case Right => "Right"
    case Left => "Left"
  }

  /** Distinct facings have distinct names. */
  lemma NamesDistinct(d: Direction, e: Direction)
    requires Name(d) == Name(e)
    ensures d == e
  {
  }

  // Reference geometry, stated independently of the turn table.

  /** A quarter turn clockwise. */
  function Clockwise(d: Direction): Direction
  {
    match d
    case Up => Right
    case Right => Down
    case Down => Left
    case Left => Up
  }

  /** A quarter turn counter-clockwise. */
  function CounterClockwise(d: Direction): Direction
  {
    match d
    case Up => Left
    case Left => Down
    case Down => Right
    case Right => Up
  }

  /** Row component of the unit vector of a facing (rows grow downwards). */
  function RowDelta(d: Direction): int
  {
    match d
    case Up => -1
    case Down => 1
    case Right => 0
    case Left => 0
  }

  /** Column component of the unit vector of a facing. */
  function ColDelta(d: Direction): int
  {
    match d
    case Up => 0
    case Down => 0
    case Right => 1
    case Left => -1
  }

  /** The turns the table accepts. */
  predicate IsTurn(next: Direction)
  {
    next == Left || next == Right
  }

  /** The facing reached by turning `next` from `d`, by geometry. */
  function Turned(d: Direction, next: Direction): Direction
    requires IsTurn(next)
  {
    if next == Right then Clockwise(d) else CounterClockwise(d)
  }

  /** The row and column displacement a grid action applies for one step. */
  function RowChange(a: GridAction): int
  {
    match a
    case IncRow => 1
    case DecRow => -1
    case IncCol => 0
    case DecCol => 0
  }

  function ColChange(a: GridAction): int
  {
    match a
    case IncRow => 0
    case DecRow => 0
    case IncCol => 1
    case DecCol => -1
  }

  /** The eight-entry turn table, keyed on (current facing, requested turn).
      A key whose turn is not Left or Right is absent, as in a map lookup
      that reports "not present". The entries are exactly the geometric
      quarter turns, and each displacement is the unit vector of the new
      facing. */
  function Lookup(curr: Direction, next: Direction): (r: Option<NextAction>)
    ensures r.Some? <==> IsTurn(next)
    ensures r.Some? ==> r.value.dir == Turned(curr, next)
    ensures r.Some? ==> RowChange(r.value.gridAction) == RowDelta(r.value.dir)
    ensures r.Some? ==> ColChange(r.value.gridAction) == ColDelta(r.value.dir)
  {
    match (curr, next)
    case (Up, Right) => Some(NextAction(IncCol, Right))
    case (Up, Left) => Some(NextAction(DecCol, Left))
    case (Down, Right) => Some(NextAction(DecCol, Left))
    case (Down, Left) => Some(NextAction(IncCol, Right))
    case (Right, Right) => Some(NextAction(IncRow, Down))
    case (Right, Left) => Some(NextAction(DecRow, Up))
    case (Left, Right) => Some(NextAction(DecRow, Up))
    case (Left, Left) => Some(NextAction(IncRow, Down))
    case _ => None
  }

  /** Turning left undoes turning right and vice versa. */
  lemma LeftUndoesRight(d: Direction)
    ensures Lookup(Lookup(d, Right).value.dir, Left).value.dir == d
    ensures Lookup(Lookup(d, Left).value.dir, Right).value.dir == d
  {
  }

  /** Four turns in the same sense return to the original facing. */
  lemma FourTurnsIdentity(d: Direction, t: Direction)
    requires IsTurn(t)
    ensures Lookup(Lookup(Lookup(Lookup(d, t).value.dir, t).value.dir, t).value.dir, t).value.dir == d
  {
  }

  /** Left and right turns reach opposite facings, both perpendicular to `d`. */
  lemma TurnsPerpendicular(d: Direction)
    ensures var l, r := Lookup(d, Left).value.dir, Lookup(d, Right).value.dir;
      l != r && RowDelta(l) == -RowDelta(r) && ColDelta(l) == -ColDelta(r)
      && RowDelta(l) * RowDelta(d) + ColDelta(l) * ColDelta(d) == 0
  {
  }
}

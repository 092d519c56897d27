/** The ant: a position on the grid and a facing, moved by one table lookup
    per step. */
module Ants {
  import opened Directions

  /** The observable state of an ant. Coordinates are unbounded: the grid,
      not the ant, decides whether a position is valid. */
  datatype Pose = Pose(r: int, c: int, dir: Direction)

  /** The pose after turning `nextDir` and advancing `steps` cells: the facing
      is the quarter turn in the requested sense, and the position moves by
      `steps` along the unit vector of the new facing, so exactly one
      coordinate changes. */
  function Moved(p: Pose, nextDir: Direction, steps: int): (q: Pose)
    requires IsTurn(nextDir)
    ensures q.dir == Turned(p.dir, nextDir)
    ensures q.r == p.r + steps * RowDelta(q.dir)
    ensures q.c == p.c + steps * ColDelta(q.dir)
    ensures q.r == p.r || q.c == p.c
  {
    var action := Lookup(p.dir, nextDir).value;
    match action.gridAction
    case IncRow => Pose(p.r + steps, p.c, action.dir)
    case DecRow => Pose(p.r - steps, p.c, action.dir)
    case IncCol => Pose(p.r, p.c + steps, action.dir)
    case DecCol => Pose(p.r, p.c - steps, action.dir)
  }

  /** Four moves turning the same way, by the same stride, bring the ant back
      to where it started, facing the same way. */
  lemma FourMovesReturn(p: Pose, t: Direction, steps: int)
    requires IsTurn(t)
    ensures Moved(Moved(Moved(Moved(p, t, steps), t, steps), t, steps), t, steps) == p
  {
  }

  /** The ant, updated in place by the simulation loop. */
  class Ant {
    var r: int
    var c: int
    var dir: Direction

    function Snapshot(): Pose
      reads this
    {
      Pose(r, c, dir)
    }

    constructor (r: int, c: int, dir: Direction)
      ensures Snapshot() == Pose(r, c, dir)
    {
      this.r := r;
      this.c := c;
      this.dir := dir;
    }

    /** Turns towards `nextDir` (Left or Right) and advances `steps` cells.
        A turn missing from the table is a fatal error in the program, so it
        is a precondition here. */
    method Move(nextDir: Direction, steps: int)
      requires IsTurn(nextDir)
      modifies this
      ensures Snapshot() == Moved(old(Snapshot()), nextDir, steps)
    {
      var action := Lookup(dir, nextDir).value;
      match action.gridAction {
        case IncRow => r := r + steps;
        case DecRow => r := r - steps;
        case IncCol => c := c + steps;
        case DecCol => c := c - steps;
      }
      dir := action.dir;
    }
  }
}

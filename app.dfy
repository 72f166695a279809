/** The state the App component keeps: the grid, the tracked current
    position and the exit direction chosen for the portal, with the
    handlers that change them. */
module App {
  import opened Grid
  import opened Navigation

  /** The four options of the exit-direction selector. */
  datatype Compass = N | W | E | S

  class AppState {
    const dims: Dims
    const origin: Pos
    var grid: Board
    var current: Pos
    var exitDirection: Compass

    /** The grid keeps its shape and the tracked position is on it. */
    ghost predicate Valid()
      reads this
    {
      Shaped(grid, dims) && InBounds(dims, origin) && InBounds(dims, current)
    }

    /** The grid and the position as one value. */
    ghost function Snapshot(): State
      reads this
    {
      State(grid, current)
    }

    /** The origin is the centre, the grid is generated around it, the
        player stands on it and the exit direction starts as N. */
    constructor (d: Dims)
      requires d.rows >= 1 && d.cols >= 1
      ensures Valid()
      ensures dims == d && origin == Centre(d) && current == origin
      ensures grid == InitialBoard(d, origin)
      ensures WellFormed(Snapshot(), dims, origin)
      ensures Marked(grid, Explored) == {origin}
      ensures exitDirection == N
    {
      var o := Centre(d);
      var g := GenerateGrid(d, o);
      dims, origin := d, o;
      grid, current := g, o;
      exitDirection := N;
      new;
      LaunchWellFormed(d);
    }

    /** dirButtonClick: clear the old current cell, then mark the target
        current and explored and move there. When the target is off the
        grid the second write throws: the old cell stays cleared and the
        position is not updated. */
    method DirButtonClick(dir: Delta) returns (outcome: Outcome)
      requires Valid()
      modifies this`grid, this`current
      ensures Valid()
      ensures Snapshot() == Click(dims, old(Snapshot()), dir)
      ensures outcome == ClickOutcome(dims, old(Snapshot()), dir)
      ensures outcome == Moved <==> InBounds(dims, Translate(old(current), dir))
      ensures outcome == Moved ==> current == Translate(old(current), dir)
      ensures outcome == Threw ==> current == old(current)
      ensures old(WellFormed(Snapshot(), dims, origin)) && outcome == Moved ==>
        && WellFormed(Snapshot(), dims, origin)
        && Marked(grid, Explored) == old(Marked(grid, Explored)) + {current}
      ensures old(Marked(grid, Explored)) <= Marked(grid, Explored)
      ensures Marked(grid, Origin) == old(Marked(grid, Origin))
      ensures old(WellFormed(Snapshot(), dims, origin)) && outcome == Threw ==>
        Marked(grid, Current) == {}
    {
      ghost var before := Snapshot();
      var next := Translate(current, dir);
      grid := grid[current.row := grid[current.row][current.col := grid[current.row][current.col].(current := false)]];
      if !InBounds(dims, next) {
        ClearedMarked(before.board, dims, before.current);
        return Threw;
      }
      grid := grid[next.row := grid[next.row][next.col := grid[next.row][next.col].(current := true)]];
      grid := grid[next.row := grid[next.row][next.col := grid[next.row][next.col].(explored := true)]];
      current := next;
      outcome := Moved;
      StepMarked(before.board, dims, before.current, next);
    }

    /** The selector's onChange: only the exit direction changes. */
    method SelectExitDirection(c: Compass)
      modifies this`exitDirection
      ensures exitDirection == c
    {
      exitDirection := c;
    }
  }
}

/** Moving the current position over the grid: the direction buttons'
    guard (disableButtonOnBounds), the click handler (dirButtonClick), the
    position relative to the origin (relativeCurrent), and what any run of
    clicks does to the board. */
module Navigation {
  import opened Grid

  /** A direction as the source passes it: a [row, column] offset. */
  datatype Delta = Delta(dRow: int, dCol: int)

  /** The four offsets the direction buttons pass. */
  const North := Delta(-1, 0)
  const West := Delta(0, -1)
  const East := Delta(0, 1)
  const South := Delta(1, 0)

  function Translate(p: Pos, dir: Delta): Pos
  {
    Pos(p.row + dir.dRow, p.col + dir.dCol)
  }

  /** relativeCurrent: the current position with the origin as (0, 0). */
  function Relative(current: Pos, origin: Pos): (r: Pos)
    ensures Translate(origin, Delta(r.row, r.col)) == current
    ensures r == Pos(0, 0) <==> current == origin
  {
    Pos(current.row - origin.row, current.col - origin.col)
  }

  // ---------------------------------------------------------------------
  // The guard as written, and the guard that checks both axes
  // ---------------------------------------------------------------------

  /** disableButtonOnBounds: a button is disabled when the target row
      falls outside the grid. The column is not looked at. */
  predicate Disabled(d: Dims, current: Pos, dir: Delta)
  {
    current.row + dir.dRow < 0 || current.row + dir.dRow >= d.rows
  }

  /** The guard depends on the row and the row offset only: changing the
      current column or the column offset never changes it. */
  lemma DisabledIgnoresColumns(d: Dims, current: Pos, dir: Delta, col: int, dCol: int)
    ensures Disabled(d, current, dir) == Disabled(d, Pos(current.row, col), Delta(dir.dRow, dCol))
  {
  }

  /** From any cell of the grid the W and E buttons are never disabled. */
  lemma HorizontalNeverDisabled(d: Dims, current: Pos, dir: Delta)
    requires InBounds(d, current) && dir.dRow == 0
    ensures !Disabled(d, current, dir)
  {
  }

  /** For the N and S buttons the guard is exact: enabled exactly when
      the target cell is on the grid. */
  lemma VerticalGuardExact(d: Dims, current: Pos, dir: Delta)
    requires InBounds(d, current) && dir.dCol == 0
    ensures !Disabled(d, current, dir) <==> InBounds(d, Translate(current, dir))
  {
  }

  /** The guard does not keep the target column on the grid: at the west
      edge W, and at the east edge E, is enabled and leads off the grid. */
  lemma GuardMissesColumn(d: Dims, current: Pos, dir: Delta)
    requires InBounds(d, current)
    requires (dir == West && current.col == 0) || (dir == East && current.col == d.cols - 1)
    ensures !Disabled(d, current, dir)
    ensures !InBounds(d, Translate(current, dir))
  {
  }

  /** The guard with the column check that disableButtonOnBounds lacks:
      disabled exactly when the target is off the grid. */
  function DisabledBothAxes(d: Dims, current: Pos, dir: Delta): (r: bool)
    ensures r <==> !InBounds(d, Translate(current, dir))
    ensures Disabled(d, current, dir) ==> r
  {
    Disabled(d, current, dir) || current.col + dir.dCol < 0 || current.col + dir.dCol >= d.cols
  }

  // ---------------------------------------------------------------------
  // One click
  // ---------------------------------------------------------------------

  /** How a click ends: the position moved, or the write to the target
      cell threw because the target is off the grid. */
  datatype Outcome = Moved | Threw

  /** The grid and the tracked position together. */
  datatype State = State(board: Board, current: Pos)

  /** The first write of a click: the old current cell loses its flag. */
  function Cleared(b: Board, d: Dims, current: Pos): (r: Board)
    requires Shaped(b, d) && InBounds(d, current)
    ensures Shaped(r, d)
    ensures !At(r, d, current).current
    ensures At(r, d, current).explored == At(b, d, current).explored
    ensures At(r, d, current).origin == At(b, d, current).origin
    ensures forall q :: InBounds(d, q) && q != current ==> At(r, d, q) == At(b, d, q)
  {
    Update(b, d, current, At(b, d, current).(current := false))
  }

  /** The three writes of a click whose target is on the grid, in the
      source's order: clear `current` on the old cell, then set `current`
      and then `explored` on the target. */
  function Step(b: Board, d: Dims, current: Pos, next: Pos): (r: Board)
    requires Shaped(b, d) && InBounds(d, current) && InBounds(d, next)
    ensures Shaped(r, d)
    ensures At(r, d, next).current && At(r, d, next).explored
    ensures At(r, d, next).origin == At(b, d, next).origin
  {
    var b1 := Cleared(b, d, current);
    var b2 := Update(b1, d, next, At(b1, d, next).(current := true));
    Update(b2, d, next, At(b2, d, next).(explored := true))
  }

  /** dirButtonClick: the target is the current position plus the offset.
      The old cell is cleared first; when the target is off the grid the
      handler then throws, so the cleared board stays and the position is
      not updated. */
  function Click(d: Dims, s: State, dir: Delta): (r: State)
    requires Shaped(s.board, d) && InBounds(d, s.current)
    ensures Shaped(r.board, d) && InBounds(d, r.current)
  {
    var next := Translate(s.current, dir);
    if InBounds(d, next) then State(Step(s.board, d, s.current, next), next)
    else State(Cleared(s.board, d, s.current), s.current)
  }

  /** Whether a click moved or threw. A moving click puts the position
      on its target; a throwing click keeps the position and only takes
      the current flag off the old cell. */
  function ClickOutcome(d: Dims, s: State, dir: Delta): (r: Outcome)
    requires Shaped(s.board, d) && InBounds(d, s.current)
    ensures r == Moved ==> Click(d, s, dir).current == Translate(s.current, dir)
    ensures r == Threw ==> Click(d, s, dir).current == s.current
    ensures r == Threw ==>
      Marked(Click(d, s, dir).board, Current) == Marked(s.board, Current) - {s.current}
  {
    if InBounds(d, Translate(s.current, dir)) then Moved else Threw
  }

  /** Clearing changes the current flag of one cell and nothing else. */
  lemma ClearedMarked(b: Board, d: Dims, current: Pos)
    requires Shaped(b, d) && InBounds(d, current)
    ensures Marked(Cleared(b, d, current), Current) == Marked(b, Current) - {current}
    ensures Marked(Cleared(b, d, current), Explored) == Marked(b, Explored)
    ensures Marked(Cleared(b, d, current), Origin) == Marked(b, Origin)
  {
    var c := At(b, d, current);
    UpdateMarked(b, d, current, c.(current := false), Current);
    UpdateMarked(b, d, current, c.(current := false), Explored);
    UpdateMarked(b, d, current, c.(current := false), Origin);
    MarkedMember(b, d, Explored, current);
    MarkedMember(b, d, Origin, current);
  }

  /** A step moves the current flag from the old cell to the target,
      adds the target to the explored cells and leaves the origin flags
      alone. */
  lemma StepMarked(b: Board, d: Dims, current: Pos, next: Pos)
    requires Shaped(b, d) && InBounds(d, current) && InBounds(d, next)
    ensures Marked(Step(b, d, current, next), Current) == Marked(b, Current) - {current} + {next}
    ensures Marked(Step(b, d, current, next), Explored) == Marked(b, Explored) + {next}
    ensures Marked(Step(b, d, current, next), Origin) == Marked(b, Origin)
  {
    var b1 := Cleared(b, d, current);
    ClearedMarked(b, d, current);
    var c1 := At(b1, d, next).(current := true);
    var b2 := Update(b1, d, next, c1);
    UpdateMarked(b1, d, next, c1, Current);
    UpdateMarked(b1, d, next, c1, Explored);
    UpdateMarked(b1, d, next, c1, Origin);
    MarkedMember(b1, d, Explored, next);
    MarkedMember(b1, d, Origin, next);
    var c2 := At(b2, d, next).(explored := true);
    UpdateMarked(b2, d, next, c2, Current);
    UpdateMarked(b2, d, next, c2, Explored);
    UpdateMarked(b2, d, next, c2, Origin);
    MarkedMember(b2, d, Current, next);
    MarkedMember(b2, d, Origin, next);
  }

  /** Cell by cell: the target gains `current` and `explored`, the old
      cell (when it is not the target) only loses `current`, and every
      other cell is as it was. */
  lemma StepCells(b: Board, d: Dims, current: Pos, next: Pos)
    requires Shaped(b, d) && InBounds(d, current) && InBounds(d, next)
    ensures At(Step(b, d, current, next), d, next) == At(b, d, next).(current := true, explored := true)
    ensures current != next ==>
      At(Step(b, d, current, next), d, current) == At(b, d, current).(current := false)
    ensures forall q :: InBounds(d, q) && q != current && q != next ==>
      At(Step(b, d, current, next), d, q) == At(b, d, q)
  {
  }

  // ---------------------------------------------------------------------
  // The invariant of the map
  // ---------------------------------------------------------------------

  /** Exactly one cell is current and it is the tracked position, exactly
      one cell is the origin, and both of them are explored. */
  predicate WellFormed(s: State, d: Dims, origin: Pos)
  {
    && Shaped(s.board, d)
    && InBounds(d, origin)
    && InBounds(d, s.current)
    && Marked(s.board, Current) == {s.current}
    && Marked(s.board, Origin) == {origin}
    && origin in Marked(s.board, Explored)
    && s.current in Marked(s.board, Explored)
  }

  /** The state the app starts in: a fresh board, standing on its centre. */
  function Launch(d: Dims): (r: State)
    ensures Shaped(r.board, d)
    ensures d.rows >= 1 && d.cols >= 1 ==> InBounds(d, r.current) && At(r.board, d, r.current) == Start
  {
    State(InitialBoard(d, Centre(d)), Centre(d))
  }

  /** Launching gives a well-formed state whose only explored cell is the
      origin. */
  lemma LaunchWellFormed(d: Dims)
    requires d.rows >= 1 && d.cols >= 1
    ensures WellFormed(Launch(d), d, Centre(d))
    ensures Marked(Launch(d).board, Explored) == {Centre(d)}
  {
    InitialBoardMarked(d, Centre(d), Current);
    InitialBoardMarked(d, Centre(d), Origin);
    InitialBoardMarked(d, Centre(d), Explored);
  }

  /** A click onto the grid keeps the invariant, moves the position by
      the offset and adds exactly the target to the explored cells. */
  lemma ClickKeepsWellFormed(d: Dims, origin: Pos, s: State, dir: Delta)
    requires WellFormed(s, d, origin)
    requires InBounds(d, Translate(s.current, dir))
    ensures WellFormed(Click(d, s, dir), d, origin)
    ensures Click(d, s, dir).current == Translate(s.current, dir)
    ensures Marked(Click(d, s, dir).board, Explored) == Marked(s.board, Explored) + {Translate(s.current, dir)}
  {
    StepMarked(s.board, d, s.current, Translate(s.current, dir));
  }

  /** A click that the row-only guard lets through but that leads off the
      grid leaves the board with no current cell at all. */
  lemma EdgeClickLosesCurrent(d: Dims, origin: Pos, s: State, dir: Delta)
    requires WellFormed(s, d, origin)
    requires !Disabled(d, s.current, dir) && !InBounds(d, Translate(s.current, dir))
    ensures ClickOutcome(d, s, dir) == Threw
    ensures Marked(Click(d, s, dir).board, Current) == {}
    ensures Click(d, s, dir).current == s.current
  {
    ClearedMarked(s.board, d, s.current);
  }

  /** Every click, also one that throws, keeps the explored cells (they
      can only grow) and leaves the origin cells alone. */
  lemma ClickKeepsHistory(d: Dims, s: State, dir: Delta)
    requires Shaped(s.board, d) && InBounds(d, s.current)
    ensures Marked(s.board, Explored) <= Marked(Click(d, s, dir).board, Explored)
    ensures Marked(Click(d, s, dir).board, Origin) == Marked(s.board, Origin)
  {
    var next := Translate(s.current, dir);
    if InBounds(d, next) {
      StepMarked(s.board, d, s.current, next);
    } else {
      ClearedMarked(s.board, d, s.current);
    }
  }

  /** After a throwing click the next click onto the grid restores the
      invariant: it puts the one current flag back, at the new position. */
  lemma ThrowThenMoveRecovers(d: Dims, origin: Pos, s: State, off: Delta, on: Delta)
    requires WellFormed(s, d, origin)
    requires !InBounds(d, Translate(s.current, off))
    requires InBounds(d, Translate(s.current, on))
    ensures WellFormed(Click(d, Click(d, s, off), on), d, origin)
  {
    var s1 := Click(d, s, off);
    ClearedMarked(s.board, d, s.current);
    StepMarked(s1.board, d, s1.current, Translate(s1.current, on));
  }

  // ---------------------------------------------------------------------
  // Runs of clicks
  // ---------------------------------------------------------------------

  /** The state after clicking the given buttons in order. */
  function Walk(d: Dims, s: State, dirs: seq<Delta>): (r: State)
    requires Shaped(s.board, d) && InBounds(d, s.current)
    ensures Shaped(r.board, d) && InBounds(d, r.current)
    decreases |dirs|
  {
    if dirs == [] then s else Walk(d, Click(d, s, dirs[0]), dirs[1..])
  }

  /** Every click of the run leads onto the grid, that is, is allowed by
      the guard that checks both axes. */
  predicate LegalWalk(d: Dims, current: Pos, dirs: seq<Delta>)
    decreases |dirs|
  {
    dirs == [] ||
    (!DisabledBothAxes(d, current, dirs[0]) && LegalWalk(d, Translate(current, dirs[0]), dirs[1..]))
  }

  /** The cells a run of clicks steps onto, the start excluded. */
  function Trail(current: Pos, dirs: seq<Delta>): set<Pos>
    decreases |dirs|
  {
    if dirs == [] then {}
    else {Translate(current, dirs[0])} + Trail(Translate(current, dirs[0]), dirs[1..])
  }

  /** The sum of the offsets of a run of clicks. */
  function Displacement(dirs: seq<Delta>): Delta
    decreases |dirs|
  {
    if dirs == [] then Delta(0, 0)
    else
      var rest := Displacement(dirs[1..]);
      Delta(dirs[0].dRow + rest.dRow, dirs[0].dCol + rest.dCol)
  }

  /** Over any legal run the invariant holds after every click, the
      explored cells are the ones explored before plus every cell the run
      stepped onto (so they only grow), and the position has moved by the
      sum of the offsets. */
  lemma {:induction false} WalkKeepsWellFormed(d: Dims, origin: Pos, s: State, dirs: seq<Delta>)
    requires WellFormed(s, d, origin)
    requires LegalWalk(d, s.current, dirs)
    ensures WellFormed(Walk(d, s, dirs), d, origin)
    ensures Marked(Walk(d, s, dirs).board, Explored) == Marked(s.board, Explored) + Trail(s.current, dirs)
    ensures Walk(d, s, dirs).current == Translate(s.current, Displacement(dirs))
    decreases |dirs|
  {
    if dirs != [] {
      WalkUnfold(d, s, dirs);
      var s1 := Click(d, s, dirs[0]);
      ClickKeepsWellFormed(d, origin, s, dirs[0]);
      WalkKeepsWellFormed(d, origin, s1, dirs[1..]);
    } else {
      assert Walk(d, s, dirs) == s;
    }
  }

  /** One click taken off the front of a non-empty run. */
  lemma WalkUnfold(d: Dims, s: State, dirs: seq<Delta>)
    requires Shaped(s.board, d) && InBounds(d, s.current) && dirs != []
    ensures Walk(d, s, dirs) == Walk(d, Click(d, s, dirs[0]), dirs[1..])
    ensures Trail(s.current, dirs) == {Translate(s.current, dirs[0])} + Trail(Translate(s.current, dirs[0]), dirs[1..])
    ensures Translate(s.current, Displacement(dirs))
            == Translate(Translate(s.current, dirs[0]), Displacement(dirs[1..]))
  {
  }

  /** Over any run the app allows, throwing clicks included, the explored
      cells only grow and the origin cells stay as they were. */
  lemma {:induction false} WalkKeepsHistory(d: Dims, s: State, dirs: seq<Delta>)
    requires Shaped(s.board, d) && InBounds(d, s.current)
    ensures Marked(s.board, Explored) <= Marked(Walk(d, s, dirs).board, Explored)
    ensures Marked(Walk(d, s, dirs).board, Origin) == Marked(s.board, Origin)
    decreases |dirs|
  {
    if dirs != [] {
      ClickKeepsHistory(d, s, dirs[0]);
      WalkKeepsHistory(d, Click(d, s, dirs[0]), dirs[1..]);
    }
  }

  /** From launch, after any legal run, a cell is explored exactly when it
      is the origin or the run stepped onto it, and the relative position
      shown is the sum of the offsets. */
  lemma LaunchWalk(d: Dims, dirs: seq<Delta>)
    requires d.rows >= 1 && d.cols >= 1
    requires LegalWalk(d, Centre(d), dirs)
    ensures WellFormed(Walk(d, Launch(d), dirs), d, Centre(d))
    ensures Marked(Walk(d, Launch(d), dirs).board, Explored) == {Centre(d)} + Trail(Centre(d), dirs)
    ensures Relative(Walk(d, Launch(d), dirs).current, Centre(d))
            == Pos(Displacement(dirs).dRow, Displacement(dirs).dCol)
  {
    LaunchWellFormed(d);
    WalkKeepsWellFormed(d, Centre(d), Launch(d), dirs);
  }
}

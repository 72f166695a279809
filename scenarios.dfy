/** Two concrete runs from the launch state: walking north to the edge of
    an 11 x 11 map, and walking west past the edge of the 15 x 15 map the
    app builds. */
module Scenarios {
  import opened Grid
  import opened Navigation

  /** A state as the app launches it: standing on the origin, which is
      the only explored cell (`LaunchIsLaunched` shows that `Launch` is
      one). */
  predicate Launched(s: State, d: Dims)
  {
    WellFormed(s, d, Centre(d)) && s.current == Centre(d) && Marked(s.board, Explored) == {Centre(d)}
  }

  /** The app's launch state is a launched state. */
  lemma LaunchIsLaunched(d: Dims)
    requires d.rows >= 1 && d.cols >= 1
    ensures Launched(Launch(d), d)
  {
    LaunchWellFormed(d);
  }

  /** On 11 x 11 the origin is (5, 5). One N click reaches (4, 5), and
      the explored cells are then (5, 5) and (4, 5). */
  lemma NorthOnce(d: Dims, s: State)
    requires d == Dims(11, 11) && Launched(s, d)
    ensures Centre(d) == Pos(5, 5)
    ensures Walk(d, s, seq(1, _ => North)).current == Pos(4, 5)
    ensures Marked(Walk(d, s, seq(1, _ => North)).board, Explored) == {Pos(5, 5), Pos(4, 5)}
  {
    var run := seq(1, _ => North);
    assert Centre(d) == Pos(5, 5);
    assert LegalWalk(d, Pos(5, 5), run) by { NorthWalk(d, 5, 5, 1); }
    assert Displacement(run) == Delta(-1, 0) by { NorthWalk(d, 5, 5, 1); }
    assert Trail(Pos(5, 5), run) == {Pos(4, 5)} by { assert run[0] == North && run[1..] == []; }
    WalkKeepsWellFormed(d, Centre(d), s, run);
  }

  /** Five N clicks reach (0, 5), where N is disabled. */
  lemma NorthToTheEdge(d: Dims, s: State)
    requires d == Dims(11, 11) && Launched(s, d)
    ensures Walk(d, s, seq(5, _ => North)).current == Pos(0, 5)
    ensures Disabled(d, Pos(0, 5), North)
  {
    var run := seq(5, _ => North);
    assert Centre(d) == Pos(5, 5);
    assert LegalWalk(d, Pos(5, 5), run) by { NorthWalk(d, 5, 5, 5); }
    assert Displacement(run) == Delta(-5, 0) by { NorthWalk(d, 5, 5, 5); }
    WalkKeepsWellFormed(d, Centre(d), s, run);
  }

  /** `n` N clicks from row `row` stay on the grid and move `n` rows
      north. */
  lemma {:induction false} NorthWalk(d: Dims, row: int, col: int, n: nat)
    requires n <= row < d.rows && 0 <= col < d.cols
    ensures LegalWalk(d, Pos(row, col), seq(n, _ => North))
    ensures Displacement(seq(n, _ => North)) == Delta(-(n as int), 0)
    decreases n
  {
    if n > 0 {
      var run := seq(n, _ => North);
      assert run[1..] == seq(n - 1, _ => North);
      NorthWalk(d, row - 1, col, n - 1);
    }
  }

  /** On 15 x 15 the origin is (7, 7). Seven W clicks reach (7, 0). The
      eighth W is not disabled, its target (7, -1) is off the grid, and
      the click leaves no cell current. */
  lemma WestPastTheEdge(d: Dims, s: State)
    requires d == Dims(15, 15) && Launched(s, d)
    ensures Centre(d) == Pos(7, 7)
    ensures Walk(d, s, seq(7, _ => West)).current == Pos(7, 0)
    ensures !Disabled(d, Pos(7, 0), West)
    ensures !InBounds(d, Translate(Pos(7, 0), West))
    ensures Marked(Walk(d, s, seq(8, _ => West)).board, Current) == {}
  {
    assert Centre(d) == Pos(7, 7);
    WestOffTheEdge(d, Centre(d), s, 7);
  }

  /** From a well-formed state in column `n`, `n` W clicks reach column 0
      of the same row, and one W click more leaves no cell current. */
  lemma WestOffTheEdge(d: Dims, origin: Pos, s: State, n: nat)
    requires WellFormed(s, d, origin) && s.current.col == n
    ensures Walk(d, s, seq(n, _ => West)).current == Pos(s.current.row, 0)
    ensures Marked(Walk(d, s, seq(n + 1, _ => West)).board, Current) == {}
  {
    var run := seq(n, _ => West);
    var longer := seq(n + 1, _ => West);
    WestWalk(d, s.current.row, n, n);
    WalkKeepsWellFormed(d, origin, s, run);
    var edge := Walk(d, s, run);
    assert longer == run + [West];
    WalkAppend(d, s, run, [West]);
    assert [West][1..] == [];
    EdgeClickLosesCurrent(d, origin, edge, West);
  }

  /** `n` W clicks from column `col` stay on the grid and move `n`
      columns west. */
  lemma {:induction false} WestWalk(d: Dims, row: int, col: int, n: nat)
    requires 0 <= row < d.rows && n <= col < d.cols
    ensures LegalWalk(d, Pos(row, col), seq(n, _ => West))
    ensures Displacement(seq(n, _ => West)) == Delta(0, -(n as int))
    decreases n
  {
    if n > 0 {
      var run := seq(n, _ => West);
      assert run[1..] == seq(n - 1, _ => West);
      WestWalk(d, row, col - 1, n - 1);
    }
  }

  /** Clicking one run and then another is clicking the two in sequence. */
  lemma {:induction false} WalkAppend(d: Dims, s: State, first: seq<Delta>, second: seq<Delta>)
    requires Shaped(s.board, d) && InBounds(d, s.current)
    ensures Walk(d, s, first + second) == Walk(d, Walk(d, s, first), second)
    decreases |first|
  {
    if first != [] {
      assert (first + second)[1..] == first[1..] + second;
      WalkAppend(d, Click(d, s, first[0]), first[1..], second);
    } else {
      assert first + second == second;
    }
  }
}

# Vault Hunters map grid — a Dafny model

The app draws a fixed `rows × cols` map of cells. One cell is the portal
(the origin), one cell is where the player stands (current), and each cell
remembers whether it has ever been visited (explored). Four direction
buttons move the player one cell. Each button is disabled when its move
would leave the grid, but that guard only looks at rows. A selector picks
the portal's exit direction, which is only a label.

This project models that state machine from `src/App.tsx`:

- `grid.dfy`, module `Grid`: the cell record, positions, the board as a
  sequence of rows, the centre origin and `generateGrid`. `GenerateGrid`
  is a method with the source's two nested push loops. It is proved equal
  to `InitialBoard`, and `InitialBoardMarked` proves that on that board the
  origin is the only cell that carries each flag.
- `navigation.dfy`, module `Navigation`: the guard `disableButtonOnBounds`
  (`Disabled`), the guard with the missing column check added
  (`DisabledBothAxes`), `relativeCurrent` (`Relative`) and the click
  handler `dirButtonClick` as a function on a board and a position
  (`Click`). The board after a click is described through `Marked`, the
  set of positions that carry a flag. A click onto the grid moves the
  current flag, adds the target to the explored cells and leaves origin
  flags alone. `WellFormed` is the invariant of the map: exactly one cell
  is current and it is the tracked position, exactly one cell is the
  origin, and both are explored. It holds at launch and after every click
  whose target is on the grid, and so over every run of such clicks
  (`WalkKeepsWellFormed`). Over every run the app allows, throwing clicks
  included, the explored cells only grow and the origin cells stay as they
  were (`WalkKeepsHistory`).
- `scenarios.dfy`, module `Scenarios`: two concrete runs. Each starts from
  any state `Launched` describes: standing on the origin, the only explored
  cell, with the invariant holding. `Scenarios.LaunchIsLaunched` shows that
  the app's launch state is one. The first run walks north on an 11 × 11 map
  until N is disabled. The second walks west on the 15 × 15 map the app
  builds, past the edge that the guard does not protect.
- `app.dfy`, module `App`: class `AppState` with the component's state as
  fields (`grid`, `current`, `exitDirection`, and the constants `dims` and
  `origin`). `DirButtonClick` writes the cells one after another, as lines
  89-91 do, and is proved to produce `Click`'s state.

A click whose target is off the grid is modelled as the code behaves, not
as a precondition. Line 89 clears the old cell first. The write at line 90
then throws because that row or cell is `undefined`. So the cleared board
stays and the position is not updated. `Click` does the same, and
`DirButtonClick` reports `Threw`. It is tempting to treat an off-grid
move as a call the disabled buttons rule out. That holds for N and S, but
W and E are never disabled, so at the west and east edges the throwing
path is reachable. The model follows the code.

## Model

| member | source | states |
|---|---|---|
| `Grid.GenerateGrid` | src/App.tsx:19-30 | the nested loops build exactly `rows` rows of `cols` cells, all unvisited except the origin, which is overwritten with all three flags (equals `InitialBoard`) |
| `Grid.InitialBoardMarked` | src/App.tsx:24-28 | on a generated board the origin is the one cell that is current, the one that is origin and the one that is explored |
| `Grid.Centre` | src/App.tsx:68-71 | each origin coordinate is the floor of half the dimension, and for `rows, cols ≥ 1` the origin lies on the grid, so the write at line 28 is in bounds |
| `Navigation.Relative` | src/App.tsx:80 | the relative position added to the origin gives the current position, and it is (0, 0) exactly when the player stands on the origin |
| `Navigation.Disabled` | src/App.tsx:82-84 | the row-only guard itself; what it means is stated by `DisabledIgnoresColumns`, `HorizontalNeverDisabled`, `VerticalGuardExact` and `GuardMissesColumn`, and `DisabledBothAxes` relates it to the full bounds test |
| `Navigation.DisabledIgnoresColumns` | src/App.tsx:83 | the guard's answer does not depend on the current column or on the column offset |
| `Navigation.HorizontalNeverDisabled` | src/App.tsx:82-84 | from any cell of the grid a move with row offset 0 (W and E) is never disabled |
| `Navigation.VerticalGuardExact` | src/App.tsx:82-84 | for a move with column offset 0 (N and S) the guard is enabled exactly when the target is on the grid |
| `Navigation.GuardMissesColumn` | src/App.tsx:82-84 | at the west edge W, and at the east edge E, is enabled although the target is off the grid, so the guard does not establish that the click's target is on the grid |
| `Navigation.DisabledBothAxes` | src/App.tsx:83 | the guard with a column check: disabled exactly when the target is off the grid, and disabled whenever the row-only guard is |
| `Navigation.Click` | src/App.tsx:86-94 | a click keeps the board's shape and leaves the tracked position on the grid, on both the moving and the throwing path |
| `Navigation.Cleared` | src/App.tsx:89 | the first write keeps the shape, takes `current` off the old cell, keeps that cell's `explored` and `origin`, and leaves every other cell unchanged |
| `Navigation.Step` | src/App.tsx:89-91 | after the three writes the shape is kept, the target is current and explored, and its origin flag is unchanged |
| `Navigation.ClickOutcome` | src/App.tsx:90-92 | a click that moves puts the position on its target; a click that throws at line 90 keeps the position and only takes the current flag off the old cell |
| `Navigation.ClearedMarked` | src/App.tsx:89 | clearing the old cell removes exactly that position from the current cells and changes neither the explored nor the origin cells |
| `Navigation.StepMarked` | src/App.tsx:89-91 | after the three writes the current cells are the old ones minus the old position plus the target, the explored cells gain exactly the target, and the origin cells are unchanged |
| `Navigation.StepCells` | src/App.tsx:89-91 | the target gains `current` and `explored`, a distinct old cell only loses `current`, and every other cell is unchanged |
| `Navigation.Launch` | src/App.tsx:76-77 | the initial state: the generated grid with the player standing on the origin, a cell that carries all three flags; what it means is stated by `LaunchWellFormed` and `Scenarios.LaunchIsLaunched` |
| `Navigation.LaunchWellFormed` | src/App.tsx:68-77 | the launch state (generated board, position at the centre) satisfies the invariant and only the origin is explored |
| `Navigation.ClickKeepsWellFormed` | src/App.tsx:86-94 | a click onto the grid keeps the invariant, moves the position by the offset, and adds exactly the target to the explored cells |
| `Navigation.EdgeClickLosesCurrent` | src/App.tsx:83-90 | a click the row-only guard allows but whose target is off the grid throws, keeps the position and leaves no cell current |
| `Navigation.ClickKeepsHistory` | src/App.tsx:89-91 | every click, also one that throws, keeps all explored cells explored and leaves the origin cells unchanged |
| `Navigation.ThrowThenMoveRecovers` | src/App.tsx:86-94 | after a throwing click, the next click onto the grid restores the invariant: one current cell at the tracked position |
| `Navigation.Walk` | src/App.tsx:86-94 | any run of clicks keeps the board's shape and the tracked position on the grid |
| `Navigation.WalkKeepsWellFormed` | src/App.tsx:86-94 | over every run of clicks onto the grid the invariant holds, the explored cells are those explored before plus every cell stepped onto (so they only grow), and the position moves by the sum of the offsets |
| `Navigation.WalkKeepsHistory` | src/App.tsx:86-94 | over any run of clicks, throwing ones included, the explored cells only grow and the origin cells stay as they were |
| `Navigation.LaunchWalk` | src/App.tsx:68-94 | from launch, after any run of clicks onto the grid, a cell is explored exactly when it is the origin or was stepped onto, and the relative position is the sum of the offsets |
| `Scenarios.LaunchIsLaunched` | src/App.tsx:68-77 | the app's launch state stands on the origin, which is its only explored cell, and satisfies the invariant |
| `Scenarios.NorthOnce` | src/App.tsx:86-94 | on 11 × 11 the origin is (5, 5); from the launch state one N click reaches (4, 5) and the explored cells are exactly (5, 5) and (4, 5) |
| `Scenarios.NorthToTheEdge` | src/App.tsx:82-94 | on 11 × 11, from the launch state, five N clicks reach (0, 5), where N is disabled |
| `Scenarios.WestPastTheEdge` | src/App.tsx:82-94 | on 15 × 15, from the launch state, seven W clicks reach (7, 0); the eighth W is not disabled, its target is off the grid, and the board is left with no current cell |
| `Scenarios.WestOffTheEdge` | src/App.tsx:82-94 | from any well-formed state in column `n`, `n` W clicks reach column 0 of the same row, and one more W click leaves the board with no current cell |
| `App.AppState.constructor` | src/App.tsx:66-78 | the origin is the centre, the grid is generated around it, the player stands on it, the invariant holds and the exit direction starts as N |
| `App.AppState.DirButtonClick` | src/App.tsx:86-94 | the in-place writes give exactly `Click`'s state; the click moves exactly when the target is on the grid; a move keeps the invariant and adds the new position to the explored cells; on both paths the explored cells only grow and origin flags never change; a throw from a well-formed state leaves no cell current |
| `App.AppState.SelectExitDirection` | src/App.tsx:101 | choosing an exit direction sets only that field; grid and position are untouched |

## Left out

- `useCellSize` and `calcCellSize` (src/App.tsx:32-63) are left out. They do floating-point division over the browser window's size and register a resize listener, which is browser I/O and only sizes the rendering.
- The `Cell` component and the JSX tree (src/App.tsx:12-17, 96-134) are left out. They only turn the state into class names and DOM elements.
- The optional `originExitDirection` and `size` fields of the `Cell` interface are left out. They are only filled in at render time and are never stored in the grid.
- React's `useState` scheduling and `console.log` are left out. The state is plain fields that each handler updates to completion.
- The shallow copy at line 88 shares cell objects between the old and new grid. The model replaces the grid value instead. On the throwing path this sharing is why the cleared cell persists even though `setGrid` is never reached, and the model keeps that cleared cell.
- Numbers are JavaScript doubles in the source and unbounded integers in the model. The app's coordinates are small, so no rounding is reachable.
- Navigation.Disabled returns a boolean. The source returns `true` or `undefined`, which the button reads as falsy.
- Grid.GenerateGrid: requires the origin to be on the grid. In the source an origin row off the grid throws at line 28. An origin column at or past `cols` makes line 28 grow that row to `origin.col + 1` cells, with holes when `origin.col > cols`. A negative origin column makes line 28 add a property named after the number, such as `"-1"`, and the row's length stays the same. The only caller passes the centre, which `Grid.Centre` proves is on the grid.
- App.AppState.constructor: requires at least one row and one column. With zero rows the source throws at line 28. The app always uses 15 × 15.
- App.AppState.DirButtonClick: takes any integer offset, not only the four unit offsets of the buttons (src/App.tsx:110-113). The proofs hold for every offset.

## Findings

| source | as written | input that shows it | evidently intended | confidence | as-written member | corrected member |
|---|---|---|---|---|---|---|
| src/App.tsx:83 | the button is disabled only when the target row is off the grid; the column is never checked | 15 × 15 grid, current (7, 0), W = (0, -1): W is enabled, line 89 clears (7, 0), line 90 throws on `undefined`, and the grid has no current cell | also disable the button when `current.col + dir[1]` is outside `[0, cols)` | high; not executed | `Navigation.EdgeClickLosesCurrent` | `Navigation.DisabledBothAxes` |

`Scenarios.WestPastTheEdge` shows that input concretely. `Navigation.GuardMissesColumn`
shows, for every row, that the guard lets W through at the west edge and E
through at the east edge. Runs of clicks are called legal when every click
passes `DisabledBothAxes` (`Navigation.LegalWalk`). Under that guard the
invariant holds after every click (`Navigation.WalkKeepsWellFormed`).

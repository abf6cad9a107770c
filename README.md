# Commit list view of grv, modelled in Dafny

This project models the commit list view of grv, a terminal repository browser
(`commit_view.go`). The view shows the commits of the selected branch in a
scrolling window. For every branch it keeps a `ViewIndex`: the selected commit
(`activeIndex`) and the first commit shown (`viewStartIndex`). The arrow keys
move the selection. Each render scrolls the window just enough to keep the
selection visible. While a branch is still loading, a refresh task asks for a
redraw on every tick.

Modules:

- `Unsigned` (unsigned.dfy): Go's `uint` on a 64-bit platform, and its wrap-around subtraction and addition.
- `Repo` (repo.dfy): branch keys, commits, the loading snapshot `CommitSetState`, and errors.
- `Scroll` (scroll.dfy): `ViewIndex`, the window adjustment `Clamp`, the selected row, and the two navigation steps. The lemmas about them are here too.
- `Surface` (surface.dfy): the render window. It records the calls made on it (`SetRow`, `SetSelectedRow`, `DrawBorder`). `RowWrites` specifies the row loop of `Render`.
- `Refresh` (refresh.dfy): the loading refresh task and the display channel. The channel is reduced to a count of the redraws requested on it.
- `CommitViews` (commit_view.dfy): the `CommitView` class, the key table, and key dispatch.
- `Scenarios` (scenarios.dfy): client code that drives the class through its documented situations using only the method contracts.

Each public method of the view takes the view's lock for its whole run, so each
is modelled as one atomic step. The repository collaborators are passed in as
parameters:

- the result of `Commits`, as a function of branch, start and count;
- the error of `LoadCommits`;
- the `CommitSetState` snapshot.

Integers are `uint` in the source, 64 bits wide on a 64-bit platform. They are
modelled as `Unsigned.Uint`. Where the source's arithmetic can wrap, the model
uses `Sub` and `Add`, which wrap modulo 2^64. The `activeIndex--` and
`activeIndex++` steps use plain `- 1` and `+ 1`, because their guards rule out
a wrap: the index is above 0 before it goes down, and below `commitNum - 1` before
it goes up.

Some behaviours of the code are easy to miss:

- A failed `SetRow` does not make `Render` fail. The `SetSelectedRow` result overwrites that error (line 91), so `Render` returns the selection's error, or none.
- A failed `LoadCommits` still stops the old refresh task and installs a fresh task that never starts (lines 140-145). Only the active branch and the scroll states are left unchanged.
- `Rows()` is a `uint`, so `Rows() - 2` wraps when `Rows()` is below 2.

## Model

| member | source | states |
|---|---|---|
| `Unsigned.Sub` | commit_view.go:70 | `uint` subtraction is the difference modulo 2^64: the true difference, or that plus 2^64 when it is negative |
| `Unsigned.Add` | commit_view.go:71 | `uint` addition is the sum modulo 2^64 |
| `Scroll.Clamp` | commit_view.go:66-72 | keeps the selection; with at least one row, the adjusted window shows the selected commit; no window start that shows it is closer to the old start |
| `Scroll.ClampSnapsUp` | commit_view.go:68-69 | selection above the window: the window then starts at the selection |
| `Scroll.ClampSnapsDown` | commit_view.go:70-71 | selection below the window: the window then starts at `activeIndex - rows + 1`, so the selection is its last row |
| `Scroll.ClampKeepsVisibleWindow` | commit_view.go:68-72 | a window that already shows the selection is left unchanged |
| `Scroll.ClampIdempotent` | commit_view.go:68-72 | adjusting twice is the same as adjusting once |
| `Scroll.ClampIsUniqueClosest` | commit_view.go:68-72 | the adjusted start is the only visible start at that distance from the old start, so the adjustment is the unique minimal move |
| `Scroll.SelectedRow` | commit_view.go:91 | whenever the window shows the selection, the row is in `1..rows` and is the screen row that shows the selected commit (row 1 shows `viewStartIndex`) |
| `Scroll.SelectedRowWithinWindow` | commit_view.go:66-91 | after the adjustment with `rows >= 1` (`Rows() >= 3`), the row passed to `SetSelectedRow` lies in `1..rows` |
| `Scroll.MoveUp` | commit_view.go:194-203 | a redraw is requested exactly when the index changes, which is exactly when `activeIndex > 0`; the index drops by one; the window start never changes |
| `Scroll.MoveDownAsWritten` | commit_view.go:206-216 | the guard as written, with `commitNum - 1` on `uint`: a redraw exactly when the index changes; the window start never changes; on a non-empty list the index stays below `commitNum` |
| `Scroll.MoveDownAsWrittenLeavesEmptyList` | commit_view.go:210 | with `commitNum = 0` the written guard wraps and passes: the index still moves down and a redraw is requested |
| `Scroll.MoveDown` | commit_view.go:206-216 | a redraw exactly when `activeIndex + 1 < commitNum`, which is exactly when the index changes; it then moves to the next commit, which is in the list; the window start never changes |
| `Scroll.MoveDownAgreesOnNonEmptyList` | commit_view.go:210-213 | for `commitNum >= 1` the corrected step equals the step as written |
| `Scroll.MoveDownStaysInList` | commit_view.go:210-213 | a selection inside the list (or at 0 on an empty list) stays there |
| `Scroll.MoveDownThenUp` | commit_view.go:194-216 | up undoes a down step that moved |
| `Scroll.MoveUpThenDown` | commit_view.go:194-216 | down undoes an up step that moved inside the list |
| `Scroll.MovesUpSaturates` | commit_view.go:197-200 | `k` up presses select `max(activeIndex - k, 0)` and leave the window start alone |
| `Scroll.MovesDownSaturates` | commit_view.go:210-213 | from inside the list, `k` down presses select `min(activeIndex + k, commitNum - 1)` and leave the window start alone |
| `Surface.RowWrites` | commit_view.go:79-89 | commit `cs[j]` goes to row `j + 1`, in order; all rows before the last attempt were accepted; stopping before the end means the last attempted row was rejected |
| `CommitViews.WriteRows` | commit_view.go:79-89 | the row loop makes exactly the calls `RowWrites` describes, and returns the rejection of the row it stopped at |
| `CommitViews.NavigateStaysInList` | commit_view.go:182-216 | on a non-empty list, no sequence of key presses takes the selection outside the list, and none scrolls the window |
| `CommitViews.NavigateLeavesEmptyList` | commit_view.go:206-216 | on a branch with no commits, one down press through the key table selects index 1 |
| `CommitViews.IntendedNavigateStaysInList` | commit_view.go:182-216 | with the corrected down guard, no sequence of key presses takes the selection outside the list, even an empty one, and none scrolls the window |
| `CommitViews.NavigateIgnoresUnboundKeys` | commit_view.go:187-189 | keys other than up and down leave the scroll state unchanged |
| `CommitViews.ThreeDownPressesScrollOneRow` | commit_view.go:66-72 | five commits, three rows: three down presses select index 3, and the next render moves the window start to 1 |
| `CommitViews.CommitView.constructor` | commit_view.go:39-48 | a new view has no branch, no scroll states, no task, and the table binding `KEY_UP` to move up and `KEY_DOWN` to move down |
| `CommitViews.CommitView.Render` | commit_view.go:55-98 | no scroll state for the active branch gives the missing-state error with no window call and no state change. Otherwise the active entry becomes its `Clamp` and no other entry changes. A `Commits` error is returned with nothing drawn. Otherwise the rows of `RowWrites` are written, then the selected row, then the border unless the selection was rejected. The result is the selection's error |
| `CommitViews.CommitView.OnRefSelect` | commit_view.go:135-172 | the old task ends stopped; its own display channel gets one final redraw if it was running and nothing if it was already stopped; a fresh task bound to the caller's display channel replaces it. A load error is returned and leaves the branch and map unchanged, with the new task stopped. On success the branch becomes active, gets `ViewIndex{0,0}` only if it had no entry, every other entry is untouched, and the new task runs iff the snapshot says loading |
| `CommitViews.CommitView.OnCommitsLoaded` | commit_view.go:147-151 | the completion callback stops the task it was created with; it requests one final redraw only if that task was still running |
| `CommitViews.CommitView.OnActiveChange` | commit_view.go:174-180 | sets the focus flag and changes nothing else |
| `CommitViews.CommitView.Handle` | commit_view.go:182-192 | a bound key applies its handler's step to the active branch's entry and requests a redraw iff the step moved; any other key changes nothing and requests nothing; the result is never an error |
| `CommitViews.CommitView.MoveUpCommit` | commit_view.go:194-204 | the active entry becomes `MoveUp` of itself; exactly one redraw iff it moved; other entries untouched |
| `CommitViews.CommitView.MoveDownCommit` | commit_view.go:206-217 | the active entry becomes `MoveDownAsWritten` of itself against the snapshot's `commitNum`, including the wrap when it is 0; exactly one redraw iff it moved; other entries untouched |
| `Refresh.RefreshTask.constructor` | commit_view.go:100-105 | a new task is bound to its display channel at the given rate and is not running |
| `Refresh.RefreshTask.Start` | commit_view.go:107-124 | the task is running |
| `Refresh.RefreshTask.Tick` | commit_view.go:115-117 | each tick of a running task requests one redraw |
| `Refresh.RefreshTask.Stop` | commit_view.go:126-133 | afterwards the task is stopped; one final redraw if it was running, and nothing at all if it was already stopped |

## Left out

- The goroutine, `time.Ticker`, the cancel channel, and the blocking sends on `displayCh` (commit_view.go:107-133). The task is a running flag, and every redraw request is a counted send. Timing, and the deadlock a stalled redraw consumer could cause, are not modelled.
- `sync.Mutex`: each public method is one atomic step. The completion callback is a separate method, `OnCommitsLoaded`, that the caller may invoke at any point between steps.
- `Refresh.RefreshTask.Start`: calling it on a running task leaves the earlier ticker and loop running. The model only sets the flag. The view only starts fresh tasks.
- `CommitViews.CommitView.MoveUpCommit`, `CommitViews.CommitView.MoveDownCommit`, `CommitViews.CommitView.Handle`: before any branch is selected, the source dereferences a nil `ViewIndex` and panics. The model requires the active branch to have an entry instead.
- `CommitViews.CommitView.Render`: requires that `Commits` returns at most the number of commits asked for, which is the repository's contract. The commit row text (author time, name, summary) is not formatted: a row records the commit itself. `Rows()` below 2 wraps `Rows() - 2`, and `Rows() == 2` gives a window of zero rows. The model computes both cases as the source does, but the window and selected-row properties are proved only for `Rows() >= 3`.
- The repository (`Commits`, `LoadCommits`, `CommitSetState`) and the window are foreign code. Their results are parameters, and the window's refusals are fixed when a window is made.
- `Initialise` only logs. Logging is left out everywhere.
- `*Oid` map keys compare by pointer in the source. `BranchKey` compares by value. The `*ViewIndex` pointers in the map are never shared, so each entry is modelled as a value that the methods replace.
- `KEY_UP` and `KEY_DOWN` take the curses key codes 259 and 258.

## Findings

| source | as written | input that shows it | evidently intended | confidence | as-written member | corrected member |
|---|---|---|---|---|---|---|
| commit_view.go:210 | `viewIndex.activeIndex < commitSetState.commitNum-1` on `uint` | a branch with `commitNum = 0` (still loading, nothing loaded yet) and `activeIndex = 0`: `0 - 1` wraps to 2^64 - 1, so the down key selects index 1 and requests a redraw, and each further press moves again | no move when the branch has no commits | high, not executed | `Scroll.MoveDownAsWrittenLeavesEmptyList` | `Scroll.MoveDown` |

The class keeps the source's guard. The corrected step, `Scroll.MoveDown`, is used by `CommitViews.IntendedNavigate`, which `CommitViews.IntendedNavigateStaysInList` is proved about.

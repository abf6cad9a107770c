/**
 * The commit list view: per-branch scroll state, the key table, the render
 * routine and the branch-selection hook that drives the loading refresh task.
 * Every public method runs under the view's lock in the source, so each is
 * modelled as one atomic step.
 */
module CommitViews {
  import opened Unsigned
  import opened Repo
  import opened Scroll
  import opened Surface
  import opened Refresh

  /** Redraw interval of the loading refresh task, in milliseconds. */
  const CV_LOAD_REFRESH_MS: nat := 500

  /** A curses key code; the two arrow keys are the only ones the view binds. */
  type Key = int
  const KEY_DOWN: Key := 258
  const KEY_UP: Key := 259

  /** The handlers the key table can name. */
  datatype Handler = MoveUpCommitHandler | MoveDownCommitHandler

  /** The key table a new view starts with. */
  function HandlerTable(): map<Key, Handler>
  {
    map[KEY_UP := MoveUpCommitHandler, KEY_DOWN := MoveDownCommitHandler]
  }

  /** What a bound handler does to the active branch's scroll state, with the down guard as the source writes it. */
  function Dispatch(h: Handler, vi: ViewIndex, commitNum: Uint): Step
  {
    match h
    case MoveUpCommitHandler => MoveUp(vi)
    case MoveDownCommitHandler => MoveDownAsWritten(vi, commitNum)
  }

  /** The scroll state after the keys `keys`, pressed while the branch holds `commitNum` commits. */
  function Navigate(vi: ViewIndex, keys: seq<Key>, commitNum: Uint): ViewIndex
    decreases |keys|
  {
    if keys == [] then vi
    else
      var table := HandlerTable();
      var next := if keys[0] in table then Dispatch(table[keys[0]], vi, commitNum).index else vi;
      Navigate(next, keys[1..], commitNum)
  }

  /** On a non-empty list no sequence of key presses moves the selection outside it or scrolls the window. */
  lemma {:induction false} NavigateStaysInList(vi: ViewIndex, keys: seq<Key>, commitNum: Uint)
    requires vi.activeIndex < commitNum
    decreases |keys|
    ensures Navigate(vi, keys, commitNum).activeIndex < commitNum
    ensures Navigate(vi, keys, commitNum).viewStartIndex == vi.viewStartIndex
  {
    if keys != [] {
      var table := HandlerTable();
      var next := if keys[0] in table then Dispatch(table[keys[0]], vi, commitNum).index else vi;
      NavigateStaysInList(next, keys[1..], commitNum);
    }
  }

  /** On a branch with no commits one down press already selects a position past the end. */
  lemma NavigateLeavesEmptyList()
    ensures Navigate(ViewIndex(0, 0), [KEY_DOWN], 0) == ViewIndex(1, 0)
  {
    assert Navigate(ViewIndex(1, 0), [KEY_DOWN][1..], 0) == ViewIndex(1, 0);
  }

  /** The intended dispatch: the down key uses the corrected guard of `MoveDown`. */
  function IntendedDispatch(h: Handler, vi: ViewIndex, commitNum: Uint): Step
  {
    match h
    case MoveUpCommitHandler => MoveUp(vi)
    case MoveDownCommitHandler => MoveDown(vi, commitNum)
  }

  /** `Navigate` with the intended dispatch. */
  function IntendedNavigate(vi: ViewIndex, keys: seq<Key>, commitNum: Uint): ViewIndex
    decreases |keys|
  {
    if keys == [] then vi
    else
      var table := HandlerTable();
      var next := if keys[0] in table then IntendedDispatch(table[keys[0]], vi, commitNum).index else vi;
      IntendedNavigate(next, keys[1..], commitNum)
  }

  /** With the corrected guard the selection stays in the list, also when the list is empty. */
  lemma {:induction false} IntendedNavigateStaysInList(vi: ViewIndex, keys: seq<Key>, commitNum: Uint)
    requires vi.activeIndex < commitNum || vi.activeIndex == 0
    decreases |keys|
    ensures IntendedNavigate(vi, keys, commitNum).activeIndex < commitNum || IntendedNavigate(vi, keys, commitNum).activeIndex == 0
    ensures IntendedNavigate(vi, keys, commitNum).viewStartIndex == vi.viewStartIndex
  {
    if keys != [] {
      var table := HandlerTable();
      var next := if keys[0] in table then IntendedDispatch(table[keys[0]], vi, commitNum).index else vi;
      IntendedNavigateStaysInList(next, keys[1..], commitNum);
    }
  }

  /** Keys outside the table leave the scroll state alone. */
  lemma {:induction false} NavigateIgnoresUnboundKeys(vi: ViewIndex, keys: seq<Key>, commitNum: Uint)
    requires forall i :: 0 <= i < |keys| ==> keys[i] != KEY_UP && keys[i] != KEY_DOWN
    decreases |keys|
    ensures Navigate(vi, keys, commitNum) == vi
  {
    if keys != [] {
      NavigateIgnoresUnboundKeys(vi, keys[1..], commitNum);
    }
  }

  /**
   * Five commits, a three-row window: three down presses select the fourth
   * commit, and the next render scrolls the window by exactly one row.
   */
  lemma ThreeDownPressesScrollOneRow()
    ensures Navigate(ViewIndex(0, 0), [KEY_DOWN, KEY_DOWN, KEY_DOWN], 5) == ViewIndex(3, 0)
    ensures Clamp(ViewIndex(3, 0), 3) == ViewIndex(3, 1)
  {
    var down := [KEY_DOWN];
    assert Navigate(ViewIndex(2, 0), down, 5) == ViewIndex(3, 0) by {
      assert Navigate(ViewIndex(3, 0), down[1..], 5) == ViewIndex(3, 0);
    }
    assert Navigate(ViewIndex(1, 0), [KEY_DOWN] + down, 5) == ViewIndex(3, 0) by {
      assert ([KEY_DOWN] + down)[1..] == down;
    }
    assert [KEY_DOWN, KEY_DOWN, KEY_DOWN][1..] == [KEY_DOWN] + down;
  }

  /**
   * The row loop of Render: writes `cs[j]` to row `j + 1`, in order, and
   * stops at the first row the window rejects, returning that rejection.
   */
  method WriteRows(win: RenderWindow, cs: seq<Commit>) returns (err: Option<Error>)
    requires |cs| < UINT_RANGE
    modifies win
    ensures win.calls == old(win.calls) + RowWrites(cs, win.rejectsRow, 0)
    ensures var w := RowWrites(cs, win.rejectsRow, 0);
      err == if 0 < |w| && win.rejectsRow(|w|) then Some(WindowFailure(|w|)) else None
  {
    err := None;
    ghost var before := win.calls;
    ghost var rejects := win.rejectsRow;
    ghost var all := RowWrites(cs, rejects, 0);
    var rowIndex: Uint := 1;
    var i := 0;
    while i < |cs|
      invariant 0 <= i <= |cs| && i <= |all|
      invariant i < |cs| ==> rowIndex == i + 1
      invariant err == None
      invariant forall row: Uint :: 1 <= row <= i ==> !rejects(row)
      invariant win.calls == before + all[..i]
    {
      err := win.SetRow(rowIndex, cs[i]);
      assert i < |all| && all[i] == SetRow(i + 1, cs[i]);
      assert all[..i + 1] == all[..i] + [all[i]];
      if err.Some? {
        assert all == all[..i + 1];
        assert win.calls == before + all;
        break;
      }
      rowIndex := Add(rowIndex, 1);
      i := i + 1;
    }
    if err.None? {
      assert all == all[..i];
    }
  }

  class CommitView {
    var activeBranch: Option<BranchKey>
    var active: bool
    var viewIndex: map<BranchKey, ViewIndex>
    const handlers: map<Key, Handler>
    var refreshTask: RefreshTask?

    /** The view's invariant: a selected branch always has its scroll state, and the key table is fixed. */
    ghost predicate Valid()
      reads this
    {
      (activeBranch.Some? ==> activeBranch.value in viewIndex) &&
      handlers == HandlerTable()
    }

    /** Whether the active branch has a scroll state (the lookup at the head of Render). */
    predicate HasViewIndex()
      reads this
    {
      activeBranch.Some? && activeBranch.value in viewIndex
    }

    /** NewCommitView. */
    constructor ()
      ensures Valid()
      ensures activeBranch == None && !active && viewIndex == map[] && refreshTask == null
    {
      activeBranch := None;
      active := false;
      viewIndex := map[];
      handlers := HandlerTable();
      refreshTask := null;
    }

    /**
     * Adjusts the active branch's window, fetches the commits it shows with
     * `commits` (the repository's `Commits`), writes one row per commit and
     * marks the selected row.
     */
    method Render(win: RenderWindow, commits: (BranchKey, Uint, Uint) -> Result<seq<Commit>>)
      returns (err: Option<Error>)
      requires Valid()
      requires forall b, start, count :: commits(b, start, count).Ok? ==> |commits(b, start, count).value| <= count
      modifies this`viewIndex, win
      ensures Valid()
      ensures !old(HasViewIndex()) ==>
        err == Some(NoViewIndex(activeBranch)) && viewIndex == old(viewIndex) && win.calls == old(win.calls)
      ensures old(HasViewIndex()) ==>
        var b := activeBranch.value;
        var rows := Sub(win.rows, 2);
        var vi := Clamp(old(viewIndex)[b], rows);
        viewIndex == old(viewIndex)[b := vi] &&
        match commits(b, vi.viewStartIndex, rows)
        case Err(e) => err == Some(e) && win.calls == old(win.calls)
        case Ok(cs) =>
          win.calls == old(win.calls) + RowWrites(cs, win.rejectsRow, 0) + [SetSelectedRow(SelectedRow(vi), active)]
                       + (if win.rejectsSelection then [] else [DrawBorder]) &&
          err == (if win.rejectsSelection then Some(WindowFailure(SelectedRow(vi))) else None)
    {
      if !HasViewIndex() {
        return Some(NoViewIndex(activeBranch));
      }
      var b := activeBranch.value;
      var vi := viewIndex[b];

      var rows := Sub(win.Rows(), 2);

      if vi.viewStartIndex > vi.activeIndex {
        vi := vi.(viewStartIndex := vi.activeIndex);
      } else {
        var rowDiff := Sub(vi.activeIndex, vi.viewStartIndex);
        if rowDiff >= rows {
          vi := vi.(viewStartIndex := Add(vi.viewStartIndex, Add(Sub(rowDiff, rows), 1)));
        }
      }
      viewIndex := viewIndex[b := vi];

      var fetched := commits(b, vi.viewStartIndex, rows);
      if fetched.Err? {
        return Some(fetched.error);
      }
      var cs := fetched.value;

      err := WriteRows(win, cs);

      err := win.SetSelectedRow(Add(Sub(vi.activeIndex, vi.viewStartIndex), 1), active);
      if err.Some? {
        return;
      }

      win.DrawBorder();
    }

    /**
     * Selects branch `oid`. `loadErr` is what the repository's `LoadCommits`
     * returns and `state` what its `CommitSetState` reports afterwards.
     * `task` is the refresh task that the completion callback handed to
     * `LoadCommits` will stop.
     */
    method OnRefSelect(oid: BranchKey, display: DisplayChannel, loadErr: Option<Error>, state: CommitSetState)
      returns (err: Option<Error>, task: RefreshTask)
      requires Valid()
      modifies this, display, if refreshTask == null then {} else {refreshTask, refreshTask.display}
      ensures Valid()
      ensures fresh(task) && refreshTask == task
      ensures task.display == display && task.refreshRateMs == CV_LOAD_REFRESH_MS
      ensures old(refreshTask) != null ==> !old(refreshTask).running
      ensures old(refreshTask) != null ==>
        old(refreshTask).display.sent == old(refreshTask.display.sent) + (if old(refreshTask.running) then 1 else 0)
      ensures display.sent == old(display.sent) +
        (if old(refreshTask) != null && old(refreshTask.running) && old(refreshTask.display) == display then 1 else 0)
      ensures active == old(active)
      ensures err == loadErr
      ensures loadErr.Some? ==>
        activeBranch == old(activeBranch) && viewIndex == old(viewIndex) && !task.running
      ensures loadErr.None? ==>
        activeBranch == Some(oid) &&
        viewIndex == (if oid in old(viewIndex) then old(viewIndex) else old(viewIndex)[oid := ViewIndex(0, 0)]) &&
        task.running == state.loading
    {
      if refreshTask != null {
        refreshTask.Stop();
      }

      task := new RefreshTask(CV_LOAD_REFRESH_MS, display);
      refreshTask := task;

      if loadErr.Some? {
        return loadErr, task;
      }

      activeBranch := Some(oid);

      if oid !in viewIndex {
        viewIndex := viewIndex[oid := ViewIndex(0, 0)];
      }

      if state.loading {
        task.Start();
      } else {
        task.Stop();
      }
      err := None;
    }

    /** The completion callback given to `LoadCommits`: stops the task it was created with. */
    method OnCommitsLoaded(task: RefreshTask)
      modifies task, task.display
      ensures !task.running
      ensures task.display.sent == old(task.display.sent) + (if old(task.running) then 1 else 0)
    {
      task.Stop();
    }

    method OnActiveChange(active: bool)
      requires Valid()
      modifies this`active
      ensures Valid()
      ensures this.active == active
    {
      this.active := active;
    }

    /** Runs the handler bound to `key`, if any; `state` is what `CommitSetState` reports for the active branch. */
    method Handle(key: Key, display: DisplayChannel, state: CommitSetState) returns (err: Option<Error>)
      requires Valid()
      requires key in handlers ==> HasViewIndex()
      modifies this`viewIndex, display
      ensures Valid()
      ensures err == None
      ensures key !in handlers ==> viewIndex == old(viewIndex) && display.sent == old(display.sent)
      ensures key in handlers ==>
        var step := Dispatch(handlers[key], old(viewIndex)[activeBranch.value], state.commitNum);
        viewIndex == old(viewIndex)[activeBranch.value := step.index] &&
        display.sent == old(display.sent) + (if step.redraw then 1 else 0)
    {
      err := None;
      if key in handlers {
        match handlers[key]
        case MoveUpCommitHandler => err := MoveUpCommit(display);
        case MoveDownCommitHandler => err := MoveDownCommit(display, state);
      }
    }

    /** Selects the previous commit of the active branch and requests a redraw, unless the first is selected. */
    method MoveUpCommit(display: DisplayChannel) returns (err: Option<Error>)
      requires Valid() && HasViewIndex()
      modifies this`viewIndex, display
      ensures Valid()
      ensures err == None
      ensures var step := MoveUp(old(viewIndex)[activeBranch.value]);
        viewIndex == old(viewIndex)[activeBranch.value := step.index] &&
        display.sent == old(display.sent) + (if step.redraw then 1 else 0)
    {
      err := None;
      var b := activeBranch.value;
      var vi := viewIndex[b];
      if vi.activeIndex > 0 {
        viewIndex := viewIndex[b := vi.(activeIndex := vi.activeIndex - 1)];
        display.Send();
      }
    }

    /**
     * Selects the next commit of the active branch and requests a redraw,
     * unless the last is selected. The guard compares against the `uint`
     * `commitNum - 1`, which wraps around on an empty branch
     * (`Scroll.MoveDownAsWritten`).
     */
    method MoveDownCommit(display: DisplayChannel, state: CommitSetState) returns (err: Option<Error>)
      requires Valid() && HasViewIndex()
      modifies this`viewIndex, display
      ensures Valid()
      ensures err == None
      ensures var step := MoveDownAsWritten(old(viewIndex)[activeBranch.value], state.commitNum);
        viewIndex == old(viewIndex)[activeBranch.value := step.index] &&
        display.sent == old(display.sent) + (if step.redraw then 1 else 0)
    {
      err := None;
      var b := activeBranch.value;
      var vi := viewIndex[b];
      if vi.activeIndex < Sub(state.commitNum, 1) {
        viewIndex := viewIndex[b := vi.(activeIndex := vi.activeIndex + 1)];
        display.Send();
      }
    }
  }
}

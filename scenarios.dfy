/**
 * Client code that drives the view through the situations the commit view is
 * designed for, using only the contracts of its methods.
 */
module Scenarios {
  import opened Unsigned
  import opened Repo
  import opened Scroll
  import opened Surface
  import opened Refresh
  import opened CommitViews

  /** A key the view's table does not bind (the curses code of F1). */
  const KEY_F1: Key := 265

  /** A stand-in for `Commits` on a branch whose commits are `all`. */
  function Page(all: seq<Commit>, start: Uint, count: Uint): (page: seq<Commit>)
    ensures |page| <= count
    ensures forall j :: 0 <= j < |page| ==> start + j < |all| && page[j] == all[start + j]
  {
    if |all| <= start then []
    else if |all| - start <= count then all[start..]
    else all[start..start + count]
  }

  /** Rendering before any branch was selected fails and draws nothing. */
  method RenderBeforeSelection()
  {
    var view := new CommitView();
    var win := new RenderWindow(10, _ => false, false);
    var err := view.Render(win, (b: BranchKey, start: Uint, count: Uint) => Ok([]));
    assert err == Some(NoViewIndex(None));
    assert win.calls == [];
  }

  /** Five commits: three down presses select the fourth commit, each with one redraw; other keys do nothing. */
  method ThreeDownPresses() returns (view: CommitView, branch: BranchKey)
    ensures fresh(view) && view.Valid()
    ensures view.activeBranch == Some(branch) && !view.active
    ensures view.viewIndex == map[branch := ViewIndex(3, 0)]
  {
    var display := new DisplayChannel();
    view := new CommitView();
    branch := BranchKey(1);
    var state := CommitSetState(false, 5);
    var err, task := view.OnRefSelect(branch, display, None, state);
    assert view.viewIndex[branch] == ViewIndex(0, 0);
    assert !task.running && display.sent == 0;

    err := view.Handle(KEY_DOWN, display, state);
    err := view.Handle(KEY_DOWN, display, state);
    err := view.Handle(KEY_DOWN, display, state);
    assert view.viewIndex[branch] == ViewIndex(3, 0);
    assert display.sent == 3;

    err := view.Handle(KEY_F1, display, state);
    assert display.sent == 3;
  }

  /**
   * The render after those presses, in a window of five rows (three commit
   * rows): the window scrolls by one row and the selection is its last row.
   */
  method ThreeDownPressesThenRender(all: seq<Commit>)
    requires |all| == 5
  {
    var view, branch := ThreeDownPresses();
    var win := new RenderWindow(5, _ => false, false);
    var err := view.Render(win, (b: BranchKey, start: Uint, count: Uint) => Ok(Page(all, start, count)));
    assert view.viewIndex[branch] == ViewIndex(3, 1);
    assert err == None;
    var rows := Page(all, 1, 3);
    assert rows == all[1..4];
    assert RowWrites(rows, win.rejectsRow, 2) == [SetRow(3, all[3])];
    assert RowWrites(rows, win.rejectsRow, 0) == [SetRow(1, all[1]), SetRow(2, all[2]), SetRow(3, all[3])];
    assert win.calls == [SetRow(1, all[1]), SetRow(2, all[2]), SetRow(3, all[3]), SetSelectedRow(3, false), DrawBorder];
  }

  /** A window that rejects its second row gets one row, then the selection and the border. */
  method RowFailureStopsTheRows(all: seq<Commit>)
    requires |all| == 5
  {
    var display := new DisplayChannel();
    var view := new CommitView();
    var err, task := view.OnRefSelect(BranchKey(7), display, None, CommitSetState(false, 5));
    var win := new RenderWindow(5, row => row == 2, false);
    err := view.Render(win, (b: BranchKey, start: Uint, count: Uint) => Ok(Page(all, start, count)));
    assert RowWrites(Page(all, 0, 3), win.rejectsRow, 0) == [SetRow(1, all[0]), SetRow(2, all[1])];
    assert win.calls == [SetRow(1, all[0]), SetRow(2, all[1]), SetSelectedRow(1, false), DrawBorder];
    assert err == None;
  }

  /** On a branch with no commits yet, the down key still moves the selection and requests a redraw. */
  method DownOnEmptyBranch()
  {
    var display := new DisplayChannel();
    var view := new CommitView();
    var branch := BranchKey(3);
    var state := CommitSetState(true, 0);
    var err, task := view.OnRefSelect(branch, display, None, state);
    err := view.Handle(KEY_DOWN, display, state);
    assert view.viewIndex[branch] == ViewIndex(1, 0);
    assert display.sent == 1;
  }

  /**
   * A branch still loading starts the refresh task; the load-completion
   * callback stops it with one final redraw, and a second stop adds nothing.
   */
  method LoadingThenLoaded()
  {
    var display := new DisplayChannel();
    var view := new CommitView();
    var err, task := view.OnRefSelect(BranchKey(1), display, None, CommitSetState(true, 0));
    assert task.running && display.sent == 0;
    task.Tick();
    task.Tick();
    assert display.sent == 2;
    view.OnCommitsLoaded(task);
    assert !task.running && display.sent == 3;
    task.Stop();
    assert display.sent == 3;
  }

  /**
   * Selecting the same branch again while it is still loading stops the first
   * task (one final redraw) and leaves the second as the only running one;
   * the first load's late completion callback changes nothing.
   */
  method ReselectWhileLoading()
  {
    var display := new DisplayChannel();
    var view := new CommitView();
    var branch := BranchKey(2);
    var err, first := view.OnRefSelect(branch, display, None, CommitSetState(true, 10));
    assert first.running;
    var err2, second := view.OnRefSelect(branch, display, None, CommitSetState(true, 20));
    assert !first.running && second.running && view.refreshTask == second;
    assert display.sent == 1;
    view.OnCommitsLoaded(first);
    assert second.running && display.sent == 1;
  }

  /** Selecting a branch leaves the channel of an already stopped task alone. */
  method StoppedTaskChannelUntouched()
  {
    var first := new DisplayChannel();
    var second := new DisplayChannel();
    var view := new CommitView();
    var err, task := view.OnRefSelect(BranchKey(1), first, None, CommitSetState(false, 4));
    assert !task.running && first.sent == 0;
    err, task := view.OnRefSelect(BranchKey(2), second, None, CommitSetState(true, 0));
    assert first.sent == 0 && second.sent == 0 && task.running;
  }

  /** A failed load keeps the selected branch and its scroll state but still replaces the task. */
  method FailedLoadKeepsSelection()
  {
    var display := new DisplayChannel();
    var view := new CommitView();
    var a := BranchKey(1);
    var err, first := view.OnRefSelect(a, display, None, CommitSetState(true, 3));
    var err2, second := view.OnRefSelect(BranchKey(2), display, Some(RepoFailure("unreadable")), CommitSetState(false, 0));
    assert err2 == Some(RepoFailure("unreadable"));
    assert view.activeBranch == Some(a) && view.viewIndex == map[a := ViewIndex(0, 0)];
    assert !first.running && !second.running && view.refreshTask == second;
  }
}

/**
 * The per-branch scroll state of the commit list (`ViewIndex`) and the rules
 * that move it: the window adjustment done at the start of every render and
 * the two navigation steps bound to the arrow keys.
 */
module Scroll {
  import opened Unsigned

  /** The selected commit and the first commit shown, both as positions in the branch's commit list. */
  datatype ViewIndex = ViewIndex(activeIndex: Uint, viewStartIndex: Uint)

  /** A window of `rows` rows whose first row shows commit `start` also shows commit `index`. */
  predicate Shows(start: int, rows: int, index: int)
  {
    start <= index < start + rows
  }

  function Distance(a: int, b: int): nat
  {
    if a <= b then b - a else a - b
  }

  /**
   * The window adjustment that Render performs before fetching commits: move
   * `viewStartIndex` so that `rows` rows starting there show the selected
   * commit, moving it as little as possible.
   */
  function Clamp(vi: ViewIndex, rows: Uint): (r: ViewIndex)
    ensures r.activeIndex == vi.activeIndex
    ensures 1 <= rows ==> Shows(r.viewStartIndex, rows, r.activeIndex)
    ensures 1 <= rows ==>
      forall s: Uint :: Shows(s, rows, vi.activeIndex) ==>
        Distance(r.viewStartIndex, vi.viewStartIndex) <= Distance(s, vi.viewStartIndex)
  {
    if vi.viewStartIndex > vi.activeIndex then
      vi.(viewStartIndex := vi.activeIndex)
    else
      var rowDiff := Sub(vi.activeIndex, vi.viewStartIndex);
      if rowDiff >= rows then
        vi.(viewStartIndex := Add(vi.viewStartIndex, Add(Sub(rowDiff, rows), 1)))
      else
        vi
  }

  /** Selection above the window: the window snaps up to start at the selection. */
  lemma ClampSnapsUp(vi: ViewIndex, rows: Uint)
    requires vi.viewStartIndex > vi.activeIndex
    ensures Clamp(vi, rows) == vi.(viewStartIndex := vi.activeIndex)
  {
  }

  /** Selection below the window: the window snaps down so the selection is its last row. */
  lemma ClampSnapsDown(vi: ViewIndex, rows: Uint)
    requires 1 <= rows
    requires vi.viewStartIndex + rows <= vi.activeIndex
    ensures Clamp(vi, rows) == vi.(viewStartIndex := vi.activeIndex - rows + 1)
  {
  }

  /** Selection already visible: the window stays where it is. */
  lemma ClampKeepsVisibleWindow(vi: ViewIndex, rows: Uint)
    requires Shows(vi.viewStartIndex, rows, vi.activeIndex)
    ensures Clamp(vi, rows) == vi
  {
  }

  /** Adjusting an adjusted window changes nothing. */
  lemma ClampIdempotent(vi: ViewIndex, rows: Uint)
    requires 1 <= rows
    ensures Clamp(Clamp(vi, rows), rows) == Clamp(vi, rows)
  {
  }

  /** No other window start that shows the selection is as close to the old start. */
  lemma ClampIsUniqueClosest(vi: ViewIndex, rows: Uint, s: Uint)
    requires 1 <= rows
    requires Shows(s, rows, vi.activeIndex)
    requires Distance(s, vi.viewStartIndex) <= Distance(Clamp(vi, rows).viewStartIndex, vi.viewStartIndex)
    ensures s == Clamp(vi, rows).viewStartIndex
  {
  }

  /**
   * The window row Render marks as selected: row 0 is the border, so the
   * commit at `viewStartIndex` is on row 1.
   */
  function SelectedRow(vi: ViewIndex): (r: Uint)
    ensures forall rows: Uint :: Shows(vi.viewStartIndex, rows, vi.activeIndex) ==>
      1 <= r <= rows && vi.viewStartIndex + (r - 1) == vi.activeIndex
  {
    Add(Sub(vi.activeIndex, vi.viewStartIndex), 1)
  }

  /** After the adjustment the selected row is one of the window's `rows` rows. */
  lemma SelectedRowWithinWindow(vi: ViewIndex, rows: Uint)
    requires 1 <= rows
    ensures 1 <= SelectedRow(Clamp(vi, rows)) <= rows
  {
  }

  /** The effect of one navigation key: the new scroll state and whether a redraw was requested. */
  datatype Step = Step(index: ViewIndex, redraw: bool)

  /** The up key: select the previous commit unless the first one is selected. */
  function MoveUp(vi: ViewIndex): (s: Step)
    ensures s.index.viewStartIndex == vi.viewStartIndex
    ensures s.redraw <==> s.index != vi
    ensures s.redraw <==> 0 < vi.activeIndex
    ensures s.index.activeIndex <= vi.activeIndex <= s.index.activeIndex + 1
  {
    if vi.activeIndex > 0 then Step(vi.(activeIndex := vi.activeIndex - 1), true)
    else Step(vi, false)
  }

  /**
   * The down key as the source writes it: the guard compares against the
   * `uint` expression `commitNum - 1`, which wraps around when the branch has
   * no commits.
   */
  function MoveDownAsWritten(vi: ViewIndex, commitNum: Uint): (s: Step)
    ensures s.index.viewStartIndex == vi.viewStartIndex
    ensures s.redraw <==> s.index != vi
    ensures 1 <= commitNum ==> s.index.activeIndex < commitNum || s.index == vi
  {
    if vi.activeIndex < Sub(commitNum, 1) then Step(vi.(activeIndex := vi.activeIndex + 1), true)
    else Step(vi, false)
  }

  /** With no commits the source's down key still moves the selection past the end of the list. */
  lemma MoveDownAsWrittenLeavesEmptyList(vi: ViewIndex)
    requires vi.activeIndex < UINT_MAX
    ensures MoveDownAsWritten(vi, 0) == Step(vi.(activeIndex := vi.activeIndex + 1), true)
  {
  }

  /** The down key: select the next commit unless the last one (or none) is selected. */
  function MoveDown(vi: ViewIndex, commitNum: Uint): (s: Step)
    ensures s.index.viewStartIndex == vi.viewStartIndex
    ensures s.redraw <==> s.index != vi
    ensures s.redraw <==> vi.activeIndex + 1 < commitNum
    ensures s.redraw ==> s.index.activeIndex == vi.activeIndex + 1 < commitNum
  {
    if vi.activeIndex + 1 < commitNum then Step(vi.(activeIndex := vi.activeIndex + 1), true)
    else Step(vi, false)
  }

  /** On a non-empty list the corrected down key is the source's. */
  lemma MoveDownAgreesOnNonEmptyList(vi: ViewIndex, commitNum: Uint)
    requires 1 <= commitNum
    ensures MoveDown(vi, commitNum) == MoveDownAsWritten(vi, commitNum)
  {
  }

  /** The down key never selects a position outside the list. */
  lemma MoveDownStaysInList(vi: ViewIndex, commitNum: Uint)
    requires vi.activeIndex < commitNum || vi.activeIndex == 0
    ensures MoveDown(vi, commitNum).index.activeIndex < commitNum || MoveDown(vi, commitNum).index.activeIndex == 0
  {
  }

  /** Up undoes down wherever down moved. */
  lemma MoveDownThenUp(vi: ViewIndex, commitNum: Uint)
    requires vi.activeIndex + 1 < commitNum
    ensures MoveUp(MoveDown(vi, commitNum).index) == Step(vi, true)
  {
  }

  /** Down undoes up wherever up moved inside the list. */
  lemma MoveUpThenDown(vi: ViewIndex, commitNum: Uint)
    requires 0 < vi.activeIndex < commitNum
    ensures MoveDown(MoveUp(vi).index, commitNum) == Step(vi, true)
  {
  }

  /** `k` presses of the up key. */
  function MovesUp(vi: ViewIndex, k: nat): ViewIndex
    decreases k
  {
    if k == 0 then vi else MovesUp(MoveUp(vi).index, k - 1)
  }

  /** `k` presses of the down key against a list of `commitNum` commits. */
  function MovesDown(vi: ViewIndex, commitNum: Uint, k: nat): ViewIndex
    decreases k
  {
    if k == 0 then vi else MovesDown(MoveDown(vi, commitNum).index, commitNum, k - 1)
  }

  /** Repeated up presses stop at the first commit and never scroll the window. */
  lemma {:induction false} MovesUpSaturates(vi: ViewIndex, k: nat)
    decreases k
    ensures MovesUp(vi, k) == vi.(activeIndex := if k <= vi.activeIndex then vi.activeIndex - k else 0)
  {
    if k > 0 {
      MovesUpSaturates(MoveUp(vi).index, k - 1);
    }
  }

  /** Repeated down presses stop at the last commit and never scroll the window. */
  lemma {:induction false} MovesDownSaturates(vi: ViewIndex, commitNum: Uint, k: nat)
    requires vi.activeIndex < commitNum
    decreases k
    ensures MovesDown(vi, commitNum, k) ==
      vi.(activeIndex := if vi.activeIndex + k < commitNum then vi.activeIndex + k else commitNum - 1)
  {
    if k > 0 {
      MovesDownSaturates(MoveDown(vi, commitNum).index, commitNum, k - 1);
    }
  }
}

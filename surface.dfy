/**
 * The render window the commit view draws on. Only the calls the view makes
 * are recorded; whether the window accepts a call is fixed when the window is
 * made, standing in for whatever makes a real terminal window refuse it.
 */
module Surface {
  import opened Unsigned
  import opened Repo

  /** One call made on the window. Row 0 is the border; commit rows start at 1. */
  datatype SurfaceCall =
    | SetRow(row: Uint, commit: Commit)
    | SetSelectedRow(row: Uint, focused: bool)
    | DrawBorder

  class RenderWindow {
    const rows: Uint
    const rejectsRow: Uint -> bool
    const rejectsSelection: bool
    var calls: seq<SurfaceCall>

    constructor (rows: Uint, rejectsRow: Uint -> bool, rejectsSelection: bool)
      ensures this.rows == rows && this.rejectsRow == rejectsRow && this.rejectsSelection == rejectsSelection
      ensures calls == []
    {
      this.rows := rows;
      this.rejectsRow := rejectsRow;
      this.rejectsSelection := rejectsSelection;
      calls := [];
    }

    function Rows(): Uint
    {
      rows
    }

    method SetRow(row: Uint, commit: Commit) returns (err: Option<Error>)
      modifies this
      ensures calls == old(calls) + [SurfaceCall.SetRow(row, commit)]
      ensures err == if rejectsRow(row) then Some(WindowFailure(row)) else None
    {
      calls := calls + [SurfaceCall.SetRow(row, commit)];
      err := if rejectsRow(row) then Some(WindowFailure(row)) else None;
    }

    method SetSelectedRow(row: Uint, focused: bool) returns (err: Option<Error>)
      modifies this
      ensures calls == old(calls) + [SurfaceCall.SetSelectedRow(row, focused)]
      ensures err == if rejectsSelection then Some(WindowFailure(row)) else None
    {
      calls := calls + [SurfaceCall.SetSelectedRow(row, focused)];
      err := if rejectsSelection then Some(WindowFailure(row)) else None;
    }

    method DrawBorder()
      modifies this
      ensures calls == old(calls) + [SurfaceCall.DrawBorder]
    {
      calls := calls + [SurfaceCall.DrawBorder];
    }
  }

  /**
   * The SetRow calls Render makes for commits `cs[k..]`: commit `cs[j]` goes
   * to row `j + 1`, one row after another, and the first row the window
   * rejects is the last one attempted.
   */
  function RowWrites(cs: seq<Commit>, rejectsRow: Uint -> bool, k: nat): (w: seq<SurfaceCall>)
    requires k <= |cs| < UINT_RANGE
    decreases |cs| - k
    ensures |w| <= |cs| - k
    ensures forall j :: 0 <= j < |w| ==> w[j] == SetRow(k + j + 1, cs[k + j])
    ensures forall j :: 0 <= j < |w| - 1 ==> !rejectsRow(w[j].row)
    ensures |w| < |cs| - k ==> 0 < |w| && rejectsRow(k + |w|)
  {
    if k == |cs| then []
    else [SetRow(k + 1, cs[k])] + (if rejectsRow(k + 1) then [] else RowWrites(cs, rejectsRow, k + 1))
  }
}

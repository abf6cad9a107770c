/**
 * The values the commit view exchanges with its collaborators: branch
 * identifiers, commits, the loading snapshot of a branch and the errors
 * that the view returns or passes on.
 */
module Repo {
  import opened Unsigned

  /** A branch or reference; compared by value where the source compares `*Oid` pointers. */
  datatype BranchKey = BranchKey(id: nat)

  /** The fields of a commit that a row shows: author time, author name and summary. */
  datatype Commit = Commit(when: int, authorName: string, summary: string)

  datatype Option<T> = None | Some(value: T)

  datatype Error =
    | NoViewIndex(oid: Option<BranchKey>)  // Render before any ViewIndex exists for the active branch
    | RepoFailure(reason: string)           // an error returned by the repository data
    | WindowFailure(row: Uint)              // an error returned by the render window

  datatype Result<T> = Ok(value: T) | Err(error: Error)

  /** What `CommitSetState` reports for a branch at one point in time. */
  datatype CommitSetState = CommitSetState(loading: bool, commitNum: Uint)
}

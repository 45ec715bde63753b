/** Results shared by every module of the model: an optional value, the error kinds the
    helper raises, and the outcome of one step (it either returns or raises). */
module Outcomes {

  datatype Option<+T> = None | Some(value: T)

  /** The exceptions the helper lets escape, one constructor per distinct cause. */
  datatype Error =
    | BadTaskId(task: string)           // check_task_id_format: the id does not start with "T"
    | WrongBranch(expected: string)     // check_current_branch: the active branch is another one
    | NoRemoteBranch(branch: string)    // make_diff, land_diff, tag_prd: the remote ref is missing
    | TagExists(tag: string)            // tag_branch: the tag is already in the repository
    | ArcFailed(status: int)            // subprocess.run(..., check=True) saw a non-zero exit
    | EndOfInput                        // input() reached the end of the operator's input

  /** `Pass` is a normal return, `Fail(e)` an exception that aborts the whole command. */
  datatype Outcome = Pass | Fail(error: Error)
}

# git-helper: the branch/tag workflow, modelled and verified in Dafny

`git_helper.py` is a command-line helper that runs a team's task workflow on top of git.
`init` creates a task's working branch and its remote integration branch `BRANCH_<task>`.
`diff` and `land` send the task to the `arc` review tool, always against `BRANCH_<task>`.
`prd` merges the integration branch up to the latest release and into `master`, then tags it
`PRD_<task>`. This project models that sequencing policy over an abstract repository and proves
what it guarantees.

## How the model is built

- `outcomes.dfy` (module `Outcomes`): `Option`, the helper's error kinds, and `Outcome`.
  `Outcome` is `Pass` for a normal return or `Fail(e)` for an exception that ends the command.
- `naming.dfy` (module `Naming`): the task-id check, the derived names `BRANCH_<task>` and
  `PRD_<task>`, and the branch a `git push origin src:dst` refspec writes.
- `tags.dfy` (module `Tags`): tags in the order GitPython lists them, which is by name in
  Python's string order. Also the stable sort by commit time that `get_latest_prd_tag` uses, and
  what it selects.
- `workflow.dfy` (module `Workflow`): the repository handle as a value `Repo`. Each operation of
  the helper is a function of the handle before the call. An operation that can raise returns
  `Run(result, handle after)`; the others (`InitTask` and the adapters such as `CheckoutBranch`,
  `CreateOriginBranch`, `PushTag`, `MergeTree`) return the new handle. The tag selection
  `LatestTag` takes the tag listing alone. A failing operation keeps what it already did, since
  the helper never rolls back. The handle
  holds the current branch, the local branch names, the remote ref names, the tags, and a log of
  every side effect. It also holds the two scripts the environment supplies: whether each merge
  attempt conflicts, and the operator's lines of input.
- `workflow_props.dfy` (module `WorkflowProperties`): the lemmas.
- `git_helper.dfy` (module `GitHelper`): the helper as it runs. `WorkRepo` is a class whose
  fields the commands update in place. There is one method per workflow and adapter function
  of the helper. There is also one per git, subprocess or `input()` call it makes (pull, push,
  stash, stash pop, merge, reading a line, running `arc`). `check_task_id_format` stays the pure
  function `Naming.CheckTaskIdFormat`. The branch-listing helpers `get_branch_name`,
  `get_all_local_branches` and `get_all_remote_branches` are folded into `FoundLocalBranch`,
  `FoundOriginBranch` and the `current` field. The recursion of `merge_code` is a `while` loop.
  Each mutating method is proved to leave exactly the handle its `Workflow` function describes,
  so the lemmas apply to the class.

### Remote ref names, a stated assumption

The lookup in `tag_prd` uses `'origin/' + tagged_branch`. The lookups in `init_task`, `make_diff`
and `land_diff` use the bare `BRANCH_<task>`. The model keeps each key exactly as the code builds
it. What the remote listing contains is the constant `remotePrefix` of the handle:

- the listing reports every remote branch as `remotePrefix + branch`;
- `Valid` requires every remote ref name to start with `remotePrefix`;
- the push of `master:BRANCH_<task>` adds `remotePrefix + "BRANCH_<task>"`.

GitPython's remote reference names are `origin/<branch>`. Under that reading, two lemmas prove
what follows:

- `InitTaskAlwaysPushesUnderPrefixedNames`: every `init` pushes again.
- `ReviewNeverRunsUnderPrefixedNames`: `diff` and `land` always fail and never call `arc`.

Under the other reading, where the listing reports bare names (`remotePrefix == ""`),
`InitTaskIsIdempotent` proves that a second `init` does nothing but the checkout.

### Behaviour worth knowing

- After a conflict, any reply other than `continue` makes `merge_code` return normally. `tag_prd`
  then goes on to push, switch to master and tag.
- `init` looks up the bare name `BRANCH_<task>`, while `prd` looks up `origin/BRANCH_<task>`.
- Around the switch to master, `tag_prd` stashes, checks out master and pops the stash; the model
  keeps these three steps in that order.

## Model

| member | source | states |
|---|---|---|
| Naming.IntegrationBranch | git_helper.py:12 | the integration branch is the task id behind a seven-character prefix: seven characters longer, ending in the task id, so it gives the task back (the same name is built at :150, :161 and :172) |
| Naming.ReleaseTag | git_helper.py:32 | the release tag is the task id behind a four-character prefix: four characters longer, ending in the task id |
| Naming.AfterColonIsAfterFirstColon | git_helper.py:174 | the refspec split finds no destination exactly when the spec has no colon, and otherwise returns the text after the first colon |
| Naming.PushDestinationIsAfterFirstColon | git_helper.py:85 | the modelled push writes the text after the spec's first colon, or the whole spec when it has no colon; this is git's destination for every spec with one colon, such as `master:<valid ref name>` |
| Naming.CheckTaskIdFormat | git_helper.py:180-186 | passes exactly when the id starts with `T`; otherwise fails with `BadTaskId(task)` |
| Naming.MainlineRefspecDestination | git_helper.py:172-174 | the refspec `master:BRANCH_<task>` creates exactly `BRANCH_<task>` on the remote, for every task id that makes `BRANCH_<task>` a valid git ref name |
| Naming.NamesAreInjective | git_helper.py:8-36 | different tasks never share an integration branch or a release tag |
| Naming.NamesAreKeptApart | git_helper.py:157-165 | `BRANCH_<task>` is never `master` (land never targets master), never a release tag, never the task branch itself, never a name listed under `origin/` |
| Tags.InsertByName | git_helper.py:53 | `create_tag` lengthens the listing by exactly one entry |
| Tags.InsertByNameContents | git_helper.py:53 | inserting adds exactly the new tag: the names gain its name, the multiset gains the tag |
| Tags.InsertByNameKeepsListing | git_helper.py:53 | creating a tag with a new name adds exactly that tag (names and multiset) and keeps the listing in name order |
| Tags.SortByTime | git_helper.py:75 | the sort keeps the number of entries |
| Tags.SortByTimeSorts | git_helper.py:75 | the stable sort by commit time is ordered by time and is a permutation of the listing |
| Tags.LatestTag | git_helper.py:69-76 | none exactly when there are no tags; otherwise the name of a listed tag |
| Tags.LatestTagIsLastOfTheLatest | git_helper.py:69-76 | none exactly for no tags; otherwise a listed tag whose time is at least every other tag's, and every tag listed after it is strictly older |
| Tags.IsLatestIsUnique | git_helper.py:75 | that characterisation singles out one tag |
| Tags.TieGoesToGreatestName | git_helper.py:73-75 | in the name-ordered listing, a tie on commit time goes to the tag whose name sorts last |
| Tags.LatestTagIgnoresThePrefix | git_helper.py:69-76 | a tag without the `PRD_` prefix can be the one selected |
| WorkflowProperties.HandleArgsValidatesFirst | git_helper.py:189-207 | an invalid task id fails with `BadTaskId` and changes nothing; an unknown command changes nothing; every command keeps the handle valid |
| WorkflowProperties.InitTaskEstablishes | git_helper.py:168-177 | afterwards the task branch is current and local, and the remote holds the pushed branch; the push happens exactly when `BRANCH_<task>` is not listed; the branch is created exactly when it is missing |
| WorkflowProperties.InitTaskIsIdempotent | git_helper.py:168-177 | a second `init` changes no branch, ref or tag and creates no branch; with bare remote names it only checks out |
| WorkflowProperties.InitTaskAlwaysPushesUnderPrefixedNames | git_helper.py:172-174 | with `origin/`-prefixed listing names the bare lookup never matches, so every `init` pushes |
| WorkflowProperties.MakeDiffGuards | git_helper.py:145-154 | off the task branch: `WrongBranch`, no change; `BRANCH_<task>` not listed: `NoRemoteBranch`, no change; else the one side effect is `arc diff` against `BRANCH_<task>` (never master), failing exactly on a non-zero exit |
| WorkflowProperties.LandDiffGuards | git_helper.py:157-165 | the same guards; the one side effect is `arc land` onto `BRANCH_<task>`, never master |
| WorkflowProperties.ReviewNeverRunsUnderPrefixedNames | git_helper.py:145-165 | with `origin/`-prefixed listing names `diff` and `land` always fail with no `arc` call |
| WorkflowProperties.TagBranchAddsExactlyTheTag | git_helper.py:46-53 | off `branch`: `WrongBranch`, no change; existing tag: `TagExists`, no change; otherwise exactly the tag is added, the log gains `TagCreated`, nothing else changes |
| WorkflowProperties.MergeCodeChecksBranch | git_helper.py:56-60 | off `branch`, `merge_code` fails with `WrongBranch` before merging and changes nothing |
| WorkflowProperties.MergeCodeRetriesOnlyOnContinue | git_helper.py:61-66 | every attempt but the last conflicted and was answered exactly `continue`; the last merged cleanly, met the end of input, or got another reply |
| WorkflowProperties.MergeCodeFollowsScript | git_helper.py:56-66 | one logged merge attempt per attempt, the merge script and the lines read are used up, nothing else changes |
| WorkflowProperties.MergeCodeFailsOnlyAtEndOfInput | git_helper.py:61-66 | `merge_code` fails only when a conflict meets the end of input; any other reply returns normally |
| WorkflowProperties.MergeCodeOnlyMerges | git_helper.py:56-66 | at least one attempt; only merge attempts are logged; the only failure is the end of input |
| WorkflowProperties.MergeCodeKeepsValid | git_helper.py:56-66 | `merge_code` keeps the handle valid |
| Workflow.Baseline | git_helper.py:20 | the merge source of a release is master when there are no tags, and otherwise the name of a listed tag |
| WorkflowProperties.TagPrdChecksRemoteFirst | git_helper.py:12-14 | without `origin/BRANCH_<task>`, `prd` fails with `NoRemoteBranch` before any checkout and changes nothing |
| WorkflowProperties.TagReleaseAddsTheTag | git_helper.py:32-36 | on master, the tag step succeeds exactly when `PRD_<task>` is new, then adds exactly it and pushes it |
| WorkflowProperties.MergeIntoMasterSteps | git_helper.py:24-36 | from the push of the integration branch onward: push, stash, checkout master, pop, merge into master, tag, push tag, in that order |
| WorkflowProperties.MergeBaselineSteps | git_helper.py:16-22 | the first stage of a release logs the checkout of `BRANCH_<task>`, the pull and the baseline merge attempts, ends on `BRANCH_<task>`, and changes neither tags nor remote refs |
| WorkflowProperties.TagPrdSteps | git_helper.py:8-36 | a successful `prd` logs exactly: checkout `BRANCH_<task>`, pull, merges of the baseline (latest tag, else master), push, stash, checkout master, pop, merges into master, create `PRD_<task>`, push it; the tag was new and is the only one added |
| WorkflowProperties.TagPrdOnlyTagsOnMaster | git_helper.py:8-36 | tags change only in a successful `prd`, which ends on master; a failing `prd` leaves the tags and fails only for a missing remote, end of input, or an existing tag |
| WorkflowProperties.TagPrdRerunFails | git_helper.py:51-52 | `prd` again after a completed run fails at the tag step with `TagExists` (or earlier at the end of input) and leaves the tags |
| GitHelper.WorkRepo.Open | git_helper.py:218 | the opened handle is valid and holds the given repository with an empty log |
| GitHelper.WorkRepo.FoundLocalBranch | git_helper.py:97-101 | true exactly when the branch is a local branch |
| GitHelper.WorkRepo.FoundOriginBranch | git_helper.py:104-108 | true exactly when the name is in the remote listing |
| GitHelper.WorkRepo.CheckCurrentBranch | git_helper.py:136-142 | passes exactly when the branch is current, otherwise `WrongBranch(branch)` |
| GitHelper.WorkRepo.CheckoutBranch | git_helper.py:111-115 | the branch becomes current and local; one checkout is logged |
| GitHelper.WorkRepo.CreateLocalBranch | git_helper.py:88-94 | the branch becomes local; its creation is logged |
| GitHelper.WorkRepo.CreateOriginBranch | git_helper.py:79-85 | the remote listing gains the refspec's destination under the remote prefix; the push is logged |
| GitHelper.WorkRepo.PushTag | git_helper.py:39-43 | the tag push is logged, nothing else changes |
| GitHelper.WorkRepo.PullCurrent | git_helper.py:18 | the pull of the current branch is logged, nothing else changes |
| GitHelper.WorkRepo.PushCurrent | git_helper.py:24 | the push of the current branch is logged, nothing else changes |
| GitHelper.WorkRepo.Stash | git_helper.py:27 | the stash is logged, nothing else changes |
| GitHelper.WorkRepo.StashPop | git_helper.py:29 | the stash pop is logged, nothing else changes |
| GitHelper.WorkRepo.MergeTree | git_helper.py:62 | one merge attempt is logged; it is clean exactly when the merge script says so |
| GitHelper.WorkRepo.ReadLine | git_helper.py:64 | the operator's next line, or none (end of input) with nothing consumed |
| GitHelper.WorkRepo.RunArc | git_helper.py:152 | the `arc` call is logged; a non-zero exit fails with `ArcFailed` |
| GitHelper.WorkRepo.GetLatestPrdTag | git_helper.py:69-76 | none exactly for no tags; otherwise the last listed of the tags with the latest commit time |
| GitHelper.WorkRepo.TagBranch | git_helper.py:46-53 | leaves the handle `Workflow.TagBranch` describes and keeps it valid |
| GitHelper.WorkRepo.MergeCode | git_helper.py:56-66 | the retry loop leaves the handle and result `Workflow.MergeCode` describes and keeps it valid |
| GitHelper.WorkRepo.InitTask | git_helper.py:168-177 | leaves the handle `Workflow.InitTask` describes and keeps it valid |
| GitHelper.WorkRepo.MakeDiff | git_helper.py:145-154 | leaves the handle and result `Workflow.MakeDiff` describes |
| GitHelper.WorkRepo.LandDiff | git_helper.py:157-165 | leaves the handle and result `Workflow.LandDiff` describes |
| GitHelper.WorkRepo.TagPrd | git_helper.py:8-36 | runs the release steps in order and leaves the handle and result `Workflow.TagPrd` describes |
| GitHelper.WorkRepo.HandleArgs | git_helper.py:189-207 | validates, dispatches, and leaves the handle and result `Workflow.HandleArgs` describes |

## Left out

- What git does inside `merge_tree`, `pull`, `push`, `stash` and `checkout`: these are logged
  events with no effect on file contents. A merge conflicts or not as the merge script says. Any
  `GitCommandError` from `merge_tree` counts as a conflict, as in the code.
- Failures of the other git calls (network errors, a dirty working tree, checking out a missing
  ref): the model assumes they succeed.
- Naming.PushDestination: splits a refspec at the first colon, where git splits at the last. The
  two agree on every spec with at most one colon.
- Naming.MainlineRefspecDestination: the task-id check accepts any id starting with `T`, such as
  `T:1`, `T 1` or `T~1`. For an id that does not make `BRANCH_<task>` a valid git ref name, git
  refuses the push of `master:BRANCH_<task>`, so `init_task` raises before it creates or checks
  out the branch. The model lets that push succeed.
- `checkout`: checking out a branch that exists only on the remote is assumed to create the
  local tracking branch, as git does by default.
- Stash lossiness: the file contents that a stash and pop could lose are not part of the state.
- The `arc` subprocess: only the call is recorded. Its exit status is a parameter. A failure to
  start the process at all is not modelled.
- `input()`: a sequence of lines; its end stands for `EOFError`.
- GitHelper.WorkRepo.MergeCode: `merge_code` retries by recursion, so after roughly a thousand
  conflicts answered `continue` Python's default recursion limit raises `RecursionError`. The
  loop has no such cap; it stops only when the merge script or the input runs out.
- Verbose logging, the "unsupported operation" message, argument parsing, and opening the
  repository: these are I/O and process setup. `argparse` restricts the command to the four
  names before `handle_args` runs. `handle_args`'s own else branch is still modelled.
- Commit timestamps are integers, not time-zone-aware datetimes. The commit time of a newly
  created tag is a parameter.
- A detached HEAD, where `active_branch` raises: the model always has a current branch.
- Tags on the remote: `push_tag` is only logged.
- The order of a new tag in the listing: it is inserted by name. This relies on GitPython
  listing refs sorted by path.

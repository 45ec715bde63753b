/** The branch/tag workflow over an abstract repository, one function per operation of the
    helper. Each operation maps the repository before the call to the outcome and the
    repository after it; an operation that raises leaves whatever it did so far (nothing is
    rolled back). */
module Workflow {
  import opened Outcomes
  import opened Naming
  import opened Tags

  /** The side effects that reach git, the remote and the review tool, in the order they happen. */
  datatype Event =
    | CheckedOut(branch: string)          // git checkout <branch>
    | HeadCreated(branch: string)         // create_head(<branch>) at the current commit
    | PushedToOrigin(refspec: string)     // git push origin <refspec or tag>
    | Pulled(branch: string)              // remote().pull() of the checked-out branch
    | Pushed(branch: string)              // remote().push() of the checked-out branch
    | Stashed                             // git stash
    | StashPopped                         // git stash pop
    | MergeAttempt(into: string, ref: string)  // index.merge_tree(<ref>), clean or conflicted
    | TagCreated(tag: string)             // create_tag(<tag>) at the current commit
    | ArcDiff(target: string)             // arc diff --create <target>
    | ArcLand(target: string)             // arc land --onto <target>

  /** The repository handle and the environment it is driven by.
      - `remotePrefix`: what the remote listing puts before a branch name (GitPython reports
        `origin/<branch>`); every name in `remotes` carries it.
      - `current`: the active branch; `locals`: the local branch names.
      - `remotes`: the remote ref names exactly as the listing reports them.
      - `tags`: the tags in listing order (by name).
      - `log`: every side effect so far.
      - `clashes`: whether each upcoming merge attempt conflicts (a missing entry merges cleanly).
      - `replies`: the operator's remaining lines of input. */
  datatype Repo = Repo(
    remotePrefix: string,
    current: string,
    locals: set<string>,
    remotes: set<string>,
    tags: seq<Tag>,
    log: seq<Event>,
    clashes: seq<bool>,
    replies: seq<string>)

  /** What an operation returns, together with the repository it leaves. */
  datatype Run = Run(result: Outcome, repo: Repo)

  /** The facts every repository handle satisfies: tags listed by name, remote refs listed
      under the remote's prefix. */
  predicate Valid(r: Repo)
  {
    && ByName(r.tags)
    && forall b :: b in r.remotes ==> r.remotePrefix <= b
  }

  /** Two handles agree on everything but the log and the remaining input. */
  predicate SameRefs(a: Repo, b: Repo)
  {
    && a.remotePrefix == b.remotePrefix
    && a.current == b.current
    && a.locals == b.locals
    && a.remotes == b.remotes
    && a.tags == b.tags
  }

  /** `n` copies of one event. */
  function Repeat(e: Event, n: nat): seq<Event>
  {
    if n == 0 then [] else [e] + Repeat(e, n - 1)
  }

  // ---- the repository adapter ----

  function CheckCurrentBranch(r: Repo, branch: string): Outcome
  {
    if r.current == branch then Pass else Fail(WrongBranch(branch))
  }

  /** git checkout; a branch that exists only on the remote gets a local tracking branch. */
  function CheckoutBranch(r: Repo, branch: string): Repo
  {
    r.(current := branch, locals := r.locals + {branch}, log := r.log + [CheckedOut(branch)])
  }

  function CreateLocalBranch(r: Repo, branch: string): Repo
  {
    r.(locals := r.locals + {branch}, log := r.log + [HeadCreated(branch)])
  }

  /** `git push origin <spec>`: the remote gains the spec's destination branch, which the
      listing then reports under the remote's prefix. */
  function CreateOriginBranch(r: Repo, spec: string): Repo
  {
    r.(remotes := r.remotes + {r.remotePrefix + PushDestination(spec)},
       log := r.log + [PushedToOrigin(spec)])
  }

  function PushTag(r: Repo, tag: string): Repo
  {
    r.(log := r.log + [PushedToOrigin(tag)])
  }

  function PullCurrent(r: Repo): Repo
  {
    r.(log := r.log + [Pulled(r.current)])
  }

  function PushCurrent(r: Repo): Repo
  {
    r.(log := r.log + [Pushed(r.current)])
  }

  function Stash(r: Repo): Repo
  {
    r.(log := r.log + [Stashed])
  }

  function StashPop(r: Repo): Repo
  {
    r.(log := r.log + [StashPopped])
  }

  /** Whether the next merge attempt conflicts. */
  predicate NextMergeConflicts(r: Repo)
  {
    r.clashes != [] && r.clashes[0]
  }

  /** One `index.merge_tree(ref)`: it is logged and uses up one entry of the merge script. */
  function MergeTree(r: Repo, ref: string): Repo
  {
    r.(log := r.log + [MergeAttempt(r.current, ref)],
       clashes := if r.clashes == [] then [] else r.clashes[1..])
  }

  /** The review tool: the call is logged; `check=True` turns a non-zero exit into an error. */
  function RunArc(r: Repo, call: Event, status: int): Run
  {
    Run(if status == 0 then Pass else Fail(ArcFailed(status)), r.(log := r.log + [call]))
  }

  // ---- the workflow ----

  /** init_task: push `master:BRANCH_<task>` unless the remote listing has `BRANCH_<task>`,
      create the local branch unless it exists, then check it out. */
  function InitTask(r: Repo, task: string): Repo
  {
    var originBranch := IntegrationBranch(task);
    var r1 := if originBranch !in r.remotes then CreateOriginBranch(r, Master + ":" + originBranch) else r;
    var r2 := if task !in r1.locals then CreateLocalBranch(r1, task) else r1;
    CheckoutBranch(r2, task)
  }

  /** make_diff: on the task's branch, and with `BRANCH_<task>` listed, ask for a review
      against `BRANCH_<task>`. */
  function MakeDiff(r: Repo, task: string, status: int): Run
  {
    var guard := CheckCurrentBranch(r, task);
    var originBranch := IntegrationBranch(task);
    if guard.Fail? then Run(guard, r)
    else if originBranch in r.remotes then RunArc(r, ArcDiff(originBranch), status)
    else Run(Fail(NoRemoteBranch(originBranch)), r)
  }

  /** land_diff: the same guards, then land onto `BRANCH_<task>`, never onto master. */
  function LandDiff(r: Repo, task: string, status: int): Run
  {
    var originBranch := IntegrationBranch(task);
    var guard := CheckCurrentBranch(r, task);
    if guard.Fail? then Run(guard, r)
    else if originBranch !in r.remotes then Run(Fail(NoRemoteBranch(originBranch)), r)
    else RunArc(r, ArcLand(originBranch), status)
  }

  /** tag_branch: on `branch`, create `tag` at the current commit unless it exists. */
  function TagBranch(r: Repo, tag: string, branch: string, committed: int): Run
  {
    var guard := CheckCurrentBranch(r, branch);
    if guard.Fail? then Run(guard, r)
    else if tag in Names(r.tags) then Run(Fail(TagExists(tag)), r)
    else Run(Pass, r.(tags := InsertByName(r.tags, Tag(tag, committed)), log := r.log + [TagCreated(tag)]))
  }

  /** merge_code: check the branch, merge; on a conflict read one line and merge again only
      if it is exactly `continue`; any other line returns normally. */
  function MergeCode(r: Repo, branch: string, ref: string): Run
    decreases |r.replies|
  {
    var guard := CheckCurrentBranch(r, branch);
    if guard.Fail? then Run(guard, r)
    else
      var merged := MergeTree(r, ref);
      if !NextMergeConflicts(r) then Run(Pass, merged)
      else if merged.replies == [] then Run(Fail(EndOfInput), merged)
      else
        var answered := merged.(replies := merged.replies[1..]);
        if merged.replies[0] == Continue then MergeCode(answered, branch, ref)
        else Run(Pass, answered)
  }

  /** The merge source of a release: the latest tag, else master. */
  function Baseline(tags: seq<Tag>): (r: string)
    ensures tags == [] ==> r == Master
    ensures tags != [] ==> exists k :: 0 <= k < |tags| && tags[k].name == r
  {
    if LatestTag(tags).None? then Master else LatestTag(tags).value
  }

  /** tag_prd: the release transaction, in the order the helper runs it. First, on the
      integration branch: check it out, pull, merge the baseline into it. */
  function TagPrd(r: Repo, task: string, committed: int): Run
  {
    var taggedBranch := IntegrationBranch(task);
    if "origin/" + taggedBranch !in r.remotes then Run(Fail(NoRemoteBranch(taggedBranch)), r)
    else
      var r1 := PullCurrent(CheckoutBranch(r, taggedBranch));
      var first := MergeCode(r1, taggedBranch, Baseline(r1.tags));
      if first.result.Fail? then first
      else MergeIntoMaster(first.repo, task, committed)
  }

  /** Then: push the integration branch, stash, check out master, pop the stash, merge the
      integration branch into master. */
  function MergeIntoMaster(r: Repo, task: string, committed: int): Run
  {
    var taggedBranch := IntegrationBranch(task);
    var r2 := StashPop(CheckoutBranch(Stash(PushCurrent(r)), Master));
    var second := MergeCode(r2, Master, taggedBranch);
    if second.result.Fail? then second
    else TagRelease(second.repo, task, committed)
  }

  /** Last: tag master with the release tag and push the tag. */
  function TagRelease(r: Repo, task: string, committed: int): Run
  {
    var tagged := TagBranch(r, ReleaseTag(task), Master, committed);
    if tagged.result.Fail? then tagged
    else Run(Pass, PushTag(tagged.repo, ReleaseTag(task)))
  }

  /** handle_args: validate the task id, then dispatch; an unknown command does nothing. */
  function HandleArgs(r: Repo, command: string, task: string, arcStatus: int, committed: int): Run
  {
    var valid := CheckTaskIdFormat(task);
    if valid.Fail? then Run(valid, r)
    else if command == "init" then Run(Pass, InitTask(r, task))
    else if command == "diff" then MakeDiff(r, task, arcStatus)
    else if command == "land" then LandDiff(r, task, arcStatus)
    else if command == "prd" then TagPrd(r, task, committed)
    else Run(Pass, r)
  }
}

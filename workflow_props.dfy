/** What the workflow guarantees, stated over the functions of module Workflow. */
module WorkflowProperties {
  import opened Outcomes
  import opened Naming
  import opened Tags
  import opened Workflow

  /** Whether merge attempt `i` of a script conflicts. */
  predicate Clash(clashes: seq<bool>, i: nat)
  {
    i < |clashes| && clashes[i]
  }

  /** The merge script left after `n` attempts. */
  function Drop(clashes: seq<bool>, n: nat): seq<bool>
  {
    if n <= |clashes| then clashes[n..] else []
  }

  // ---- handle_args ----

  /** The task id is validated before anything else: an invalid id changes nothing and
      fails. An unknown command changes nothing either. Every command keeps the handle valid. */
  lemma HandleArgsValidatesFirst(r: Repo, command: string, task: string, arcStatus: int, committed: int)
    requires Valid(r)
    ensures var run := HandleArgs(r, command, task, arcStatus, committed);
      && ((|task| == 0 || task[0] != 'T') ==> run == Run(Fail(BadTaskId(task)), r))
      && (command !in {"init", "diff", "land", "prd"} ==>
            run.repo == r && (run.result.Pass? <==> |task| > 0 && task[0] == 'T'))
      && Valid(run.repo)
  {
    if |task| > 0 && task[0] == 'T' {
      if command == "init" {
        InitTaskEstablishes(r, task);
      } else if command == "prd" {
        TagPrdOnlyTagsOnMaster(r, task, committed);
      }
    }
  }

  // ---- init_task ----

  /** After init_task the task's branch exists locally and is checked out; the remote gains
      the pushed branch, under the listing's prefix. The push happens exactly when the listing
      lacks `BRANCH_<task>`, the local branch is created exactly when it is missing. */
  lemma InitTaskEstablishes(r: Repo, task: string)
    requires Valid(r)
    ensures var r' := InitTask(r, task);
            var originBranch := IntegrationBranch(task);
            var spec := Master + ":" + originBranch;
      && Valid(r')
      && r'.current == task
      && r'.locals == r.locals + {task}
      && r'.remotes == (if originBranch in r.remotes then r.remotes else r.remotes + {r.remotePrefix + originBranch})
      && r'.tags == r.tags && r'.clashes == r.clashes && r'.replies == r.replies && r'.remotePrefix == r.remotePrefix
      && r'.log == r.log + (if originBranch in r.remotes then [] else [PushedToOrigin(spec)])
                         + (if task in r.locals then [] else [HeadCreated(task)])
                         + [CheckedOut(task)]
      && (PushedToOrigin(spec) in r'.log[|r.log|..] <==> originBranch !in r.remotes)
      && (HeadCreated(task) in r'.log[|r.log|..] <==> task !in r.locals)
  {
    var originBranch := IntegrationBranch(task);
    MainlineRefspecDestination(originBranch);
    var r' := InitTask(r, task);
    assert r.remotePrefix <= r.remotePrefix + originBranch;
    var added := r'.log[|r.log|..];
    assert added == (if originBranch in r.remotes then [] else [PushedToOrigin(Master + ":" + originBranch)])
                    + (if task in r.locals then [] else [HeadCreated(task)])
                    + [CheckedOut(task)];
    assert HeadCreated(task) != PushedToOrigin(Master + ":" + originBranch);
  }

  /** A second init_task right after the first changes no branch, ref or tag and creates no
      branch; it may only repeat the push of the branch the remote already has. When the listing
      reports bare branch names, the second call does nothing but the checkout. */
  lemma InitTaskIsIdempotent(r: Repo, task: string)
    requires Valid(r)
    ensures var once := InitTask(r, task);
            var twice := InitTask(once, task);
            var spec := Master + ":" + IntegrationBranch(task);
      && SameRefs(once, twice)
      && (twice.log == once.log + [CheckedOut(task)]
          || twice.log == once.log + [PushedToOrigin(spec), CheckedOut(task)])
      && (r.remotePrefix == "" ==> twice.log == once.log + [CheckedOut(task)])
  {
    InitTaskEstablishes(r, task);
    var once := InitTask(r, task);
    InitTaskEstablishes(once, task);
    var originBranch := IntegrationBranch(task);
    assert r.remotePrefix == "" ==> r.remotePrefix + originBranch == originBranch;
    assert originBranch !in once.remotes ==> r.remotePrefix + originBranch in once.remotes;
  }

  /** When the remote listing reports `origin/<branch>`, as GitPython does, the bare lookup of
      init_task never matches, so every call pushes `master:BRANCH_<task>` again. */
  lemma InitTaskAlwaysPushesUnderPrefixedNames(r: Repo, task: string)
    requires Valid(r) && r.remotePrefix == "origin/"
    ensures PushedToOrigin(Master + ":" + IntegrationBranch(task)) in InitTask(r, task).log[|r.log|..]
  {
    NamesAreKeptApart(task, task);
    InitTaskEstablishes(r, task);
  }

  // ---- make_diff and land_diff ----

  /** make_diff fails without a side effect off the task's branch or without a listed
      `BRANCH_<task>`; otherwise its one side effect is the review request against
      `BRANCH_<task>`, which is never master, and it fails exactly when arc exits non-zero. */
  lemma MakeDiffGuards(r: Repo, task: string, status: int)
    requires Valid(r)
    ensures var run := MakeDiff(r, task, status);
            var originBranch := IntegrationBranch(task);
      && (r.current != task ==> run == Run(Fail(WrongBranch(task)), r))
      && (r.current == task && originBranch !in r.remotes ==> run == Run(Fail(NoRemoteBranch(originBranch)), r))
      && (r.current == task && originBranch in r.remotes ==>
            run.repo == r.(log := r.log + [ArcDiff(originBranch)]) && (run.result.Pass? <==> status == 0))
      && (run.repo != r ==> run.repo.log == r.log + [ArcDiff(originBranch)] && originBranch != Master)
      && Valid(run.repo)
  {
    NamesAreKeptApart(task, task);
  }

  /** land_diff has the same guards, and lands only onto `BRANCH_<task>`, never onto master. */
  lemma LandDiffGuards(r: Repo, task: string, status: int)
    requires Valid(r)
    ensures var run := LandDiff(r, task, status);
            var originBranch := IntegrationBranch(task);
      && (r.current != task ==> run == Run(Fail(WrongBranch(task)), r))
      && (r.current == task && originBranch !in r.remotes ==> run == Run(Fail(NoRemoteBranch(originBranch)), r))
      && (r.current == task && originBranch in r.remotes ==>
            run.repo == r.(log := r.log + [ArcLand(originBranch)]) && (run.result.Pass? <==> status == 0))
      && (run.repo != r ==> run.repo.log == r.log + [ArcLand(originBranch)] && originBranch != Master)
      && Valid(run.repo)
  {
    NamesAreKeptApart(task, task);
  }

  /** When the remote listing reports `origin/<branch>`, as GitPython does, make_diff and
      land_diff look up the bare `BRANCH_<task>` and so always fail, with no arc call. */
  lemma ReviewNeverRunsUnderPrefixedNames(r: Repo, task: string, status: int)
    requires Valid(r) && r.remotePrefix == "origin/"
    ensures MakeDiff(r, task, status).result.Fail? && MakeDiff(r, task, status).repo == r
    ensures LandDiff(r, task, status).result.Fail? && LandDiff(r, task, status).repo == r
  {
    NamesAreKeptApart(task, task);
  }

  // ---- tag_branch ----

  /** tag_branch fails without a change off `branch` or when the tag exists; otherwise it adds
      exactly the tag, in listing order, and changes nothing else. */
  lemma TagBranchAddsExactlyTheTag(r: Repo, tag: string, branch: string, committed: int)
    requires Valid(r)
    ensures var run := TagBranch(r, tag, branch, committed);
      && (r.current != branch ==> run == Run(Fail(WrongBranch(branch)), r))
      && (r.current == branch && tag in Names(r.tags) ==> run == Run(Fail(TagExists(tag)), r))
      && (r.current == branch && tag !in Names(r.tags) ==>
            && run.result == Pass
            && Names(run.repo.tags) == Names(r.tags) + {tag}
            && multiset(run.repo.tags) == multiset(r.tags) + multiset{Tag(tag, committed)}
            && run.repo == r.(tags := run.repo.tags, log := r.log + [TagCreated(tag)]))
      && Valid(run.repo)
  {
    if r.current == branch && tag !in Names(r.tags) {
      InsertByNameKeepsListing(r.tags, Tag(tag, committed));
    }
  }

  // ---- merge_code ----

  /** The guard comes first: off `branch`, merge_code fails and changes nothing. */
  lemma MergeCodeChecksBranch(r: Repo, branch: string, ref: string)
    requires r.current != branch
    ensures MergeCode(r, branch, ref) == Run(Fail(WrongBranch(branch)), r)
  {
  }

  /** How many merge attempts merge_code makes: one more after every conflict answered
      `continue`. */
  function Attempts(clashes: seq<bool>, replies: seq<string>): (n: nat)
    ensures n >= 1
    decreases |replies|
  {
    if clashes != [] && clashes[0] && replies != [] && replies[0] == Continue
    then 1 + Attempts(clashes[1..], replies[1..])
    else 1
  }

  /** How many lines merge_code reads: one per conflict, while input lasts. */
  function RepliesRead(clashes: seq<bool>, replies: seq<string>): (n: nat)
    ensures n <= |replies|
    decreases |replies|
  {
    if clashes != [] && clashes[0] && replies != [] then
      (if replies[0] == Continue then 1 + RepliesRead(clashes[1..], replies[1..]) else 1)
    else 0
  }

  /** merge_code retries only on `continue`. Every attempt but the last conflicted and was
      answered `continue`. The last one merged cleanly, or conflicted at the end of input, or
      conflicted and was answered with any other line. */
  lemma {:induction false} MergeCodeRetriesOnlyOnContinue(clashes: seq<bool>, replies: seq<string>)
    ensures var n := Attempts(clashes, replies);
            var used := RepliesRead(clashes, replies);
      && n - 1 <= used <= n && used <= |replies|
      && (forall i :: 0 <= i < n - 1 ==> Clash(clashes, i) && replies[i] == Continue)
      && ((!Clash(clashes, n - 1) && used == n - 1)
          || (Clash(clashes, n - 1) && used == n - 1 == |replies|)
          || (Clash(clashes, n - 1) && used == n && replies[n - 1] != Continue))
    decreases |replies|
  {
    if clashes != [] && clashes[0] && replies != [] && replies[0] == Continue {
      var cs, rs := clashes[1..], replies[1..];
      MergeCodeRetriesOnlyOnContinue(cs, rs);
      var n := Attempts(cs, rs);
      assert Clash(clashes, n) == Clash(cs, n - 1);
      forall i | 0 <= i < n ensures Clash(clashes, i) && replies[i] == Continue {
        if i > 0 {
          assert Clash(cs, i - 1) && rs[i - 1] == Continue;
        }
      }
    }
  }

  /** On `branch`, merge_code appends one merge attempt per attempt to the log, uses up that
      many entries of the merge script and the lines it read, and changes nothing else. */
  lemma {:induction false} MergeCodeFollowsScript(r: Repo, branch: string, ref: string)
    requires r.current == branch
    ensures var m := MergeCode(r, branch, ref).repo;
            var n := Attempts(r.clashes, r.replies);
      && SameRefs(m, r)
      && m.log == r.log + Repeat(MergeAttempt(branch, ref), n)
      && m.clashes == Drop(r.clashes, n)
      && m.replies == r.replies[RepliesRead(r.clashes, r.replies)..]
    decreases |r.replies|
  {
    if NextMergeConflicts(r) && r.replies != [] && r.replies[0] == Continue {
      var answered := MergeTree(r, ref).(replies := r.replies[1..]);
      MergeCodeFollowsScript(answered, branch, ref);
      var n := Attempts(answered.clashes, answered.replies);
      assert answered.clashes == r.clashes[1..];
      assert Attempts(r.clashes, r.replies) == n + 1;
      assert RepliesRead(r.clashes, r.replies) == RepliesRead(answered.clashes, answered.replies) + 1;
      assert Drop(answered.clashes, n) == Drop(r.clashes, n + 1);
      assert answered.replies[RepliesRead(answered.clashes, answered.replies)..]
          == r.replies[RepliesRead(r.clashes, r.replies)..];
      assert r.log + Repeat(MergeAttempt(branch, ref), n + 1)
          == r.log + [MergeAttempt(branch, ref)] + Repeat(MergeAttempt(branch, ref), n);
    }
  }

  /** On `branch`, merge_code fails, with the end of input, exactly when its last attempt
      conflicted and no line was left to answer it; it returns normally otherwise. */
  lemma {:induction false} MergeCodeFailsOnlyAtEndOfInput(r: Repo, branch: string, ref: string)
    requires r.current == branch
    ensures var n := Attempts(r.clashes, r.replies);
      MergeCode(r, branch, ref).result
        == (if Clash(r.clashes, n - 1) && RepliesRead(r.clashes, r.replies) == n - 1 then Fail(EndOfInput) else Pass)
    decreases |r.replies|
  {
    if NextMergeConflicts(r) && r.replies != [] && r.replies[0] == Continue {
      var answered := MergeTree(r, ref).(replies := r.replies[1..]);
      MergeCodeFailsOnlyAtEndOfInput(answered, branch, ref);
      var n := Attempts(answered.clashes, answered.replies);
      assert answered.clashes == r.clashes[1..];
      assert Attempts(r.clashes, r.replies) == n + 1;
      assert RepliesRead(r.clashes, r.replies) == RepliesRead(answered.clashes, answered.replies) + 1;
      assert Clash(answered.clashes, n - 1) == Clash(r.clashes, n);
    }
  }

  /** On `branch`, merge_code only appends merge attempts to the log, at least one; it fails
      only at the end of the operator's input. */
  lemma MergeCodeOnlyMerges(r: Repo, branch: string, ref: string) returns (attempts: nat)
    requires r.current == branch
    ensures var m := MergeCode(r, branch, ref);
      && 1 <= attempts
      && SameRefs(m.repo, r)
      && m.repo.log == r.log + Repeat(MergeAttempt(branch, ref), attempts)
      && (m.result.Fail? ==> m.result == Fail(EndOfInput))
  {
    MergeCodeFollowsScript(r, branch, ref);
    MergeCodeFailsOnlyAtEndOfInput(r, branch, ref);
    attempts := Attempts(r.clashes, r.replies);
  }

  /** merge_code never breaks the handle's invariant. */
  lemma MergeCodeKeepsValid(r: Repo, branch: string, ref: string)
    requires Valid(r)
    ensures Valid(MergeCode(r, branch, ref).repo)
  {
    if r.current == branch {
      var a := MergeCodeOnlyMerges(r, branch, ref);
    }
  }

  // ---- tag_prd ----

  /** tag_prd checks for `origin/BRANCH_<task>` before anything else, and fails with no
      checkout and no other change when it is missing. */
  lemma TagPrdChecksRemoteFirst(r: Repo, task: string, committed: int)
    requires "origin/" + IntegrationBranch(task) !in r.remotes
    ensures TagPrd(r, task, committed) == Run(Fail(NoRemoteBranch(IntegrationBranch(task))), r)
  {
  }

  /** The tag step on master: it succeeds exactly when the release tag is new, then adds
      exactly that tag and pushes it. */
  lemma TagReleaseAddsTheTag(r: Repo, task: string, committed: int)
    requires Valid(r) && r.current == Master
    ensures var run := TagRelease(r, task, committed);
            var prd := ReleaseTag(task);
      && (run.result.Pass? <==> prd !in Names(r.tags))
      && (run.result.Fail? ==> run == Run(Fail(TagExists(prd)), r))
      && (run.result.Pass? ==>
            && run.repo.log == r.log + [TagCreated(prd), PushedToOrigin(prd)]
            && Names(run.repo.tags) == Names(r.tags) + {prd}
            && multiset(run.repo.tags) == multiset(r.tags) + multiset{Tag(prd, committed)}
            && run.repo == r.(tags := run.repo.tags, log := run.repo.log))
      && Valid(run.repo)
  {
    TagBranchAddsExactlyTheTag(r, ReleaseTag(task), Master, committed);
  }

  /** The second half of tag_prd, from the pushed integration branch to the pushed tag. */
  lemma MergeIntoMasterSteps(r: Repo, task: string, committed: int) returns (second: nat)
    requires Valid(r)
    ensures var run := MergeIntoMaster(r, task, committed);
            var taggedBranch := IntegrationBranch(task);
            var prd := ReleaseTag(task);
      && (run.result.Fail? ==>
            && run.repo.tags == r.tags
            && (run.result == Fail(EndOfInput) || run.result == Fail(TagExists(prd))))
      && (run.result.Pass? ==>
            && run.repo.log == r.log
                 + [Pushed(r.current), Stashed, CheckedOut(Master), StashPopped]
                 + Repeat(MergeAttempt(Master, taggedBranch), second)
                 + [TagCreated(prd), PushedToOrigin(prd)]
            && 1 <= second
            && run.repo.current == Master
            && prd !in Names(r.tags)
            && Names(run.repo.tags) == Names(r.tags) + {prd}
            && multiset(run.repo.tags) == multiset(r.tags) + multiset{Tag(prd, committed)}
            && run.repo.locals == r.locals + {Master}
            && run.repo.remotes == r.remotes)
      && Valid(run.repo)
  {
    var taggedBranch := IntegrationBranch(task);
    var r2 := StashPop(CheckoutBranch(Stash(PushCurrent(r)), Master));
    second := MergeCodeOnlyMerges(r2, Master, taggedBranch);
    MergeCodeKeepsValid(r2, Master, taggedBranch);
    var m2 := MergeCode(r2, Master, taggedBranch);
    if m2.result.Pass? {
      TagReleaseAddsTheTag(m2.repo, task, committed);
    }
  }

  /** A successful tag_prd runs its steps in this order: check out `BRANCH_<task>`, pull,
      merge the baseline (the latest tag, else master), push, stash, check out master, pop the
      stash, merge `BRANCH_<task>` into master, create `PRD_<task>`, push the tag. The tag did
      not exist before, is the only tag added, and master is checked out at the end. */
  lemma TagPrdSteps(r: Repo, task: string, committed: int) returns (first: nat, second: nat)
    requires Valid(r)
    ensures var run := TagPrd(r, task, committed);
            var taggedBranch := IntegrationBranch(task);
            var prd := ReleaseTag(task);
      run.result.Pass? ==>
        && run.repo.log == r.log
             + [CheckedOut(taggedBranch), Pulled(taggedBranch)]
             + Repeat(MergeAttempt(taggedBranch, Baseline(r.tags)), first)
             + [Pushed(taggedBranch), Stashed, CheckedOut(Master), StashPopped]
             + Repeat(MergeAttempt(Master, taggedBranch), second)
             + [TagCreated(prd), PushedToOrigin(prd)]
        && 1 <= first && 1 <= second
        && run.repo.current == Master
        && prd !in Names(r.tags)
        && Names(run.repo.tags) == Names(r.tags) + {prd}
        && multiset(run.repo.tags) == multiset(r.tags) + multiset{Tag(prd, committed)}
        && run.repo.locals == r.locals + {taggedBranch, Master}
        && run.repo.remotes == r.remotes
        && Valid(run.repo)
  {
    first, second := 1, 1;
    var taggedBranch := IntegrationBranch(task);
    if "origin/" + taggedBranch in r.remotes {
      first := MergeBaselineSteps(r, task);
      var m1 := MergeCode(PullCurrent(CheckoutBranch(r, taggedBranch)), taggedBranch, Baseline(r.tags));
      if m1.result.Pass? {
        second := MergeIntoMasterSteps(m1.repo, task, committed);
      }
    }
  }

  /** The first half of tag_prd: on the integration branch, pulled, with the baseline merged
      in by `first` attempts; only the log and the local branches change. */
  lemma MergeBaselineSteps(r: Repo, task: string) returns (first: nat)
    requires Valid(r)
    ensures var taggedBranch := IntegrationBranch(task);
            var m1 := MergeCode(PullCurrent(CheckoutBranch(r, taggedBranch)), taggedBranch, Baseline(r.tags));
      && m1.repo.log == r.log + [CheckedOut(taggedBranch), Pulled(taggedBranch)]
                              + Repeat(MergeAttempt(taggedBranch, Baseline(r.tags)), first)
      && 1 <= first
      && m1.repo.current == taggedBranch
      && m1.repo.tags == r.tags
      && m1.repo.locals == r.locals + {taggedBranch}
      && m1.repo.remotes == r.remotes
      && Valid(m1.repo)
  {
    var taggedBranch := IntegrationBranch(task);
    var r1 := PullCurrent(CheckoutBranch(r, taggedBranch));
    first := MergeCodeOnlyMerges(r1, taggedBranch, Baseline(r.tags));
    MergeCodeKeepsValid(r1, taggedBranch, Baseline(r.tags));
  }

  /** A tag is only ever created by a successful tag_prd, which ends on master; a tag_prd that
      fails leaves the tags as they were. It fails only for a missing remote branch, the end of
      the operator's input during a conflict, or an existing release tag. */
  lemma TagPrdOnlyTagsOnMaster(r: Repo, task: string, committed: int)
    requires Valid(r)
    ensures var run := TagPrd(r, task, committed);
      && (run.repo.tags != r.tags ==> run.result.Pass? && run.repo.current == Master)
      && (run.result.Fail? ==>
            && run.repo.tags == r.tags
            && run.result.error in {NoRemoteBranch(IntegrationBranch(task)), EndOfInput, TagExists(ReleaseTag(task))})
      && Valid(run.repo)
  {
    var taggedBranch := IntegrationBranch(task);
    if "origin/" + taggedBranch in r.remotes {
      var r1 := PullCurrent(CheckoutBranch(r, taggedBranch));
      var a1 := MergeCodeOnlyMerges(r1, taggedBranch, Baseline(r1.tags));
      MergeCodeKeepsValid(r1, taggedBranch, Baseline(r1.tags));
      var m1 := MergeCode(r1, taggedBranch, Baseline(r1.tags));
      if m1.result.Pass? {
        var a2 := MergeIntoMasterSteps(m1.repo, task, committed);
      }
    }
  }

  /** Running tag_prd again after a completed run fails: at the tag step, because
      `PRD_<task>` now exists, unless the operator's input runs out during a conflict first.
      Either way the tags stay as the first run left them. */
  lemma TagPrdRerunFails(r: Repo, task: string, committed: int, again: int)
    requires Valid(r) && TagPrd(r, task, committed).result.Pass?
    ensures var done := TagPrd(r, task, committed).repo;
            var rerun := TagPrd(done, task, again);
      && (rerun.result == Fail(TagExists(ReleaseTag(task))) || rerun.result == Fail(EndOfInput))
      && rerun.repo.tags == done.tags
  {
    var a, b := TagPrdSteps(r, task, committed);
    var done := TagPrd(r, task, committed).repo;
    var taggedBranch := IntegrationBranch(task);
    assert "origin/" + taggedBranch in done.remotes;
    var r1 := PullCurrent(CheckoutBranch(done, taggedBranch));
    var a1 := MergeCodeOnlyMerges(r1, taggedBranch, Baseline(r1.tags));
    MergeCodeKeepsValid(r1, taggedBranch, Baseline(r1.tags));
    var m1 := MergeCode(r1, taggedBranch, Baseline(r1.tags));
    if m1.result.Pass? {
      var b2 := MergeIntoMasterSteps(m1.repo, task, again);
    }
  }
}

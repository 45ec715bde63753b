/** The helper as the source runs it: the process-wide `work_repo` handle is an object whose
    fields the commands update in place. There is one method per workflow and adapter function
    of the helper, and one per git, subprocess or `input()` call it makes; the branch-listing
    helpers are folded into the lookups. Each
    mutating method is proved to leave exactly the repository that the matching function of
    module Workflow describes, so every lemma of WorkflowProperties applies to it. */
module GitHelper {
  import opened Outcomes
  import opened Naming
  import opened Tags
  import opened W = Workflow
  import opened WorkflowProperties

  class WorkRepo {
    /** What the remote listing puts before each branch name. */
    const remotePrefix: string
    var current: string
    var locals: set<string>
    var remotes: set<string>
    var tags: seq<Tag>
    var log: seq<Event>
    var clashes: seq<bool>
    var replies: seq<string>

    /** The handle's state as a value. */
    function Model(): Repo
      reads this
    {
      Repo(remotePrefix, current, locals, remotes, tags, log, clashes, replies)
    }

    predicate Valid()
      reads this
    {
      W.Valid(Model())
    }

    /** `Repo(args.path)`: the opened working copy, with nothing done to it yet. */
    constructor Open(remotePrefix: string, current: string, locals: set<string>, remotes: set<string>,
                     tags: seq<Tag>, clashes: seq<bool>, replies: seq<string>)
      requires W.Valid(Repo(remotePrefix, current, locals, remotes, tags, [], clashes, replies))
      ensures Valid()
      ensures Model() == Repo(remotePrefix, current, locals, remotes, tags, [], clashes, replies)
    {
      this.remotePrefix := remotePrefix;
      this.current := current;
      this.locals := locals;
      this.remotes := remotes;
      this.tags := tags;
      this.log := [];
      this.clashes := clashes;
      this.replies := replies;
    }

    // ---- the repository adapter ----

    method FoundLocalBranch(branch: string) returns (found: bool)
      ensures found <==> branch in locals
    {
      found := branch in locals;
    }

    method FoundOriginBranch(branch: string) returns (found: bool)
      ensures found <==> branch in remotes
    {
      found := branch in remotes;
    }

    /** check_current_branch: raise unless `branch` is the active branch. */
    method CheckCurrentBranch(branch: string) returns (res: Outcome)
      ensures res.Pass? <==> current == branch
      ensures res.Fail? ==> res.error == WrongBranch(branch)
    {
      if current != branch {
        return Fail(WrongBranch(branch));
      }
      return Pass;
    }

    method CheckoutBranch(branch: string)
      modifies this
      ensures Model() == W.CheckoutBranch(old(Model()), branch)
    {
      current := branch;
      locals := locals + {branch};
      log := log + [CheckedOut(branch)];
    }

    method CreateLocalBranch(branch: string)
      modifies this
      ensures Model() == W.CreateLocalBranch(old(Model()), branch)
    {
      locals := locals + {branch};
      log := log + [HeadCreated(branch)];
    }

    method CreateOriginBranch(spec: string)
      modifies this
      ensures Model() == W.CreateOriginBranch(old(Model()), spec)
    {
      remotes := remotes + {remotePrefix + PushDestination(spec)};
      log := log + [PushedToOrigin(spec)];
    }

    method PushTag(tag: string)
      modifies this
      ensures Model() == W.PushTag(old(Model()), tag)
    {
      log := log + [PushedToOrigin(tag)];
    }

    method PullCurrent()
      modifies this
      ensures Model() == W.PullCurrent(old(Model()))
    {
      log := log + [Pulled(current)];
    }

    method PushCurrent()
      modifies this
      ensures Model() == W.PushCurrent(old(Model()))
    {
      log := log + [Pushed(current)];
    }

    method Stash()
      modifies this
      ensures Model() == W.Stash(old(Model()))
    {
      log := log + [Stashed];
    }

    method StashPop()
      modifies this
      ensures Model() == W.StashPop(old(Model()))
    {
      log := log + [StashPopped];
    }

    /** `index.merge_tree(ref)`; `clean` is false where git raises GitCommandError. */
    method MergeTree(ref: string) returns (clean: bool)
      modifies this
      ensures clean <==> !NextMergeConflicts(old(Model()))
      ensures Model() == W.MergeTree(old(Model()), ref)
    {
      clean := !(clashes != [] && clashes[0]);
      log := log + [MergeAttempt(current, ref)];
      clashes := if clashes == [] then [] else clashes[1..];
    }

    /** `input()`: the operator's next line, none at the end of input (EOFError). */
    method ReadLine() returns (line: Option<string>)
      modifies this
      ensures old(replies) == [] ==> line == None && Model() == old(Model())
      ensures old(replies) != [] ==>
        line == Some(old(replies)[0]) && Model() == old(Model()).(replies := old(replies)[1..])
    {
      if replies == [] {
        return None;
      }
      line := Some(replies[0]);
      replies := replies[1..];
    }

    method RunArc(call: Event, status: int) returns (res: Outcome)
      modifies this
      ensures Run(res, Model()) == W.RunArc(old(Model()), call, status)
    {
      log := log + [call];
      res := if status == 0 then Pass else Fail(ArcFailed(status));
    }

    // ---- the workflow ----

    /** get_latest_prd_tag: none for no tags, else the last listed of the tags with the
        latest commit time. */
    method GetLatestPrdTag() returns (latest: Option<string>)
      ensures latest == LatestTag(tags)
      ensures latest.None? <==> tags == []
      ensures tags != [] ==> exists k :: IsLatest(tags, k) && latest == Some(tags[k].name)
    {
      var k := LatestTagIsLastOfTheLatest(tags);
      if |tags| > 0 {
        var sorted := SortByTime(tags);
        return Some(sorted[|sorted| - 1].name);
      }
      return None;
    }

    /** tag_branch. */
    method TagBranch(tag: string, branch: string, committed: int) returns (res: Outcome)
      requires Valid()
      modifies this
      ensures Valid()
      ensures Run(res, Model()) == W.TagBranch(old(Model()), tag, branch, committed)
    {
      TagBranchAddsExactlyTheTag(Model(), tag, branch, committed);
      res := CheckCurrentBranch(branch);
      if res.Fail? {
        return;
      }
      if tag in Names(tags) {
        return Fail(TagExists(tag));
      }
      tags := InsertByName(tags, Tag(tag, committed));
      log := log + [TagCreated(tag)];
    }

    /** merge_code, with its retry-by-recursion as a loop: every round checks the branch and
        merges; a conflict is retried only when the operator answers `continue`. */
    method MergeCode(branch: string, ref: string) returns (res: Outcome)
      requires Valid()
      modifies this
      ensures Valid()
      ensures Run(res, Model()) == W.MergeCode(old(Model()), branch, ref)
    {
      MergeCodeKeepsValid(Model(), branch, ref);
      while true
        invariant W.MergeCode(Model(), branch, ref) == W.MergeCode(old(Model()), branch, ref)
        decreases |replies|
      {
        res := CheckCurrentBranch(branch);
        if res.Fail? {
          return;
        }
        var clean := MergeTree(ref);
        if clean {
          return;
        }
        var confirm := ReadLine();
        if confirm.None? {
          return Fail(EndOfInput);
        }
        if confirm.value != Continue {
          return;
        }
      }
    }

    /** init_task. */
    method InitTask(task: string)
      requires Valid()
      modifies this
      ensures Valid()
      ensures Model() == W.InitTask(old(Model()), task)
    {
      InitTaskEstablishes(Model(), task);
      var originBranch := IntegrationBranch(task);
      var found := FoundOriginBranch(originBranch);
      if !found {
        CreateOriginBranch(Master + ":" + originBranch);
      }
      var haveLocal := FoundLocalBranch(task);
      if !haveLocal {
        CreateLocalBranch(task);
      }
      CheckoutBranch(task);
    }

    /** make_diff. */
    method MakeDiff(task: string, status: int) returns (res: Outcome)
      requires Valid()
      modifies this
      ensures Valid()
      ensures Run(res, Model()) == W.MakeDiff(old(Model()), task, status)
    {
      res := CheckCurrentBranch(task);
      if res.Fail? {
        return;
      }
      var originBranch := IntegrationBranch(task);
      var found := FoundOriginBranch(originBranch);
      if found {
        res := RunArc(ArcDiff(originBranch), status);
      } else {
        res := Fail(NoRemoteBranch(originBranch));
      }
    }

    /** land_diff. */
    method LandDiff(task: string, status: int) returns (res: Outcome)
      requires Valid()
      modifies this
      ensures Valid()
      ensures Run(res, Model()) == W.LandDiff(old(Model()), task, status)
    {
      var originBranch := IntegrationBranch(task);
      res := CheckCurrentBranch(task);
      if res.Fail? {
        return;
      }
      var found := FoundOriginBranch(originBranch);
      if !found {
        return Fail(NoRemoteBranch(originBranch));
      }
      res := RunArc(ArcLand(originBranch), status);
    }

    /** tag_prd: the release transaction, step by step, aborting at the first failure. */
    method TagPrd(task: string, committed: int) returns (res: Outcome)
      requires Valid()
      modifies this
      ensures Valid()
      ensures Run(res, Model()) == W.TagPrd(old(Model()), task, committed)
    {
      TagPrdOnlyTagsOnMaster(Model(), task, committed);
      var taggedBranch := IntegrationBranch(task);
      var found := FoundOriginBranch("origin/" + taggedBranch);
      if !found {
        return Fail(NoRemoteBranch(taggedBranch));
      }
      CheckoutBranch(taggedBranch);
      PullCurrent();
      // tag_prd asks for the latest tag twice; nothing changes in between.
      var latest := GetLatestPrdTag();
      var latestPrd := Master;
      if latest.Some? {
        var again := GetLatestPrdTag();
        latestPrd := again.value;
      }
      res := MergeCode(taggedBranch, latestPrd);
      if res.Fail? {
        return;
      }
      PushCurrent();
      Stash();
      CheckoutBranch(Master);
      StashPop();
      res := MergeCode(Master, taggedBranch);
      if res.Fail? {
        return;
      }
      var prdTag := ReleaseTag(task);
      res := TagBranch(prdTag, Master, committed);
      if res.Fail? {
        return;
      }
      PushTag(prdTag);
    }

    /** handle_args: validate the task id, then run the command; an unsupported command only
        prints a message. */
    method HandleArgs(command: string, task: string, arcStatus: int, committed: int) returns (res: Outcome)
      requires Valid()
      modifies this
      ensures Valid()
      ensures Run(res, Model()) == W.HandleArgs(old(Model()), command, task, arcStatus, committed)
    {
      HandleArgsValidatesFirst(Model(), command, task, arcStatus, committed);
      res := CheckTaskIdFormat(task);
      if res.Fail? {
        return;
      }
      if command == "init" {
        InitTask(task);
      } else if command == "diff" {
        res := MakeDiff(task, arcStatus);
      } else if command == "land" {
        res := LandDiff(task, arcStatus);
      } else if command == "prd" {
        res := TagPrd(task, committed);
      }
    }
  }
}

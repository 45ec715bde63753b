/** The naming policy: how the helper validates a task id and derives the names of the
    branches, tags and refspecs it works with. */
module Naming {
  import opened Outcomes

  /** The mainline branch every task starts from and every release is tagged on. */
  const Master: string := "master"

  /** The operator's reply that makes a conflicted merge run again. */
  const Continue: string := "continue"

  /** The remote integration branch of a task: the task id behind a fixed prefix, so the
      name gives the task back. */
  function IntegrationBranch(task: string): (r: string)
    ensures |r| == |task| + 7 && r[7..] == task
  {
    "BRANCH_" + task
  }

  /** The release tag of a task: the task id behind a fixed prefix, so the tag gives the
      task back. */
  function ReleaseTag(task: string): (r: string)
    ensures |r| == |task| + 4 && r[4..] == task
  {
    "PRD_" + task
  }

  /** A task id is accepted exactly when it starts with the letter T; there is no other rule. */
  function CheckTaskIdFormat(task: string): (r: Outcome)
    ensures r.Pass? <==> |task| > 0 && task[0] == 'T'
    ensures r.Fail? ==> r.error == BadTaskId(task)
  {
    if "T" <= task then Pass else Fail(BadTaskId(task))
  }

  /** The text after the first ':' of `s`, if `s` has one. */
  function AfterColon(s: string): Option<string>
  {
    if s == [] then None
    else if s[0] == ':' then Some(s[1..])
    else AfterColon(s[1..])
  }

  /** The remote branch that `git push origin <spec>` writes: the `dst` of a `src:dst`
      refspec, or the whole spec when it has no colon. The split is at the first colon; git
      splits at the last, and the two agree on every spec with at most one colon. */
  function PushDestination(spec: string): string
  {
    match AfterColon(spec)
    case Some(dst) => dst
    case None => spec
  }

  /** `AfterColon` finds the first colon: none without one, else the text after the first. */
  lemma {:induction false} AfterColonIsAfterFirstColon(s: string)
    ensures AfterColon(s).None? <==> ':' !in s
    ensures AfterColon(s).Some? ==> var i := |s| - |AfterColon(s).value| - 1;
      0 <= i && s[i] == ':' && ':' !in s[..i] && AfterColon(s).value == s[i + 1..]
  {
    if s != [] && s[0] != ':' {
      AfterColonIsAfterFirstColon(s[1..]);
      assert s == [s[0]] + s[1..];
      if AfterColon(s).Some? {
        var i := |s| - |AfterColon(s).value| - 1;
        assert s[1..][..i - 1] == s[1..i];
        assert s[..i] == [s[0]] + s[1..i];
      }
    }
  }

  /** The modelled push writes the branch named after the spec's first colon, or the whole
      spec when it has none. For a spec with one colon, as `master:<valid ref name>` is, this
      is git's destination. */
  lemma PushDestinationIsAfterFirstColon(spec: string)
    ensures ':' !in spec ==> PushDestination(spec) == spec
    ensures ':' in spec ==> var i := |spec| - |PushDestination(spec)| - 1;
      && 0 <= i && spec[i] == ':' && ':' !in spec[..i] && PushDestination(spec) == spec[i + 1..]
  {
    AfterColonIsAfterFirstColon(spec);
  }

  lemma {:induction false} AfterColonOfRefspec(src: string, dst: string)
    requires ':' !in src
    ensures AfterColon(src + ":" + dst) == Some(dst)
  {
    if src != [] {
      assert (src + ":" + dst)[1..] == src[1..] + ":" + dst;
      AfterColonOfRefspec(src[1..], dst);
    } else {
      assert src + ":" + dst == [':'] + dst;
    }
  }

  /** The refspec `master:BRANCH_t` that init_task pushes creates exactly `BRANCH_t`. This
      holds for every branch in the model; git agrees whenever `BRANCH_t` is a valid ref name. */
  lemma MainlineRefspecDestination(branch: string)
    ensures PushDestination(Master + ":" + branch) == branch
  {
    AfterColonOfRefspec(Master, branch);
  }

  /** Different tasks never share an integration branch or a release tag. */
  lemma {:induction false} NamesAreInjective(a: string, b: string)
    ensures IntegrationBranch(a) == IntegrationBranch(b) ==> a == b
    ensures ReleaseTag(a) == ReleaseTag(b) ==> a == b
  {
    assert IntegrationBranch(a)[7..] == a && IntegrationBranch(b)[7..] == b;
    assert ReleaseTag(a)[4..] == a && ReleaseTag(b)[4..] == b;
  }

  /** The derived names never collide with each other, with the mainline, or with a name
      that GitPython lists under `origin/`: review and land can never target master. */
  lemma NamesAreKeptApart(task: string, other: string)
    ensures IntegrationBranch(task) != Master
    ensures IntegrationBranch(task) != ReleaseTag(other)
    ensures IntegrationBranch(task) != task
    ensures !("origin/" <= IntegrationBranch(task))
  {
    assert IntegrationBranch(task)[0] == 'B';
    assert ReleaseTag(other)[0] == 'P';
    assert |IntegrationBranch(task)| == |task| + 7;
  }
}

/** Best-effort synchronisation of the vault repository: four git steps
    that each report their own failure and never stop the sequence. */
module GitOps {
  import opened Wrappers
  import opened Text
  import opened Paths
  import opened Machine

  /** One git invocation of a sync: the name its warning uses, and the
      arguments git is given. */
  datatype GitStep = GitStep(stepName: string, args: seq<string>)

  const AddAll: GitStep := GitStep("add", ["add", "."])
  const CommitSync: GitStep := GitStep("commit", ["commit", "-m", "Sync vault"])
  const PullRebase: GitStep := GitStep("pull", ["pull", "--rebase"])
  const PushUp: GitStep := GitStep("push", ["push"])

  /** The steps of `sync_vault`, in the order it runs them. */
  const SyncSteps: seq<GitStep> := [AddAll, CommitSync, PullRebase, PushUp]

  /** How each of the four git steps of a sync ends, and what a step that
      runs writes to the filesystem: the index and objects under `.git`,
      and whatever `pull --rebase` brings into the working tree. Git itself
      is not part of the model, so both are given. */
  datatype Git = Git(add: ProcessOutcome, commit: ProcessOutcome, pull: ProcessOutcome, push: ProcessOutcome,
                     writes: (GitStep, Fs) -> Fs)
  {
    /** The outcomes in the order of `SyncSteps`. */
    function Outcomes(): (r: seq<ProcessOutcome>)
      ensures |r| == |SyncSteps|
    {
      [add, commit, pull, push]
    }
  }

  /** The filesystem after one step: a git that could not be started
      writes nothing. */
  function StepFs(git: Git, step: GitStep, outcome: ProcessOutcome, fs: Fs): (r: Fs)
    ensures outcome.LaunchFailed? ==> r == fs
  {
    if outcome.LaunchFailed? then fs else git.writes(step, fs)
  }

  /** The filesystem after the four steps of a sync, in their order. */
  function SyncFs(git: Git, fs: Fs): Fs {
    var added := StepFs(git, AddAll, git.add, fs);
    var committed := StepFs(git, CommitSync, git.commit, added);
    var pulled := StepFs(git, PullRebase, git.pull, committed);
    StepFs(git, PushUp, git.push, pulled)
  }

  /** Git writes only inside the repository it runs in. */
  ghost predicate WritesWithin(git: Git, repo: Path) {
    forall step: GitStep, fs: Fs, q: Path | !Inside(repo, q) :: Agree(fs, git.writes(step, fs), q)
  }

  /** A git that writes only inside the repository leaves every path
      outside it as it was, whatever the steps' outcomes. */
  lemma SyncKeepsOutside(git: Git, repo: Path, fs: Fs)
    requires WritesWithin(git, repo)
    ensures forall q | !Inside(repo, q) :: Agree(fs, SyncFs(git, fs), q)
  {
    var added := StepFs(git, AddAll, git.add, fs);
    var committed := StepFs(git, CommitSync, git.commit, added);
    var pulled := StepFs(git, PullRebase, git.pull, committed);
    forall q | !Inside(repo, q) ensures Agree(fs, SyncFs(git, fs), q) {
      assert Agree(fs, added, q) && Agree(added, committed, q) && Agree(committed, pulled, q);
      assert Agree(pulled, SyncFs(git, fs), q);
    }
  }

  /** When git cannot be started at all, a sync writes nothing. */
  lemma NoGitNoWrites(git: Git, fs: Fs)
    requires git.add.LaunchFailed? && git.commit.LaunchFailed? && git.pull.LaunchFailed? && git.push.LaunchFailed?
    ensures SyncFs(git, fs) == fs
  {
  }

  const SyncBanner: string := "🔄 syncing with GitHub...\n"

  /** How every warning starts: the step's name and "failed". */
  function WarningHead(stepName: string): string {
    "\U{26A0}\U{FE0F}  git " + stepName + " failed"
  }

  /** The warning `git_silent` prints for an outcome: none on success, the
      exit code (-1 when there is none) on a failed exit, the error when git
      could not be started. */
  function Warning(stepName: string, outcome: ProcessOutcome): (r: Option<string>)
    ensures r.None? <==> outcome.Succeeded()
    ensures r.Some? ==> StartsWith(r.value, WarningHead(stepName))
  {
    match outcome
    case Exited(code) =>
      if code == Some(0) then None
      else
        var w := WarningHead(stepName) + (" (exit code " + IntToString(code.GetOr(-1)) + ")\n");
        assert w[..|WarningHead(stepName)|] == WarningHead(stepName);
        Some(w)
    case LaunchFailed(e) =>
      var w := WarningHead(stepName) + (" to run: " + e + "\n");
      assert w[..|WarningHead(stepName)|] == WarningHead(stepName);
      Some(w)
  }

  /** A failed exit without a code is reported as exit code -1. */
  lemma NoExitCode(stepName: string)
    ensures Warning(stepName, Exited(None)) == Some(WarningHead(stepName) + " (exit code -1)\n")
  {
    assert IntToString(-1) == "-1" by {
      assert NatToString(1) == "1";
    }
    assert WarningHead(stepName) + (" (exit code " + "-1" + ")\n") == WarningHead(stepName) + " (exit code -1)\n";
  }

  function WarningEvents(stepName: string, outcome: ProcessOutcome): (r: seq<Event>)
    ensures |r| <= 1 && forall e | e in r :: e.Stdout?
  {
    match Warning(stepName, outcome)
    case None => []
    case Some(w) => [Stdout(w)]
  }

  /** The observable effect of one `git_silent` step. */
  function StepEvents(repo: Path, step: GitStep, outcome: ProcessOutcome): seq<Event> {
    [GitRun(repo, step.args)] + WarningEvents(step.stepName, outcome)
  }

  /** The effect of running `steps` in turn, with the given outcomes. */
  function StepsEvents(repo: Path, steps: seq<GitStep>, outcomes: seq<ProcessOutcome>): seq<Event>
    requires |steps| == |outcomes|
  {
    if steps == [] then [] else StepEvents(repo, steps[0], outcomes[0]) + StepsEvents(repo, steps[1..], outcomes[1..])
  }

  /** Everything a sync shows, given how each step ends. */
  function SyncEvents(git: Git, repo: Path): seq<Event> {
    [Stdout(SyncBanner)] + StepsEvents(repo, SyncSteps, git.Outcomes())
  }

  /** The sync's effect, step by step. */
  lemma SyncEventsSteps(git: Git, repo: Path)
    ensures SyncEvents(git, repo) == [Stdout(SyncBanner)]
      + StepEvents(repo, AddAll, git.add) + StepEvents(repo, CommitSync, git.commit)
      + StepEvents(repo, PullRebase, git.pull) + StepEvents(repo, PushUp, git.push)
  {
    var a := StepEvents(repo, AddAll, git.add);
    var c := StepEvents(repo, CommitSync, git.commit);
    var p := StepEvents(repo, PullRebase, git.pull);
    var q := StepEvents(repo, PushUp, git.push);
    StepsCons(repo, PushUp, git.push, [], []);
    assert [PushUp] == [PushUp] + [] && [git.push] == [git.push] + [];
    StepsCons(repo, PullRebase, git.pull, [PushUp], [git.push]);
    StepsCons(repo, CommitSync, git.commit, [PullRebase, PushUp], [git.pull, git.push]);
    StepsCons(repo, AddAll, git.add, [CommitSync, PullRebase, PushUp], [git.commit, git.pull, git.push]);
    assert StepsEvents(repo, SyncSteps, git.Outcomes()) == a + (c + (p + q));
    AppendAssoc(c, p, q);
    AppendAssoc(a, c + p, q);
    AppendAssoc(a, c, p);
    AppendAssoc([Stdout(SyncBanner)], a + c + p, q);
    AppendAssoc([Stdout(SyncBanner)], a + c, p);
    AppendAssoc([Stdout(SyncBanner)], a, c);
  }

  /** Running one more step first puts its effect first. */
  lemma StepsCons(repo: Path, step: GitStep, outcome: ProcessOutcome, steps: seq<GitStep>, outcomes: seq<ProcessOutcome>)
    requires |steps| == |outcomes|
    ensures StepsEvents(repo, [step] + steps, [outcome] + outcomes)
      == StepEvents(repo, step, outcome) + StepsEvents(repo, steps, outcomes)
  {
    assert ([step] + steps)[1..] == steps && ([outcome] + outcomes)[1..] == outcomes;
  }

  /** The git commands among a sequence of events. */
  function GitCommands(events: seq<Event>): (r: seq<(Path, seq<string>)>)
    ensures |r| <= |events|
  {
    if events == [] then [] else GitCommand(events[0]) + GitCommands(events[1..])
  }

  function GitCommand(e: Event): (r: seq<(Path, seq<string>)>)
    ensures |r| <= 1
  {
    if e.GitRun? then [(e.cwd, e.args)] else []
  }

  lemma {:induction false} GitCommandsAppend(a: seq<Event>, b: seq<Event>)
    ensures GitCommands(a + b) == GitCommands(a) + GitCommands(b)
  {
    if a == [] {
      assert a + b == b;
    } else {
      var ab := a + b;
      assert ab[0] == a[0] && ab[1..] == a[1..] + b;
      calc {
        GitCommands(ab);
        GitCommand(a[0]) + GitCommands(a[1..] + b);
        { GitCommandsAppend(a[1..], b); }
        GitCommand(a[0]) + (GitCommands(a[1..]) + GitCommands(b));
        GitCommands(a) + GitCommands(b);
      }
    }
  }

  /** Printed text is not a git command. */
  lemma {:induction false} NoGitCommands(events: seq<Event>)
    requires forall e | e in events :: e.Stdout?
    ensures GitCommands(events) == []
  {
    if events != [] {
      assert events[0] in events;
      NoGitCommands(events[1..]);
    }
  }

  /** The commands `steps` run are their arguments, in their order, each in
      `repo`, whatever the outcomes. */
  function Commands(repo: Path, steps: seq<GitStep>): (r: seq<(Path, seq<string>)>)
    ensures |r| == |steps| && forall k | 0 <= k < |steps| :: r[k] == (repo, steps[k].args)
  {
    seq(|steps|, k requires 0 <= k < |steps| => (repo, steps[k].args))
  }

  lemma {:induction false} StepsCommands(repo: Path, steps: seq<GitStep>, outcomes: seq<ProcessOutcome>)
    requires |steps| == |outcomes|
    ensures GitCommands(StepsEvents(repo, steps, outcomes)) == Commands(repo, steps)
  {
    if steps != [] {
      var head := StepEvents(repo, steps[0], outcomes[0]);
      var tail := StepsEvents(repo, steps[1..], outcomes[1..]);
      var w := WarningEvents(steps[0].stepName, outcomes[0]);
      GitCommandsAppend([GitRun(repo, steps[0].args)], w);
      NoGitCommands(w);
      assert GitCommands([GitRun(repo, steps[0].args)]) == [(repo, steps[0].args)];
      assert GitCommands(head) == [(repo, steps[0].args)];
      assert StepsEvents(repo, steps, outcomes) == head + tail;
      GitCommandsAppend(head, tail);
      StepsCommands(repo, steps[1..], outcomes[1..]);
      CommandsCons(repo, steps);
    }
  }

  lemma CommandsCons(repo: Path, steps: seq<GitStep>)
    requires steps != []
    ensures Commands(repo, steps) == [(repo, steps[0].args)] + Commands(repo, steps[1..])
  {
    var r, t := Commands(repo, steps), Commands(repo, steps[1..]);
    var c := [(repo, steps[0].args)] + t;
    assert |r| == |c|;
    forall k | 0 <= k < |r| ensures r[k] == c[k] {
      if k > 0 {
        assert c[k] == t[k - 1] == (repo, steps[1..][k - 1].args);
      }
    }
  }

  /** A sync only prints and runs git. */
  lemma {:induction false} StepsEventKinds(repo: Path, steps: seq<GitStep>, outcomes: seq<ProcessOutcome>)
    requires |steps| == |outcomes|
    ensures forall e | e in StepsEvents(repo, steps, outcomes) :: e.Stdout? || e.GitRun?
  {
    if steps != [] {
      StepsEventKinds(repo, steps[1..], outcomes[1..]);
    }
  }

  lemma SyncEventKinds(git: Git, repo: Path)
    ensures forall e | e in SyncEvents(git, repo) :: e.Stdout? || e.GitRun?
  {
    StepsEventKinds(repo, SyncSteps, git.Outcomes());
  }

  /** Whatever each step's outcome, a sync runs exactly `add .`,
      `commit -m "Sync vault"`, `pull --rebase` and `push`, in that order,
      all in the repository directory. */
  lemma SyncRunsFourSteps(git: Git, repo: Path)
    ensures GitCommands(SyncEvents(git, repo)) ==
      [(repo, ["add", "."]), (repo, ["commit", "-m", "Sync vault"]), (repo, ["pull", "--rebase"]), (repo, ["push"])]
  {
    GitCommandsAppend([Stdout(SyncBanner)], StepsEvents(repo, SyncSteps, git.Outcomes()));
    NoGitCommands([Stdout(SyncBanner)]);
    StepsCommands(repo, SyncSteps, git.Outcomes());
  }

  /** Every step that does not succeed leaves its warning, and a step that
      succeeds leaves none. */
  lemma {:induction false} StepsWarn(repo: Path, steps: seq<GitStep>, outcomes: seq<ProcessOutcome>)
    requires |steps| == |outcomes|
    ensures forall k | 0 <= k < |steps| && !outcomes[k].Succeeded() ::
      Stdout(Warning(steps[k].stepName, outcomes[k]).value) in StepsEvents(repo, steps, outcomes)
    ensures (forall k | 0 <= k < |steps| :: outcomes[k].Succeeded()) ==>
      StepsEvents(repo, steps, outcomes) == seq(|steps|, k requires 0 <= k < |steps| => GitRun(repo, steps[k].args))
  {
    if steps != [] {
      StepsWarn(repo, steps[1..], outcomes[1..]);
      var ev := StepsEvents(repo, steps, outcomes);
      var head := StepEvents(repo, steps[0], outcomes[0]);
      var rest := StepsEvents(repo, steps[1..], outcomes[1..]);
      assert ev == head + rest;
      forall k | 0 <= k < |steps| && !outcomes[k].Succeeded()
        ensures Stdout(Warning(steps[k].stepName, outcomes[k]).value) in ev
      {
        if k == 0 {
          assert head[1] == Stdout(Warning(steps[0].stepName, outcomes[0]).value);
        } else {
          assert steps[1..][k - 1] == steps[k] && outcomes[1..][k - 1] == outcomes[k];
          assert Stdout(Warning(steps[k].stepName, outcomes[k]).value) in rest;
        }
      }
      if forall k | 0 <= k < |steps| :: outcomes[k].Succeeded() {
        assert outcomes[0].Succeeded();
        assert forall k | 0 <= k < |steps| - 1 :: outcomes[1..][k].Succeeded() by {
          forall k | 0 <= k < |steps| - 1 ensures outcomes[1..][k].Succeeded() {
            assert outcomes[1..][k] == outcomes[k + 1];
          }
        }
      }
    }
  }

  /** A sync warns about every step that did not succeed, and when all four
      succeed it shows nothing but the banner and the commands. */
  lemma SyncWarnsOnFailures(git: Git, repo: Path)
    ensures forall k | 0 <= k < |SyncSteps| :: !git.Outcomes()[k].Succeeded() ==>
      Stdout(Warning(SyncSteps[k].stepName, git.Outcomes()[k]).value) in SyncEvents(git, repo)
    ensures git.add.Succeeded() && git.commit.Succeeded() && git.pull.Succeeded() && git.push.Succeeded() ==>
      SyncEvents(git, repo) == [Stdout(SyncBanner), GitRun(repo, ["add", "."]),
        GitRun(repo, ["commit", "-m", "Sync vault"]), GitRun(repo, ["pull", "--rebase"]), GitRun(repo, ["push"])]
  {
    StepsWarn(repo, SyncSteps, git.Outcomes());
  }

  /** `git_silent`: run one git step in `repo`; whatever happens, the result
      is Ok, with a warning printed when the step did not succeed. */
  method GitSilent(h: Host, git: Git, repo: Path, stepName: string, args: seq<string>, outcome: ProcessOutcome)
    returns (r: Result<()>)
    modifies h
    ensures h.fs == StepFs(git, GitStep(stepName, args), outcome, old(h.fs)) && h.stdin == old(h.stdin)
    ensures r == Ok(())
    ensures h.trace == old(h.trace) + StepEvents(repo, GitStep(stepName, args), outcome)
  {
    h.Emit(GitRun(repo, args));
    r := Ok(());
    match outcome
    case Exited(code) =>
      var _ := h.Apply(Ok(git.writes(GitStep(stepName, args), h.fs)));
      if code != Some(0) {
        h.Print(WarningHead(stepName) + (" (exit code " + IntToString(code.GetOr(-1)) + ")\n"));
      }
    case LaunchFailed(e) =>
      h.Print(WarningHead(stepName) + (" to run: " + e + "\n"));
  }

  /** `sync_vault`: the banner, then the four steps in order. Every step's
      result is Ok, so none of the `?` returns early; the sync is Ok. */
  method SyncVault(h: Host, git: Git, repo: Path) returns (r: Result<()>)
    modifies h
    ensures h.fs == SyncFs(git, old(h.fs)) && h.stdin == old(h.stdin)
    ensures r == Ok(())
    ensures h.trace == old(h.trace) + SyncEvents(git, repo)
  {
    ghost var t0 := h.trace;
    h.Print(SyncBanner);
    // Each `?` in the source sees Ok: the steps never cut the sequence short.
    var step := GitSilent(h, git, repo, "add", ["add", "."], git.add);
    step := GitSilent(h, git, repo, "commit", ["commit", "-m", "Sync vault"], git.commit);
    step := GitSilent(h, git, repo, "pull", ["pull", "--rebase"], git.pull);
    step := GitSilent(h, git, repo, "push", ["push"], git.push);
    ghost var b, a, c, p, q := [Stdout(SyncBanner)], StepEvents(repo, AddAll, git.add),
      StepEvents(repo, CommitSync, git.commit), StepEvents(repo, PullRebase, git.pull), StepEvents(repo, PushUp, git.push);
    assert h.trace == t0 + b + a + c + p + q;
    SyncEventsSteps(git, repo);
    AppendAssoc(t0, b + a + c + p, q);
    AppendAssoc(t0, b + a + c, p);
    AppendAssoc(t0, b + a, c);
    AppendAssoc(t0, b, a);
    r := Ok(());
  }
}

/** `passman init`: generate the identity and its public key, asking
    before replacing existing key files, then install the completions. */
module Init {
  import opened Wrappers
  import opened Paths
  import opened Machine
  import opened Configuration
  import opened Store
  import opened Keygen

  const Keeping: string := "ℹ️  Keeping existing keys; skipping generation.\n"

  /** The overwrite question, naming both key files. */
  function OverwritePrompt(secret: Path, public: Path): string {
    "Detected existing key files:\n  🔐 Private: " + Display(secret) + "\n  🟢 Public:  " + Display(public) + "\nOverwrite?"
  }

  /** The confirmation's answer: `None` is the bare Enter, which takes the
      default, "no". */
  predicate Accepts(choice: Option<bool>) {
    choice == Some(true)
  }

  /** `fs::remove_file(..).ok()`: the removal, or nothing when it fails. */
  function Discard(fs: Fs, p: Path): (r: Fs)
    ensures p !in r || (p in fs && fs[p].Dir?)
    ensures forall q | q in fs && q != p :: q in r && r[q] == fs[q]
    ensures r.Keys <= fs.Keys
  {
    match RemoveFile(fs, p)
    case Ok(fs1) => fs1
    case Err(_) => fs
  }

  /** Installing the completions, whose outcome is given. */
  function Install(fs: Fs, install: Result<()>): Outcome {
    Outcome(fs, install, [CompletionInstall])
  }

  /** Generation, and the install only once it succeeded. */
  function GenerateThenInstall(fs: Fs, secret: Path, public: Path, tools: Tools, install: Result<()>): Outcome {
    var generated := GenerateKeypair(fs, secret, public, tools);
    if generated.result.Err? then generated
    else After(generated.events, Install(generated.fs, install))
  }

  /** What `init` does. `answer` is how the confirmation ends: an error, or
      the choice made (`None` for the default). */
  function InitOutcome(fs: Fs, cfg: Config, answer: Result<Option<bool>>, tools: Tools, install: Result<()>): Outcome {
    var secret := cfg.secret;
    var public := PublicFile(cfg.baseDir);
    if secret in fs || public in fs then
      var asked := [ConfirmPrompt(OverwritePrompt(secret, public))];
      match answer
      case Err(e) => Outcome(fs, Err(e), asked)
      case Ok(choice) =>
        if !Accepts(choice) then After(asked + [Stdout(Keeping)], Install(fs, install))
        else After(asked, GenerateThenInstall(Discard(Discard(fs, secret), public), secret, public, tools, install))
    else GenerateThenInstall(fs, secret, public, tools, install)
  }

  /** Generation never prompts and never installs: its events are lookups,
      program runs and printed lines. */
  lemma GenerationEvents(fs: Fs, secret: Path, public: Path, tools: Tools)
    ensures forall e | e in GenerateKeypair(fs, secret, public, tools).events :: !e.ConfirmPrompt? && !e.CompletionInstall?
  {
    var g := Select(secret);
    OnlyKeygenEvents(fs, secret, public, g, tools(g.bin));
  }

  /** The install comes last, after a generation that succeeded, and
      decides the result; a failed generation is the result and installs
      nothing. */
  lemma GenerateThenInstallFacts(fs: Fs, secret: Path, public: Path, tools: Tools, install: Result<()>)
    ensures var o := GenerateThenInstall(fs, secret, public, tools, install);
      var generated := GenerateKeypair(fs, secret, public, tools);
      && (generated.result.Err? ==> o.result == generated.result && CompletionInstall !in o.events)
      && (generated.result.Ok? ==>
            && o.result == install && o.fs == generated.fs
            && o.events[|o.events| - 1] == CompletionInstall
            && CompletionInstall !in o.events[..|o.events| - 1])
      && |generated.events| <= |o.events| && o.events[..|generated.events|] == generated.events
      && forall e | e in o.events :: !e.ConfirmPrompt?
  {
    var generated := GenerateKeypair(fs, secret, public, tools);
    var o := GenerateThenInstall(fs, secret, public, tools, install);
    GenerationEvents(fs, secret, public, tools);
    if generated.result.Ok? {
      assert o.events == generated.events + [CompletionInstall];
      assert o.events[..|o.events| - 1] == generated.events;
    } else {
      assert o.events[..|generated.events|] == o.events;
    }
  }

  /** With neither key file present there is no question: generation
      starts at once, with the lookup of the chosen generator. */
  lemma NoKeysNoPrompt(fs: Fs, cfg: Config, answer: Result<Option<bool>>, tools: Tools, install: Result<()>)
    requires cfg.secret !in fs && PublicFile(cfg.baseDir) !in fs
    ensures var o := InitOutcome(fs, cfg, answer, tools, install);
      && o.events[0] == Lookup(Select(cfg.secret).bin)
      && forall e | e in o.events :: !e.ConfirmPrompt?
  {
    var secret := cfg.secret;
    var public := PublicFile(cfg.baseDir);
    assert InitOutcome(fs, cfg, answer, tools, install) == GenerateThenInstall(fs, secret, public, tools, install);
    GenerateThenInstallFacts(fs, secret, public, tools, install);
    var g := Select(secret);
    LooksUpFirst(fs, secret, public, g, tools(g.bin));
  }

  /** Either key file alone is enough for the question to be asked first,
      and the question names both files. */
  lemma EitherKeyPrompts(fs: Fs, cfg: Config, answer: Result<Option<bool>>, tools: Tools, install: Result<()>)
    requires cfg.secret in fs || PublicFile(cfg.baseDir) in fs
    ensures var o := InitOutcome(fs, cfg, answer, tools, install);
      o.events[0] == ConfirmPrompt(OverwritePrompt(cfg.secret, PublicFile(cfg.baseDir)))
  {
  }

  /** Declining, or taking the default, keeps both files and everything
      else, generates nothing, and still installs the completions. */
  lemma DeclineKeeps(fs: Fs, cfg: Config, choice: Option<bool>, tools: Tools, install: Result<()>)
    requires cfg.secret in fs || PublicFile(cfg.baseDir) in fs
    requires choice != Some(true)
    ensures var o := InitOutcome(fs, cfg, Ok(choice), tools, install);
      && o.fs == fs && o.result == install
      && o.events == [ConfirmPrompt(OverwritePrompt(cfg.secret, PublicFile(cfg.baseDir))), Stdout(Keeping), CompletionInstall]
  {
  }

  /** A failed confirmation ends `init` with its error, before anything
      is removed, generated or installed. */
  lemma PromptErrorStops(fs: Fs, cfg: Config, e: string, tools: Tools, install: Result<()>)
    requires cfg.secret in fs || PublicFile(cfg.baseDir) in fs
    ensures var o := InitOutcome(fs, cfg, Err(e), tools, install);
      o.fs == fs && o.result == Err(e) && CompletionInstall !in o.events
  {
  }

  /** Accepting removes both key files when they are files (a failure to
      remove one is ignored), keeps everything else, and generates afresh
      from there; the install follows only a generation that succeeded. */
  lemma AcceptRegenerates(fs: Fs, cfg: Config, tools: Tools, install: Result<()>)
    requires cfg.secret in fs || PublicFile(cfg.baseDir) in fs
    ensures var secret := cfg.secret;
      var public := PublicFile(cfg.baseDir);
      var cleared := Discard(Discard(fs, secret), public);
      var o := InitOutcome(fs, cfg, Ok(Some(true)), tools, install);
      var generated := GenerateKeypair(cleared, secret, public, tools);
      && o.events[..|generated.events| + 1] == [ConfirmPrompt(OverwritePrompt(secret, public))] + generated.events
      && (generated.result.Err? ==> o.result == generated.result && CompletionInstall !in o.events)
      && (generated.result.Ok? ==> o.result == install && o.fs == generated.fs && o.events[|o.events| - 1] == CompletionInstall)
  {
    var secret := cfg.secret;
    var public := PublicFile(cfg.baseDir);
    var cleared := Discard(Discard(fs, secret), public);
    var asked := [ConfirmPrompt(OverwritePrompt(secret, public))];
    var next := GenerateThenInstall(cleared, secret, public, tools, install);
    assert InitOutcome(fs, cfg, Ok(Some(true)), tools, install) == After(asked, next);
    GenerateThenInstallFacts(cleared, secret, public, tools, install);
    PrefixOfAppend(asked, next.events, |GenerateKeypair(cleared, secret, public, tools).events|);
  }

  /** Clearing the key files removes each one that is a file, and keeps
      every other path. */
  lemma ClearsKeys(fs: Fs, secret: Path, public: Path)
    ensures var cleared := Discard(Discard(fs, secret), public);
      && (IsFile(fs, secret) ==> secret !in cleared)
      && (IsFile(fs, public) ==> public !in cleared)
      && (forall q | q in fs && q != secret && q != public :: q in cleared && cleared[q] == fs[q])
  {
  }

  /** The completions are installed exactly when `init` gets past the
      question and past generation, and then the install's outcome is the
      result. */
  lemma InstallsUnlessStopped(fs: Fs, cfg: Config, answer: Result<Option<bool>>, tools: Tools, install: Result<()>)
    ensures var o := InitOutcome(fs, cfg, answer, tools, install);
      CompletionInstall in o.events ==> o.result == install && o.events[|o.events| - 1] == CompletionInstall
    ensures var o := InitOutcome(fs, cfg, answer, tools, install);
      o.result.Ok? ==> CompletionInstall in o.events
  {
    var secret := cfg.secret;
    var public := PublicFile(cfg.baseDir);
    var o := InitOutcome(fs, cfg, answer, tools, install);
    var asked := [ConfirmPrompt(OverwritePrompt(secret, public))];
    if !(secret in fs || public in fs) {
      assert o == GenerateThenInstall(fs, secret, public, tools, install);
      GenerateThenInstallFacts(fs, secret, public, tools, install);
    } else if answer.Err? {
      assert o == Outcome(fs, Err(answer.msg), asked);
    } else if !Accepts(answer.value) {
      assert o.events == asked + [Stdout(Keeping), CompletionInstall] && o.result == install;
    } else {
      var cleared := Discard(Discard(fs, secret), public);
      var next := GenerateThenInstall(cleared, secret, public, tools, install);
      assert o == After(asked, next);
      GenerateThenInstallFacts(cleared, secret, public, tools, install);
      assert CompletionInstall in o.events ==> CompletionInstall in next.events;
    }
  }

  /** `run` of `init`, with its `do_generate` flag. */
  method Run(h: Host, cfg: Config, answer: Result<Option<bool>>, tools: Tools, install: Result<()>)
    returns (r: Result<()>)
    modifies h
    ensures h.stdin == old(h.stdin)
    ensures var o := InitOutcome(old(h.fs), cfg, answer, tools, install);
      h.fs == o.fs && r == o.result && h.trace == old(h.trace) + o.events
  {
    var secret := cfg.secret;
    var public := PublicFile(cfg.baseDir);
    ghost var fs0, t0 := h.fs, h.trace;
    var doGenerate := Decide(h, secret, public, answer);
    if doGenerate.Err? {
      return Err(doGenerate.msg);
    }
    ghost var fs1, t1 := h.fs, h.trace;
    r := Finish(h, doGenerate.value, secret, public, tools, install);
    ghost var o := if doGenerate.value then GenerateThenInstall(fs1, secret, public, tools, install) else Install(fs1, install);
    if secret in fs0 || public in fs0 {
      ghost var asked := [ConfirmPrompt(OverwritePrompt(secret, public))];
      if doGenerate.value {
        assert InitOutcome(fs0, cfg, answer, tools, install) == After(asked, o);
        AppendAssoc(t0, asked, o.events);
      } else {
        assert InitOutcome(fs0, cfg, answer, tools, install) == After(asked + [Stdout(Keeping)], o);
        AppendAssoc(t0, asked + [Stdout(Keeping)], o.events);
      }
    } else {
      assert InitOutcome(fs0, cfg, answer, tools, install) == o;
    }
  }

  /** The question, when a key file exists: whether to generate, with the
      key files removed first when the answer is yes. */
  method Decide(h: Host, secret: Path, public: Path, answer: Result<Option<bool>>)
    returns (doGenerate: Result<bool>)
    modifies h
    ensures h.stdin == old(h.stdin)
    ensures !(secret in old(h.fs) || public in old(h.fs)) ==>
      doGenerate == Ok(true) && h.fs == old(h.fs) && h.trace == old(h.trace)
    ensures secret in old(h.fs) || public in old(h.fs) ==>
      var asked := old(h.trace) + [ConfirmPrompt(OverwritePrompt(secret, public))];
      match answer
      case Err(e) => doGenerate == Err(e) && h.fs == old(h.fs) && h.trace == asked
      case Ok(choice) =>
        if Accepts(choice) then doGenerate == Ok(true) && h.fs == Discard(Discard(old(h.fs), secret), public) && h.trace == asked
        else doGenerate == Ok(false) && h.fs == old(h.fs) && h.trace == asked + [Stdout(Keeping)]
  {
    doGenerate := Ok(true);
    if secret in h.fs || public in h.fs {
      h.Emit(ConfirmPrompt(OverwritePrompt(secret, public)));
      if answer.Err? {
        return Err(answer.msg);
      }
      if !Accepts(answer.value) {
        h.Print(Keeping);
        doGenerate := Ok(false);
      } else {
        var _ := h.Apply(RemoveFile(h.fs, secret));
        var _ := h.Apply(RemoveFile(h.fs, public));
      }
    }
  }

  /** Generation when `doGenerate` is set, then the install. */
  method Finish(h: Host, doGenerate: bool, secret: Path, public: Path, tools: Tools, install: Result<()>)
    returns (r: Result<()>)
    modifies h
    ensures h.stdin == old(h.stdin)
    ensures var o := if doGenerate then GenerateThenInstall(old(h.fs), secret, public, tools, install)
                     else Install(old(h.fs), install);
      h.fs == o.fs && r == o.result && h.trace == old(h.trace) + o.events
  {
    if doGenerate {
      r := RunGenerateKeypair(h, secret, public, tools);
      if r.Err? {
        return;
      }
    }
    h.Emit(CompletionInstall);
    r := install;
  }
}

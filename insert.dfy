/** `passman insert`: store a password typed at a prompt or written in the
    editor, optionally over an existing entry. */
module Insert {
  import opened Wrappers
  import opened Text
  import opened Paths
  import opened Machine
  import opened Configuration
  import opened Crypto
  import opened GitOps
  import opened Store
  import Create

  function PublicFailed(file: Path): string {
    "Failed to read public file: " + Display(file)
  }

  function AlreadyStored(out: Path): string {
    "Password already exists at " + Display(out) + ". Use --force to overwrite."
  }

  function PromptText(path: string): string {
    "Enter password for " + path + ": "
  }

  /** The recipient: the public key file's text without surrounding
      whitespace. */
  function PublicKey(fs: Fs, base: Path): (r: Result<string>)
    ensures r.Ok? <==> IsFile(fs, PublicFile(base))
    ensures r.Ok? ==> r.value == Trim(fs[PublicFile(base)].content)
    ensures r.Err? ==> r.msg == PublicFailed(PublicFile(base))
  {
    match ReadFile(fs, PublicFile(base))
    case Err(_) => Err(PublicFailed(PublicFile(base)))
    case Ok(text) => Ok(Trim(text))
  }

  /** What one `read_line` on standard input gives: the next input, or ""
      at end of input. */
  function NextLine(stdin: seq<Result<string>>): Result<string> {
    if stdin == [] then Ok("") else stdin[0]
  }

  /** Standard input after one `read_line`. */
  function AfterLine(stdin: seq<Result<string>>): seq<Result<string>> {
    if stdin == [] then [] else stdin[1..]
  }

  /** `prompt_singleline`'s password: the line read without its trailing
      whitespace. Unlike the editor session, an empty password is accepted. */
  function PromptPassword(line: Result<string>): (r: Result<string>)
    ensures r.Ok? <==> line.Ok?
    ensures r.Ok? ==> r.value == TrimEnd(line.value)
    ensures r.Err? ==> r.msg == line.msg
  {
    match line
    case Err(e) => Err(e)
    case Ok(s) => Ok(TrimEnd(s))
  }

  /** The steps before the password is asked for: read the public key,
      refuse an existing entry unless forced, create the entry's parent
      directories. Yields the key and the filesystem with the directories. */
  function Prepare(fs: Fs, cfg: Config, path: string, force: bool): Result<(string, Fs)> {
    match PublicKey(fs, cfg.baseDir)
    case Err(e) => Err(e)
    case Ok(public) =>
      var out := RageFile(cfg.prefix, path);
      if out in fs && !force then Err(AlreadyStored(out))
      else match ParentDirs(fs, out)
        case Err(e) => Err(e)
        case Ok(fs1) => Ok((public, fs1))
  }

  /** The prompt, one line of standard input, then storing what was typed. */
  function PromptAndStore(fs: Fs, encryptFactory: Factory, git: Git, repo: Path, public: string,
                          out: Path, line: Result<string>, path: string): Outcome
  {
    var asked := [Stdout(PromptText(path))];
    match PromptPassword(line)
    case Err(e) => Outcome(fs, Err(e), asked)
    case Ok(password) =>
      After(asked, StoreOutcome(fs, encryptFactory, git, repo, public, out, password, Create.Stored(path), None))
  }

  /** What `insert` does; `line` is what reading standard input would give,
      and is read only in prompt mode, once the preparation succeeded. */
  function InsertOutcome(fs: Fs, cfg: Config, encryptFactory: Factory, git: Git, temp: Option<Path>,
                         editor: Editor, line: Result<string>, path: string, prompt: bool, force: bool): Outcome
  {
    match Prepare(fs, cfg, path, force)
    case Err(e) => Outcome(fs, Err(e), [])
    case Ok((public, fs1)) =>
      var out := RageFile(cfg.prefix, path);
      if prompt then PromptAndStore(fs1, encryptFactory, git, cfg.prefix, public, out, line, path)
      else Create.EditAndStore(fs1, encryptFactory, git, cfg.prefix, public, out, temp, editor, path)
  }

  /** Without `--force` an existing entry is refused before anything is
      asked for or written; the public key is read first, so a missing key
      is reported instead. */
  lemma RefusesWithoutForce(fs: Fs, cfg: Config, encryptFactory: Factory, git: Git, temp: Option<Path>,
                            editor: Editor, line: Result<string>, path: string, prompt: bool)
    requires RageFile(cfg.prefix, path) in fs
    ensures var o := InsertOutcome(fs, cfg, encryptFactory, git, temp, editor, line, path, prompt, false);
      && o.fs == fs && o.events == []
      && o.result == (if IsFile(fs, PublicFile(cfg.baseDir)) then Err(AlreadyStored(RageFile(cfg.prefix, path)))
                      else Err(PublicFailed(PublicFile(cfg.baseDir))))
  {
  }

  /** With `--force` an existing entry is no obstacle: in prompt mode the
      typed line, trimmed at the end, is encrypted over it with the trimmed
      public key, and the vault is synced. */
  lemma ForceReplaces(fs: Fs, cfg: Config, encryptFactory: Factory, git: Git, temp: Option<Path>,
                      editor: Editor, s: string, path: string)
    requires IsFile(fs, PublicFile(cfg.baseDir))
    requires ParentDirs(fs, RageFile(cfg.prefix, path)).Ok?
    requires encryptFactory(RageFile(cfg.prefix, path)).encrypt(
      Trim(fs[PublicFile(cfg.baseDir)].content), RageFile(cfg.prefix, path), TrimEnd(s)).Ok?
    ensures var o := InsertOutcome(fs, cfg, encryptFactory, git, temp, editor, Ok(s), path, true, true);
      && o.result == Ok(())
      && EncryptCalls(o.events) == [EncryptRun(Trim(fs[PublicFile(cfg.baseDir)].content), RageFile(cfg.prefix, path), TrimEnd(s))]
      && |GitCommands(o.events)| == 4
  {
    var out := RageFile(cfg.prefix, path);
    var public := Trim(fs[PublicFile(cfg.baseDir)].content);
    var fs1 := ParentDirs(fs, out).value;
    PromptSteps(fs1, encryptFactory, git, cfg.prefix, public, out, Ok(s), path);
  }

  /** The prompt shows first; a failed read stops everything; otherwise the
      trimmed line is what gets encrypted, once, and the vault is synced
      when that succeeds. An empty line is stored as an empty password. */
  lemma PromptSteps(fs: Fs, encryptFactory: Factory, git: Git, repo: Path, public: string,
                    out: Path, line: Result<string>, path: string)
    ensures var o := PromptAndStore(fs, encryptFactory, git, repo, public, out, line, path);
      o.events[0] == Stdout(PromptText(path))
    ensures var o := PromptAndStore(fs, encryptFactory, git, repo, public, out, line, path);
      line.Err? ==> o == Outcome(fs, Err(line.msg), [Stdout(PromptText(path))])
    ensures var o := PromptAndStore(fs, encryptFactory, git, repo, public, out, line, path);
      line.Ok? ==>
        && EncryptCalls(o.events) == [EncryptRun(public, out, TrimEnd(line.value))]
        && (o.result.Ok? <==> encryptFactory(out).encrypt(public, out, TrimEnd(line.value)).Ok?)
        && (o.result.Ok? ==> |GitCommands(o.events)| == 4)
        && (o.result.Err? ==> GitCommands(o.events) == [] && o.fs == fs)
  {
    var asked := [Stdout(PromptText(path))];
    if line.Ok? {
      var password := TrimEnd(line.value);
      var s := StoreOutcome(fs, encryptFactory, git, repo, public, out, password, Create.Stored(path), None);
      StoreSteps(fs, encryptFactory, git, repo, public, out, password, Create.Stored(path), None);
      assert EncryptCalls(asked) == [] by {
        assert EncryptCalls(asked) == EncryptCalls([]);
      }
      assert GitCommands(asked) == [] by {
        assert GitCommands(asked) == GitCommand(asked[0]) + GitCommands([]);
      }
      EncryptCallsAppend(asked, s.events);
      GitCommandsAppend(asked, s.events);
    }
  }

  /** The editor mode refuses an empty text, where the prompt mode stores
      an empty password. */
  lemma EmptyPassword(fs: Fs, encryptFactory: Factory, git: Git, repo: Path, public: string,
                      out: Path, temp: Path, editor: Editor, path: string)
    requires editor("") == EditorRun(Exited(Some(0)), Ok("\n"))
    ensures Create.EditAndStore(fs, encryptFactory, git, repo, public, out, Some(temp), editor, path).result
      == Err(Create.EmptyAbort)
    ensures EncryptCalls(PromptAndStore(fs, encryptFactory, git, repo, public, out, Ok("\n"), path).events)
      == [EncryptRun(public, out, "")]
  {
    assert TrimEnd("\n") == "" by {
      assert IsWhitespace('\n');
      assert TrimEnd("\n") == TrimEnd("");
    }
    PromptSteps(fs, encryptFactory, git, repo, public, out, Ok("\n"), path);
  }

  /** The preparation adds directories only and changes nothing that was
      there. */
  lemma PrepareKeeps(fs: Fs, cfg: Config, path: string, force: bool)
    ensures Prepare(fs, cfg, path, force).Ok? ==>
      var fs1 := Prepare(fs, cfg, path, force).value.1;
      forall q | q in fs :: q in fs1 && fs1[q] == fs[q]
  {
  }

  /** Storing a typed password: a failure leaves the files alone; a success
      writes the entry and nothing else before git syncs; a git that writes
      only inside the repository leaves every other path outside it as it
      was. */
  lemma PromptKeeps(fs: Fs, encryptFactory: Factory, git: Git, repo: Path, public: string,
                    out: Path, line: Result<string>, path: string)
    ensures var o := PromptAndStore(fs, encryptFactory, git, repo, public, out, line, path);
      o.result.Err? ==> o.fs == fs
    ensures var o := PromptAndStore(fs, encryptFactory, git, repo, public, out, line, path);
      o.result.Ok? ==> exists w :: o.fs == SyncFs(git, w) && OnlyAt(fs, w, out)
    ensures var o := PromptAndStore(fs, encryptFactory, git, repo, public, out, line, path);
      WritesWithin(git, repo) ==> forall q | !Inside(repo, q) && q != out :: Agree(fs, o.fs, q)
  {
    if line.Ok? {
      StoreKeepsOthers(fs, encryptFactory, git, repo, public, out, TrimEnd(line.value), Create.Stored(path), None);
    }
  }

  /** A failure keeps every path that existed (directories may have been
      added); a success hands git a filesystem in which every path other
      than the entry keeps what it held; a git that writes only inside the
      vault keeps those paths outside it. */
  lemma KeepsOthers(fs: Fs, cfg: Config, encryptFactory: Factory, git: Git, temp: Option<Path>,
                    editor: Editor, line: Result<string>, path: string, prompt: bool, force: bool)
    ensures var o := InsertOutcome(fs, cfg, encryptFactory, git, temp, editor, line, path, prompt, force);
      o.result.Err? ==> forall q | q in fs :: q in o.fs && o.fs[q] == fs[q]
    ensures var o := InsertOutcome(fs, cfg, encryptFactory, git, temp, editor, line, path, prompt, force);
      o.result.Ok? ==> exists w :: (o.fs == SyncFs(git, w) &&
        forall q | q in fs && q != RageFile(cfg.prefix, path) :: q in w && w[q] == fs[q])
    ensures var o := InsertOutcome(fs, cfg, encryptFactory, git, temp, editor, line, path, prompt, force);
      WritesWithin(git, cfg.prefix) ==>
        forall q | q in fs && q != RageFile(cfg.prefix, path) && !Inside(cfg.prefix, q) :: q in o.fs && o.fs[q] == fs[q]
  {
    var o := InsertOutcome(fs, cfg, encryptFactory, git, temp, editor, line, path, prompt, force);
    var out := RageFile(cfg.prefix, path);
    var p := Prepare(fs, cfg, path, force);
    PrepareKeeps(fs, cfg, path, force);
    if p.Ok? {
      var public := p.value.0;
      var fs1 := p.value.1;
      if prompt {
        assert o == PromptAndStore(fs1, encryptFactory, git, cfg.prefix, public, out, line, path);
        PromptKeeps(fs1, encryptFactory, git, cfg.prefix, public, out, line, path);
      } else {
        assert o == Create.EditAndStore(fs1, encryptFactory, git, cfg.prefix, public, out, temp, editor, path);
        Create.EditAndStoreSteps(fs1, encryptFactory, git, cfg.prefix, public, out, temp, editor, path);
      }
      if o.result.Ok? {
        var w :| o.fs == SyncFs(git, w) && OnlyAt(fs1, w, out);
        assert forall q | q in fs && q != out :: q in w && w[q] == fs[q];
      }
      if WritesWithin(git, cfg.prefix) {
        forall q | q in fs && q != out && !Inside(cfg.prefix, q) ensures q in o.fs && o.fs[q] == fs[q] {
          assert Agree(fs1, o.fs, q);
        }
      }
    }
  }

  /** The steps before the password: the public key, the existing-entry
      check, the parent directories. */
  method Preparation(h: Host, cfg: Config, path: string, force: bool) returns (r: Result<string>)
    modifies h
    ensures h.stdin == old(h.stdin) && h.trace == old(h.trace)
    ensures var p := Prepare(old(h.fs), cfg, path, force);
      && (p.Ok? ==> r == Ok(p.value.0) && h.fs == p.value.1)
      && (p.Err? ==> r == Err(p.msg) && h.fs == old(h.fs))
  {
    var publicFile := Join(cfg.baseDir, "public.key");
    PublicFileJoin(cfg.baseDir);
    var text := ReadFile(h.fs, publicFile);
    if text.Err? {
      return Err(PublicFailed(publicFile));
    }
    var public := Trim(text.value);
    var out := RageFile(cfg.prefix, path);
    if out in h.fs && !force {
      return Err(AlreadyStored(out));
    }
    var made := MakeParentDirs(h, out);
    if made.Err? {
      return Err(made.msg);
    }
    r := Ok(public);
  }

  /** `prompt_singleline`: print the prompt, read one line, cut its
      trailing whitespace; a failed read is the error. */
  method PromptSingleline(h: Host, path: string) returns (r: Result<string>)
    modifies h
    ensures h.fs == old(h.fs)
    ensures h.stdin == AfterLine(old(h.stdin))
    ensures h.trace == old(h.trace) + [Stdout(PromptText(path))]
    ensures r == PromptPassword(NextLine(old(h.stdin)))
  {
    h.Print(PromptText(path));
    var line := h.ReadLine();
    if line.Err? {
      return Err(line.msg);
    }
    r := Ok(TrimEnd(line.value));
  }

  /** `prompt_singleline`, then encryption, confirmation and sync. */
  method PromptThenStore(h: Host, c: Facade, git: Git, repo: Path, public: string, out: Path, path: string)
    returns (r: Result<()>)
    modifies h
    ensures h.stdin == AfterLine(old(h.stdin))
    ensures var o := PromptAndStore(old(h.fs), c.encryptFactory, git, repo, public, out, NextLine(old(h.stdin)), path);
      h.fs == o.fs && r == o.result && h.trace == old(h.trace) + o.events
  {
    ghost var fs0, t0 := h.fs, h.trace;
    ghost var line := NextLine(h.stdin);
    var password := PromptSingleline(h, path);
    if password.Err? {
      return Err(password.msg);
    }
    r := StoreAndSync(h, c, git, repo, public, out, password.value, Create.Stored(path), None);
    ghost var asked := [Stdout(PromptText(path))];
    ghost var o := StoreOutcome(fs0, c.encryptFactory, git, repo, public, out, password.value, Create.Stored(path), None);
    assert PromptAndStore(fs0, c.encryptFactory, git, repo, public, out, line, path) == After(asked, o);
    AppendAssoc(t0, asked, o.events);
  }

  /** `run` of `insert`. Standard input is read once in prompt mode after a
      successful preparation, and not otherwise. */
  method Run(h: Host, c: Facade, cfg: Config, git: Git, temp: Option<Path>, editor: Editor,
             path: string, prompt: bool, force: bool)
    returns (r: Result<()>)
    modifies h
    ensures h.stdin == if prompt && Prepare(old(h.fs), cfg, path, force).Ok? then AfterLine(old(h.stdin)) else old(h.stdin)
    ensures var o := InsertOutcome(old(h.fs), cfg, c.encryptFactory, git, temp, editor, NextLine(old(h.stdin)), path, prompt, force);
      h.fs == o.fs && r == o.result && h.trace == old(h.trace) + o.events
  {
    var public := Preparation(h, cfg, path, force);
    if public.Err? {
      return Err(public.msg);
    }
    var out := RageFile(cfg.prefix, path);
    if prompt {
      r := PromptThenStore(h, c, git, cfg.prefix, public.value, out, path);
    } else {
      r := Create.EditThenStore(h, c, git, cfg.prefix, public.value, out, temp, editor, path);
    }
  }
}

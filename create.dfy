/** `passman create`: a new entry written from scratch in the editor. */
module Create {
  import opened Wrappers
  import opened Text
  import opened Paths
  import opened Machine
  import opened Configuration
  import opened Crypto
  import opened GitOps
  import opened Store

  const EditorFailed: string := "Editor exited with error"
  const EmptyAbort: string := "Aborted: file was empty"

  function AlreadyExists(out: Path): string {
    "File already exists at " + Display(out) + "."
  }

  function Stored(path: string): string {
    "Password for '" + path + "' stored successfully.\n"
  }

  /** What `create` does, in order: refuse an existing entry; create the
      entry's parent directories; read the public key; run the editor on a
      new temporary file (`temp` is `None` when none can be created); then
      encrypt, confirm and sync. The directories stay when a later step
      fails. */
  function CreateOutcome(fs: Fs, cfg: Config, encryptFactory: Factory, git: Git,
                         temp: Option<Path>, editor: Editor, path: string): Outcome
  {
    var out := cfg.entryPath(path);
    if out in fs then Outcome(fs, Err(AlreadyExists(out)), [])
    else match ParentDirs(fs, out)
      case Err(e) => Outcome(fs, Err(e), [])
      case Ok(fs1) =>
        match cfg.readPublic(fs1)
        case Err(e) => Outcome(fs1, Err(e), [])
        case Ok(public) => EditAndStore(fs1, encryptFactory, git, cfg.prefix, public, out, temp, editor, path)
  }

  /** The editor session on an empty temporary file, then, when it yields
      text, encrypting it to `out`, confirming and syncing. */
  function EditAndStore(fs: Fs, encryptFactory: Factory, git: Git, repo: Path, public: string,
                        out: Path, temp: Option<Path>, editor: Editor, path: string): Outcome
  {
    match SessionResult(temp, editor, EditorFailed, EmptyAbort)
    case Err(e) => Outcome(fs, Err(e), SessionEvents(temp))
    case Ok(text) =>
      After(SessionEvents(temp), StoreOutcome(fs, encryptFactory, git, repo, public, out, text, Stored(path), None))
  }

  /** A successful session encrypts its text once, to `out`, and syncs; a
      failed one encrypts nothing, runs no git and leaves the files alone.
      Passman itself writes at `out` only; the sync adds git's own writes,
      which a git that writes only inside the repository keeps away from
      every other path outside it. */
  lemma EditAndStoreSteps(fs: Fs, encryptFactory: Factory, git: Git, repo: Path, public: string,
                          out: Path, temp: Option<Path>, editor: Editor, path: string)
    ensures var o := EditAndStore(fs, encryptFactory, git, repo, public, out, temp, editor, path);
      var edited := SessionResult(temp, editor, EditorFailed, EmptyAbort);
      o.result.Ok? <==> edited.Ok? && encryptFactory(out).encrypt(public, out, edited.value).Ok?
    ensures var o := EditAndStore(fs, encryptFactory, git, repo, public, out, temp, editor, path);
      var edited := SessionResult(temp, editor, EditorFailed, EmptyAbort);
      o.result.Ok? ==> EncryptCalls(o.events) == [EncryptRun(public, out, edited.value)] && |GitCommands(o.events)| == 4
    ensures var o := EditAndStore(fs, encryptFactory, git, repo, public, out, temp, editor, path);
      o.result.Err? ==> GitCommands(o.events) == [] && o.fs == fs
    ensures var o := EditAndStore(fs, encryptFactory, git, repo, public, out, temp, editor, path);
      o.result.Ok? ==> exists w :: o.fs == SyncFs(git, w) && OnlyAt(fs, w, out)
    ensures var o := EditAndStore(fs, encryptFactory, git, repo, public, out, temp, editor, path);
      WritesWithin(git, repo) ==> forall q | !Inside(repo, q) && q != out :: Agree(fs, o.fs, q)
  {
    var session := SessionEvents(temp);
    assert GitCommands(session) == [] by {
      if temp.Some? {
        assert GitCommands(session) == GitCommand(session[0]) + GitCommands([]);
      }
    }
    assert EncryptCalls(session) == [] by {
      if temp.Some? {
        assert EncryptCalls(session) == EncryptCalls([]);
      }
    }
    var edited := SessionResult(temp, editor, EditorFailed, EmptyAbort);
    if edited.Ok? {
      var text := edited.value;
      var s := StoreOutcome(fs, encryptFactory, git, repo, public, out, text, Stored(path), None);
      StoreSteps(fs, encryptFactory, git, repo, public, out, text, Stored(path), None);
      StoreKeepsOthers(fs, encryptFactory, git, repo, public, out, text, Stored(path), None);
      EncryptCallsAppend(session, s.events);
      GitCommandsAppend(session, s.events);
    }
  }

  /** `edit` (the editor session), then encryption, confirmation and sync. */
  method EditThenStore(h: Host, c: Facade, git: Git, repo: Path, public: string,
                       out: Path, temp: Option<Path>, editor: Editor, path: string)
    returns (r: Result<()>)
    modifies h
    ensures h.stdin == old(h.stdin)
    ensures var o := EditAndStore(old(h.fs), c.encryptFactory, git, repo, public, out, temp, editor, path);
      h.fs == o.fs && r == o.result && h.trace == old(h.trace) + o.events
  {
    ghost var fs0, t0 := h.fs, h.trace;
    var text := EditSession(h, temp, editor, EditorFailed, EmptyAbort);
    if text.Err? {
      return Err(text.msg);
    }
    r := StoreAndSync(h, c, git, repo, public, out, text.value, Stored(path), None);
    ghost var o := StoreOutcome(fs0, c.encryptFactory, git, repo, public, out, text.value, Stored(path), None);
    assert EditAndStore(fs0, c.encryptFactory, git, repo, public, out, temp, editor, path) == After(SessionEvents(temp), o);
    AppendAssoc(t0, SessionEvents(temp), o.events);
  }

  /** An existing entry is never replaced: `create` fails naming it, and
      neither starts the editor nor touches the filesystem. */
  lemma NeverOverwrites(fs: Fs, cfg: Config, encryptFactory: Factory, git: Git,
                        temp: Option<Path>, editor: Editor, path: string)
    requires cfg.entryPath(path) in fs
    ensures CreateOutcome(fs, cfg, encryptFactory, git, temp, editor, path)
      == Outcome(fs, Err(AlreadyExists(cfg.entryPath(path))), [])
  {
  }

  /** No path that existed is removed or rewritten by passman: a failure
      leaves every one as it was (directories may have been added), and a
      success hands git a filesystem that still holds them all. A git that
      writes only inside the vault keeps them outside it. */
  lemma KeepsExisting(fs: Fs, cfg: Config, encryptFactory: Factory, git: Git,
                      temp: Option<Path>, editor: Editor, path: string)
    ensures var o := CreateOutcome(fs, cfg, encryptFactory, git, temp, editor, path);
      o.result.Err? ==> forall q | q in fs :: q in o.fs && o.fs[q] == fs[q]
    ensures var o := CreateOutcome(fs, cfg, encryptFactory, git, temp, editor, path);
      o.result.Ok? ==> exists w :: o.fs == SyncFs(git, w) && forall q | q in fs :: q in w && w[q] == fs[q]
    ensures var o := CreateOutcome(fs, cfg, encryptFactory, git, temp, editor, path);
      WritesWithin(git, cfg.prefix) ==> forall q | q in fs && !Inside(cfg.prefix, q) :: q in o.fs && o.fs[q] == fs[q]
  {
    var o := CreateOutcome(fs, cfg, encryptFactory, git, temp, editor, path);
    var out := cfg.entryPath(path);
    if out !in fs && ParentDirs(fs, out).Ok? {
      var fs1 := ParentDirs(fs, out).value;
      assert out !in fs1;
      if cfg.readPublic(fs1).Ok? {
        var public := cfg.readPublic(fs1).value;
        EditAndStoreSteps(fs1, encryptFactory, git, cfg.prefix, public, out, temp, editor, path);
        assert o == EditAndStore(fs1, encryptFactory, git, cfg.prefix, public, out, temp, editor, path);
        if o.result.Ok? {
          var w :| o.fs == SyncFs(git, w) && OnlyAt(fs1, w, out);
          assert forall q | q in fs :: q in w && w[q] == fs[q];
        }
        if WritesWithin(git, cfg.prefix) {
          forall q | q in fs && !Inside(cfg.prefix, q) ensures q in o.fs && o.fs[q] == fs[q] {
            assert q != out && Agree(fs1, o.fs, q);
          }
        }
      }
    }
  }

  /** The parent directories are made before the editor runs, so they stay
      when a later step fails: the filesystem is then exactly the one with
      the directories made, the entry's parent is a directory, and git has
      not run. */
  lemma DirsStayOnAbort(fs: Fs, cfg: Config, encryptFactory: Factory, git: Git,
                        temp: Option<Path>, editor: Editor, path: string)
    ensures var o := CreateOutcome(fs, cfg, encryptFactory, git, temp, editor, path);
      var out := cfg.entryPath(path);
      var dirs := ParentDirs(fs, out);
      out !in fs && dirs.Ok? && o.result.Err? ==>
        && o.fs == dirs.value
        && (Parent(out).Some? ==> ParentIsDir(o.fs, out))
        && GitCommands(o.events) == []
  {
    var out := cfg.entryPath(path);
    var dirs := ParentDirs(fs, out);
    if out !in fs && dirs.Ok? && cfg.readPublic(dirs.value).Ok? {
      var public := cfg.readPublic(dirs.value).value;
      EditAndStoreSteps(dirs.value, encryptFactory, git, cfg.prefix, public, out, temp, editor, path);
    } else if out !in fs && dirs.Ok? {
      assert GitCommands([]) == [];
    }
  }

  /** `create` succeeds exactly when the entry is new, its directory can be
      made, the public key is readable, the editor session yields text (the
      editor's text without trailing whitespace, never empty) and that text
      encrypts; it then encrypts that text once, for the entry's path, and
      runs the four git steps. On failure git never runs. */
  lemma Succeeds(fs: Fs, cfg: Config, encryptFactory: Factory, git: Git,
                 temp: Option<Path>, editor: Editor, path: string)
    ensures var o := CreateOutcome(fs, cfg, encryptFactory, git, temp, editor, path);
      var out := cfg.entryPath(path);
      var dirs := ParentDirs(fs, out);
      var edited := SessionResult(temp, editor, EditorFailed, EmptyAbort);
      o.result.Ok? <==>
        && out !in fs && dirs.Ok? && cfg.readPublic(dirs.value).Ok? && edited.Ok?
        && encryptFactory(out).encrypt(cfg.readPublic(dirs.value).value, out, edited.value).Ok?
    ensures var o := CreateOutcome(fs, cfg, encryptFactory, git, temp, editor, path);
      var out := cfg.entryPath(path);
      var dirs := ParentDirs(fs, out);
      var edited := SessionResult(temp, editor, EditorFailed, EmptyAbort);
      o.result.Ok? ==>
        && dirs.Ok? && cfg.readPublic(dirs.value).Ok? && edited.Ok?
        && EncryptCalls(o.events) == [EncryptRun(cfg.readPublic(dirs.value).value, out, edited.value)]
        && |GitCommands(o.events)| == 4
    ensures var o := CreateOutcome(fs, cfg, encryptFactory, git, temp, editor, path);
      o.result.Err? ==> GitCommands(o.events) == []
  {
    var out := cfg.entryPath(path);
    assert GitCommands([]) == [];
    if out !in fs && ParentDirs(fs, out).Ok? {
      var fs1 := ParentDirs(fs, out).value;
      if cfg.readPublic(fs1).Ok? {
        EditAndStoreSteps(fs1, encryptFactory, git, cfg.prefix, cfg.readPublic(fs1).value, out, temp, editor, path);
      }
    }
  }

  /** `run` of `create`. */
  method Run(h: Host, c: Facade, cfg: Config, git: Git, temp: Option<Path>, editor: Editor, path: string)
    returns (r: Result<()>)
    modifies h
    ensures h.stdin == old(h.stdin)
    ensures var o := CreateOutcome(old(h.fs), cfg, c.encryptFactory, git, temp, editor, path);
      h.fs == o.fs && r == o.result && h.trace == old(h.trace) + o.events
  {
    var out := cfg.entryPath(path);
    if out in h.fs {
      return Err(AlreadyExists(out));
    }
    var made := MakeParentDirs(h, out);
    if made.Err? {
      return made;
    }
    var public := cfg.readPublic(h.fs);
    if public.Err? {
      return Err(public.msg);
    }
    r := EditThenStore(h, c, git, cfg.prefix, public.value, out, temp, editor, path);
  }
}

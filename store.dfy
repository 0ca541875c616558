/** The steps `create`, `insert` and `edit` share: an editor session on a
    temporary file, and storing an entry (encrypt, confirm, sync). */
module Store {
  import opened Wrappers
  import opened Text
  import opened Paths
  import opened Machine
  import opened Crypto
  import opened GitOps

  /** What a command leaves behind: the filesystem, its result, and what
      it did, in order. */
  datatype Outcome = Outcome(fs: Fs, result: Result<()>, events: seq<Event>)

  /** `o` with `before` happening first. */
  function After(before: seq<Event>, o: Outcome): (r: Outcome)
    ensures r.fs == o.fs && r.result == o.result && r.events == before + o.events
  {
    Outcome(o.fs, o.result, before + o.events)
  }

  /** The text an editor session yields: a launch failure, a failed exit
      (`exitMsg`), a temporary file that cannot be read back, or text that
      is empty once trailing whitespace is cut (`emptyMsg`) are errors;
      otherwise the text without its trailing whitespace. */
  function EditOutcome(run: EditorRun, exitMsg: string, emptyMsg: string): (r: Result<string>)
    ensures r.Ok? <==> run.status.Succeeded() && run.saved.Ok? && TrimEnd(run.saved.value) != ""
    ensures r.Ok? ==> r.value == TrimEnd(run.saved.value)
    ensures r.Ok? ==> r.value != "" && !IsWhitespace(r.value[|r.value| - 1])
  {
    match run.status
    case LaunchFailed(_) => Err("Failed to launch $EDITOR")
    case Exited(code) =>
      if code != Some(0) then Err(exitMsg)
      else match run.saved
        case Err(_) => Err("Failed to read from temporary file")
        case Ok(s) =>
          var contents := TrimEnd(s);
          if contents == "" then Err(emptyMsg) else Ok(contents)
  }

  /** The errors of an editor session, each with its own message. */
  lemma EditErrors(run: EditorRun, exitMsg: string, emptyMsg: string)
    ensures run.status.LaunchFailed? ==> EditOutcome(run, exitMsg, emptyMsg) == Err("Failed to launch $EDITOR")
    ensures run.status.Exited? && !run.status.Succeeded() ==> EditOutcome(run, exitMsg, emptyMsg) == Err(exitMsg)
    ensures run.status.Succeeded() && run.saved.Err? ==>
      EditOutcome(run, exitMsg, emptyMsg) == Err("Failed to read from temporary file")
    ensures run.status.Succeeded() && run.saved.Ok? && TrimEnd(run.saved.value) == "" ==>
      EditOutcome(run, exitMsg, emptyMsg) == Err(emptyMsg)
  {
  }

  /** The editor session of `create` and of `insert`'s multi-line mode, on
      a new (empty) temporary file; `temp` is `None` when no temporary file
      can be created. */
  function SessionResult(temp: Option<Path>, editor: Editor, exitMsg: string, emptyMsg: string): Result<string> {
    match temp
    case None => Err("Failed to create temporary file")
    case Some(_) => EditOutcome(editor(""), exitMsg, emptyMsg)
  }

  function SessionEvents(temp: Option<Path>): seq<Event> {
    match temp
    case None => []
    case Some(p) => [EditorStart(p)]
  }

  method EditSession(h: Host, temp: Option<Path>, editor: Editor, exitMsg: string, emptyMsg: string)
    returns (r: Result<string>)
    modifies h
    ensures h.fs == old(h.fs) && h.stdin == old(h.stdin)
    ensures r == SessionResult(temp, editor, exitMsg, emptyMsg)
    ensures h.trace == old(h.trace) + SessionEvents(temp)
  {
    if temp.None? {
      return Err("Failed to create temporary file");
    }
    h.Emit(EditorStart(temp.value));
    var run := editor("");
    if run.status.LaunchFailed? {
      return Err("Failed to launch $EDITOR");
    }
    if !run.status.Succeeded() {
      return Err(exitMsg);
    }
    if run.saved.Err? {
      return Err("Failed to read from temporary file");
    }
    var contents := TrimEnd(run.saved.value);
    if contents == "" {
      return Err(emptyMsg);
    }
    r := Ok(contents);
  }

  /** Encrypt `text` to `output`, then print `confirmation` and sync the
      vault; the sync's result is the result. An encryption error stops
      everything, reported as it is or under `context`. */
  function StoreOutcome(fs: Fs, encryptFactory: Factory, git: Git, repo: Path, public: string,
                        output: Path, text: string, confirmation: string, context: Option<string>): Outcome
  {
    var run := [EncryptRun(public, output, text)];
    var outcome := encryptFactory(output).encrypt(public, output, text);
    if outcome.Err? then Outcome(fs, Err(context.GetOr(outcome.msg)), run)
    else Outcome(SyncFs(git, EncryptedFs(fs, output, outcome)), Ok(()), run + [Stdout(confirmation)] + SyncEvents(git, repo))
  }

  /** The encryptions among a sequence of events. */
  function EncryptCalls(events: seq<Event>): (r: seq<Event>)
    ensures forall e | e in r :: e.EncryptRun? && e in events
  {
    if events == [] then []
    else (if events[0].EncryptRun? then [events[0]] else []) + EncryptCalls(events[1..])
  }

  lemma {:induction false} EncryptCallsAppend(a: seq<Event>, b: seq<Event>)
    ensures EncryptCalls(a + b) == EncryptCalls(a) + EncryptCalls(b)
  {
    if a == [] {
      assert a + b == b;
    } else {
      assert (a + b)[0] == a[0] && (a + b)[1..] == a[1..] + b;
      EncryptCallsAppend(a[1..], b);
    }
  }

  lemma {:induction false} NoEncryptCalls(events: seq<Event>)
    requires forall k | 0 <= k < |events| :: !events[k].EncryptRun?
    ensures EncryptCalls(events) == []
  {
    if events != [] {
      NoEncryptCalls(events[1..]);
    }
  }

  lemma SyncEncryptsNothing(git: Git, repo: Path)
    ensures EncryptCalls(SyncEvents(git, repo)) == []
  {
    var ev := SyncEvents(git, repo);
    SyncEventKinds(git, repo);
    forall k | 0 <= k < |ev| ensures !ev[k].EncryptRun? {
      assert ev[k] in ev;
    }
    NoEncryptCalls(ev);
  }

  /** Storing encrypts exactly once, with the key, the path and the text it
      was given; it syncs (the four git steps) exactly when the encryption
      succeeded, and then the result is Ok. */
  lemma StoreSteps(fs: Fs, encryptFactory: Factory, git: Git, repo: Path, public: string,
                   output: Path, text: string, confirmation: string, context: Option<string>)
    ensures var o := StoreOutcome(fs, encryptFactory, git, repo, public, output, text, confirmation, context);
      EncryptCalls(o.events) == [EncryptRun(public, output, text)]
    ensures var o := StoreOutcome(fs, encryptFactory, git, repo, public, output, text, confirmation, context);
      var ok := encryptFactory(output).encrypt(public, output, text).Ok?;
      && (ok ==> |GitCommands(o.events)| == 4 && o.result == Ok(()))
      && (!ok ==> GitCommands(o.events) == [] && o.result.Err? && o.fs == fs)
  {
    var o := StoreOutcome(fs, encryptFactory, git, repo, public, output, text, confirmation, context);
    var run := [EncryptRun(public, output, text)];
    assert EncryptCalls(run) == run;
    assert GitCommands(run) == [];
    if encryptFactory(output).encrypt(public, output, text).Ok? {
      var printed := run + [Stdout(confirmation)];
      EncryptCallsAppend(run, [Stdout(confirmation)]);
      EncryptCallsAppend(printed, SyncEvents(git, repo));
      SyncEncryptsNothing(git, repo);
      GitCommandsAppend(run, [Stdout(confirmation)]);
      GitCommandsAppend(printed, SyncEvents(git, repo));
      SyncRunsFourSteps(git, repo);
    }
  }

  /** `crypto::encrypt`, then the confirmation and `sync_vault`. */
  method StoreAndSync(h: Host, c: Facade, git: Git, repo: Path, public: string,
                      output: Path, text: string, confirmation: string, context: Option<string>)
    returns (r: Result<()>)
    modifies h
    ensures h.stdin == old(h.stdin)
    ensures h.fs == StoreOutcome(old(h.fs), c.encryptFactory, git, repo, public, output, text, confirmation, context).fs
    ensures r == StoreOutcome(old(h.fs), c.encryptFactory, git, repo, public, output, text, confirmation, context).result
    ensures h.trace == old(h.trace) + StoreOutcome(old(h.fs), c.encryptFactory, git, repo, public, output, text, confirmation, context).events
  {
    ghost var o := StoreOutcome(h.fs, c.encryptFactory, git, repo, public, output, text, confirmation, context);
    ghost var t0 := h.trace;
    var encrypted := c.Encrypt(h, public, output, text);
    if encrypted.Err? {
      return Err(context.GetOr(encrypted.msg));
    }
    assert o.events == [EncryptRun(public, output, text)] + [Stdout(confirmation)] + SyncEvents(git, repo);
    r := ConfirmAndSync(h, git, repo, confirmation);
  }

  /** The confirmation, then `sync_vault`. */
  method ConfirmAndSync(h: Host, git: Git, repo: Path, confirmation: string) returns (r: Result<()>)
    modifies h
    ensures h.fs == SyncFs(git, old(h.fs)) && h.stdin == old(h.stdin)
    ensures h.trace == old(h.trace) + [Stdout(confirmation)] + SyncEvents(git, repo)
    ensures r == Ok(())
  {
    h.Print(confirmation);
    r := SyncVault(h, git, repo);
  }
  function DirFailed(parent: Path): string {
    "Failed to create directory " + Display(parent)
  }

  /** The directories a new entry file needs: `create_dir_all` of its
      parent, its error replaced by one naming the parent. Only strict
      ancestors of `out` are added, and nothing that was there changes. */
  function ParentDirs(fs: Fs, out: Path): (r: Result<Fs>)
    ensures r.Err? <==> Parent(out).Some? && CreateDirAll(fs, Parent(out).value).Err?
    ensures r.Err? ==> r.msg == DirFailed(Parent(out).value)
    ensures r.Ok? ==> forall q | q in fs :: q in r.value && r.value[q] == fs[q]
    ensures r.Ok? ==> forall q | q in r.value && q !in fs :: |q| < |out| && q == out[..|q|] && r.value[q] == Dir
    ensures r.Ok? && Parent(out).Some? ==> ParentIsDir(r.value, out)
  {
    match Parent(out)
    case None => Ok(fs)
    case Some(parent) =>
      match CreateDirAll(fs, parent)
      case Err(_) => Err(DirFailed(parent))
      case Ok(fs1) =>
        assert forall q | q in fs1 && q !in fs :: q == out[..|q|] by {
          forall q | q in fs1 && q !in fs ensures q == out[..|q|] {
            PrefixOfPrefix(out, parent, q);
          }
        }
        Ok(fs1)
  }

  /** `fs::create_dir_all(parent)` with its error context. */
  method MakeParentDirs(h: Host, out: Path) returns (r: Result<()>)
    modifies h
    ensures h.stdin == old(h.stdin) && h.trace == old(h.trace)
    ensures ParentDirs(old(h.fs), out).Ok? ==> r == Ok(()) && h.fs == ParentDirs(old(h.fs), out).value
    ensures ParentDirs(old(h.fs), out).Err? ==> r == Err(ParentDirs(old(h.fs), out).msg) && h.fs == old(h.fs)
  {
    var parent := Parent(out);
    if parent.Some? {
      var made := h.Apply(CreateDirAll(h.fs, parent.value));
      if made.Err? {
        return Err(DirFailed(parent.value));
      }
    }
    r := Ok(());
  }

  /** What storing does to the filesystem. On failure nothing changes. On
      success passman itself writes at the output path only, and the sync
      then adds git's own writes; a git that writes only inside the
      repository leaves every other path outside it as it was. */
  lemma StoreKeepsOthers(fs: Fs, encryptFactory: Factory, git: Git, repo: Path, public: string,
                         output: Path, text: string, confirmation: string, context: Option<string>)
    ensures var o := StoreOutcome(fs, encryptFactory, git, repo, public, output, text, confirmation, context);
      o.result.Err? ==> o.fs == fs
    ensures var o := StoreOutcome(fs, encryptFactory, git, repo, public, output, text, confirmation, context);
      o.result.Ok? ==> exists w :: o.fs == SyncFs(git, w) && OnlyAt(fs, w, output)
    ensures var o := StoreOutcome(fs, encryptFactory, git, repo, public, output, text, confirmation, context);
      WritesWithin(git, repo) ==> forall q | !Inside(repo, q) && q != output :: Agree(fs, o.fs, q)
  {
    var o := StoreOutcome(fs, encryptFactory, git, repo, public, output, text, confirmation, context);
    var enc := encryptFactory(output).encrypt(public, output, text);
    if enc.Ok? {
      var w := EncryptedFs(fs, output, enc);
      assert o.fs == SyncFs(git, w) && OnlyAt(fs, w, output);
      if WritesWithin(git, repo) {
        SyncKeepsOutside(git, repo, w);
        forall q | !Inside(repo, q) && q != output ensures Agree(fs, o.fs, q) {
          assert Agree(fs, w, q) && Agree(w, o.fs, q);
        }
      }
    }
  }

  /** `after` differs from `before` at `p` at most: every other path of
      `before` is kept as it was, and no other path is added. */
  predicate OnlyAt(before: Fs, after: Fs, p: Path) {
    && after.Keys <= before.Keys + {p}
    && forall q | q in before && q != p :: q in after && after[q] == before[q]
  }
}

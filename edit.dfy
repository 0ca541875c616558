/** `passman edit`: decrypt an entry into a temporary file, let the user
    change it in the editor, and encrypt the result over the entry. */
module Edit {
  import opened Wrappers
  import opened Text
  import opened Paths
  import opened Machine
  import opened Configuration
  import opened Crypto
  import opened GitOps
  import opened Store

  const DecryptFailed: string := "Failed to decrypt existing entry"
  const ReencryptFailed: string := "Failed to re-encrypt updated entry"
  const EditorFailed: string := "Editor exited with an error"
  const EmptyAbort: string := "Aborted: no content (file was empty)"
  const TempFailed: string := "Failed to create temporary file"

  function NoSuchPassword(file: Path): string {
    "No such password: " + Display(file)
  }

  /** The path is shown between quotes, without Debug's escaping. */
  function WriteFailed(temp: Path): string {
    "Failed to write to temporary file \"" + Display(temp) + "\""
  }

  function Updated(path: string): string {
    "Password for '" + path + "' updated successfully.\n"
  }

  /** How the decrypted text reaches the temporary file. */
  type WriteHook = (Path, string) -> Result<()>

  /** The default hook, `fs::write` to the temporary file just created;
      temporary files lie outside the modelled filesystem, so it succeeds. */
  function DefaultWriteHook(): WriteHook {
    (p: Path, contents: string) => Ok(())
  }

  /** The end of `edit`: with the edited text, read the public key and
      encrypt the text over the entry (an encryption error is reported as
      `ReencryptFailed`), confirm and sync. */
  function Reencrypt(fs: Fs, cfg: Config, encryptFactory: Factory, git: Git, file: Path,
                     edited: Result<string>, path: string): Outcome
  {
    match edited
    case Err(e) => Outcome(fs, Err(e), [])
    case Ok(text) =>
      match cfg.readPublic(fs)
      case Err(e) => Outcome(fs, Err(e), [])
      case Ok(public) => StoreOutcome(fs, encryptFactory, git, cfg.prefix, public, file, text, Updated(path), Some(ReencryptFailed))
  }

  /** From the decrypted text on: a temporary file, the hook writing the
      text into it, the editor run on it, and re-encryption. */
  function Rewrite(fs: Fs, cfg: Config, encryptFactory: Factory, git: Git, hook: WriteHook,
                   temp: Option<Path>, editor: Editor, file: Path, plaintext: string, path: string): Outcome
  {
    match temp
    case None => Outcome(fs, Err(TempFailed), [])
    case Some(p) =>
      var wrote := [TempWrite(p, plaintext)];
      match hook(p, plaintext)
      case Err(_) => Outcome(fs, Err(WriteFailed(p)), wrote)
      case Ok(_) =>
        After(wrote + [EditorStart(p)],
              Reencrypt(fs, cfg, encryptFactory, git, file, EditOutcome(editor(plaintext), EditorFailed, EmptyAbort), path))
  }

  /** What `edit` does: a missing entry is an error; then the entry is
      decrypted with the secret key (any failure reported as
      `DecryptFailed`) and rewritten. */
  function EditEntry(fs: Fs, cfg: Config, decryptFactory: Factory, encryptFactory: Factory, git: Git,
                     hook: WriteHook, temp: Option<Path>, editor: Editor, path: string): Outcome
  {
    var file := cfg.entryPath(path);
    if file !in fs then Outcome(fs, Err(NoSuchPassword(file)), [])
    else
      var decrypted := [DecryptRun(cfg.secret, file)];
      match decryptFactory(file).decrypt(cfg.secret, file, fs)
      case Err(_) => Outcome(fs, Err(DecryptFailed), decrypted)
      case Ok(plaintext) =>
        After(decrypted, Rewrite(fs, cfg, encryptFactory, git, hook, temp, editor, file, plaintext, path))
  }

  /** The step the tests call `missing_file_errors`: a missing entry is
      reported by its path, and nothing else happens. */
  lemma MissingFileErrors(fs: Fs, cfg: Config, decryptFactory: Factory, encryptFactory: Factory, git: Git,
                          hook: WriteHook, temp: Option<Path>, editor: Editor, path: string)
    requires cfg.entryPath(path) !in fs
    ensures EditEntry(fs, cfg, decryptFactory, encryptFactory, git, hook, temp, editor, path)
      == Outcome(fs, Err("No such password: " + Display(cfg.entryPath(path))), [])
  {
  }

  /** A failed decryption is reported under one fixed message, and nothing
      is encrypted or synced. */
  lemma DecryptFailureErrors(fs: Fs, cfg: Config, decryptFactory: Factory, encryptFactory: Factory, git: Git,
                             hook: WriteHook, temp: Option<Path>, editor: Editor, path: string)
    requires cfg.entryPath(path) in fs
    requires decryptFactory(cfg.entryPath(path)).decrypt(cfg.secret, cfg.entryPath(path), fs).Err?
    ensures EditEntry(fs, cfg, decryptFactory, encryptFactory, git, hook, temp, editor, path)
      == Outcome(fs, Err("Failed to decrypt existing entry"), [DecryptRun(cfg.secret, cfg.entryPath(path))])
  {
  }

  /** A failing hook is reported as a failed write to the temporary file,
      before the editor starts. */
  lemma WriteFailureErrors(fs: Fs, cfg: Config, encryptFactory: Factory, git: Git, hook: WriteHook,
                           temp: Path, editor: Editor, file: Path, plaintext: string, path: string)
    requires hook(temp, plaintext).Err?
    ensures var o := Rewrite(fs, cfg, encryptFactory, git, hook, Some(temp), editor, file, plaintext, path);
      && o.result.Err? && StartsWith(o.result.msg, "Failed to write to temporary file")
      && o.fs == fs && o.events == [TempWrite(temp, plaintext)]
  {
    var head := "Failed to write to temporary file";
    var msg := WriteFailed(temp);
    assert msg == head + (" \"" + Display(temp) + "\"");
    assert msg[..|head|] == head;
  }

  /** Every way the editor session can fail aborts the edit with its own
      message: the editor cannot be launched, it exits unsuccessfully (a
      non-zero code or no code at all), the temporary file cannot be read
      back, or what it holds is empty once trailing whitespace is cut. An
      aborted edit changes no file, encrypts nothing and runs no git. */
  lemma EditorErrors(fs: Fs, cfg: Config, encryptFactory: Factory, git: Git, hook: WriteHook,
                     temp: Path, editor: Editor, file: Path, plaintext: string, path: string)
    requires hook(temp, plaintext).Ok?
    ensures var run := editor(plaintext);
      run.status.LaunchFailed? ==>
        Rewrite(fs, cfg, encryptFactory, git, hook, Some(temp), editor, file, plaintext, path).result
          == Err("Failed to launch $EDITOR")
    ensures var run := editor(plaintext);
      run.status.Exited? && !run.status.Succeeded() ==>
        Rewrite(fs, cfg, encryptFactory, git, hook, Some(temp), editor, file, plaintext, path).result
          == Err("Editor exited with an error")
    ensures var run := editor(plaintext);
      run.status.Succeeded() && run.saved.Err? ==>
        Rewrite(fs, cfg, encryptFactory, git, hook, Some(temp), editor, file, plaintext, path).result
          == Err("Failed to read from temporary file")
    ensures var run := editor(plaintext);
      run.status.Succeeded() && run.saved.Ok? && TrimEnd(run.saved.value) == "" ==>
        Rewrite(fs, cfg, encryptFactory, git, hook, Some(temp), editor, file, plaintext, path).result
          == Err("Aborted: no content (file was empty)")
    ensures var o := Rewrite(fs, cfg, encryptFactory, git, hook, Some(temp), editor, file, plaintext, path);
      EditOutcome(editor(plaintext), EditorFailed, EmptyAbort).Err? ==>
        && o.fs == fs && o.result.Err?
        && o.events == [TempWrite(temp, plaintext), EditorStart(temp)]
  {
    EditErrors(editor(plaintext), EditorFailed, EmptyAbort);
  }

  /** An edit the editor aborts keeps the entry as it was: for an entry
      that exists and decrypts, any failure of the editor session leaves
      every file unchanged, encrypts nothing and runs no git. */
  lemma AbortKeepsEntry(fs: Fs, cfg: Config, decryptFactory: Factory, encryptFactory: Factory, git: Git,
                        hook: WriteHook, temp: Path, editor: Editor, path: string)
    requires cfg.entryPath(path) in fs
    requires decryptFactory(cfg.entryPath(path)).decrypt(cfg.secret, cfg.entryPath(path), fs).Ok?
    requires hook(temp, decryptFactory(cfg.entryPath(path)).decrypt(cfg.secret, cfg.entryPath(path), fs).value).Ok?
    ensures var d := decryptFactory(cfg.entryPath(path)).decrypt(cfg.secret, cfg.entryPath(path), fs).value;
      var o := EditEntry(fs, cfg, decryptFactory, encryptFactory, git, hook, Some(temp), editor, path);
      EditOutcome(editor(d), EditorFailed, EmptyAbort).Err? ==>
        && o.fs == fs && o.result.Err?
        && GitCommands(o.events) == [] && EncryptCalls(o.events) == []
  {
    var file := cfg.entryPath(path);
    var d := decryptFactory(file).decrypt(cfg.secret, file, fs).value;
    if EditOutcome(editor(d), EditorFailed, EmptyAbort).Err? {
      var o := EditEntry(fs, cfg, decryptFactory, encryptFactory, git, hook, Some(temp), editor, path);
      var r := Rewrite(fs, cfg, encryptFactory, git, hook, Some(temp), editor, file, d, path);
      EditorErrors(fs, cfg, encryptFactory, git, hook, temp, editor, file, d, path);
      var decrypted := [DecryptRun(cfg.secret, file)];
      assert o == After(decrypted, r);
      assert o.events == [DecryptRun(cfg.secret, file), TempWrite(temp, d), EditorStart(temp)];
      assert EncryptCalls(o.events) == EncryptCalls(o.events[1..]);
      Quiet(temp, d);
      assert o.events[1..] == [TempWrite(temp, d), EditorStart(temp)];
      assert GitCommands(o.events) == GitCommand(o.events[0]) + GitCommands(o.events[1..]);
    }
  }

  /** The editor starts on the decrypted text; what it saves, without its
      trailing whitespace, is encrypted once over the entry with the public
      key, and the vault is synced, when the key and the encryption
      succeed. */
  lemma Reencrypts(fs: Fs, cfg: Config, encryptFactory: Factory, git: Git, hook: WriteHook,
                   temp: Path, editor: Editor, file: Path, plaintext: string, saved: string, path: string)
    requires hook(temp, plaintext).Ok?
    requires editor(plaintext) == EditorRun(Exited(Some(0)), Ok(saved)) && TrimEnd(saved) != ""
    requires cfg.readPublic(fs).Ok?
    ensures var o := Rewrite(fs, cfg, encryptFactory, git, hook, Some(temp), editor, file, plaintext, path);
      var ok := encryptFactory(file).encrypt(cfg.readPublic(fs).value, file, TrimEnd(saved)).Ok?;
      && o.events[..2] == [TempWrite(temp, plaintext), EditorStart(temp)]
      && EncryptCalls(o.events) == [EncryptRun(cfg.readPublic(fs).value, file, TrimEnd(saved))]
      && (ok ==> o.result == Ok(()) && |GitCommands(o.events)| == 4)
      && (!ok ==> o.result == Err(ReencryptFailed) && GitCommands(o.events) == [] && o.fs == fs)
  {
    var public := cfg.readPublic(fs).value;
    var text := TrimEnd(saved);
    var s := StoreOutcome(fs, encryptFactory, git, cfg.prefix, public, file, text, Updated(path), Some(ReencryptFailed));
    var before := [TempWrite(temp, plaintext), EditorStart(temp)];
    assert Rewrite(fs, cfg, encryptFactory, git, hook, Some(temp), editor, file, plaintext, path) == After(before, s);
    StoreSteps(fs, encryptFactory, git, cfg.prefix, public, file, text, Updated(path), Some(ReencryptFailed));
    Quiet(temp, plaintext);
    EncryptCallsAppend(before, s.events);
    GitCommandsAppend(before, s.events);
  }

  /** Writing the temporary file and starting the editor neither encrypt
      nor run git. */
  lemma Quiet(temp: Path, plaintext: string)
    ensures var before := [TempWrite(temp, plaintext), EditorStart(temp)];
      EncryptCalls(before) == [] && GitCommands(before) == []
  {
    var before := [TempWrite(temp, plaintext), EditorStart(temp)];
    assert EncryptCalls(before) == EncryptCalls(before[1..]);
    assert EncryptCalls(before[1..]) == EncryptCalls([]);
    assert GitCommands(before) == GitCommand(before[0]) + GitCommands(before[1..]);
    assert GitCommands(before[1..]) == GitCommand(before[1]) + GitCommands([]);
  }

  /** `edit` itself never creates or deletes a path and writes no file but
      the entry: a failure (an aborted editor session among them) leaves
      every file as it was, and a success hands git a filesystem with the
      same paths in which only the entry changed. A git that writes only
      inside the vault leaves every other path outside it as it was. */
  lemma KeepsPaths(fs: Fs, cfg: Config, decryptFactory: Factory, encryptFactory: Factory, git: Git,
                   hook: WriteHook, temp: Option<Path>, editor: Editor, path: string)
    ensures var o := EditEntry(fs, cfg, decryptFactory, encryptFactory, git, hook, temp, editor, path);
      o.result.Err? ==> o.fs == fs
    ensures var o := EditEntry(fs, cfg, decryptFactory, encryptFactory, git, hook, temp, editor, path);
      o.result.Ok? ==> exists w :: (o.fs == SyncFs(git, w) && w.Keys == fs.Keys &&
        forall q | q in fs && q != cfg.entryPath(path) :: w[q] == fs[q])
    ensures var o := EditEntry(fs, cfg, decryptFactory, encryptFactory, git, hook, temp, editor, path);
      WritesWithin(git, cfg.prefix) ==> forall q | !Inside(cfg.prefix, q) && q != cfg.entryPath(path) :: Agree(fs, o.fs, q)
  {
    var o := EditEntry(fs, cfg, decryptFactory, encryptFactory, git, hook, temp, editor, path);
    var file := cfg.entryPath(path);
    if file in fs {
      var decrypted := decryptFactory(file).decrypt(cfg.secret, file, fs);
      if decrypted.Ok? {
        var r := Rewrite(fs, cfg, encryptFactory, git, hook, temp, editor, file, decrypted.value, path);
        assert o.fs == r.fs && o.result == r.result;
        RewriteKeeps(fs, cfg, encryptFactory, git, hook, temp, editor, file, decrypted.value, path);
      }
    }
  }

  /** What `KeepsPaths` states, from the decrypted text on. */
  lemma RewriteKeeps(fs: Fs, cfg: Config, encryptFactory: Factory, git: Git, hook: WriteHook,
                     temp: Option<Path>, editor: Editor, file: Path, plaintext: string, path: string)
    requires file in fs
    ensures var o := Rewrite(fs, cfg, encryptFactory, git, hook, temp, editor, file, plaintext, path);
      o.result.Err? ==> o.fs == fs
    ensures var o := Rewrite(fs, cfg, encryptFactory, git, hook, temp, editor, file, plaintext, path);
      o.result.Ok? ==> exists w :: (o.fs == SyncFs(git, w) && w.Keys == fs.Keys &&
        forall q | q in fs && q != file :: w[q] == fs[q])
    ensures var o := Rewrite(fs, cfg, encryptFactory, git, hook, temp, editor, file, plaintext, path);
      WritesWithin(git, cfg.prefix) ==> forall q | !Inside(cfg.prefix, q) && q != file :: Agree(fs, o.fs, q)
  {
    var o := Rewrite(fs, cfg, encryptFactory, git, hook, temp, editor, file, plaintext, path);
    if temp.Some? && hook(temp.value, plaintext).Ok? {
      var edited := EditOutcome(editor(plaintext), EditorFailed, EmptyAbort);
      if edited.Ok? && cfg.readPublic(fs).Ok? {
        var public := cfg.readPublic(fs).value;
        var s := StoreOutcome(fs, encryptFactory, git, cfg.prefix, public, file, edited.value, Updated(path), Some(ReencryptFailed));
        var re := Reencrypt(fs, cfg, encryptFactory, git, file, edited, path);
        assert re == s;
        assert o == After([TempWrite(temp.value, plaintext), EditorStart(temp.value)], re);
        StoreKeepsOthers(fs, encryptFactory, git, cfg.prefix, public, file, edited.value, Updated(path), Some(ReencryptFailed));
        if o.result.Ok? {
          var w := EncryptedFs(fs, file, encryptFactory(file).encrypt(public, file, edited.value));
          assert o.fs == SyncFs(git, w) && w.Keys == fs.Keys;
        }
      }
    }
  }

  /** The editing command, with the hook the temporary file is written
      through; tests replace it. */
  class Editing {
    var writeHook: WriteHook

    constructor ()
      ensures writeHook == DefaultWriteHook()
    {
      writeHook := DefaultWriteHook();
    }

    /** `set_write_hook` */
    method SetWriteHook(f: WriteHook)
      modifies this
      ensures writeHook == f
    {
      writeHook := f;
    }

    /** `run` of `edit`. */
    method Run(h: Host, c: Facade, cfg: Config, git: Git, temp: Option<Path>, editor: Editor, path: string)
      returns (r: Result<()>)
      modifies h
      ensures h.stdin == old(h.stdin)
      ensures var o := EditEntry(old(h.fs), cfg, c.decryptFactory, c.encryptFactory, git, writeHook, temp, editor, path);
        h.fs == o.fs && r == o.result && h.trace == old(h.trace) + o.events
    {
      ghost var fs0, t0 := h.fs, h.trace;
      var file := cfg.entryPath(path);
      if file !in h.fs {
        return Err(NoSuchPassword(file));
      }
      var plaintext := c.Decrypt(h, cfg.secret, file);
      if plaintext.Err? {
        return Err(DecryptFailed);
      }
      if temp.None? {
        return Err(TempFailed);
      }
      r := EditTemp(h, c, cfg, git, temp.value, editor, file, plaintext.value, path);
      ghost var d := [DecryptRun(cfg.secret, file)];
      ghost var o := Rewrite(fs0, cfg, c.encryptFactory, git, writeHook, temp, editor, file, plaintext.value, path);
      assert EditEntry(fs0, cfg, c.decryptFactory, c.encryptFactory, git, writeHook, temp, editor, path) == After(d, o);
      AppendAssoc(t0, d, o.events);
    }

    /** Writing the temporary file, the editor and re-encryption. */
    method EditTemp(h: Host, c: Facade, cfg: Config, git: Git, temp: Path, editor: Editor,
                    file: Path, plaintext: string, path: string)
      returns (r: Result<()>)
      modifies h
      ensures h.stdin == old(h.stdin)
      ensures var o := Rewrite(old(h.fs), cfg, c.encryptFactory, git, writeHook, Some(temp), editor, file, plaintext, path);
        h.fs == o.fs && r == o.result && h.trace == old(h.trace) + o.events
    {
      ghost var fs0, t0 := h.fs, h.trace;
      h.Emit(TempWrite(temp, plaintext));
      var wrote := writeHook(temp, plaintext);
      if wrote.Err? {
        return Err(WriteFailed(temp));
      }
      h.Emit(EditorStart(temp));
      var run := editor(plaintext);
      ghost var w := [TempWrite(temp, plaintext)] + [EditorStart(temp)];
      ghost var t1 := h.trace;
      AppendAssoc(t0, [TempWrite(temp, plaintext)], [EditorStart(temp)]);
      assert t1 == t0 + w;
      r := Finish(h, c, cfg, git, file, EditOutcome(run, EditorFailed, EmptyAbort), path);
      ghost var o := Reencrypt(fs0, cfg, c.encryptFactory, git, file, EditOutcome(run, EditorFailed, EmptyAbort), path);
      assert Rewrite(fs0, cfg, c.encryptFactory, git, writeHook, Some(temp), editor, file, plaintext, path) == After(w, o);
      AppendAssoc(t0, w, o.events);
    }

    /** After the editor: the public key, re-encryption, confirmation and
        sync. */
    method Finish(h: Host, c: Facade, cfg: Config, git: Git, file: Path, edited: Result<string>, path: string)
      returns (r: Result<()>)
      modifies h
      ensures h.stdin == old(h.stdin)
      ensures var o := Reencrypt(old(h.fs), cfg, c.encryptFactory, git, file, edited, path);
        h.fs == o.fs && r == o.result && h.trace == old(h.trace) + o.events
    {
      if edited.Err? {
        return Err(edited.msg);
      }
      var public := cfg.readPublic(h.fs);
      if public.Err? {
        return Err(public.msg);
      }
      r := StoreAndSync(h, c, git, cfg.prefix, public.value, file, edited.value, Updated(path), Some(ReencryptFailed));
    }
  }
}

/** `passman remove`: delete an entry's file and sync the vault. */
module Remove {
  import opened Wrappers
  import opened Paths
  import opened Machine
  import opened Configuration
  import opened GitOps
  import opened Store

  function NoSuchEntry(file: Path): string {
    "No such entry: " + Display(file)
  }

  /** The path is shown between quotes, without Debug's escaping. */
  function DeleteFailed(file: Path): string {
    "Failed to delete file \"" + Display(file) + "\""
  }

  function Removed(path: string): string {
    "✅ Removed entry `" + path + "`\n"
  }

  /** What `remove` does: a missing entry is an error; otherwise its file
      is deleted (a directory of that name cannot be), the vault synced, and
      only then the removal reported. */
  function RemoveOutcome(fs: Fs, cfg: Config, git: Git, path: string): Outcome {
    var file := RageFile(cfg.prefix, path);
    if file !in fs then Outcome(fs, Err(NoSuchEntry(file)), [])
    else match RemoveFile(fs, file)
      case Err(_) => Outcome(fs, Err(DeleteFailed(file)), [])
      case Ok(fs1) => Outcome(SyncFs(git, fs1), Ok(()), SyncEvents(git, cfg.prefix) + [Stdout(Removed(path))])
  }

  /** `remove` succeeds exactly when the entry's file exists. Passman then
      deletes that file and nothing else, and the sync adds git's own
      writes, which a git that writes only inside the vault keeps away from
      every path outside it. Otherwise nothing changes, with the message
      telling a missing entry from one that cannot be deleted. */
  lemma RemovesOnlyEntry(fs: Fs, cfg: Config, git: Git, path: string)
    ensures var o := RemoveOutcome(fs, cfg, git, path);
      var file := RageFile(cfg.prefix, path);
      && (o.result.Ok? <==> IsFile(fs, file))
      && (o.result.Ok? ==> o.fs == SyncFs(git, fs - {file}))
      && (o.result.Err? ==> o.fs == fs && o.events == [])
      && (file !in fs ==> o.result == Err(NoSuchEntry(file)))
      && (IsDir(fs, file) ==> o.result == Err(DeleteFailed(file)))
    ensures var o := RemoveOutcome(fs, cfg, git, path);
      var file := RageFile(cfg.prefix, path);
      WritesWithin(git, cfg.prefix) && o.result.Ok? && !Inside(cfg.prefix, file) ==> file !in o.fs
    ensures var o := RemoveOutcome(fs, cfg, git, path);
      var file := RageFile(cfg.prefix, path);
      WritesWithin(git, cfg.prefix) ==> forall q | !Inside(cfg.prefix, q) && q != file :: Agree(fs, o.fs, q)
  {
    var o := RemoveOutcome(fs, cfg, git, path);
    var file := RageFile(cfg.prefix, path);
    if IsFile(fs, file) && WritesWithin(git, cfg.prefix) {
      var w := fs - {file};
      SyncKeepsOutside(git, cfg.prefix, w);
      assert !Inside(cfg.prefix, file) ==> Agree(w, o.fs, file);
      forall q | !Inside(cfg.prefix, q) && q != file ensures Agree(fs, o.fs, q) {
        assert Agree(fs, w, q) && Agree(w, o.fs, q);
      }
    }
  }

  /** The vault is synced after a removal (the deletion is what the commit
      picks up), and the report comes last. */
  lemma SyncsThenReports(fs: Fs, cfg: Config, git: Git, path: string)
    requires IsFile(fs, RageFile(cfg.prefix, path))
    ensures var o := RemoveOutcome(fs, cfg, git, path);
      && o.events[|o.events| - 1] == Stdout(Removed(path))
      && GitCommands(o.events) == GitCommands(SyncEvents(git, cfg.prefix))
      && |GitCommands(o.events)| == 4
  {
    var sync := SyncEvents(git, cfg.prefix);
    GitCommandsAppend(sync, [Stdout(Removed(path))]);
    NoGitCommands([Stdout(Removed(path))]);
    SyncRunsFourSteps(git, cfg.prefix);
  }

  /** `run` of `remove`. */
  method Run(h: Host, cfg: Config, git: Git, path: string) returns (r: Result<()>)
    modifies h
    ensures h.stdin == old(h.stdin)
    ensures var o := RemoveOutcome(old(h.fs), cfg, git, path);
      h.fs == o.fs && r == o.result && h.trace == old(h.trace) + o.events
  {
    var file := RageFile(cfg.prefix, path);
    if file !in h.fs {
      return Err(NoSuchEntry(file));
    }
    var removed := h.Apply(RemoveFile(h.fs, file));
    if removed.Err? {
      return Err(DeleteFailed(file));
    }
    var synced := SyncVault(h, git, cfg.prefix);
    if synced.Err? {
      return synced;
    }
    h.Print(Removed(path));
    r := Ok(());
  }
}

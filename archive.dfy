/** `passman archive`: hide an entry by renaming it, in its own directory,
    to its name with a leading dot. */
module Archive {
  import opened Wrappers
  import opened Text
  import opened Paths
  import opened Machine
  import opened Configuration

  /** The directory `archive` resolves entries against, as the program
      computes it: the base directory joined with the vault directory. */
  function VaultRootAsWritten(cfg: Config): Path {
    JoinPath(cfg.baseDir, cfg.prefix)
  }

  /** The vault directory every other command uses. */
  function VaultRoot(cfg: Config): Path {
    cfg.prefix
  }

  /** The file the user's path resolves to: joined to the root and, when it
      has no extension, given the configured one without its leading dots. */
  function ArchiveTarget(root: Path, cryptoExtension: string, path: string): (r: Path)
    ensures Extension(Join(root, path)).Some? ==> r == Join(root, path)
  {
    var full := Join(root, path);
    if Extension(full).None? then SetExtension(full, TrimStartMatches(cryptoExtension, '.')) else full
  }

  /** The target differs from the joined path at most in its last
      component. */
  lemma TargetShape(root: Path, cryptoExtension: string, path: string)
    ensures var t := ArchiveTarget(root, cryptoExtension, path);
      var full := Join(root, path);
      |t| == |full| && (full != [] ==> t[..|t| - 1] == full[..|t| - 1])
  {
    var full := Join(root, path);
    var ext := TrimStartMatches(cryptoExtension, '.');
    if Extension(full).None? {
      assert ArchiveTarget(root, cryptoExtension, path) == SetExtension(full, ext);
      if FileName(full).None? {
        assert SetExtension(full, ext) == full;
      }
    }
  }

  /** The name an archived file gets: the same directory, a dot in front. */
  function Hidden(full: Path, name: string): (r: Path)
    requires full != []
    ensures |r| == |full| && r[..|r| - 1] == full[..|full| - 1] && r[|r| - 1] == "." + name
  {
    full[..|full| - 1] + ["." + name]
  }

  /** The checks and the rename, for the resolved file: the new filesystem,
      or the error. */
  function ArchiveResult(fs: Fs, full: Path): (r: Result<Fs>)
    ensures !IsFile(fs, full) ==> r.Err?
  {
    if full !in fs then Err("File not found: " + Display(full))
    else if !IsFile(fs, full) then Err("Not a file: " + Display(full))
    else match FileName(full)
      case None => Err("Invalid UTF-8 in filename")
      case Some(name) =>
        if StartsWith(name, ".") then Err("File already archived: " + name)
        else
          var hidden := Hidden(full, name);
          match RenameFile(fs, full, hidden)
          case Err(_) => Err("Failed to archive " + Display(full) + " → " + Display(hidden))
          case Ok(fs1) => Ok(fs1)
  }

  /** The confirmation names the user's path without its extension. */
  function EchoName(path: string): string {
    Display(SetExtension(Parse(path), ""))
  }

  /** A missing target, or one that is not a file, is reported as such. */
  lemma MissingOrNotFile(fs: Fs, full: Path)
    ensures full !in fs ==> ArchiveResult(fs, full) == Err("File not found: " + Display(full))
    ensures full in fs && fs[full].Dir? ==> ArchiveResult(fs, full) == Err("Not a file: " + Display(full))
  {
  }

  /** A successful archive moves the file, content and all, to the dotted
      name beside it; nothing else changes. */
  lemma ArchiveMoves(fs: Fs, full: Path)
    requires ArchiveResult(fs, full).Ok?
    ensures full != [] && FileName(full).Some?
    ensures var hidden := Hidden(full, FileName(full).value);
      var fs1 := ArchiveResult(fs, full).value;
      && hidden != full
      && full !in fs1 && hidden in fs1 && fs1[hidden] == fs[full]
      && (forall q | q in fs && q != full && q != hidden :: q in fs1 && fs1[q] == fs[q])
      && fs1.Keys == fs.Keys - {full} + {hidden}
  {
    var name := FileName(full).value;
    var hidden := Hidden(full, name);
    assert !StartsWith(name, ".");
    assert hidden[|hidden| - 1] != full[|full| - 1] by {
      assert ("." + name)[0] == '.';
      if name != [] {
        assert name[..1] != ".";
      }
    }
  }

  /** A name that starts with a dot is refused, so the file an archive has
      just produced cannot be archived a second time. */
  lemma ArchiveTwice(fs: Fs, full: Path)
    requires ArchiveResult(fs, full).Ok?
    ensures full != [] && FileName(full).Some?
    ensures var hidden := Hidden(full, FileName(full).value);
      ArchiveResult(ArchiveResult(fs, full).value, hidden)
        == Err("File already archived: " + "." + FileName(full).value)
  {
    ArchiveMoves(fs, full);
    var name := FileName(full).value;
    var hidden := Hidden(full, name);
    var fs1 := ArchiveResult(fs, full).value;
    assert fs[full].File?;
    assert IsFile(fs1, hidden);
    assert FileName(hidden) == Some("." + name) by {
      var dotted := "." + name;
      assert dotted[0] == '.' && Root[0] == '/';
      assert !StartsWith(name, ".");
      assert name != "." && dotted[1..] == name;
    }
    assert StartsWith("." + name, ".");
  }

  /** An existing extension is kept; a path without one gets the configured
      extension (with its leading dots trimmed). */
  lemma ExtensionAppended(root: Path, cryptoExtension: string, path: string)
    requires var ext := TrimStartMatches(cryptoExtension, '.');
      ext != "" && '.' !in ext && '/' !in ext
    requires var full := Join(root, path);
      Extension(full).None? && FileName(full).Some? && NameStem(FileName(full).value) != []
    ensures Extension(ArchiveTarget(root, cryptoExtension, path)) == Some(TrimStartMatches(cryptoExtension, '.'))
  {
    SetExtensionSets(Join(root, path), TrimStartMatches(cryptoExtension, '.'));
  }

  /** With a relative base directory, the root `archive` computes repeats
      the base directory, so it is not the vault directory the other
      commands use. */
  lemma RelativeBaseDoubles(base: Path)
    requires base != [] && !IsAbsolute(base)
    ensures VaultDir(base) == base + ["vault"]
    ensures JoinPath(base, VaultDir(base)) == base + base + ["vault"]
    ensures JoinPath(base, VaultDir(base)) != VaultDir(base)
  {
    var v := base + ["vault"];
    Layout(base);
    assert v[0] == base[0];
    assert !IsAbsolute(v);
    assert |base + v| != |v|;
  }

  /** With an absolute base directory the two roots agree. */
  lemma AbsoluteBaseAgrees(base: Path)
    requires IsAbsolute(base)
    ensures JoinPath(base, VaultDir(base)) == VaultDir(base)
  {
    Layout(base);
  }

  /** With the vault directory as root, an entry given by a relative path
      is looked for inside the vault directory. Paths are compared as
      written, so a ".." in the user's path is an ordinary component here
      (`ResolvesInVault` says what holds once ".." is resolved). */
  lemma TargetInVault(cfg: Config, path: string)
    requires Parse(path) != [] && !IsAbsolute(Parse(path))
    ensures var t := ArchiveTarget(VaultRoot(cfg), cfg.cryptoExtension, path);
      |t| > |cfg.prefix| && t[..|cfg.prefix|] == cfg.prefix
  {
    var full := Join(cfg.prefix, path);
    assert full == cfg.prefix + Parse(path);
    assert full[..|cfg.prefix|] == cfg.prefix;
    var t := ArchiveTarget(cfg.prefix, cfg.cryptoExtension, path);
    TargetShape(cfg.prefix, cfg.cryptoExtension, path);
    SameFrontKeepsPrefix(t, full, cfg.prefix);
  }

  /** When the user's path holds no "..", the target also resolves to a
      path inside the resolved vault directory: what follows the vault
      directory in the target is kept as it is. A ".." can lead out of it
      (`Paths.DotDotLeaves`). */
  lemma ResolvesInVault(cfg: Config, path: string)
    requires Parse(path) != [] && !IsAbsolute(Parse(path))
    ensures var t := ArchiveTarget(VaultRoot(cfg), cfg.cryptoExtension, path);
      ".." !in Parse(path) ==>
        && |t| > |cfg.prefix| && ".." !in t[|cfg.prefix|..]
        && Normalize(t) == Normalize(cfg.prefix) + t[|cfg.prefix|..]
        && Inside(Normalize(cfg.prefix), Normalize(t))
  {
    var t := ArchiveTarget(cfg.prefix, cfg.cryptoExtension, path);
    TargetInVault(cfg, path);
    if ".." !in Parse(path) {
      var rest := t[|cfg.prefix|..];
      assert t == cfg.prefix + rest;
      TailNoDotDot(cfg, path);
      NormalizeAppend(cfg.prefix, rest);
      assert (Normalize(cfg.prefix) + rest)[..|Normalize(cfg.prefix)|] == Normalize(cfg.prefix);
    }
  }

  /** Below the vault directory the target holds no "..", when the user's
      path holds none. */
  lemma TailNoDotDot(cfg: Config, path: string)
    requires Parse(path) != [] && !IsAbsolute(Parse(path)) && ".." !in Parse(path)
    ensures var t := ArchiveTarget(VaultRoot(cfg), cfg.cryptoExtension, path);
      |t| > |cfg.prefix| && ".." !in t[|cfg.prefix|..]
  {
    var t := ArchiveTarget(cfg.prefix, cfg.cryptoExtension, path);
    var full := Join(cfg.prefix, path);
    var segs := Parse(path);
    assert full == cfg.prefix + segs;
    TargetShape(cfg.prefix, cfg.cryptoExtension, path);
    LastNotDotDot(cfg, path);
    var rest := t[|cfg.prefix|..];
    forall k | 0 <= k < |rest| ensures rest[k] != ".." {
      if k < |rest| - 1 {
        var i := |cfg.prefix| + k;
        assert rest[k] == t[..|t| - 1][i] == full[..|t| - 1][i] == full[i] == segs[k];
        assert segs[k] in segs;
      }
    }
  }

  /** The target's last component is not "..", when the user's path has
      none: either it is the user's last component, or that component with
      the extension appended. */
  lemma LastNotDotDot(cfg: Config, path: string)
    requires Parse(path) != [] && !IsAbsolute(Parse(path)) && ".." !in Parse(path)
    ensures var t := ArchiveTarget(VaultRoot(cfg), cfg.cryptoExtension, path);
      t != [] && t[|t| - 1] != ".."
  {
    var full := Join(cfg.prefix, path);
    var segs := Parse(path);
    assert full == cfg.prefix + segs;
    assert path != [] && path[0] != '/' ==> segs == Segments(path);
    assert path == [] ==> segs == Segments(path);
    var n := segs[|segs| - 1];
    assert n in segs && IsComponent(n);
    assert FileName(full) == Some(n);
    if Extension(full).None? {
      ExtendedNotDotDot(full, TrimStartMatches(cfg.cryptoExtension, '.'));
    }
  }

  /** Two paths that differ at most in their last component share every
      shorter prefix. */
  lemma SameFrontKeepsPrefix(t: Path, full: Path, p: Path)
    requires |t| == |full| > |p| && t[..|full| - 1] == full[..|full| - 1] && full[..|p|] == p
    ensures t[..|p|] == p
  {
    assert t[..|p|] == t[..|full| - 1][..|p|];
    assert full[..|p|] == full[..|full| - 1][..|p|];
  }

  /** `run` of `archive`, as written: the entry is resolved against
      `VaultRootAsWritten`. */
  method Run(h: Host, cfg: Config, path: string) returns (r: Result<()>)
    modifies h
    ensures h.stdin == old(h.stdin)
    ensures var full := ArchiveTarget(VaultRootAsWritten(cfg), cfg.cryptoExtension, path);
      match ArchiveResult(old(h.fs), full)
      case Ok(fs1) => r == Ok(()) && h.fs == fs1 && h.trace == old(h.trace) + [Stdout("Archived " + EchoName(path) + "\n")]
      case Err(e) => r == Err(e) && h.fs == old(h.fs) && h.trace == old(h.trace)
  {
    r := ArchiveIn(h, VaultRootAsWritten(cfg), cfg.cryptoExtension, path);
  }

  /** `run` of `archive` with the vault directory as root. */
  method RunInVault(h: Host, cfg: Config, path: string) returns (r: Result<()>)
    modifies h
    ensures h.stdin == old(h.stdin)
    ensures var full := ArchiveTarget(VaultRoot(cfg), cfg.cryptoExtension, path);
      match ArchiveResult(old(h.fs), full)
      case Ok(fs1) => r == Ok(()) && h.fs == fs1 && h.trace == old(h.trace) + [Stdout("Archived " + EchoName(path) + "\n")]
      case Err(e) => r == Err(e) && h.fs == old(h.fs) && h.trace == old(h.trace)
  {
    r := ArchiveIn(h, VaultRoot(cfg), cfg.cryptoExtension, path);
  }

  /** The steps of `run` below a given root; no sync follows. */
  method ArchiveIn(h: Host, root: Path, cryptoExtension: string, path: string) returns (r: Result<()>)
    modifies h
    ensures h.stdin == old(h.stdin)
    ensures var full := ArchiveTarget(root, cryptoExtension, path);
      match ArchiveResult(old(h.fs), full)
      case Ok(fs1) => r == Ok(()) && h.fs == fs1 && h.trace == old(h.trace) + [Stdout("Archived " + EchoName(path) + "\n")]
      case Err(e) => r == Err(e) && h.fs == old(h.fs) && h.trace == old(h.trace)
  {
    var full := Join(root, path);
    if Extension(full).None? {
      var ext := TrimStartMatches(cryptoExtension, '.');
      full := SetExtension(full, ext);
    }
    if full !in h.fs {
      return Err("File not found: " + Display(full));
    }
    if !IsFile(h.fs, full) {
      return Err("Not a file: " + Display(full));
    }
    var fileName := FileName(full);
    if fileName.None? {
      return Err("Invalid UTF-8 in filename");
    }
    var name := fileName.value;
    if StartsWith(name, ".") {
      return Err("File already archived: " + name);
    }
    var hiddenName := "." + name;
    var newFull := full[..|full| - 1] + [hiddenName];
    var renamed := h.Apply(RenameFile(h.fs, full, newFull));
    if renamed.Err? {
      return Err("Failed to archive " + Display(full) + " → " + Display(newFull));
    }
    var displayPath := SetExtension(Parse(path), "");
    h.Print("Archived " + Display(displayPath) + "\n");
    r := Ok(());
  }
}

/** `passman completion`: install the entry-name completion script for
    bash and have `~/.bashrc` source it. */
module Completion {
  import opened Wrappers
  import opened Text
  import opened Paths
  import opened Machine
  import opened Store

  /** The fixed lines the install relies on: the marker line that starts
      the script, the line registering the completion function that ends
      it, and the comment put before the `source` line in `~/.bashrc`. The
      specification is stated for any such layout; `Passman` is the one
      the program uses. */
  datatype Layout = Layout(marker: string, complete: string, comment: string) {
    /** The marker is found again by a trimmed-line scan and the
        registration line reads back as written. */
    predicate Valid() {
      Recognisable(marker) && IsPlainLine(complete)
    }
  }

  const Passman: Layout := Layout("# passman bash completion", "complete -F _passman_complete passman", "# Added by passman")

  /** The panic of `unwrap` on a missing home directory. */
  const UnwrapNone: string := "called `Option::unwrap()` on a `None` value"
  const AddedSource: string := "🔗 Added `source` line to ~/.bashrc\n"
  const RunSource: string := "👉 Run `source ~/.bashrc` or restart your shell to activate.\n"

  /** A line that is its own trim and has no line break. */
  predicate Recognisable(line: string) {
    IsPlainLine(line) && line != [] && !IsWhitespace(line[0]) && !IsWhitespace(line[|line| - 1])
  }

  /** The program's own lines meet what the install relies on. */
  lemma PassmanValid()
    ensures Passman.Valid()
  {
    MarkerPlain();
    CompletePlain();
  }

  /** Each line is checked in a proof of its own, to keep each proof small. */
  lemma MarkerPlain()
    ensures '\n' !in Passman.marker
  {
  }

  lemma CompletePlain()
    ensures '\n' !in Passman.complete
  {
  }

  /** The script's path below the configuration directory, `~/.config`
      when there is none. */
  function Target(configDir: Option<Path>): (r: Path)
    ensures |r| >= 2 && r[|r| - 1] == "passman.bash"
  {
    configDir.GetOr(["~", ".config"]) + ["bash", "passman.bash"]
  }

  function Bashrc(home: Path): Path {
    home + [".bashrc"]
  }

  function SourceLine(target: Path): string {
    "source " + Display(target)
  }

  function AlreadyThere(target: Path): string {
    "🔁 Completion script already exists at " + Display(target) + "\n"
  }

  function InstalledTo(target: Path): string {
    "✅ Bash completion installed to " + Display(target) + "\n"
  }

  /** The completion function itself. */
  function Script(): string {
    "_passman_complete() {\n"
    + "  local cur=\"${COMP_WORDS[COMP_CWORD]}\"\n"
    + "  local base=\"$HOME/.passman/vault\"\n"
    + "  local entries\n"
    + "\n"
    + "  if [[ -d \"$base\" ]]; then\n"
    + "    entries=$(find \"$base\" -type f -name \"*.rage\" -print 2>/dev/null \\\n"
    + "      | sed \"s|^$base/||\" \\\n"
    + "      | sed 's/\\.rage$//')\n"
    + "    COMPREPLY=( $(compgen -W \"${entries}\" -- \"$cur\") )\n"
    + "  else\n"
    + "    COMPREPLY=()\n"
    + "  fi\n"
    + "}"
  }

  /** What the script file holds once written: the marker line, the
      function, and the line registering it. */
  function Installed(lay: Layout, script: string): string {
    lay.marker + "\n" + script + "\n" + lay.complete + "\n"
  }

  /** The text appended to `~/.bashrc`. */
  function SourceBlock(lay: Layout, target: Path): string {
    "\n" + lay.comment + "\n" + SourceLine(target) + "\n"
  }

  /** Some line, trimmed, is `want`. */
  predicate HasTrimmedLine(lines: seq<string>, want: string) {
    exists k | 0 <= k < |lines| :: Trim(lines[k]) == want
  }

  /** What `p` holds when it is a file, and nothing otherwise. */
  function FileText(fs: Fs, p: Path): string {
    if IsFile(fs, p) then fs[p].content else ""
  }

  /** The lines read from `p` when it exists. A directory is read as no
      lines (see the notes on directories in the README). */
  function FileLines(fs: Fs, p: Path): seq<string> {
    if IsFile(fs, p) then Lines(fs[p].content) else []
  }

  /** `ensure_bashrc_sourced`: nothing to do when a line of `~/.bashrc`
      already sources the script; otherwise append the source block
      (creating the file) and say so. */
  function EnsureSourced(fs: Fs, lay: Layout, target: Path, home: Option<Path>): Outcome {
    match home
    case None => Outcome(fs, Err(UnwrapNone), [])
    case Some(dir) =>
      var rc := Bashrc(dir);
      if HasTrimmedLine(FileLines(fs, rc), SourceLine(target)) then Outcome(fs, Ok(()), [])
      else match AppendFile(fs, rc, SourceBlock(lay, target))
        case Err(e) => Outcome(fs, Err(e), [])
        case Ok(fs1) => Outcome(fs1, Ok(()), [Stdout(AddedSource), Stdout(RunSource)])
  }

  /** The script step of `install`: keep a script that already has the
      marker line and say so, otherwise write it afresh and say so. */
  function PlaceScript(fs: Fs, lay: Layout, target: Path, script: string): Outcome {
    if HasTrimmedLine(FileLines(fs, target), lay.marker) then
      Outcome(fs, Ok(()), [Stdout(AlreadyThere(target))])
    else match WriteFile(fs, target, Installed(lay, script))
      case Err(e) => Outcome(fs, Err(e), [])
      case Ok(fs1) => Outcome(fs1, Ok(()), [Stdout(InstalledTo(target))])
  }

  /** `install` with the layout `lay` and the function text `script`:
      create the script's directory, place the script, then make sure
      `~/.bashrc` sources it. */
  function InstallOutcome(fs: Fs, lay: Layout, configDir: Option<Path>, home: Option<Path>, script: string): Outcome {
    var target := Target(configDir);
    match CreateDirAll(fs, target[..|target| - 1])
    case Err(e) => Outcome(fs, Err(e), [])
    case Ok(fs1) => Proceed(fs1, lay, target, home, script)
  }

  /** What `install` does once the script's directory exists: place the
      script, then make sure `~/.bashrc` sources it. */
  function Proceed(fs: Fs, lay: Layout, target: Path, home: Option<Path>, script: string): Outcome {
    var placed := PlaceScript(fs, lay, target, script);
    if placed.result.Err? then placed
    else After(placed.events, EnsureSourced(placed.fs, lay, target, home))
  }

  /** Lines framed by a first and a last line come back with those two at
      the ends, whatever lies between. */
  lemma FramedLines(first: string, middle: string, last: string)
    requires IsPlainLine(first) && IsPlainLine(last)
    ensures var lines := Lines(first + "\n" + middle + "\n" + last + "\n");
      lines != [] && lines[0] == first && lines[|lines| - 1] == last
  {
    var front := first + "\n" + (middle + "\n");
    var tail := last + "\n" + "";
    var ends: seq<string> := Lines(middle + "\n");
    calc {
      Lines(first + "\n" + middle + "\n" + last + "\n");
      { assert first + "\n" + middle + "\n" + last + "\n" == front + tail; }
      Lines(front + tail);
      { LinesConcat(front, tail); }
      Lines(front) + Lines(tail);
      { LinesCons(first, middle + "\n"); LinesCons(last, ""); }
      [StripCR(first)] + ends + ([StripCR(last)] + Lines(""));
      [first] + ends + [last];
    }
  }

  /** The written script's first line is the marker and its last line
      registers the completion, whatever the function's text. */
  lemma InstalledLines(lay: Layout, script: string)
    requires lay.Valid()
    ensures var lines := Lines(Installed(lay, script));
      lines != [] && lines[0] == lay.marker && lines[|lines| - 1] == lay.complete
  {
    FramedLines(lay.marker, script, lay.complete);
  }

  /** So a written script is recognised as installed the next time. */
  lemma InstalledHasMarker(lay: Layout, script: string)
    requires lay.Valid()
    ensures HasTrimmedLine(Lines(Installed(lay, script)), lay.marker)
  {
    InstalledLines(lay, script);
    TrimOfTrimmed(lay.marker);
  }

  /** The source line is recognised when read back. */
  predicate PlainSource(target: Path) {
    Recognisable(SourceLine(target))
  }

  /** A recognisable line appended after a comment line is found again. */
  lemma AppendedLineFound(before: string, comment: string, line: string)
    requires Recognisable(line)
    ensures HasTrimmedLine(Lines(before + ("\n" + comment + "\n" + line + "\n")), line)
  {
    assert before + ("\n" + comment + "\n" + line + "\n") == (before + "\n" + comment) + "\n" + line + "\n" + "";
    LineBetween(before + "\n" + comment, line, "");
    TrimOfTrimmed(line);
  }

  /** After the source block is appended, `~/.bashrc` has a line that
      trims to the source line. */
  lemma BlockSources(lay: Layout, before: string, target: Path)
    requires PlainSource(target)
    ensures HasTrimmedLine(Lines(before + SourceBlock(lay, target)), SourceLine(target))
  {
    AppendedLineFound(before, lay.comment, SourceLine(target));
  }

  /** `~/.bashrc` is left alone when it sources the script; otherwise the
      block is appended after what it held (or is all it holds, when it was
      missing), and everything else stays. */
  lemma EnsureAppendsIfAbsent(fs: Fs, lay: Layout, target: Path, home: Path)
    ensures var o := EnsureSourced(fs, lay, target, Some(home));
      var rc := Bashrc(home);
      && (HasTrimmedLine(FileLines(fs, rc), SourceLine(target)) ==> o == Outcome(fs, Ok(()), []))
      && (!HasTrimmedLine(FileLines(fs, rc), SourceLine(target)) && o.result.Ok? ==>
            && o.fs == fs[rc := File(FileText(fs, rc) + SourceBlock(lay, target))]
            && o.events == [Stdout(AddedSource), Stdout(RunSource)])
      && (o.result.Err? ==> o.fs == fs)
  {
    var rc := Bashrc(home);
    var appended := AppendFile(fs, rc, SourceBlock(lay, target));
    if appended.Ok? {
      if rc in fs {
        assert IsFile(fs, rc);
      } else {
        assert FileText(fs, rc) + SourceBlock(lay, target) == SourceBlock(lay, target);
      }
    }
  }

  /** After `ensure_bashrc_sourced` succeeds, `~/.bashrc` sources the
      script, so a second call changes nothing and prints nothing. */
  lemma EnsureIdempotent(fs: Fs, lay: Layout, target: Path, home: Path)
    requires PlainSource(target)
    requires EnsureSourced(fs, lay, target, Some(home)).result.Ok?
    ensures var fs1 := EnsureSourced(fs, lay, target, Some(home)).fs;
      && HasTrimmedLine(FileLines(fs1, Bashrc(home)), SourceLine(target))
      && EnsureSourced(fs1, lay, target, Some(home)) == Outcome(fs1, Ok(()), [])
  {
    var rc := Bashrc(home);
    if !HasTrimmedLine(FileLines(fs, rc), SourceLine(target)) {
      EnsureAppendsIfAbsent(fs, lay, target, home);
      BlockSources(lay, FileText(fs, rc), target);
    }
  }

  /** `ensure_bashrc_sourced` only ever changes `~/.bashrc`. */
  lemma EnsureSourcedOnly(fs: Fs, lay: Layout, target: Path, home: Path)
    ensures var o := EnsureSourced(fs, lay, target, Some(home));
      forall q | q in fs && q != Bashrc(home) :: q in o.fs && o.fs[q] == fs[q]
  {
  }

  /** A script with the marker line is kept as it is; one without it is
      written afresh; nothing else changes. */
  lemma PlaceFacts(fs: Fs, lay: Layout, target: Path, script: string)
    ensures var o := PlaceScript(fs, lay, target, script);
      && (HasTrimmedLine(FileLines(fs, target), lay.marker) ==>
            o == Outcome(fs, Ok(()), [Stdout(AlreadyThere(target))]))
      && (!HasTrimmedLine(FileLines(fs, target), lay.marker) && o.result.Ok? ==>
            o == Outcome(fs[target := File(Installed(lay, script))], Ok(()), [Stdout(InstalledTo(target))]))
      && (o.result.Err? ==> o.fs == fs && o.events == [])
      && forall q | q in fs && q != target :: q in o.fs && o.fs[q] == fs[q]
  {
  }

  /** Once the script step succeeds, the script has the marker line. */
  lemma PlacedHasMarker(fs: Fs, lay: Layout, target: Path, script: string)
    requires lay.Valid()
    ensures var o := PlaceScript(fs, lay, target, script);
      o.result.Ok? ==> HasTrimmedLine(FileLines(o.fs, target), lay.marker)
  {
    var o := PlaceScript(fs, lay, target, script);
    if o.result.Ok? && !HasTrimmedLine(FileLines(fs, target), lay.marker) {
      PlaceFacts(fs, lay, target, script);
      var text := Installed(lay, script);
      assert o.fs == fs[target := File(text)];
      assert FileLines(o.fs, target) == Lines(text);
      InstalledHasMarker(lay, script);
    }
  }

  /** What a finished install leaves behind: the script's directory, the
      script with its marker line, and a home whose `~/.bashrc` sources it. */
  predicate InstallDone(fs: Fs, lay: Layout, target: Path, home: Option<Path>)
    requires |target| >= 1
  {
    && home.Some? && HasTrimmedLine(FileLines(fs, Bashrc(home.value)), SourceLine(target))
    && IsDir(fs, target[..|target| - 1]) && HasTrimmedLine(FileLines(fs, target), lay.marker)
  }

  /** A successful install leaves the script's directory, the script with
      its marker line, and `~/.bashrc` sourcing it. */
  lemma InstallFacts(fs: Fs, lay: Layout, configDir: Option<Path>, home: Option<Path>, script: string)
    requires lay.Valid() && PlainSource(Target(configDir))
    ensures var o := InstallOutcome(fs, lay, configDir, home, script);
      o.result.Ok? ==> InstallDone(o.fs, lay, Target(configDir), home)
  {
    var target := Target(configDir);
    var p := target[..|target| - 1];
    assert |p| > 0;
    var dirs := CreateDirAll(fs, p);
    if dirs.Ok? {
      assert IsDir(dirs.value, p);
      DirsMade(fs, lay, configDir, home, script);
      var o := InstallOutcome(fs, lay, configDir, home, script);
      assert o == Proceed(dirs.value, lay, target, home, script);
      ProceedFacts(o, dirs.value, lay, target, home, script);
      assert o.result.Ok? ==> InstallDone(o.fs, lay, target, home);
    } else {
      assert InstallOutcome(fs, lay, configDir, home, script).result.Err?;
    }
  }

  /** Once the script's directory exists, a successful rest of `install`
      leaves the directory, the marked script and the `source` line. */
  lemma ProceedFacts(o: Outcome, fs: Fs, lay: Layout, target: Path, home: Option<Path>, script: string)
    requires lay.Valid() && PlainSource(target)
    requires |target| >= 2 && target[|target| - 1] == "passman.bash" && IsDir(fs, target[..|target| - 1])
    requires o == Proceed(fs, lay, target, home, script)
    ensures o.result.Ok? ==> InstallDone(o.fs, lay, target, home)
  {
    var placed := PlaceScript(fs, lay, target, script);
    PlacedKeepsDir(fs, lay, target, script);
    PlacedHasMarker(fs, lay, target, script);
    if placed.result.Ok? && home.Some? {
      SourcedLast(o, placed, lay, target, home.value);
    }
  }

  /** An outcome that ends with a successful `ensure_bashrc_sourced` after
      the script step leaves all three in place. */
  lemma SourcedLast(o: Outcome, placed: Outcome, lay: Layout, target: Path, home: Path)
    requires |target| >= 2 && target[|target| - 1] == "passman.bash" && PlainSource(target)
    requires IsDir(placed.fs, target[..|target| - 1]) && HasTrimmedLine(FileLines(placed.fs, target), lay.marker)
    requires o == After(placed.events, EnsureSourced(placed.fs, lay, target, Some(home)))
    ensures o.result.Ok? ==> InstallDone(o.fs, lay, target, Some(home))
  {
    SourcingKeepsScript(placed.fs, lay, target, home);
  }

  /** The script step keeps the script's directory. */
  lemma PlacedKeepsDir(fs: Fs, lay: Layout, target: Path, script: string)
    requires |target| >= 2 && IsDir(fs, target[..|target| - 1])
    ensures IsDir(PlaceScript(fs, lay, target, script).fs, target[..|target| - 1])
  {
    var parent := target[..|target| - 1];
    assert |parent| < |target|;
    PlaceFacts(fs, lay, target, script);
  }

  /** `ensure_bashrc_sourced` keeps the script and its directory: once it
      succeeds, all three are in place. */
  lemma SourcingKeepsScript(fs: Fs, lay: Layout, target: Path, home: Path)
    requires |target| >= 2 && target[|target| - 1] == "passman.bash"
    requires PlainSource(target)
    requires IsDir(fs, target[..|target| - 1]) && HasTrimmedLine(FileLines(fs, target), lay.marker)
    ensures var o := EnsureSourced(fs, lay, target, Some(home));
      o.result.Ok? ==>
        && HasTrimmedLine(FileLines(o.fs, Bashrc(home)), SourceLine(target))
        && IsDir(o.fs, target[..|target| - 1]) && HasTrimmedLine(FileLines(o.fs, target), lay.marker)
  {
    var rc := Bashrc(home);
    assert rc != target by {
      assert rc[|rc| - 1] == ".bashrc";
    }
    var parent := target[..|target| - 1];
    SourcedSettles(fs, lay, target, home);
    var o := EnsureSourced(fs, lay, target, Some(home));
    assert IsFile(fs, target);
    assert o.fs[target] == fs[target];
    if o.result.Ok? && !HasTrimmedLine(FileLines(fs, rc), SourceLine(target)) {
      // the append succeeded, so `~/.bashrc` is not the script's directory
      assert AppendFile(fs, rc, SourceBlock(lay, target)).Ok?;
      assert rc != parent;
    }
  }

  /** A successful `ensure_bashrc_sourced` leaves `~/.bashrc` sourcing the
      script and every other path as it was. */
  lemma SourcedSettles(fs: Fs, lay: Layout, target: Path, home: Path)
    requires PlainSource(target)
    ensures var o := EnsureSourced(fs, lay, target, Some(home));
      && (o.result.Ok? ==> HasTrimmedLine(FileLines(o.fs, Bashrc(home)), SourceLine(target)))
      && forall q | q in fs && q != Bashrc(home) :: q in o.fs && o.fs[q] == fs[q]
  {
    EnsureSourcedOnly(fs, lay, target, home);
    if EnsureSourced(fs, lay, target, Some(home)).result.Ok? {
      EnsureIdempotent(fs, lay, target, home);
    }
  }

  /** A second install after a successful one keeps everything as it is
      and only reports that the script exists. */
  lemma InstallIdempotent(fs: Fs, lay: Layout, configDir: Option<Path>, home: Option<Path>, script: string)
    requires lay.Valid() && PlainSource(Target(configDir))
    requires InstallOutcome(fs, lay, configDir, home, script).result.Ok?
    ensures var fs1 := InstallOutcome(fs, lay, configDir, home, script).fs;
      InstallOutcome(fs1, lay, configDir, home, script) == Outcome(fs1, Ok(()), [Stdout(AlreadyThere(Target(configDir)))])
  {
    InstallFacts(fs, lay, configDir, home, script);
    SettledIsQuiet(InstallOutcome(fs, lay, configDir, home, script).fs, lay, configDir, home.value, script);
  }

  /** For the program's own layout and script: a second `passman
      completion` after a successful one changes nothing. */
  lemma PassmanIdempotent(fs: Fs, configDir: Option<Path>, home: Option<Path>)
    requires PlainSource(Target(configDir))
    requires InstallOutcome(fs, Passman, configDir, home, Script()).result.Ok?
    ensures var fs1 := InstallOutcome(fs, Passman, configDir, home, Script()).fs;
      InstallOutcome(fs1, Passman, configDir, home, Script()) == Outcome(fs1, Ok(()), [Stdout(AlreadyThere(Target(configDir)))])
  {
    PassmanValid();
    InstallIdempotent(fs, Passman, configDir, home, Script());
  }

  /** With the directory, the marked script and the `source` line all in
      place, `install` changes nothing and only reports the script. */
  lemma SettledIsQuiet(fs: Fs, lay: Layout, configDir: Option<Path>, home: Path, script: string)
    requires var target := Target(configDir);
      && IsDir(fs, target[..|target| - 1]) && HasTrimmedLine(FileLines(fs, target), lay.marker)
      && HasTrimmedLine(FileLines(fs, Bashrc(home)), SourceLine(target))
    ensures InstallOutcome(fs, lay, configDir, Some(home), script) == Outcome(fs, Ok(()), [Stdout(AlreadyThere(Target(configDir)))])
  {
    SettledShape(fs, lay, configDir, Some(home), script);
    QuietAfter(InstallOutcome(fs, lay, configDir, Some(home), script), fs, lay, Target(configDir), home);
  }

  /** With the directory and the marked script in place, `install` only
      reports the script and goes on to `ensure_bashrc_sourced`. */
  lemma SettledShape(fs: Fs, lay: Layout, configDir: Option<Path>, home: Option<Path>, script: string)
    requires var target := Target(configDir);
      IsDir(fs, target[..|target| - 1]) && HasTrimmedLine(FileLines(fs, target), lay.marker)
    ensures var target := Target(configDir);
      InstallOutcome(fs, lay, configDir, home, script)
        == After([Stdout(AlreadyThere(target))], EnsureSourced(fs, lay, target, home))
  {
    var target := Target(configDir);
    DirReady(fs, lay, configDir, home, script);
    PlaceKept(fs, lay, target, script);
  }

  /** Once the script's directory is made, `install` goes on with the
      script. */
  lemma DirsMade(fs: Fs, lay: Layout, configDir: Option<Path>, home: Option<Path>, script: string)
    ensures var target := Target(configDir);
      var dirs := CreateDirAll(fs, target[..|target| - 1]);
      dirs.Ok? ==> InstallOutcome(fs, lay, configDir, home, script) == Proceed(dirs.value, lay, target, home, script)
  {
  }

  /** With the script's directory already there, `install` goes straight
      on with the script. */
  lemma DirReady(fs: Fs, lay: Layout, configDir: Option<Path>, home: Option<Path>, script: string)
    requires var target := Target(configDir); IsDir(fs, target[..|target| - 1])
    ensures InstallOutcome(fs, lay, configDir, home, script) == Proceed(fs, lay, Target(configDir), home, script)
  {
    var target := Target(configDir);
    assert CreateDirAll(fs, target[..|target| - 1]) == Ok(fs);
  }

  lemma PlaceKept(fs: Fs, lay: Layout, target: Path, script: string)
    requires HasTrimmedLine(FileLines(fs, target), lay.marker)
    ensures PlaceScript(fs, lay, target, script) == Outcome(fs, Ok(()), [Stdout(AlreadyThere(target))])
  {
  }

  /** Reporting the script and then finding `~/.bashrc` already sourcing
      it changes nothing. */
  lemma QuietAfter(o: Outcome, fs: Fs, lay: Layout, target: Path, home: Path)
    requires HasTrimmedLine(FileLines(fs, Bashrc(home)), SourceLine(target))
    requires o == After([Stdout(AlreadyThere(target))], EnsureSourced(fs, lay, target, Some(home)))
    ensures o == Outcome(fs, Ok(()), [Stdout(AlreadyThere(target))])
  {
    var kept := [Stdout(AlreadyThere(target))];
    assert EnsureSourced(fs, lay, target, Some(home)) == Outcome(fs, Ok(()), []);
    assert kept + [] == kept;
  }

  /** The scan of a file's lines for one that trims to `want`. */
  method ScanLines(lines: seq<string>, want: string) returns (found: bool)
    ensures found <==> HasTrimmedLine(lines, want)
  {
    for i := 0 to |lines|
      invariant forall k | 0 <= k < i :: Trim(lines[k]) != want
    {
      if Trim(lines[i]) == want {
        return true;
      }
    }
    return false;
  }

  /** `ensure_bashrc_sourced` on the filesystem. */
  method RunEnsureSourced(h: Host, lay: Layout, target: Path, home: Option<Path>) returns (r: Result<()>)
    modifies h
    ensures h.stdin == old(h.stdin)
    ensures var o := EnsureSourced(old(h.fs), lay, target, home);
      h.fs == o.fs && r == o.result && h.trace == old(h.trace) + o.events
  {
    if home.None? {
      return Err(UnwrapNone);
    }
    var rc := Bashrc(home.value);
    var line := SourceLine(target);
    if rc in h.fs {
      var sourced := ScanLines(FileLines(h.fs, rc), line);
      if sourced {
        return Ok(());
      }
    }
    r := h.Apply(AppendFile(h.fs, rc, SourceBlock(lay, target)));
    if r.Err? {
      return;
    }
    h.Print(AddedSource);
    h.Print(RunSource);
  }

  /** The script step on the filesystem. */
  method RunPlaceScript(h: Host, lay: Layout, target: Path, script: string) returns (r: Result<()>)
    modifies h
    ensures h.stdin == old(h.stdin)
    ensures var o := PlaceScript(old(h.fs), lay, target, script);
      h.fs == o.fs && r == o.result && h.trace == old(h.trace) + o.events
  {
    if target in h.fs {
      var installed := ScanLines(FileLines(h.fs, target), lay.marker);
      if installed {
        h.Print(AlreadyThere(target));
        return Ok(());
      }
    }
    r := h.Apply(WriteFile(h.fs, target, Installed(lay, script)));
    if r.Err? {
      return;
    }
    h.Print(InstalledTo(target));
  }

  /** `install` on the filesystem, with the layout and the function text
      given. */
  method RunInstall(h: Host, lay: Layout, configDir: Option<Path>, home: Option<Path>, script: string)
    returns (r: Result<()>)
    modifies h
    ensures h.stdin == old(h.stdin)
    ensures var o := InstallOutcome(old(h.fs), lay, configDir, home, script);
      h.fs == o.fs && r == o.result && h.trace == old(h.trace) + o.events
  {
    var target := Target(configDir);
    r := h.Apply(CreateDirAll(h.fs, target[..|target| - 1]));
    if r.Err? {
      return;
    }
    ghost var t0 := h.trace;
    r := RunPlaceScript(h, lay, target, script);
    if r.Err? {
      return;
    }
    ghost var t1 := h.trace;
    r := RunEnsureSourced(h, lay, target, home);
    AppendAssoc(t0, t1[|t0|..], h.trace[|t1|..]);
  }

  /** `install`: passman's own layout and completion function. */
  method Run(h: Host, configDir: Option<Path>, home: Option<Path>) returns (r: Result<()>)
    modifies h
    ensures h.stdin == old(h.stdin)
    ensures var o := InstallOutcome(old(h.fs), Passman, configDir, home, Script());
      h.fs == o.fs && r == o.result && h.trace == old(h.trace) + o.events
  {
    r := RunInstall(h, Passman, configDir, home, Script());
  }
}

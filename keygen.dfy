/** `generate_keypair`: create an identity with the key generator of the
    chosen tool and write its public key next to it. */
module Keygen {
  import opened Wrappers
  import opened Text
  import opened Paths
  import opened Machine
  import opened Store

  /** The key generator, its flag for printing the public key, and the
      tool and address its install hint names. */
  datatype Generator = Generator(bin: string, publicFlag: string, tool: string, url: string) {
    /** The error shown when the program is not installed. */
    function InstallHint(): string {
      "`" + bin + "` not found. Please install " + tool + ": " + url
    }
  }

  const AgeKeygen: Generator := Generator("age-keygen", "-y", "age", "https://github.com/FiloSottile/age")
  const RageKeygen: Generator := Generator("rage-keygen", "-y", "rage", "https://github.com/str4d/rage")

  /** What running one key generator does: whether `which` finds it, how
      `-o <secret>` ends and the identity it writes, and how `-y <secret>`
      ends with what it prints on stdout and stderr, and whether writing
      that stdout into the newly created public file goes through. */
  datatype GeneratorRun = GeneratorRun(
    found: bool,
    generate: ProcessOutcome,
    identity: string,
    extract: ProcessOutcome,
    stdout: string,
    stderr: string,
    written: bool)

  /** The outcomes for each program name. */
  type Tools = string -> GeneratorRun

  const DirFailed: string := "Creating parent directory for identity file"
  const CreateFailed: string := "Failed to create recipient file"
  const WriteFailed: string := "Failed to write public key to recipient file"

  /** `age-keygen` for an identity whose extension is "age", and
      `rage-keygen` for every other. */
  function Select(secret: Path): (g: Generator)
    ensures g.publicFlag == "-y"
    ensures Extension(secret) == Some("age") ==> g == AgeKeygen
    ensures Extension(secret) != Some("age") ==> g == RageKeygen
  {
    if Extension(secret) == Some("age") then AgeKeygen else RageKeygen
  }

  /** The hint names the program that is missing. */
  lemma HintNamesProgram(g: Generator)
    ensures StartsWith(g.InstallHint(), "`" + g.bin + "` not found")
  {
    var head := "`" + g.bin + "` not found";
    assert g.InstallHint() == head + (". Please install " + g.tool + ": " + g.url);
    assert g.InstallHint()[..|head|] == head;
  }

  /** What `generate_keypair` prints on success: the tool's short name, both
      paths, and the public key. */
  function Report(g: Generator, secret: Path, public: Path, publicKey: string): seq<Event> {
    [Stdout("✅ Generated " + StripSuffix(g.bin, "-keygen") + " keypair:\n"),
     Stdout("  🔐 Private:    " + Display(secret) + "\n"),
     Stdout("  🟢 Public:     " + Display(public) + "\n"),
     Stdout(PublicKeyNote(publicKey))]
  }

  function PublicKeyNote(publicKey: string): string {
    "\nCopy the public key to other systems to allow encryption to this identity:\n" + publicKey + "\n"
  }

  /** The identity's parent directories. */
  function IdentityDirs(fs: Fs, secret: Path): (r: Result<Fs>)
    ensures r.Err? ==> r.msg == DirFailed
  {
    match Parent(secret)
    case None => Ok(fs)
    case Some(parent) =>
      match CreateDirAll(fs, parent)
      case Err(_) => Err(DirFailed)
      case Ok(fs1) => Ok(fs1)
  }

  /** The error of a failed `-o` run: it could not start, or it exited
      with an error. */
  function GenerateError(g: Generator, outcome: ProcessOutcome): string {
    if outcome.LaunchFailed? then "Failed to run `" + g.bin + "`"
    else g.bin + " failed to generate identity"
  }

  /** The error of a failed `-y` run: it could not start, or it exited with
      an error, which is reported with its stderr. */
  function ExtractError(g: Generator, run: GeneratorRun): string {
    if run.extract.LaunchFailed? then "Failed to extract public key via `" + g.bin + "`"
    else "Public-key extraction failed:\n" + run.stderr
  }

  /** The first half: look the program up, create the identity's
      directory, and run `<bin> -o <secret>`, which writes the identity. */
  function Generate(fs: Fs, secret: Path, g: Generator, run: GeneratorRun): Outcome {
    var looked := [Lookup(g.bin)];
    if !run.found then Outcome(fs, Err(g.InstallHint()), looked)
    else match IdentityDirs(fs, secret)
      case Err(e) => Outcome(fs, Err(e), looked)
      case Ok(fs1) =>
        var generated := looked + [ProgramRun(g.bin, ["-o", Display(secret)])];
        if !run.generate.Succeeded() then Outcome(fs1, Err(GenerateError(g, run.generate)), generated)
        else Outcome(fs1[secret := File(run.identity)], Ok(()), generated)
  }

  /** The second half: run `<bin> -y <secret>`, create (or truncate) the
      public file, and write what the run printed into it. */
  function Extract(fs: Fs, secret: Path, public: Path, g: Generator, run: GeneratorRun): Outcome {
    var extracted := [ProgramRun(g.bin, [g.publicFlag, Display(secret)])];
    if !run.extract.Succeeded() then Outcome(fs, Err(ExtractError(g, run)), extracted)
    else match WriteFile(fs, public, "")
      case Err(_) => Outcome(fs, Err(CreateFailed), extracted)
      case Ok(created) =>
        if !run.written then Outcome(created, Err(WriteFailed), extracted)
        else Outcome(created[public := File(run.stdout)], Ok(()), extracted + Report(g, secret, public, run.stdout))
  }

  /** The two halves with generator `g`, the second only after the first
      succeeded. */
  function Steps(fs: Fs, secret: Path, public: Path, g: Generator, run: GeneratorRun): Outcome {
    var first := Generate(fs, secret, g, run);
    if first.result.Err? then first
    else After(first.events, Extract(first.fs, secret, public, g, run))
  }

  /** `generate_keypair`: the steps with the generator chosen for the
      identity. */
  function GenerateKeypair(fs: Fs, secret: Path, public: Path, tools: Tools): Outcome {
    var g := Select(secret);
    Steps(fs, secret, public, g, tools(g.bin))
  }

  /** The programs an event sequence runs, in order. */
  function Programs(events: seq<Event>): (r: seq<(string, seq<string>)>)
    ensures |r| <= |events|
  {
    if events == [] then []
    else (if events[0].ProgramRun? then [(events[0].program, events[0].args)] else []) + Programs(events[1..])
  }

  lemma {:induction false} ProgramsAppend(a: seq<Event>, b: seq<Event>)
    ensures Programs(a + b) == Programs(a) + Programs(b)
  {
    if a == [] {
      assert a + b == b;
    } else {
      assert (a + b)[0] == a[0] && (a + b)[1..] == a[1..] + b;
      ProgramsAppend(a[1..], b);
    }
  }

  /** A missing program is reported by its install hint before anything
      else happens. */
  lemma MissingProgramFirst(fs: Fs, secret: Path, public: Path, tools: Tools)
    requires !tools(Select(secret).bin).found
    ensures GenerateKeypair(fs, secret, public, tools)
      == Outcome(fs, Err(Select(secret).InstallHint()), [Lookup(Select(secret).bin)])
  {
  }

  /** The first half runs `-o` once it found the program and made the
      directory, and succeeds when that run does, with the identity
      written. */
  lemma GenerateFacts(fs: Fs, secret: Path, g: Generator, run: GeneratorRun)
    ensures var o := Generate(fs, secret, g, run);
      var started := run.found && IdentityDirs(fs, secret).Ok?;
      && Programs(o.events) == (if started then [(g.bin, ["-o", Display(secret)])] else [])
      && (o.result.Ok? <==> started && run.generate.Succeeded())
      && (started ==> o.fs == (if run.generate.Succeeded() then IdentityDirs(fs, secret).value[secret := File(run.identity)]
                               else IdentityDirs(fs, secret).value))
  {
    var looked := [Lookup(g.bin)];
    assert Programs(looked) == [] by {
      assert Programs(looked) == Programs([]);
    }
    if run.found && IdentityDirs(fs, secret).Ok? {
      ProgramsAppend(looked, [ProgramRun(g.bin, ["-o", Display(secret)])]);
    }
  }

  /** The second half runs `-y` once; it succeeds when that run does, the
      public file can be created and the key written, and the file then
      holds the run's stdout. A failed run or creation changes no file; a
      failed write leaves the public file created and empty. */
  lemma ExtractFacts(fs: Fs, secret: Path, public: Path, g: Generator, run: GeneratorRun)
    ensures var o := Extract(fs, secret, public, g, run);
      var creatable := !IsDir(fs, public) && ParentIsDir(fs, public);
      && Programs(o.events) == [(g.bin, [g.publicFlag, Display(secret)])]
      && (o.result.Ok? <==> run.extract.Succeeded() && creatable && run.written)
      && (o.result.Ok? ==> o.fs == fs[public := File(run.stdout)])
      && ((!run.extract.Succeeded() || !creatable) ==> o.fs == fs)
      && (run.extract.Exited? && !run.extract.Succeeded() ==> o.result == Err("Public-key extraction failed:\n" + run.stderr))
      && (run.extract.Succeeded() && !creatable ==> o.result == Err(CreateFailed))
      && (run.extract.Succeeded() && creatable && !run.written ==>
            o.result == Err(WriteFailed) && o.fs == fs[public := File("")])
  {
    var extracted := [ProgramRun(g.bin, [g.publicFlag, Display(secret)])];
    var o := Extract(fs, secret, public, g, run);
    if !run.extract.Succeeded() || WriteFile(fs, public, "").Err? {
      assert o.events == extracted;
    } else if !run.written {
      assert o.events == extracted && o.fs == fs[public := File("")];
    } else {
      var report := Report(g, secret, public, run.stdout);
      assert o.events == extracted + report;
      ProgramsAppend(extracted, report);
      ReportRunsNothing(g, secret, public, run.stdout);
    }
  }

  /** The two runs of the generator, in this order: `-o` then `-y`, both on
      the identity. A failure of the first means the second never runs and
      no public file is written; a failure of the second carries its stderr
      and also leaves the public file unwritten. */
  lemma StepOrder(fs: Fs, secret: Path, public: Path, g: Generator, run: GeneratorRun)
    requires run.found && IdentityDirs(fs, secret).Ok?
    ensures var o := Steps(fs, secret, public, g, run);
      var both := [(g.bin, ["-o", Display(secret)]), (g.bin, [g.publicFlag, Display(secret)])];
      && (!run.generate.Succeeded() ==>
            o.result.Err? && Programs(o.events) == both[..1] && o.fs == IdentityDirs(fs, secret).value)
      && (run.generate.Succeeded() ==> Programs(o.events) == both)
      && (run.generate.Succeeded() && run.extract.Exited? && !run.extract.Succeeded() ==>
            o.result == Err("Public-key extraction failed:\n" + run.stderr)
            && o.fs == IdentityDirs(fs, secret).value[secret := File(run.identity)])
  {
    var first := Generate(fs, secret, g, run);
    GenerateFacts(fs, secret, g, run);
    if first.result.Ok? {
      var second := Extract(first.fs, secret, public, g, run);
      ExtractFacts(first.fs, secret, public, g, run);
      ProgramsAppend(first.events, second.events);
    }
  }

  lemma ReportRunsNothing(g: Generator, secret: Path, public: Path, publicKey: string)
    ensures Programs(Report(g, secret, public, publicKey)) == []
  {
    var report := Report(g, secret, public, publicKey);
    assert Programs(report) == Programs(report[1..]);
    assert Programs(report[1..]) == Programs(report[2..]);
    assert Programs(report[2..]) == Programs(report[3..]);
    assert Programs(report[3..]) == Programs([]);
  }

  /** On success the public file holds exactly what `-y` printed, and the
      identity what `-o` wrote. */
  lemma PublicKeyWritten(fs: Fs, secret: Path, public: Path, g: Generator, run: GeneratorRun)
    ensures var o := Steps(fs, secret, public, g, run);
      o.result.Ok? ==>
        && public in o.fs && o.fs[public] == File(run.stdout)
        && (secret != public ==> secret in o.fs && o.fs[secret] == File(run.identity))
  {
    var first := Generate(fs, secret, g, run);
    GenerateFacts(fs, secret, g, run);
    if first.result.Ok? {
      ExtractFacts(first.fs, secret, public, g, run);
    }
  }

  /** A successful run looks the program up, runs `-o` and then `-y` on
      the identity, and ends with the report, whose last line carries the
      public key. */
  lemma SuccessTrace(fs: Fs, secret: Path, public: Path, g: Generator, run: GeneratorRun)
    ensures var o := Steps(fs, secret, public, g, run);
      o.result.Ok? ==>
        o.events == [Lookup(g.bin), ProgramRun(g.bin, ["-o", Display(secret)]),
                     ProgramRun(g.bin, [g.publicFlag, Display(secret)])]
                    + Report(g, secret, public, run.stdout)
  {
    var first := Generate(fs, secret, g, run);
    GeneratedEvents(fs, secret, g, run);
    if first.result.Ok? {
      var second := Extract(first.fs, secret, public, g, run);
      ExtractedEvents(first.fs, secret, public, g, run);
      assert Steps(fs, secret, public, g, run).events == first.events + second.events;
      PairThenRest(Lookup(g.bin), ProgramRun(g.bin, ["-o", Display(secret)]),
                   ProgramRun(g.bin, [g.publicFlag, Display(secret)]), Report(g, secret, public, run.stdout));
    }
  }

  lemma PairThenRest<T>(x: T, y: T, z: T, rest: seq<T>)
    ensures [x, y] + ([z] + rest) == [x, y, z] + rest
  {
  }

  /** Generation always starts by looking the program up. */
  lemma LooksUpFirst(fs: Fs, secret: Path, public: Path, g: Generator, run: GeneratorRun)
    ensures var o := Steps(fs, secret, public, g, run);
      o.events != [] && o.events[0] == Lookup(g.bin)
  {
    var first := Generate(fs, secret, g, run);
    assert first.events[0] == Lookup(g.bin);
    if first.result.Ok? {
      var o := After(first.events, Extract(first.fs, secret, public, g, run));
      assert o.events[0] == first.events[0];
    }
  }

  lemma GeneratedEvents(fs: Fs, secret: Path, g: Generator, run: GeneratorRun)
    ensures var o := Generate(fs, secret, g, run);
      o.result.Ok? ==> o.events == [Lookup(g.bin), ProgramRun(g.bin, ["-o", Display(secret)])]
  {
  }

  lemma ExtractedEvents(fs: Fs, secret: Path, public: Path, g: Generator, run: GeneratorRun)
    ensures var o := Extract(fs, secret, public, g, run);
      o.result.Ok? ==> o.events == [ProgramRun(g.bin, [g.publicFlag, Display(secret)])] + Report(g, secret, public, run.stdout)
  {
  }

  /** Generating a keypair only looks programs up, runs them and prints. */
  lemma OnlyKeygenEvents(fs: Fs, secret: Path, public: Path, g: Generator, run: GeneratorRun)
    ensures forall e | e in Steps(fs, secret, public, g, run).events :: e.Lookup? || e.ProgramRun? || e.Stdout?
  {
    var first := Generate(fs, secret, g, run);
    assert forall e | e in first.events :: e.Lookup? || e.ProgramRun?;
    if first.result.Ok? {
      var second := Extract(first.fs, secret, public, g, run);
      ExtractEvents(first.fs, secret, public, g, run);
      assert Steps(fs, secret, public, g, run).events == first.events + second.events;
    }
  }

  lemma ExtractEvents(fs: Fs, secret: Path, public: Path, g: Generator, run: GeneratorRun)
    ensures forall e | e in Extract(fs, secret, public, g, run).events :: e.ProgramRun? || e.Stdout?
  {
    var report := Report(g, secret, public, run.stdout);
    assert forall e | e in report :: e.Stdout?;
  }

  /** The last line printed ends with the public key itself. */
  lemma NoteEndsWithKey(publicKey: string)
    ensures EndsWith(PublicKeyNote(publicKey), publicKey + "\n")
  {
    var note := PublicKeyNote(publicKey);
    assert note[|note| - |publicKey + "\n"|..] == publicKey + "\n";
  }

  /** `create_dir_all` of the identity's parent, with its error context. */
  method MakeIdentityDirs(h: Host, secret: Path) returns (r: Result<()>)
    modifies h
    ensures h.stdin == old(h.stdin) && h.trace == old(h.trace)
    ensures IdentityDirs(old(h.fs), secret).Ok? ==> r == Ok(()) && h.fs == IdentityDirs(old(h.fs), secret).value
    ensures IdentityDirs(old(h.fs), secret).Err? ==> r == Err(DirFailed) && h.fs == old(h.fs)
  {
    var parent := Parent(secret);
    if parent.Some? {
      var made := h.Apply(CreateDirAll(h.fs, parent.value));
      if made.Err? {
        return Err(DirFailed);
      }
    }
    r := Ok(());
  }

  /** The first half, step by step. */
  method RunGenerate(h: Host, secret: Path, g: Generator, run: GeneratorRun) returns (r: Result<()>)
    modifies h
    ensures h.stdin == old(h.stdin)
    ensures var o := Generate(old(h.fs), secret, g, run);
      h.fs == o.fs && r == o.result && h.trace == old(h.trace) + o.events
  {
    h.Emit(Lookup(g.bin));
    if !run.found {
      return Err(g.InstallHint());
    }
    var made := MakeIdentityDirs(h, secret);
    if made.Err? {
      return made;
    }
    h.Emit(ProgramRun(g.bin, ["-o", Display(secret)]));
    if !run.generate.Succeeded() {
      return Err(GenerateError(g, run.generate));
    }
    h.fs := h.fs[secret := File(run.identity)];
    r := Ok(());
  }

  /** The second half, step by step. */
  method RunExtract(h: Host, secret: Path, public: Path, g: Generator, run: GeneratorRun) returns (r: Result<()>)
    modifies h
    ensures h.stdin == old(h.stdin)
    ensures var o := Extract(old(h.fs), secret, public, g, run);
      h.fs == o.fs && r == o.result && h.trace == old(h.trace) + o.events
  {
    h.Emit(ProgramRun(g.bin, [g.publicFlag, Display(secret)]));
    if !run.extract.Succeeded() {
      return Err(ExtractError(g, run));
    }
    var publicKey := run.stdout;
    var created := h.Apply(WriteFile(h.fs, public, ""));
    if created.Err? {
      return Err(CreateFailed);
    }
    if !run.written {
      return Err(WriteFailed);
    }
    h.fs := h.fs[public := File(publicKey)];
    PrintReport(h, g, secret, public, publicKey);
    r := Ok(());
  }

  /** The four lines printed after a successful generation. */
  method PrintReport(h: Host, g: Generator, secret: Path, public: Path, publicKey: string)
    modifies h
    ensures h.fs == old(h.fs) && h.stdin == old(h.stdin)
    ensures h.trace == old(h.trace) + Report(g, secret, public, publicKey)
  {
    h.Print("✅ Generated " + StripSuffix(g.bin, "-keygen") + " keypair:\n");
    h.Print("  🔐 Private:    " + Display(secret) + "\n");
    h.Print("  🟢 Public:     " + Display(public) + "\n");
    h.Print(PublicKeyNote(publicKey));
  }

  /** `generate_keypair` */
  method RunGenerateKeypair(h: Host, secret: Path, public: Path, tools: Tools) returns (r: Result<()>)
    modifies h
    ensures h.stdin == old(h.stdin)
    ensures var o := GenerateKeypair(old(h.fs), secret, public, tools);
      h.fs == o.fs && r == o.result && h.trace == old(h.trace) + o.events
  {
    var g := Select(secret);
    r := RunSteps(h, secret, public, g, tools(g.bin));
  }

  /** Both halves with a given generator. */
  method RunSteps(h: Host, secret: Path, public: Path, g: Generator, run: GeneratorRun) returns (r: Result<()>)
    modifies h
    ensures h.stdin == old(h.stdin)
    ensures var o := Steps(old(h.fs), secret, public, g, run);
      h.fs == o.fs && r == o.result && h.trace == old(h.trace) + o.events
  {
    ghost var t0 := h.trace;
    r := RunGenerate(h, secret, g, run);
    if r.Err? {
      return;
    }
    ghost var t1 := h.trace;
    ghost var fs1 := h.fs;
    r := RunExtract(h, secret, public, g, run);
    ghost var e := Extract(fs1, secret, public, g, run).events;
    assert h.trace == t1 + e;
    AppendAssoc(t0, t1[|t0|..], e);
  }
}

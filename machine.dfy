/** The machine the commands run on: a filesystem, the lines standard input
    will deliver, and a trace of everything observable the program does
    (output on stdout and stderr, and each external program it starts).
    External programs are not run: their outcomes are parameters of the
    operations that start them. */
module Machine {
  import opened Wrappers
  import opened Text
  import opened Paths

  datatype Node = File(content: string) | Dir

  /** The filesystem: every existing path and what is there. */
  type Fs = map<Path, Node>

  /** How an external program ended, as `Command::status` reports it:
      `Exited(Some(0))` is success, `Exited(None)` means it was killed by a
      signal and has no exit code, `LaunchFailed` means it never started. */
  datatype ProcessOutcome = Exited(code: Option<int>) | LaunchFailed(error: string) {
    predicate Succeeded() {
      Exited? && code == Some(0)
    }
  }

  /** What an editor session on a temporary file comes to: how the editor
      exited, and what reading the file back afterwards gives. */
  datatype EditorRun = EditorRun(status: ProcessOutcome, saved: Result<string>)

  /** The editor, as a function of the text the temporary file holds when
      it is started. */
  type Editor = string -> EditorRun

  datatype Event =
    | Stdout(text: string)
    | Stderr(text: string)
    | GitRun(cwd: Path, args: seq<string>)
    | EncryptRun(recipient: string, output: Path, plaintext: string)
    | DecryptRun(identity: Path, input: Path)
    | TempWrite(file: Path, content: string)
    | EditorStart(file: Path)
    | Lookup(program: string)
    | ProgramRun(program: string, args: seq<string>)
    | ConfirmPrompt(prompt: string)
    | CompletionInstall

  // The messages of the operating-system errors that can occur.
  const NotFoundError: string := "No such file or directory (os error 2)"
  const NotADirectoryError: string := "Not a directory (os error 20)"
  const IsADirectoryError: string := "Is a directory (os error 21)"
  const FileExistsError: string := "File exists (os error 17)"

  predicate IsFile(fs: Fs, p: Path) {
    p in fs && fs[p].File?
  }

  predicate IsDir(fs: Fs, p: Path) {
    p in fs && fs[p].Dir?
  }

  /** `a` and `b` agree at `q`: both lack it, or both hold the same there. */
  predicate Agree(a: Fs, b: Fs, q: Path) {
    (q in a <==> q in b) && (q in a ==> a[q] == b[q])
  }

  /** Some proper ancestor of `p` is a file. */
  predicate AncestorIsFile(fs: Fs, p: Path) {
    exists k | 0 < k < |p| :: IsFile(fs, p[..k])
  }

  /** The directory a new file at `p` would go into exists (the empty
      parent is the working directory). */
  predicate ParentIsDir(fs: Fs, p: Path) {
    match Parent(p)
    case None => false
    case Some(q) => q == [] || IsDir(fs, q)
  }

  /** `fs::create_dir_all`: `p` and its missing ancestors become
      directories; it fails when `p` is a file ("File exists") or, `p` being
      absent, one of its ancestors is a file ("Not a directory"). */
  function CreateDirAll(fs: Fs, p: Path): (r: Result<Fs>)
    ensures r.Err? <==> p != [] && (IsFile(fs, p) || (p !in fs && AncestorIsFile(fs, p)))
    ensures r.Ok? && p != [] ==> IsDir(r.value, p)
    ensures r.Ok? ==> forall q | q in fs :: q in r.value && r.value[q] == fs[q]
    ensures r.Ok? ==> forall q | q in r.value && q !in fs ::
      0 < |q| <= |p| && q == p[..|q|] && r.value[q] == Dir
    decreases |p|
  {
    if p == [] then Ok(fs)
    else if p in fs then
      if fs[p].Dir? then Ok(fs) else Err(FileExistsError)
    else if AncestorIsFile(fs, p) then Err(NotADirectoryError)
    else
      var parent := p[..|p| - 1];
      assert forall k | 0 < k < |parent| :: parent[..k] == p[..k];
      match CreateDirAll(fs, parent)
      case Err(e) => Err(e)
      case Ok(fs1) =>
        assert forall q | q in fs1 && q !in fs :: q == p[..|q|] by {
          forall q | q in fs1 && q !in fs ensures q == p[..|q|] {
            assert q == parent[..|q|];
          }
        }
        Ok(fs1[p := Dir])
  }

  /** `fs::remove_file`: only a file can be removed. */
  function RemoveFile(fs: Fs, p: Path): (r: Result<Fs>)
    ensures r.Ok? <==> IsFile(fs, p)
    ensures r.Ok? ==> p !in r.value && forall q | q in fs && q != p :: q in r.value && r.value[q] == fs[q]
    ensures r.Ok? ==> r.value.Keys == fs.Keys - {p}
  {
    if p !in fs then Err(NotFoundError)
    else if fs[p].Dir? then Err(IsADirectoryError)
    else Ok(fs - {p})
  }

  /** `fs::rename` of a file: it takes the place of whatever file was at
      `to`; a directory at `to` or a missing directory for `to` is an error. */
  function RenameFile(fs: Fs, from: Path, to: Path): (r: Result<Fs>)
    ensures r.Ok? <==> IsFile(fs, from) && !IsDir(fs, to) && ParentIsDir(fs, to)
    ensures r.Ok? ==> to in r.value && r.value[to] == fs[from]
    ensures r.Ok? && from != to ==> from !in r.value
    ensures r.Ok? ==> forall q | q in fs && q != from && q != to :: q in r.value && r.value[q] == fs[q]
    ensures r.Ok? ==> r.value.Keys == fs.Keys - {from} + {to}
  {
    if from !in fs then Err(NotFoundError)
    else if fs[from].Dir? || IsDir(fs, to) then Err(IsADirectoryError)
    else if !ParentIsDir(fs, to) then Err(NotFoundError)
    else Ok((fs - {from})[to := fs[from]])
  }

  /** `fs::write` (and `File::create` followed by a write): the file at `p`
      now holds `content`. */
  function WriteFile(fs: Fs, p: Path, content: string): (r: Result<Fs>)
    ensures r.Ok? <==> !IsDir(fs, p) && ParentIsDir(fs, p)
    ensures r.Ok? ==> r.value == fs[p := File(content)]
  {
    if IsDir(fs, p) then Err(IsADirectoryError)
    else if !ParentIsDir(fs, p) then Err(NotFoundError)
    else Ok(fs[p := File(content)])
  }

  /** Opening `p` to append (creating it when missing) and writing `text`:
      an existing file keeps its content with `text` after it. */
  function AppendFile(fs: Fs, p: Path, text: string): (r: Result<Fs>)
    ensures r.Ok? <==> !IsDir(fs, p) && ParentIsDir(fs, p)
    ensures r.Ok? && p in fs ==> r.value == fs[p := File(fs[p].content + text)]
    ensures r.Ok? && p !in fs ==> r.value == fs[p := File(text)]
  {
    if IsDir(fs, p) then Err(IsADirectoryError)
    else if !ParentIsDir(fs, p) then Err(NotFoundError)
    else if p in fs then Ok(fs[p := File(fs[p].content + text)])
    else Ok(fs[p := File(text)])
  }

  /** `fs::read_to_string` */
  function ReadFile(fs: Fs, p: Path): (r: Result<string>)
    ensures r.Ok? <==> IsFile(fs, p)
    ensures r.Ok? ==> fs[p] == File(r.value)
  {
    if p !in fs then Err(NotFoundError)
    else match fs[p]
      case Dir => Err(IsADirectoryError)
      case File(c) => Ok(c)
  }

  class Host {
    var fs: Fs
    /** What each coming `read_line` on standard input returns; once this is
        used up, every read returns end of input (an empty string). */
    var stdin: seq<Result<string>>
    var trace: seq<Event>

    constructor (files: Fs, input: seq<Result<string>>)
      ensures fs == files && stdin == input && trace == []
    {
      fs := files;
      stdin := input;
      trace := [];
    }

    method Emit(e: Event)
      modifies this
      ensures fs == old(fs) && stdin == old(stdin)
      ensures trace == old(trace) + [e]
    {
      trace := trace + [e];
    }

    /** `print!` (and `println!`, with the newline in `text`) */
    method Print(text: string)
      modifies this
      ensures fs == old(fs) && stdin == old(stdin)
      ensures trace == old(trace) + [Stdout(text)]
    {
      Emit(Stdout(text));
    }

    /** `eprint!` (and `eprintln!`) */
    method Eprint(text: string)
      modifies this
      ensures fs == old(fs) && stdin == old(stdin)
      ensures trace == old(trace) + [Stderr(text)]
    {
      Emit(Stderr(text));
    }

    /** `io::stdin().read_line`: the next input, or "" at end of input. */
    method ReadLine() returns (r: Result<string>)
      modifies this
      ensures fs == old(fs) && trace == old(trace)
      ensures old(stdin) == [] ==> r == Ok("") && stdin == []
      ensures old(stdin) != [] ==> r == old(stdin)[0] && stdin == old(stdin)[1..]
    {
      if stdin == [] {
        r := Ok("");
      } else {
        r := stdin[0];
        stdin := stdin[1..];
      }
    }

    /** Applies a filesystem operation: on success the filesystem becomes its
        result, on failure nothing changes. */
    method Apply(op: Result<Fs>) returns (r: Result<()>)
      modifies this
      ensures stdin == old(stdin) && trace == old(trace)
      ensures op.Ok? ==> r == Ok(()) && fs == op.value
      ensures op.Err? ==> r == Err(op.msg) && fs == old(fs)
    {
      if op.Ok? {
        fs := op.value;
        r := Ok(());
      } else {
        r := Err(op.msg);
      }
    }
  }
}

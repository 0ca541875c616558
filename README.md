# passman, modelled in Dafny

passman is a command-line password vault. Each entry is a file
`<vault>/<name>.rage` holding the password, encrypted to the user's public
key by the `rage` (or `age`) tool. This project models passman's core:

- **Configuration.** `load_config` finds the base directory from
  `PASSMAN_DIR`, `XDG_DATA_HOME` or `HOME`. It lays out the vault, the
  identity file and the extensions directory under it, creates the
  directories, and reads the clipboard timeout.
- **Encryption facade.** A backend is chosen by the file's extension
  (`.age` goes to age, anything else to rage). Its two factories can be
  replaced, as the program's own mock tests do. `detect_crypto_backend`
  asks which tool to use when both are installed.
- **Commands.**
  - `show`, `list`, `archive`, `create`, `insert`, `edit`, `remove` and
    `init`.
  - Key generation with `age-keygen`/`rage-keygen`.
  - The best-effort git sync that runs after `create`, `insert`, `edit`
    and `remove` (`archive` does not sync).
- **Completion scripts.** The header patch and the append-if-absent wrapper
  for the generated bash completion script. The `passman completion`
  installer that writes a marked script and makes `~/.bashrc` source it.

## How the model is built

- **Files.** The machine is a `Host` object (`machine.dfy`). Its fields
  are:
  - the filesystem, a map from paths (sequences of components) to files
    and directories;
  - the lines standard input will give;
  - the trace of what the program shows and runs: printed lines, prompts,
    git and key-generator invocations, encryptions, decryptions and editor
    sessions.
- **Outside programs.** git, the editor, the key generators and the
  encryption tools are parameters. For each, the model is given how that
  program's run ends. git is also given what each step it runs does to the
  files (`Git.writes`). The file-keeping lemmas of the commands say what
  passman itself writes before the sync. For paths outside the vault they
  also say what a git whose writes stay inside the repository
  (`WritesWithin`) leaves unchanged.
- **Commands.** Each command has two parts:
  - a specification function. It gives the command's outcome: the new
    filesystem, the result, and the events in order.
  - a `Run` method. It performs the steps one by one on the `Host`, and its
    `ensures` says that it ends in that outcome.
- **Properties.** The lemmas about the specification functions state what
  the program promises: which files change and which do not, the error
  cases, the order of the steps, and idempotence of the installers.

Modules follow the program's files:

- `Configuration` ← `src/config.rs`
- `Crypto` ← `src/crypto/crypto.rs`
- `Detect` ← `src/crypto/detect.rs`
- `GitOps` ← `src/utils/git_ops.rs`
- `Keygen` ← `src/utils/keygen.rs`
- one module per command in `src/commands/`
- `BashCompletion` ← `src/completions/bash.rs`
- `Completion` ← `src/completion.rs`

The support modules are:

- `Text`: Rust's string operations, such as `trim`, `lines` and
  `to_lowercase`.
- `Paths`: `Path` joins and extensions.
- `Ordering`: the byte order of names.
- `Machine`: the filesystem operations and the `Host`.
- `Store`: the encrypt-report-sync tail and the editor session shared by
  `create`, `insert` and `edit`.

## Model

| member | source | states |
|---|---|---|
| Configuration.BaseDirJoins | src/config.rs:27-40 | The base directory is PASSMAN_DIR as given, else XDG_DATA_HOME/passman, else HOME/.local/share/passman. With none of them set, it is the missing-HOME error. |
| Configuration.OverrideWins | src/config.rs:27-28 | With PASSMAN_DIR set, XDG_DATA_HOME and HOME make no difference to the base directory. |
| Configuration.HomeJoins | src/config.rs:34-38 | Joining `.local`, `share` and `passman` to HOME adds exactly those three components. |
| Configuration.LayoutJoins | src/config.rs:43-45 | The vault, identity and extensions paths are the base directory plus one component each. |
| Configuration.Layout | src/config.rs:43-45 | The three locations are pairwise distinct, and the vault and extensions directories lie under the base directory. |
| Configuration.PublicFileJoin | src/commands/init.rs:10 | The public key file is the base directory plus `public.key`. |
| Configuration.ParseU64 | src/config.rs:54 | A successful parse is below 2^64 and comes from a non-empty string other than a lone `+`. |
| Configuration.ParseU64OfDecimal | src/config.rs:54 | Every number below 2^64, written in decimal, parses back to itself. |
| Configuration.ClipTime | src/config.rs:52-55 | The timeout is the variable's value when it parses as a u64. A missing or unparsable variable gives 45. |
| Configuration.ClipTimeExamples | src/config.rs:52-55 | "30" gives 30 and "+7" gives 7. |
| Configuration.ClipTimeDefaults | src/config.rs:52-55 | "-5", " 30" and an unset variable all give 45. |
| Configuration.LoadConfig | src/config.rs:25-64 | A missing HOME is an error that changes nothing. Otherwise the fields are the derived layout, and on success the vault and extensions directories exist. |
| Crypto.SelectBackend | src/crypto/crypto.rs:9-15 | A path with extension `age` selects age; every other path selects rage. |
| Crypto.SelectorsAgree | src/crypto/crypto.rs:17-23 | The encrypt and decrypt selectors pick the same backend for every path. |
| Crypto.SelectByName | src/crypto/crypto.rs:9-23 | For a file `<stem>.<ext>`, age is chosen exactly when ext is `age`. |
| Crypto.EncryptResult | src/crypto/crypto.rs:33-36 | The facade succeeds exactly when the backend does, and otherwise passes on the backend's message. |
| Crypto.EncryptedFs | src/crypto/crypto.rs:33-36 | The filesystem changes only when an encryption succeeded and wrote ciphertext, and then only at the output path. |
| Crypto.Facade.constructor | src/crypto/crypto.rs:25-30 | Both factories start as the default selectors. |
| Crypto.Facade.Encrypt | src/crypto/crypto.rs:33-36 | The backend built from the output path is called with the recipient, path and plaintext, and its result and written file are the facade's. |
| Crypto.Facade.Decrypt | src/crypto/crypto.rs:39-42 | The result is exactly what the backend built from the encrypted path returns, and the filesystem is unchanged. |
| Crypto.Facade.SetEncryptFactory | src/crypto/crypto.rs:50-52 | Replaces the encrypt factory and keeps the decrypt factory. |
| Crypto.Facade.SetDecryptFactory | src/crypto/crypto.rs:54-56 | Replaces the decrypt factory and keeps the encrypt factory. |
| Crypto.EncryptIsMockable | src/crypto/crypto.rs:81-85 | With the mock factory in place, encrypting "hello-test" to `foo.age` succeeds and writes nothing. |
| Crypto.DecryptIsMockable | src/crypto/crypto.rs:88-92 | With the mock factory in place, decrypting `foo.age` gives "mocked". |
| Detect.Choice | src/crypto/detect.rs:28-31 | A line is an answer exactly when, trimmed and lowercased, it is `rage` or `age`, and the answer is that word. |
| Detect.Answers | src/crypto/detect.rs:27-28 | One answer per read, in order; a failed read is no answer. |
| Detect.FirstSome | src/crypto/detect.rs:22-34 | The position of the first answer: every earlier read gave none, and with no position no read gave one. |
| Detect.DetectionNamesATool | src/crypto/detect.rs:10-35 | Every successful detection names `rage` or `age`. The error comes exactly when neither tool is installed. |
| Detect.NeitherNamesBoth | src/crypto/detect.rs:12-16 | The error for a machine with neither tool names both. |
| Detect.IgnoredReads | src/crypto/detect.rs:22-34 | Reads that are not answers, in front of the rest, do not change the outcome. |
| Detect.SkipNones | src/crypto/detect.rs:22-34 | Missing answers in front shift the first answer's position and keep the decision. |
| Detect.Ask | src/crypto/detect.rs:23-32 | One round consumes one line. It prompts on stderr, gives that line's answer, and adds the complaint only for a read line that is not an answer. |
| Detect.RejectedOnce | src/crypto/detect.rs:23-31 | A rejected read shows the question, then the complaint when the line was read. |
| Detect.DetectBackend | src/crypto/detect.rs:6-37 | The verdict is the detection table's. With at most one tool nothing is read or printed. With both, the banner precedes the question loop. |
| Detect.AskUntilAnswered | src/crypto/detect.rs:22-34 | The loop stops at the first answer, reading no further. Its output is a question and complaint per rejected line, then the last question. With no answer it spins. |
| Detect.FirstAt | src/crypto/detect.rs:28-30 | An answer after missing ones is the first, and decides the tool. |
| Detect.AnsweredAt | src/crypto/detect.rs:22-34 | The loop exits at the first answer, leaving later lines unread, after exactly the prompts and complaints before it. |
| Detect.NeverAnswered | src/crypto/detect.rs:22-34 | Input without an answer reads all of stdin and never decides. |
| GitOps.Warning | src/utils/git_ops.rs:15-28 | A warning is printed exactly when the step did not succeed, and it starts with the step's name and "failed". |
| GitOps.NoExitCode | src/utils/git_ops.rs:16-20 | A failure without an exit code is reported as exit code -1. |
| GitOps.Commands | src/utils/git_ops.rs:36-41 | Each step's command is its arguments, run in the repository. |
| GitOps.SyncEventsSteps | src/utils/git_ops.rs:32-43 | A sync is the banner followed by the four steps' effects in order. |
| GitOps.SyncEventKinds | src/utils/git_ops.rs:32-43 | A sync only prints and runs git. |
| GitOps.SyncRunsFourSteps | src/utils/git_ops.rs:36-41 | Whatever each step's outcome, a sync runs exactly `add .`, `commit -m "Sync vault"`, `pull --rebase` and `push`, in order, in the repository. |
| GitOps.StepsWarn | src/utils/git_ops.rs:15-28 | Every failing step leaves its warning, and a run of successful steps prints nothing. |
| GitOps.SyncWarnsOnFailures | src/utils/git_ops.rs:32-43 | A sync warns about every failing step, and shows only the banner when all four succeed. |
| GitOps.GitSilent | src/utils/git_ops.rs:6-29 | One git step always returns Ok. It records the command and its warning, if any, leaves input alone, and changes the files as that git step does (`StepFs`). |
| GitOps.StepFs | src/utils/git_ops.rs:7-13 | A git that could not be launched changes no file. |
| GitOps.SyncKeepsOutside | src/utils/git_ops.rs:32-43 | When every git step writes only inside the repository, a sync leaves every path outside it as it was. |
| GitOps.NoGitNoWrites | src/utils/git_ops.rs:32-43 | When no git step can be launched, a sync changes no file. |
| GitOps.SyncVault | src/utils/git_ops.rs:32-43 | The sync always returns Ok. What it shows is exactly the banner and the four steps' events, and the files are what the four steps make of them, in order (`SyncFs`). |
| Show.ShowOutput | src/commands/show.rs:13-25 | The clipboard note wins over the QR note. Both win over the line selection, and line 0 or 1 prints the whole text. |
| Show.SelectsWrittenLine | src/commands/show.rs:17-19 | For text written as lines, line n (n ≥ 2) prints the n-th line. |
| Show.PastLastLine | src/commands/show.rs:20-21 | A line past the last is an error naming the entry. |
| Show.LineOneQuirk | src/commands/show.rs:17-24 | Line 1 prints the whole text while line 2 prints the second line. |
| Show.Run | src/commands/show.rs:5-28 | A missing entry file is "No such password", before any decryption. Otherwise the decryption comes first, then the `ShowOutput` line is printed or its error returned. Nothing changes on disk. |
| List.Entries | src/commands/list.rs:41-46 | The walked names are the directory's children except `.git`, each once, in ascending byte order. |
| List.EntryExists | src/commands/list.rs:41-44 | Every walked name exists in the directory and is not `.git`. |
| List.RowsBelow | src/commands/list.rs:50-75 | Every row drawn below a directory is an existing entry below it, with no `.git` component. |
| List.TopLevel | src/commands/list.rs:46-53 | The rows one level down are exactly the directory's entries, sorted, and only the final entry is marked last. |
| List.ChildIndent | src/commands/list.rs:64-70 | Every line printed anywhere below a directory entry starts with the directory's own indentation plus one column: a bar when the directory was not the last of its siblings, blanks when it was. |
| List.StripPrefix | src/commands/list.rs:25-26 | The stripped rest completes the prefix to the path, and failure means the prefix does not start the path. |
| List.LabelExamples | src/commands/list.rs:25-34 | The vault itself is labelled `vault`, and a directory below it is labelled `vault/<sub>`. |
| List.ListResult | src/commands/list.rs:6-38 | `list` fails exactly when the sub-path is neither a directory nor an entry, or the start cannot be read. |
| List.Run | src/commands/list.rs:6-38 | The output is the resolution's: an entry's name, or the label and the tree. Nothing changes on disk. |
| List.Tree | src/commands/list.rs:25-37 | The header line comes before the walk of the base directory, which fails exactly when the base is not a directory. |
| List.Walk | src/commands/list.rs:40-78 | The output is the tree's rows in order. An unreadable directory is an error that prints nothing. |
| List.WalkEntry | src/commands/list.rs:50-75 | One turn of the loop prints entry i and everything below it. |
| List.DrawIndent | src/commands/list.rs:56-62 | One column per ancestor: a bar under one that was not last, blanks otherwise. |
| Archive.ArchiveTarget | src/commands/archive.rs:14-20 | A path with an extension is used as joined; only a path without one gets the configured extension. |
| Archive.Hidden | src/commands/archive.rs:42-43 | The hidden name is in the same directory and is the file name with a leading dot. |
| Archive.ArchiveResult | src/commands/archive.rs:23-52 | Anything but an existing file is an error. |
| Archive.MissingOrNotFile | src/commands/archive.rs:23-28 | A missing path gives "File not found", and a directory gives "Not a file". |
| Archive.ArchiveMoves | src/commands/archive.rs:31-52 | On success the file is renamed to its dotted name and nothing else changes. |
| Archive.ArchiveTwice | src/commands/archive.rs:37-39 | Archiving the archived file again is refused as already archived. |
| Archive.ExtensionAppended | src/commands/archive.rs:17-20 | A path without an extension gets the configured extension with leading dots removed. |
| Archive.RelativeBaseDoubles | src/commands/archive.rs:11 | With a relative base directory, the archive root as written repeats the base and is not the vault. |
| Archive.AbsoluteBaseAgrees | src/commands/archive.rs:11 | With an absolute base directory, the root as written is the vault. |
| Archive.TargetInVault | src/commands/archive.rs:9-20 | Resolved against the vault, a relative entry path gives a target that starts with the vault directory, compared component by component as written. |
| Archive.TargetShape | src/commands/archive.rs:14-20 | The target differs from the joined path at most in its last component. |
| Archive.ResolvesInVault | src/commands/archive.rs:9-20 | For a relative entry path with no `..`, what follows the vault in the target has no `..`, and the target, with `..` resolved, lies inside the resolved vault directory. |
| Archive.TailNoDotDot | src/commands/archive.rs:14-20 | For a relative entry path with no `..`, nothing below the vault directory in the target is `..`. |
| Archive.LastNotDotDot | src/commands/archive.rs:16-19 | The target's last component is never `..` when the entry path has none, with or without the added extension. |
| Paths.Normalize | src/commands/archive.rs:14 | Resolving `..` never lengthens a path and leaves a path without `..` as it is. |
| Paths.NormalizeAppend | src/commands/archive.rs:14 | Components without `..` appended to a path stay as they are after resolution. |
| Paths.DotDotLeaves | src/commands/archive.rs:14 | `/home/../x` starts with `/home` as written but resolves to `/x`, outside it. |
| Paths.ExtendedNotDotDot | src/commands/archive.rs:16-19 | Giving an extension to a file name without one never yields `..`. |
| Archive.Run | src/commands/archive.rs:9-59 | The command as written: resolve against the base joined with the vault, apply the checks and rename, then echo the path without extension. |
| Archive.RunInVault | src/commands/archive.rs:9-59 | The same command resolved against the vault itself. |
| Archive.ArchiveIn | src/commands/archive.rs:14-56 | For a given root: the filesystem after is the rename's, and success echoes the path. |
| Store.After | src/commands/create.rs:22-27 | An outcome preceded by earlier events keeps its filesystem and result. |
| Store.EditOutcome | src/commands/create.rs:40-53 | The edit succeeds exactly when the editor exited successfully and the saved text is non-blank after trim_end; the result is that trimmed text. |
| Store.EditErrors | src/commands/create.rs:35-51 | Four errors, each with its own message: the editor cannot be launched; it exits with a failure; the temporary file cannot be read back; the text is blank once trailing whitespace is trimmed. |
| Store.EditSession | src/commands/insert.rs:52-76 | Without a temporary file the session fails before the editor. Otherwise its result is `EditOutcome` of the editor's run, and the editor start is recorded. |
| Store.StoreSteps | src/commands/insert.rs:37-41 | Exactly one encryption, of the text to the output. If it succeeds, the four git steps run and the result is Ok. If it fails, no git runs, the result is an error and nothing changes. |
| Store.StoreKeepsOthers | src/commands/insert.rs:37-41 | A failed store changes nothing. A successful one writes only the output file before git syncs. With git writing only inside the repository, every other path outside it is unchanged. |
| Store.SyncEncryptsNothing | src/utils/git_ops.rs:32-43 | A sync makes no encryption calls. |
| Store.StoreAndSync | src/commands/create.rs:22-27 | The method ends in the store outcome. |
| Store.ConfirmAndSync | src/commands/create.rs:24-27 | The confirmation then the sync; always Ok. |
| Store.ParentDirs | src/commands/insert.rs:26-29 | Creating the parent either fails with a message naming it, or adds only directories above the output, keeping every existing entry. |
| Store.MakeParentDirs | src/commands/create.rs:17-20 | The method ends in the `ParentDirs` outcome. |
| Create.EditAndStoreSteps | src/commands/create.rs:22-27 | Succeeds exactly when the edit and the encryption succeed. Success makes one encryption of the edited text and runs the four git steps. Failure runs no git and changes nothing. Before the sync only the output file may change. With git writing only inside the repository, every other path outside it is unchanged. |
| Create.EditThenStore | src/commands/create.rs:22-27 | The method ends in that outcome. |
| Create.NeverOverwrites | src/commands/create.rs:12-14 | An existing entry is refused with "File already exists", with nothing changed or run. |
| Create.KeepsExisting | src/commands/create.rs:9-28 | A failed `create` keeps every existing path as it was. A successful one hands git a filesystem that still holds every existing path unchanged. With git writing only inside the vault, existing paths outside it are kept. |
| Create.DirsStayOnAbort | src/commands/create.rs:17-27 | When the entry is new and its directories were made, a later failure leaves exactly the filesystem with those directories. The entry's parent is then a directory, and no git has run. |
| Create.Succeeds | src/commands/create.rs:9-28 | `create` succeeds exactly when the entry is new, its parent is made, the key is read, and the edit and encryption succeed. Success makes one encryption of the edited text and runs the four git steps; failure runs no git. |
| Create.Run | src/commands/create.rs:9-28 | The method ends in the `create` outcome. |
| Insert.PublicKey | src/commands/insert.rs:11-15 | The key is the trimmed content of `public.key`, and a missing file gives the read error. |
| Insert.PromptPassword | src/commands/insert.rs:44-50 | The password is the read line without trailing whitespace; a read error is passed on. |
| Insert.RefusesWithoutForce | src/commands/insert.rs:11-23 | Without `--force`, an existing entry is refused (after the public key was read; a missing key is its own error). Nothing changes and nothing is shown. |
| Insert.ForceReplaces | src/commands/insert.rs:17-41 | With `--force`, a prompted password is stored whether or not the entry exists. This is one encryption of the trimmed line with the trimmed key, then the four-step sync. |
| Insert.PromptSteps | src/commands/insert.rs:31-41 | The prompt is the first event. A read error ends there with nothing changed. A read line is encrypted once, without its trailing whitespace. |
| Insert.EmptyPassword | src/commands/insert.rs:31-35 | An empty line is stored by the prompt path, while the same empty text from the editor is refused. |
| Insert.PrepareKeeps | src/commands/insert.rs:11-29 | The preparation only adds parent directories. |
| Insert.PromptKeeps | src/commands/insert.rs:31-41 | A failed prompt or store changes nothing. A successful one writes only the entry before git syncs. With git writing only inside the repository, every other path outside it is unchanged. |
| Insert.KeepsOthers | src/commands/insert.rs:10-42 | A failed `insert` keeps every existing path (only directories may be added). A successful one hands git a filesystem in which every existing path but the entry is unchanged. With git writing only inside the vault, those paths outside it are kept. |
| Insert.Preparation | src/commands/insert.rs:11-29 | The method ends in the preparation's result. |
| Insert.PromptSingleline | src/commands/insert.rs:44-50 | Prints the prompt, consumes one line, and returns it without trailing whitespace. |
| Insert.PromptThenStore | src/commands/insert.rs:31-41 | The method ends in the prompt-and-store outcome and consumes one line. |
| Insert.Run | src/commands/insert.rs:10-42 | The method ends in the `insert` outcome, reading a line only on the prompt path. |
| Edit.MissingFileErrors | src/commands/edit.rs:141-148 | A missing entry is "No such password", with nothing changed or run. |
| Edit.DecryptFailureErrors | src/commands/edit.rs:152-163 | A failing decryption gives "Failed to decrypt existing entry", after only the decryption, with nothing changed. |
| Edit.WriteFailureErrors | src/commands/edit.rs:250-271 | A failing temporary-file write is an error before the editor runs. |
| Edit.EditorErrors | src/commands/edit.rs:30-47 | Each failure of the editor session has its own message: launch failure, any unsuccessful exit status, an unreadable temporary file, text that is empty once trailing whitespace is cut. An aborted session changes no file and only writes the temporary file and starts the editor. |
| Edit.AbortKeepsEntry | src/commands/edit.rs:11-47 | For an entry that exists and decrypts, any failure of the editor session leaves every file, the entry included, unchanged, makes no encryption and runs no git. |
| Edit.Reencrypts | src/commands/edit.rs:216-244 | After a successful edit, the temporary write and the editor come first. Then exactly one encryption of the trimmed text to the entry, with the public key. It succeeds with the four-step sync, or fails with the re-encrypt error and no sync, changing nothing. |
| Edit.KeepsPaths | src/commands/edit.rs:11-58 | A failed `edit`, an aborted one among them, changes no file. A successful one hands git a filesystem with the same paths in which only the entry changed. With git writing only inside the vault, every other path outside it is unchanged. |
| Edit.RewriteKeeps | src/commands/edit.rs:22-57 | The same as `KeepsPaths`, from the decrypted text on. |
| Edit.Editing.constructor | src/commands/edit.rs:60-63 | The write hook starts as the plain file write. |
| Edit.Editing.SetWriteHook | src/commands/edit.rs:66-69 | Replaces the write hook. |
| Edit.Editing.Run | src/commands/edit.rs:11-58 | The method ends in the `edit` outcome. |
| Edit.Editing.EditTemp | src/commands/edit.rs:23-47 | The temporary file and editor steps end in the rewrite outcome. |
| Edit.Editing.Finish | src/commands/edit.rs:49-57 | The re-encryption step ends in its outcome. |
| Remove.RemovesOnlyEntry | src/commands/remove.rs:7-23 | A missing entry, or a directory in its place, is an error that changes nothing. Otherwise passman removes exactly the entry file and git syncs what is left. With git writing only inside the vault, every other path outside it is unchanged, and an entry outside the vault stays removed. |
| Remove.SyncsThenReports | src/commands/remove.rs:14-21 | After the removal the vault is synced, and only then the removal is reported. |
| Remove.Run | src/commands/remove.rs:7-23 | The method ends in the `remove` outcome. |
| Keygen.Select | src/utils/keygen.rs:11-22 | An `.age` identity selects `age-keygen`, any other selects `rage-keygen`, and the public-key flag is `-y`. |
| Keygen.HintNamesProgram | src/utils/keygen.rs:15-20 | The install hint starts by naming the missing program. |
| Keygen.IdentityDirs | src/utils/keygen.rs:26-28 | Failing to create the identity's directory gives the fixed "Creating parent directory" message. |
| Keygen.MissingProgramFirst | src/utils/keygen.rs:24 | A missing program is the hint error before anything is created or run. |
| Keygen.GenerateFacts | src/utils/keygen.rs:24-38 | `<bin> -o <secret>` runs only once the program is found and the directory made. The step succeeds exactly when that run does, and then the identity is written. |
| Keygen.ExtractFacts | src/utils/keygen.rs:40-58 | The extraction runs `-y <secret>` once. It succeeds exactly when that run succeeds, the public file can be created and the key is written; the file then holds the run's stdout. A failed run carries its stderr and a failed creation gives "Failed to create recipient file"; neither changes any file. A failed write gives "Failed to write public key to recipient file" and leaves the public file created and empty. |
| Keygen.StepOrder | src/utils/keygen.rs:24-66 | The lookup, generation and extraction happen in that order, and a failing step stops the rest. |
| Keygen.PublicKeyWritten | src/utils/keygen.rs:54-58 | On success the public file holds exactly the extracted key. |
| Keygen.SuccessTrace | src/utils/keygen.rs:24-66 | A full success shows the lookup, the two runs and the report, in that order. |
| Keygen.LooksUpFirst | src/utils/keygen.rs:24 | The first event is always the program lookup. |
| Keygen.OnlyKeygenEvents | src/utils/keygen.rs:10-69 | Key generation only looks up, runs the generator and prints. |
| Keygen.NoteEndsWithKey | src/utils/keygen.rs:63-66 | The final note ends with the public key. |
| Keygen.MakeIdentityDirs | src/utils/keygen.rs:26-28 | The method ends in the `IdentityDirs` result. |
| Keygen.RunGenerate | src/utils/keygen.rs:30-38 | The method ends in the generation outcome. |
| Keygen.RunExtract | src/utils/keygen.rs:40-58 | The method ends in the extraction outcome. |
| Keygen.PrintReport | src/utils/keygen.rs:60-66 | Prints exactly the report lines. |
| Keygen.RunGenerateKeypair | src/utils/keygen.rs:10-69 | The method ends in the key-generation outcome. |
| Keygen.RunSteps | src/utils/keygen.rs:26-66 | The method ends in the outcome of the steps after the lookup. |
| Init.Discard | src/commands/init.rs:29-30 | The path is gone unless it was a directory; no path is added and every other path is kept. |
| Init.GenerationEvents | src/commands/init.rs:35-37 | Key generation neither prompts nor installs completions. |
| Init.GenerateThenInstallFacts | src/commands/init.rs:35-40 | A failed generation stops before the completion install; otherwise the install's result is the command's. |
| Init.NoKeysNoPrompt | src/commands/init.rs:13-14 | Without either key file there is no prompt. The first event is the lookup of the chosen generator. |
| Init.EitherKeyPrompts | src/commands/init.rs:14-23 | With either key file present the first event is the overwrite prompt. |
| Init.DeclineKeeps | src/commands/init.rs:24-26 | Declining keeps both key files, skips generation and still installs completions. |
| Init.PromptErrorStops | src/commands/init.rs:20-23 | A prompt error ends the command with nothing changed. |
| Init.AcceptRegenerates | src/commands/init.rs:27-37 | Accepting removes both key files, then generates new ones. |
| Init.ClearsKeys | src/commands/init.rs:29-30 | After the removals neither key is a file and nothing else changed. |
| Init.InstallsUnlessStopped | src/commands/init.rs:39-40 | When completions are installed, that is the last step and its result is the command's. A successful `init` always installed them. |
| Init.Run | src/commands/init.rs:8-43 | The method ends in the `init` outcome. |
| Init.Decide | src/commands/init.rs:13-32 | The decision step: no prompt without keys; otherwise the prompt and the removals on acceptance. |
| Init.Finish | src/commands/init.rs:34-42 | Generation when decided, then the install. |
| BashCompletion.PatchSplit | src/completions/bash.rs:26-50 | The patch works line by line: patching a + b patches a, then b in the mode a left. |
| BashCompletion.CopiesBeforeHeader | src/completions/bash.rs:26-49 | Lines before the first completer header are copied unchanged. |
| BashCompletion.HeaderFollowedByInjected | src/completions/bash.rs:28-37 | Every header, in either mode, is kept and followed by exactly the five injected lines, and header mode starts after it. |
| BashCompletion.DropsHeader | src/completions/bash.rs:40-47 | In header mode lines are dropped until a body line, and if none comes everything after is dropped. |
| BashCompletion.BodyEndsHeader | src/completions/bash.rs:40-44 | The first `cmd=` line after dropped lines is kept and ends header mode. |
| BashCompletion.HeaderIsNotBody | src/completions/bash.rs:28-41 | A header line never passes for a body line. |
| BashCompletion.JoinedLinesRoundTrip | src/completions/bash.rs:51 | Lines joined with line breaks read back as the same lines, when none holds a break and the last is not empty. |
| BashCompletion.SingleLine | src/completions/bash.rs:62 | A non-empty text without a line break reads as one line. |
| BashCompletion.PatchFile | src/completions/bash.rs:23-51 | The patch rewrites an existing script in place and creates no path. |
| BashCompletion.WrapperNamesItself | src/completions/bash.rs:69-72 | Once the wrapper is appended, some line names `_<bin>_wrapper`. |
| BashCompletion.AppendsIffAbsent | src/completions/bash.rs:60-96 | A missing script is an error. The wrapper is appended after the existing text exactly when no line names it, and otherwise the script is left alone. |
| BashCompletion.AppendWrapperIdempotent | src/completions/bash.rs:60-96 | Appending the wrapper a second time changes nothing. |
| BashCompletion.PatchLines | src/completions/bash.rs:24-50 | The loop with its `in_header` flag computes exactly `Patch`. |
| BashCompletion.PatchStep | src/completions/bash.rs:26-50 | One turn of the loop: the kept lines of this line, then the rest in the next mode. |
| BashCompletion.ScanForWrapper | src/completions/bash.rs:60-66 | The scan finds the wrapper's name exactly when some line contains it. |
| BashCompletion.RunPatch | src/completions/bash.rs:23-51 | The method ends in the `PatchFile` result. |
| BashCompletion.RunAppendWrapper | src/completions/bash.rs:60-96 | The method ends in the `AppendWrapper` result. |
| Completion.PassmanValid | src/completion.rs:11 | passman's marker and registration lines can be told apart and recognised once read back. |
| Completion.MarkerPlain | src/completion.rs:11 | The marker holds no line break. |
| Completion.CompletePlain | src/completion.rs:51 | The registration line holds no line break. |
| Completion.Target | src/completion.rs:7-9 | The script is `passman.bash` inside a `bash` directory below the configuration directory. |
| Completion.FramedLines | src/completion.rs:32-51 | A text framed by a first and a last line reads back with those lines first and last. |
| Completion.InstalledLines | src/completion.rs:32-51 | The written script's first line is the marker and its last is the `complete -F` line. |
| Completion.InstalledHasMarker | src/completion.rs:18-21 | A written script is recognised as installed the next time. |
| Completion.AppendedLineFound | src/completion.rs:77 | A line appended after a comment is found again by the trimmed-line scan. |
| Completion.BlockSources | src/completion.rs:62-77 | After the block is appended, `~/.bashrc` has a line that trims to `source <target>`. |
| Completion.EnsureAppendsIfAbsent | src/completion.rs:59-82 | `.bashrc` is left alone and nothing is printed when it already sources the script. Otherwise the exact block is appended after its content (or makes the file) and both notes are printed. |
| Completion.EnsureIdempotent | src/completion.rs:59-82 | After a successful call, a second call changes and prints nothing. |
| Completion.EnsureSourcedOnly | src/completion.rs:59-82 | `ensure_bashrc_sourced` only ever changes `~/.bashrc`. |
| Completion.SourcedSettles | src/completion.rs:59-82 | A successful call leaves `.bashrc` sourcing the script, with every other file as before. |
| Completion.SourcingKeepsScript | src/completion.rs:59-82 | Sourcing keeps the script, its marker and its directory. |
| Completion.PlaceFacts | src/completion.rs:18-53 | A script with the marker line is kept and reported as already there. Otherwise it is rewritten with the full text. Nothing else changes. |
| Completion.PlacedHasMarker | src/completion.rs:18-51 | Once the script step succeeds the script has the marker line. |
| Completion.PlacedKeepsDir | src/completion.rs:18-53 | The script step keeps the script's directory. |
| Completion.InstallFacts | src/completion.rs:6-56 | A successful install leaves the script's directory, the marked script and a sourcing `.bashrc` in place. |
| Completion.ProceedFacts | src/completion.rs:18-56 | Once the directory exists, a successful rest of install leaves the directory, the marked script and the source line. |
| Completion.SourcedLast | src/completion.rs:26 | Sourcing after a placed script leaves all three in place. |
| Completion.InstallIdempotent | src/completion.rs:6-56 | A second install after a successful one changes nothing, and only reports the script as already there. |
| Completion.PassmanIdempotent | src/completion.rs:6-56 | With passman's own lines and script, a second install after a successful one changes nothing, and only reports the script as already there. |
| Completion.SettledIsQuiet | src/completion.rs:18-29 | With directory, marked script and source line in place, install prints only the "already exists" note. |
| Completion.SettledShape | src/completion.rs:18-29 | With the directory and the marked script in place, install only reports and then ensures the sourcing. |
| Completion.DirsMade | src/completion.rs:13-15 | Once the directory is made, install goes on with the script step on the new filesystem. |
| Completion.DirReady | src/completion.rs:13-15 | With the directory already there, creating it changes nothing. |
| Completion.PlaceKept | src/completion.rs:18-27 | A marked script is kept and reported. |
| Completion.QuietAfter | src/completion.rs:63-68 | Finding `.bashrc` already sourcing after the report adds nothing. |
| Completion.ScanLines | src/completion.rs:20-28 | The scan finds a line trimming to the wanted one exactly when there is one. |
| Completion.RunEnsureSourced | src/completion.rs:59-82 | The method ends in the `ensure_bashrc_sourced` outcome. |
| Completion.RunPlaceScript | src/completion.rs:18-53 | The method ends in the script-step outcome. |
| Completion.RunInstall | src/completion.rs:6-56 | The method ends in the install outcome. |
| Completion.Run | src/completion.rs:6-56 | `install` with passman's own marker, function and registration line. |
| Text.TrimEnd | src/commands/create.rs:46 | The result is a prefix that does not end in whitespace, and only whitespace was removed. |
| Text.TrimStart | src/completions/bash.rs:41 | The result is a suffix that does not start with whitespace, and only whitespace was removed. |
| Text.ToLower | src/crypto/detect.rs:28 | Same length, each character lowercased. |
| Text.LinesCons | src/commands/show.rs:18 | Reading lines of `a\nrest` gives `a` (without a final CR) then the lines of rest. |
| Text.LinesConcat | src/completion.rs:20 | Lines of a text ending in a line break, followed by more, are the lines of each. |
| Text.LinesOfTerminated | src/commands/show.rs:18 | Lines each followed by a break read back as the same lines. |
| Text.LineBetween | src/completion.rs:65 | A line between two breaks is among the lines read. |
| Text.StripSuffix | src/commands/list.rs:72 | With the suffix present, the result plus the suffix is the input; otherwise the input. |
| Text.TrimStartMatches | src/commands/archive.rs:18 | Removes exactly the leading run of the character. |
| Paths.JoinPath | src/commands/archive.rs:11 | Joining an absolute path replaces; joining a relative one appends. |
| Paths.JoinComponent | src/config.rs:43 | Joining a plain name adds one component. |
| Paths.DotExtension | src/crypto/crypto.rs:10 | The extension of `stem.ext` is ext. |
| Paths.SetExtensionSets | src/commands/archive.rs:17-20 | Setting an extension makes it the path's extension, in the same directory. |
| Paths.Parent | src/commands/create.rs:17 | The parent is the path without its last component. |
| Ordering.LexTransitive | src/commands/list.rs:46 | The order of names is transitive. |
| Ordering.LexTotal | src/commands/list.rs:46 | Any two different names are ordered one way. |
| Ordering.LexAsymmetric | src/commands/list.rs:46 | No two names are ordered both ways. |
| Ordering.LeastExists | src/commands/list.rs:46 | Every non-empty set of names has a least one. |
| Ordering.SortNames | src/commands/list.rs:46 | The sort holds each name of the set once, in strictly ascending order. |
| Machine.CreateDirAll | src/config.rs:48-49 | Fails exactly when a file is in the way. Otherwise the path is a directory, every existing entry is kept, and only its ancestors are added. |
| Machine.RemoveFile | src/commands/remove.rs:14-15 | Succeeds exactly on a file, removing only it. |
| Machine.RenameFile | src/commands/archive.rs:46-52 | Succeeds exactly when the source is a file, the target is not a directory and its parent directory exists. It then moves the content to the target, replacing any file there, and changes nothing else. |
| Machine.WriteFile | src/utils/keygen.rs:56-58 | Succeeds when the target is not a directory and its parent is, and sets exactly that file. |
| Machine.AppendFile | src/completion.rs:72-77 | Appends to an existing file or creates it, and changes nothing else. |
| Machine.ReadFile | src/completions/bash.rs:23 | Succeeds exactly on a file, giving its content. |
| Machine.Host.ReadLine | src/commands/insert.rs:48 | Consumes one line of input; at the end of input it gives an empty line. |

## Left out

- Processes and the environment are parameters. This covers:
  - the outcome of each git step;
  - the editor's exit and the saved text;
  - whether a program is found on `PATH` (`which`) and how the key
    generators' runs end;
  - the lines of standard input;
  - the `Confirm` answer in `init`;
  - the configuration and home directories;
  - the environment variables.
- The `rage`/`age` backends (`src/crypto/rage.rs`, `src/crypto/age.rs`)
  are function fields of a backend value. Their subprocesses are not part
  of this model.
- `src/completions/mod.rs` is not part of this model. Its result is a
  parameter of `init`.
- Generating the clap script (`generate_to`, `src/completions/clap.rs`) is
  not modelled. Nor are the other steps of `install_file_path_completion`
  that only set it up: the config-dir lookup, `create_dir_all` and the
  vault path. Only the patch and the wrapper steps are modelled.
- `src/main.rs`, `src/cli.rs`, `src/utils/gather_config.rs`,
  `src/keygen.rs` and `src/utils/qr.rs` are not part of this model.
- Completion.Run: the installer's texts are parameters of the generic
  members. `Completion.Run` fixes them to passman's own.
- Completion.RunEnsureSourced: a directory at the `.bashrc` or script path
  is read as no lines. The program's `lines().flatten()` loops forever
  there.
- Completion.RunEnsureSourced: the panic of `home_dir().unwrap()` is an
  error result. So is the panic of `expect("HOME directory not set")` in
  Configuration.LoadConfig.
- Completion.RunPlaceScript: a failure of `writeln!` after the file was
  created is not modelled. A successful write stores the whole text at
  once.
- Machine: filesystem operations fail only on the structural conditions
  their contracts state (a directory or file in the way, a missing
  parent). Permission, disk-space and other I/O failures are not modelled,
  except where a `written` or `saved` field of a run stands for them.
- BashCompletion.WrapperNamesItself: requires a binary name without a line
  break.
- Detect.DetectBackend: the loop at the end of input spins forever in the
  program. The model returns the `Spins` verdict once standard input is
  exhausted.
- Show.Run: the clipboard and QR-code branches only print their notes,
  as in the program. `src/utils/qr.rs` is not modelled.
- Text.ToLower: lowercases ASCII letters only. No other character
  lowercases to a letter of `rage` or `age`, so the comparison in
  detection is unaffected.
- Keygen.PrintReport: `trim_end_matches("-keygen")` is modelled as removing
  the suffix once. Both program names contain it once.
- Paths: paths are component sequences. `Parse` drops empty and `.`
  segments. `Display` joins the components with `/`. `{:?}` is rendered
  as the path between double quotes; Rust's escaping of `"`, `\` and
  control characters inside it is not reproduced.
- Paths: file names are strings, so the "Invalid UTF-8 in filename" error
  of `archive` cannot occur.
- Machine.CreateDirAll: on failure nothing is created. The program may
  leave the directories it made before the failing one.
- Edit.Editing.EditTemp: temporary files live outside the modelled
  filesystem. The default write hook always succeeds.
- Configuration.LoadConfig: `entry_path`, `read_public` and the
  crypto-extension setting of the configuration are not in
  `src/config.rs` as given. They are parameters of the configuration
  value.
- GitOps.GitSilent: what a git step does to the files is a parameter
  (`Git.writes`), so the model says nothing about what git writes inside
  the repository. That includes the index, objects, and entries `pull
  --rebase` brings in or rewrites.
- GitOps.SyncKeepsOutside: that git writes only inside the repository is a
  hypothesis (`WritesWithin`), not something the model proves.
- Store.StoreKeepsOthers: what a successful command leaves inside the vault after the
  sync is not promised, because git's writes are a parameter. The lemma
  states passman's own writes before the sync, and the paths outside the
  vault under `WritesWithin`.
- Create.EditAndStoreSteps: the same as for `Store.StoreKeepsOthers`; the vault after the
  sync is not promised.
- Create.KeepsExisting: the same as for `Store.StoreKeepsOthers`; the vault after the
  sync is not promised.
- Insert.PromptKeeps: the same as for `Store.StoreKeepsOthers`; the vault after the
  sync is not promised.
- Insert.KeepsOthers: the same as for `Store.StoreKeepsOthers`; the vault after the
  sync is not promised.
- Edit.KeepsPaths: the same as for `Store.StoreKeepsOthers`; the vault after the
  sync is not promised.
- Remove.RemovesOnlyEntry: the same as for `Store.StoreKeepsOthers`; the vault after the
  sync is not promised.
- Paths: `..` is an ordinary component. Paths that name the same file
  through `..` are distinct keys of the filesystem, and symbolic links are
  not modelled. `Paths.Normalize` resolves `..` only for the statements
  about it.
- Archive.TargetInVault: the target starts with the vault directory as
  written. Once `..` is resolved, it lies inside the vault only when the
  entry path has no `..` (`Archive.ResolvesInVault`); `Paths.DotDotLeaves`
  shows one that leads out.
- Timing, concurrency and the thread-local storage of the factories are
  not modelled. The factories and the write hook are fields of objects.

## Findings

| source | as written | input that shows it | evidently intended | confidence | as-written member | corrected member |
|---|---|---|---|---|---|---|
| src/commands/archive.rs:11 | the archive root is `base_dir.join(prefix)`, where `prefix` is already `base_dir/vault` | `PASSMAN_DIR=data` (a relative path), `passman archive site`: the root is `data/data/vault`, not the vault | resolve entries against the vault directory `prefix` | medium; not executed | Archive.RelativeBaseDoubles | Archive.RunInVault, Archive.ResolvesInVault |

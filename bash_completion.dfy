/** The bash completion script for the binary `bin`: patching the header
    of the generated completer function, and appending the wrapper that
    completes entry names. */
module BashCompletion {
  import opened Wrappers
  import opened Text
  import opened Paths
  import opened Machine

  /** The lines put right after the completer's first line, in place of its
      old header. */
  const Injected: seq<string> := [
    "    local i cur prev opts cmd",
    "    COMPREPLY=()",
    "    # Use COMP_WORDS exclusively",
    "    cur=\"${COMP_WORDS[COMP_CWORD]}\"",
    "    prev=\"${COMP_WORDS[COMP_CWORD-1]}\""]

  /** The first line of the completer function `_<bin>()`. */
  predicate IsHeader(line: string, bin: string) {
    StartsWith(line, "_" + bin + "()")
  }

  /** The first line of the completer's body, which ends the old header. */
  predicate IsBody(line: string) {
    StartsWith(TrimStart(line), "cmd=")
  }

  /** What the patch keeps of one line, inside the old header or not: a
      completer's first line is kept and followed by the injected lines,
      whatever the mode; inside the header only the body's first line is
      kept; every other line is kept. */
  function Kept(line: string, bin: string, inHeader: bool): seq<string> {
    if IsHeader(line, bin) then [line] + Injected
    else if !inHeader || IsBody(line) then [line]
    else []
  }

  /** Whether the patch is inside a header after `line`: a completer's
      first line starts one, the body's first line ends it. */
  function Next(line: string, bin: string, inHeader: bool): bool {
    IsHeader(line, bin) || (inHeader && !IsBody(line))
  }

  /** The patched lines of `lines`, starting inside the old header when
      `inHeader` holds. */
  function Patch(lines: seq<string>, bin: string, inHeader: bool): seq<string>
    decreases |lines|
  {
    if lines == [] then []
    else Kept(lines[0], bin, inHeader) + Patch(lines[1..], bin, Next(lines[0], bin, inHeader))
  }

  /** Whether the patch is inside a header after `lines`. */
  function ModeAfter(lines: seq<string>, bin: string, inHeader: bool): bool
    decreases |lines|
  {
    if lines == [] then inHeader
    else ModeAfter(lines[1..], bin, Next(lines[0], bin, inHeader))
  }

  /** The patch works line by line: patching `a + b` patches `a`, then `b`
      in the mode `a` left. */
  lemma {:induction false} PatchSplit(a: seq<string>, b: seq<string>, bin: string, inHeader: bool)
    ensures Patch(a + b, bin, inHeader) == Patch(a, bin, inHeader) + Patch(b, bin, ModeAfter(a, bin, inHeader))
    decreases |a|
  {
    if a == [] {
      assert a + b == b;
    } else {
      var next := Next(a[0], bin, inHeader);
      var kept := Kept(a[0], bin, inHeader);
      assert (a + b)[0] == a[0] && (a + b)[1..] == a[1..] + b;
      assert Patch(a + b, bin, inHeader) == kept + Patch(a[1..] + b, bin, next);
      assert Patch(a, bin, inHeader) == kept + Patch(a[1..], bin, next);
      assert ModeAfter(a, bin, inHeader) == ModeAfter(a[1..], bin, next);
      PatchSplit(a[1..], b, bin, next);
      AppendAssoc(kept, Patch(a[1..], bin, next), Patch(b, bin, ModeAfter(a[1..], bin, next)));
    }
  }

  /** Lines before the first completer header are copied as they are. */
  lemma {:induction false} CopiesBeforeHeader(lines: seq<string>, bin: string)
    requires forall k | 0 <= k < |lines| :: !IsHeader(lines[k], bin)
    ensures Patch(lines, bin, false) == lines && !ModeAfter(lines, bin, false)
    decreases |lines|
  {
    if lines != [] {
      CopiesBeforeHeader(lines[1..], bin);
    }
  }

  /** Every completer header, wherever it comes and in whichever mode, is
      kept and followed by exactly the injected lines; what follows is
      patched inside the header. */
  lemma HeaderFollowedByInjected(lines: seq<string>, i: nat, bin: string, inHeader: bool)
    requires i < |lines| && IsHeader(lines[i], bin)
    ensures Patch(lines, bin, inHeader)
      == Patch(lines[..i], bin, inHeader) + [lines[i]] + Injected
         + Patch(lines[i + 1..], bin, true)
  {
    assert lines == lines[..i] + lines[i..];
    PatchSplit(lines[..i], lines[i..], bin, inHeader);
    var rest := lines[i..];
    assert rest[0] == lines[i] && rest[1..] == lines[i + 1..];
  }

  /** Inside a header, lines are dropped until the body's first line; if
      none comes, nothing more is kept. */
  lemma {:induction false} DropsHeader(lines: seq<string>, bin: string)
    requires forall k | 0 <= k < |lines| :: !IsHeader(lines[k], bin) && !IsBody(lines[k])
    ensures Patch(lines, bin, true) == [] && ModeAfter(lines, bin, true)
    decreases |lines|
  {
    if lines != [] {
      DropsHeader(lines[1..], bin);
    }
  }

  /** The body's first line after a dropped header is kept, and ends the
      header. */
  lemma BodyEndsHeader(dropped: seq<string>, body: string, rest: seq<string>, bin: string)
    requires forall k | 0 <= k < |dropped| :: !IsHeader(dropped[k], bin) && !IsBody(dropped[k])
    requires IsBody(body) && !IsHeader(body, bin)
    ensures Patch(dropped + [body] + rest, bin, true) == [body] + Patch(rest, bin, false)
  {
    DropsHeader(dropped, bin);
    assert dropped + [body] + rest == dropped + ([body] + rest);
    PatchSplit(dropped, [body] + rest, bin, true);
    assert ([body] + rest)[1..] == rest;
  }

  /** A completer header never passes for the body's first line. */
  lemma HeaderIsNotBody(line: string, bin: string)
    requires IsHeader(line, bin)
    ensures !IsBody(line)
  {
    assert line[0] == '_';
    TrimOfTrimmedStart(line);
  }

  lemma TrimOfTrimmedStart(s: string)
    requires s != [] && !IsWhitespace(s[0])
    ensures TrimStart(s) == s
  {
  }

  /** `lines.join("\n")` is the lines with a line break after each but the
      last, which has none after it. */
  lemma {:induction false} JoinedAsTerminated(ls: seq<string>)
    requires ls != []
    ensures JoinWith(ls, "\n") == Terminated(ls[..|ls| - 1]) + ls[|ls| - 1]
    decreases |ls|
  {
    if |ls| > 1 {
      JoinedAsTerminated(ls[1..]);
      assert ls[1..][..|ls[1..]| - 1] == ls[..|ls| - 1][1..];
    }
  }

  lemma {:induction false} TerminatedEndsLine(ls: seq<string>)
    ensures Terminated(ls) == [] || Terminated(ls)[|Terminated(ls)| - 1] == '\n'
    decreases |ls|
  {
    if ls != [] {
      TerminatedEndsLine(ls[1..]);
    }
  }

  /** Reading the joined lines back line by line gives them again, when
      none holds a line break and the last is not empty (an empty last line
      leaves nothing after the final break, and is not read back). */
  lemma JoinedLinesRoundTrip(ls: seq<string>)
    requires forall k | 0 <= k < |ls| :: IsPlainLine(ls[k])
    requires ls != [] && ls[|ls| - 1] != ""
    ensures Lines(JoinWith(ls, "\n")) == ls
  {
    var init, last := ls[..|ls| - 1], ls[|ls| - 1];
    assert forall k | 0 <= k < |init| :: init[k] == ls[k];
    TerminatedEndsLine(init);
    calc {
      Lines(JoinWith(ls, "\n"));
      { JoinedAsTerminated(ls); }
      Lines(Terminated(init) + last);
      { LinesConcat(Terminated(init), last); }
      Lines(Terminated(init)) + Lines(last);
      { LinesOfTerminated(init); SingleLine(last); }
      init + [last];
      { FrontThenLast(ls); }
      ls;
    }
  }

  /** A non-empty text without a line break is one line. */
  lemma SingleLine(s: string)
    requires IsPlainLine(s) && s != ""
    ensures Lines(s) == [s]
  {
    assert IndexOf(s, '\n') == None;
  }

  /** The name the wrapper function and its presence check use. */
  function WrapperName(bin: string): string {
    "_" + bin + "_wrapper"
  }

  /** Some line contains the wrapper's name. */
  predicate HasWrapper(lines: seq<string>, bin: string) {
    exists k | 0 <= k < |lines| :: Contains(lines[k], WrapperName(bin))
  }

  /** The wrapper for `bin`, listing the entries below the vault directory
      `vault`. */
  function Wrapper(bin: string, vault: string): string {
    WrapperText(WrapperComment(bin), bin, WrapperBody(bin, vault))
  }

  /** The shape of the wrapper: after a line break, a comment line, the
      line that opens `_<bin>_wrapper`, and the rest. */
  function WrapperText(comment: string, bin: string, body: string): string {
    "\n" + comment + "\n" + WrapperOpener(bin) + "\n" + body
  }

  function WrapperComment(bin: string): string {
    "# === `" + bin + "` custom wrapper for file-based completions ==="
  }

  function WrapperOpener(bin: string): string {
    WrapperName(bin) + "() {"
  }

  function WrapperBody(bin: string, vault: string): string {
    Terminated([
      "    local subcommand cur files",
      "    COMPREPLY=()",
      "    cur=\"${COMP_WORDS[COMP_CWORD]}\"",
      "    subcommand=\"${COMP_WORDS[1]}\"",
      "",
      "    if [[ \"$subcommand\" == \"list\" || \"$subcommand\" == \"show\" ]]; then",
      "        files=$(find \"" + vault + "\" -type f -name '*.rage' 2>/dev/null \\",
      "        | sed -e 's|.rage$||' -e 's|^" + vault + "/||')",
      "",
      "        COMPREPLY=( $(compgen -W \"${files}\" -- \"${cur}\") )",
      "    else",
      "        # Delegate back to the original clap handler",
      "        _" + bin + " \"$@\"",
      "    fi",
      "}",
      "",
      "# Override default handler but allow bash’s built-ins too",
      "complete -F " + WrapperName(bin) + " " + bin])
  }

  /** Once a wrapper of that shape is appended, the script has a line
      naming it (when the binary's name holds no line break). */
  lemma WrapperNamesItself(text: string, comment: string, bin: string, body: string)
    requires '\n' !in bin
    ensures HasWrapper(Lines(text + WrapperText(comment, bin, body)), bin)
  {
    var opener := WrapperOpener(bin);
    var front := text + "\n" + comment;
    ConcatRegroup(text, "\n", comment, "\n", opener, "\n", body);
    OpenerIsPlain(bin);
    LineBetween(front, opener, body);
    ContainsMiddle("", WrapperName(bin), "() {");
    assert "" + WrapperName(bin) + "() {" == opener;
    var lines := Lines(text + WrapperText(comment, bin, body));
    var k :| 0 <= k < |lines| && lines[k] == opener;
  }

  lemma ConcatRegroup<T>(a: seq<T>, b: seq<T>, c: seq<T>, d: seq<T>, e: seq<T>, f: seq<T>, g: seq<T>)
    ensures a + (b + c + d + e + f + g) == a + b + c + d + e + f + g
  {
    AppendAssoc(a, b + c + d + e + f, g);
    AppendAssoc(a, b + c + d + e, f);
    AppendAssoc(a, b + c + d, e);
    AppendAssoc(a, b + c, d);
    AppendAssoc(a, b, c);
  }

  lemma OpenerIsPlain(bin: string)
    requires '\n' !in bin
    ensures IsPlainLine(WrapperOpener(bin))
  {
    var opener := WrapperOpener(bin);
    assert opener == "_" + bin + ("_wrapper() {");
    assert opener[|opener| - 1] == '{';
  }

  /** Step 3 of the install: read the generated script, patch it, and
      write the patched lines back joined by line breaks. */
  function PatchFile(fs: Fs, file: Path, bin: string): (r: Result<Fs>)
    ensures r.Ok? ==> IsFile(fs, file) && r.value.Keys == fs.Keys
  {
    match ReadFile(fs, file)
    case Err(e) => Err(e)
    case Ok(raw) => WriteFile(fs, file, JoinWith(Patch(Lines(raw), bin, false), "\n"))
  }

  /** Step 5: read the script and append `wrapper` (the formatted
      wrapper) unless a line already names the wrapper function. */
  function AppendWrapper(fs: Fs, file: Path, bin: string, wrapper: string): Result<Fs> {
    match ReadFile(fs, file)
    case Err(e) => Err(e)
    case Ok(text) =>
      if HasWrapper(Lines(text), bin) then Ok(fs)
      else AppendFile(fs, file, wrapper)
  }

  /** The wrapper is appended exactly when no line names it, after what the
      script held; otherwise the script is left alone. A missing script is
      an error. */
  lemma AppendsIffAbsent(fs: Fs, file: Path, bin: string, wrapper: string)
    ensures var r := AppendWrapper(fs, file, bin, wrapper);
      && (!IsFile(fs, file) ==> r.Err?)
      && (IsFile(fs, file) && HasWrapper(Lines(fs[file].content), bin) ==> r == Ok(fs))
      && (IsFile(fs, file) && !HasWrapper(Lines(fs[file].content), bin) && ParentIsDir(fs, file) ==>
            r == Ok(fs[file := File(fs[file].content + wrapper)]))
  {
  }

  /** Appending the wrapper twice is appending it once. */
  lemma AppendWrapperIdempotent(fs: Fs, file: Path, bin: string, comment: string, body: string)
    requires '\n' !in bin
    requires AppendWrapper(fs, file, bin, WrapperText(comment, bin, body)).Ok?
    ensures var fs1 := AppendWrapper(fs, file, bin, WrapperText(comment, bin, body)).value;
      AppendWrapper(fs1, file, bin, WrapperText(comment, bin, body)) == Ok(fs1)
  {
    var text := fs[file].content;
    if !HasWrapper(Lines(text), bin) {
      WrapperNamesItself(text, comment, bin, body);
    }
  }

  /** The patching loop over the script's lines, with its `in_header` flag. */
  method PatchLines(lines: seq<string>, bin: string) returns (patched: seq<string>)
    ensures patched == Patch(lines, bin, false)
  {
    patched := [];
    var inHeader := false;
    assert lines[0..] == lines;
    for i := 0 to |lines|
      invariant patched + Patch(lines[i..], bin, inHeader) == Patch(lines, bin, false)
    {
      var line := lines[i];
      ghost var before, mode := patched, inHeader;
      PatchStep(lines, i, bin, inHeader);
      if IsHeader(line, bin) {
        inHeader := true;
        patched := patched + [line] + Injected;
        AppendAssoc(before, [line] + Injected, Patch(lines[i + 1..], bin, inHeader));
        continue;
      }
      if inHeader {
        if IsBody(line) {
          inHeader := false;
          patched := patched + [line];
          AppendAssoc(before, [line], Patch(lines[i + 1..], bin, inHeader));
        } else {
          assert Kept(line, bin, mode) + Patch(lines[i + 1..], bin, inHeader) == Patch(lines[i + 1..], bin, inHeader);
        }
        continue;
      }
      patched := patched + [line];
      AppendAssoc(before, [line], Patch(lines[i + 1..], bin, inHeader));
    }
    assert lines[|lines|..] == [];
  }

  lemma PatchStep(lines: seq<string>, i: nat, bin: string, inHeader: bool)
    requires i < |lines|
    ensures Patch(lines[i..], bin, inHeader)
      == Kept(lines[i], bin, inHeader) + Patch(lines[i + 1..], bin, Next(lines[i], bin, inHeader))
  {
    assert lines[i..][0] == lines[i] && lines[i..][1..] == lines[i + 1..];
  }

  /** The scan for a line naming the wrapper. */
  method ScanForWrapper(lines: seq<string>, bin: string) returns (found: bool)
    ensures found <==> HasWrapper(lines, bin)
  {
    var name := WrapperName(bin);
    for i := 0 to |lines|
      invariant forall k | 0 <= k < i :: !Contains(lines[k], name)
    {
      if Contains(lines[i], name) {
        return true;
      }
    }
    return false;
  }

  /** Step 3 on the filesystem. */
  method RunPatch(h: Host, file: Path, bin: string) returns (r: Result<()>)
    modifies h
    ensures h.stdin == old(h.stdin) && h.trace == old(h.trace)
    ensures var o := PatchFile(old(h.fs), file, bin);
      (o.Ok? ==> r == Ok(()) && h.fs == o.value) && (o.Err? ==> r == Err(o.msg) && h.fs == old(h.fs))
  {
    var raw := ReadFile(h.fs, file);
    if raw.Err? {
      return Err(raw.msg);
    }
    var patched := PatchLines(Lines(raw.value), bin);
    r := h.Apply(WriteFile(h.fs, file, JoinWith(patched, "\n")));
  }

  /** Step 5 on the filesystem. */
  method RunAppendWrapper(h: Host, file: Path, bin: string, wrapper: string) returns (r: Result<()>)
    modifies h
    ensures h.stdin == old(h.stdin) && h.trace == old(h.trace)
    ensures var o := AppendWrapper(old(h.fs), file, bin, wrapper);
      (o.Ok? ==> r == Ok(()) && h.fs == o.value) && (o.Err? ==> r == Err(o.msg) && h.fs == old(h.fs))
  {
    var text := ReadFile(h.fs, file);
    if text.Err? {
      return Err(text.msg);
    }
    var already := ScanForWrapper(Lines(text.value), bin);
    if already {
      return Ok(());
    }
    r := h.Apply(AppendFile(h.fs, file, wrapper));
  }
}

/** `passman show`: decrypt an entry and print it whole, one line of it,
    or a note for the output modes that are not implemented. */
module Show {
  import opened Wrappers
  import opened Text
  import opened Paths
  import opened Machine
  import opened Configuration
  import opened Crypto

  const ClipNote: string := "(Clipboard support not implemented yet)"
  const QrNote: string := "(QR code support not implemented yet)"

  function TooFewLines(path: string, line: nat): string {
    "File " + path + " has fewer than " + NatToString(line) + " lines"
  }

  /** What `show` prints for the decrypted `text`: the clipboard note wins
      over the QR note, which wins over line selection; a line number
      above 1 selects that line of `text.lines()`, and 0 or 1 prints the
      whole text. */
  function ShowOutput(text: string, path: string, clip: bool, qrcode: bool, line: nat): (r: Result<string>)
    ensures clip ==> r == Ok(ClipNote + "\n")
    ensures !clip && qrcode ==> r == Ok(QrNote + "\n")
    ensures !clip && !qrcode && line <= 1 ==> r == Ok(text + "\n")
  {
    if clip then Ok(ClipNote + "\n")
    else if qrcode then Ok(QrNote + "\n")
    else if line > 1 then
      var ls := Lines(text);
      if line - 1 < |ls| then Ok(ls[line - 1] + "\n") else Err(TooFewLines(path, line))
    else Ok(text + "\n")
  }

  /** For text written as lines, line `n` (from 2 on) is the `n`-th line
      written. */
  lemma SelectsWrittenLine(ls: seq<string>, path: string, line: nat)
    requires forall k | 0 <= k < |ls| :: IsPlainLine(ls[k])
    requires 2 <= line <= |ls|
    ensures ShowOutput(Terminated(ls), path, false, false, line) == Ok(ls[line - 1] + "\n")
  {
    LinesOfTerminated(ls);
  }

  /** Asking for a line past the last one is an error naming the entry and
      the line asked for. */
  lemma PastLastLine(ls: seq<string>, path: string, line: nat)
    requires forall k | 0 <= k < |ls| :: IsPlainLine(ls[k])
    requires 2 <= line && |ls| < line
    ensures ShowOutput(Terminated(ls), path, false, false, line) == Err(TooFewLines(path, line))
    ensures StartsWith(TooFewLines(path, line), "File " + path)
  {
    LinesOfTerminated(ls);
  }

  /** Line 1 is not the first line: it prints the whole text, while line 2
      prints only the second one. */
  lemma LineOneQuirk(first: string, second: string, path: string)
    requires IsPlainLine(first) && IsPlainLine(second) && second != []
    ensures ShowOutput(first + "\n" + second, path, false, false, 1) == Ok(first + "\n" + second + "\n")
    ensures ShowOutput(first + "\n" + second, path, false, false, 2) == Ok(second + "\n")
  {
    LinesCons(first, second);
    assert IndexOf(second, '\n').None?;
  }

  /** `run` of `show`. A missing entry file is an error before anything is
      decrypted; otherwise the entry is decrypted with the secret key and
      the output printed. */
  method Run(h: Host, c: Facade, cfg: Config, path: string, clip: bool, qrcode: bool, line: nat)
    returns (r: Result<()>)
    modifies h
    ensures h.fs == old(h.fs) && h.stdin == old(h.stdin)
    ensures RageFile(cfg.prefix, path) !in old(h.fs) ==>
      r == Err("No such password: " + Display(RageFile(cfg.prefix, path))) && h.trace == old(h.trace)
    ensures RageFile(cfg.prefix, path) in old(h.fs) ==>
      var file := RageFile(cfg.prefix, path);
      match c.decryptFactory(file).decrypt(cfg.secret, file, old(h.fs))
      case Err(e) => r == Err(e) && h.trace == old(h.trace) + [DecryptRun(cfg.secret, file)]
      case Ok(text) =>
        match ShowOutput(text, path, clip, qrcode, line)
        case Ok(out) => r == Ok(()) && h.trace == old(h.trace) + [DecryptRun(cfg.secret, file), Stdout(out)]
        case Err(e) => r == Err(e) && h.trace == old(h.trace) + [DecryptRun(cfg.secret, file)]
  {
    var file := RageFile(cfg.prefix, path);
    if file !in h.fs {
      return Err("No such password: " + Display(file));
    }
    var decrypted := c.Decrypt(h, cfg.secret, file);
    if decrypted.Err? {
      return Err(decrypted.msg);
    }
    var text := decrypted.value;
    if clip {
      h.Print(ClipNote + "\n");
    } else if qrcode {
      h.Print(QrNote + "\n");
    } else if line > 1 {
      var ls := Lines(text);
      if line - 1 < |ls| {
        h.Print(ls[line - 1] + "\n");
      } else {
        return Err(TooFewLines(path, line));
      }
    } else {
      h.Print(text + "\n");
    }
    r := Ok(());
  }
}

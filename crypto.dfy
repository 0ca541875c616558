/** The encryption facade: a backend chosen per file by a replaceable
    factory. The `age` and `rage` backends run external programs; here a
    backend is the pair of outcomes its two operations give. */
module Crypto {
  import opened Wrappers
  import opened Paths
  import opened Machine

  datatype BackendKind = AgeTool | RageTool | Substitute

  /** A `CryptoBackend`. `decrypt(identity, input, fs)` is the plaintext (or
      the error) decrypting `input` gives on filesystem `fs`;
      `encrypt(recipient, output, plaintext)` is the error, or the content
      the backend leaves at `output` (`None` when it writes nothing). */
  datatype Backend = Backend(
    kind: BackendKind,
    decrypt: (Path, Path, Fs) -> Result<string>,
    encrypt: (string, Path, string) -> Result<Option<string>>)

  type Factory = Path -> Backend

  /** The file extensions `default_encrypt_backend` and
      `default_decrypt_backend` test: "age" picks age, anything else rage. */
  function SelectBackend(age: Backend, rage: Backend, p: Path): (r: Backend)
    ensures Extension(p) == Some("age") ==> r == age
    ensures Extension(p) != Some("age") ==> r == rage
  {
    if Extension(p) == Some("age") then age else rage
  }

  function DefaultEncryptBackend(age: Backend, rage: Backend, output: Path): Backend {
    SelectBackend(age, rage, output)
  }

  function DefaultDecryptBackend(age: Backend, rage: Backend, input: Path): Backend {
    SelectBackend(age, rage, input)
  }

  /** The two default selectors agree on every path. */
  lemma SelectorsAgree(age: Backend, rage: Backend, p: Path)
    ensures DefaultEncryptBackend(age, rage, p) == DefaultDecryptBackend(age, rage, p)
  {
  }

  /** A file named `<stem>.age` goes to age; `<stem>.rage` (and every other
      extension) goes to rage. */
  lemma SelectByName(age: Backend, rage: Backend, dir: Path, stem: string, ext: string)
    requires IsComponent(stem) && '.' !in ext && '/' !in ext
    ensures SelectBackend(age, rage, dir + [stem + "." + ext]) == if ext == "age" then age else rage
  {
    DotExtension(stem, ext);
    var p := dir + [stem + "." + ext];
    var name := stem + "." + ext;
    assert p[|p| - 1] == name;
    assert name[..|stem|] == stem;
    assert name != Root && name != "..";
  }

  /** What an encryption comes to: its error, or success. */
  function EncryptResult(outcome: Result<Option<string>>): (r: Result<()>)
    ensures r.Ok? <==> outcome.Ok?
    ensures r.Err? ==> r.msg == outcome.msg
  {
    match outcome
    case Err(e) => Err(e)
    case Ok(_) => Ok(())
  }

  /** The filesystem after an encryption: only a successful one that wrote
      ciphertext changes it, at the output path. */
  function EncryptedFs(fs: Fs, output: Path, outcome: Result<Option<string>>): (r: Fs)
    ensures outcome.Ok? && outcome.value.Some? ==> r == fs[output := File(outcome.value.value)]
    ensures !(outcome.Ok? && outcome.value.Some?) ==> r == fs
  {
    if outcome.Ok? && outcome.value.Some? then fs[output := File(outcome.value.value)] else fs
  }

  /** The facade: the two factories the program starts with can be replaced. */
  class Facade {
    const age: Backend
    const rage: Backend
    var encryptFactory: Factory
    var decryptFactory: Factory

    constructor (age: Backend, rage: Backend)
      ensures this.age == age && this.rage == rage
      ensures encryptFactory == (p => DefaultEncryptBackend(age, rage, p))
      ensures decryptFactory == (p => DefaultDecryptBackend(age, rage, p))
    {
      this.age := age;
      this.rage := rage;
      encryptFactory := p => DefaultEncryptBackend(age, rage, p);
      decryptFactory := p => DefaultDecryptBackend(age, rage, p);
    }

    /** `encrypt`: the backend built from the output path gets the three
        arguments unchanged, and its outcome is the result. */
    method Encrypt(h: Host, recipient: string, output: Path, plaintext: string)
      returns (r: Result<()>)
      modifies h
      ensures h.stdin == old(h.stdin)
      ensures h.trace == old(h.trace) + [EncryptRun(recipient, output, plaintext)]
      ensures r == EncryptResult(encryptFactory(output).encrypt(recipient, output, plaintext))
      ensures h.fs == EncryptedFs(old(h.fs), output, encryptFactory(output).encrypt(recipient, output, plaintext))
    {
      var backend := encryptFactory(output);
      h.Emit(EncryptRun(recipient, output, plaintext));
      var outcome := backend.encrypt(recipient, output, plaintext);
      match outcome
      case Err(e) =>
        r := Err(e);
      case Ok(None) =>
        r := Ok(());
      case Ok(Some(ct)) =>
        h.fs := h.fs[output := File(ct)];
        r := Ok(());
    }

    /** `decrypt`: exactly what the backend built from the encrypted path
        returns. */
    method Decrypt(h: Host, identity: Path, input: Path) returns (r: Result<string>)
      modifies h
      ensures h.fs == old(h.fs) && h.stdin == old(h.stdin)
      ensures h.trace == old(h.trace) + [DecryptRun(identity, input)]
      ensures r == decryptFactory(input).decrypt(identity, input, old(h.fs))
    {
      var backend := decryptFactory(input);
      r := backend.decrypt(identity, input, h.fs);
      h.Emit(DecryptRun(identity, input));
    }

    /** `set_encrypt_factory`: the decrypt factory is left as it was. */
    method SetEncryptFactory(f: Factory)
      modifies this
      ensures encryptFactory == f && decryptFactory == old(decryptFactory)
    {
      encryptFactory := f;
    }

    /** `set_decrypt_factory`: the encrypt factory is left as it was. */
    method SetDecryptFactory(f: Factory)
      modifies this
      ensures decryptFactory == f && encryptFactory == old(encryptFactory)
    {
      decryptFactory := f;
    }
  }

  /** The backend the tests put in: decrypting always gives "mocked", and
      encrypting accepts the text "hello-test" (anything else fails the
      test's assertion) and writes nothing. */
  function MockBackend(): Backend {
    Backend(Substitute,
      (i: Path, e: Path, fs: Fs) => Ok("mocked"),
      (rcpt: string, o: Path, text: string) =>
        if text == "hello-test" then Ok(None) else Err("assertion failed: plaintext == \"hello-test\""))
  }

  /** After the decrypt factory is replaced by one building the mock, every
      decryption yields the mock's text. */
  method DecryptIsMockable(age: Backend, rage: Backend, files: Fs) returns (out: Result<string>)
    ensures out == Ok("mocked")
  {
    var h := new Host(files, []);
    var c := new Facade(age, rage);
    c.SetDecryptFactory(p => MockBackend());
    out := c.Decrypt(h, ["id"], ["foo.age"]);
  }

  /** After the encrypt factory is replaced, encrypting "hello-test" with the
      mock succeeds and leaves the filesystem as it was. */
  method EncryptIsMockable(age: Backend, rage: Backend, files: Fs) returns (out: Result<()>, after: Fs)
    ensures out == Ok(()) && after == files
  {
    var h := new Host(files, []);
    var c := new Facade(age, rage);
    c.SetEncryptFactory(p => MockBackend());
    out := c.Encrypt(h, "you", ["foo.age"], "hello-test");
    after := h.fs;
  }
}

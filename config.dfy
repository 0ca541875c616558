/** Where passman keeps its data, derived from the environment, and the
    creation of the vault and extensions directories. */
module Configuration {
  import opened Wrappers
  import opened Text
  import opened Paths
  import opened Machine

  /** The environment values `load_config` looks at. `home` is what
      `dirs::home_dir` finds; a variable that is unset (or not valid
      Unicode, which `env::var` also rejects) is `None`. */
  datatype Env = Env(
    passmanDir: Option<string>,
    xdgDataHome: Option<string>,
    home: Option<Path>,
    clipTime: Option<string>)

  /** The configuration the commands use. The last three fields are not
      built by `load_config`: the commands that use them (`create`, `edit`,
      `archive`) read them from a configuration whose definition is not part
      of this model, so they are parameters here. */
  datatype Config = Config(
    baseDir: Path,
    prefix: Path,
    secret: Path,
    extensionsDir: Path,
    clipTime: nat,
    cryptoExtension: string,
    entryPath: string -> Path,
    readPublic: Fs -> Result<string>)

  const HomeNotSet: string := "HOME directory not set"
  const DefaultClipTime: nat := 45
  const U64Limit: nat := 0x1_0000_0000_0000_0000

  /** The base directory: PASSMAN_DIR as given; otherwise
      XDG_DATA_HOME/passman; otherwise HOME/.local/share/passman. Without a
      home directory the program panics; that is the error here. Joining a
      plain name appends it as one component (`BaseDirJoins`). */
  function BaseDir(env: Env): Result<Path> {
    match env.passmanDir
    case Some(dir) => Ok(Parse(dir))
    case None =>
      match env.xdgDataHome
      case Some(data) => Ok(Parse(data) + ["passman"])
      case None =>
        match env.home
        case None => Err(HomeNotSet)
        case Some(home) => Ok(home + [".local", "share", "passman"])
  }

  /** The encrypted file of entry `path` as `show`, `insert` and `remove`
      name it: the path with ".rage" appended, below the vault. */
  function RageFile(prefix: Path, path: string): Path {
    Join(prefix, path + ".rage")
  }

  /** The public key file `insert` and `init` use, in the base directory. */
  function PublicFile(base: Path): Path { base + ["public.key"] }

  lemma PublicFileJoin(base: Path)
    ensures Join(base, "public.key") == PublicFile(base)
  {
    JoinComponent(base, "public.key");
  }

  function VaultDir(base: Path): Path { base + ["vault"] }
  function SecretFile(base: Path): Path { base + ["private.agekey"] }
  function ExtensionsDir(base: Path): Path { base + ["extensions"] }

  /** The names `load_config` joins are plain names, so each `join` adds
      exactly one component, as the layout functions do. */
  lemma LayoutJoins(base: Path)
    ensures Join(base, "vault") == VaultDir(base)
    ensures Join(base, "private.agekey") == SecretFile(base)
    ensures Join(base, "extensions") == ExtensionsDir(base)
  {
    JoinComponent(base, "vault");
    JoinComponent(base, "private.agekey");
    JoinComponent(base, "extensions");
  }

  /** Three plain names joined in turn are three more components. */
  lemma JoinThree(base: Path, a: string, b: string, c: string)
    requires IsComponent(a) && IsComponent(b) && IsComponent(c)
    ensures Join(Join(Join(base, a), b), c) == base + [a, b, c]
  {
    JoinComponent(base, a);
    JoinComponent(base + [a], b);
    JoinComponent(base + [a] + [b], c);
    assert base + [a] + [b] + [c] == base + [a, b, c];
  }

  /** HOME/.local/share/passman, component by component. */
  lemma HomeJoins(home: Path)
    ensures Join(Join(Join(home, ".local"), "share"), "passman") == home + [".local", "share", "passman"]
  {
    JoinThree(home, ".local", "share", "passman");
  }

  /** The three locations under the base directory are one component below
      it, each with its own name, so no two of them coincide and none is
      the base directory itself. */
  lemma Layout(base: Path)
    ensures VaultDir(base) != SecretFile(base) && VaultDir(base) != ExtensionsDir(base)
    ensures SecretFile(base) != ExtensionsDir(base)
    ensures VaultDir(base)[..|base|] == base && ExtensionsDir(base)[..|base|] == base
  {
    assert VaultDir(base)[|base|] == "vault";
    assert SecretFile(base)[|base|] == "private.agekey";
    assert ExtensionsDir(base)[|base|] == "extensions";
  }

  /** `BaseDir` is the base directory `load_config` builds with `join`:
      PASSMAN_DIR verbatim, else XDG_DATA_HOME joined with "passman", else
      HOME joined with ".local", "share" and "passman". */
  lemma BaseDirJoins(env: Env)
    ensures env.passmanDir.Some? ==> BaseDir(env) == Ok(Parse(env.passmanDir.value))
    ensures env.passmanDir.None? && env.xdgDataHome.Some? ==>
      BaseDir(env) == Ok(Join(Parse(env.xdgDataHome.value), "passman"))
    ensures env.passmanDir.None? && env.xdgDataHome.None? && env.home.Some? ==>
      BaseDir(env) == Ok(Join(Join(Join(env.home.value, ".local"), "share"), "passman"))
    ensures env.passmanDir.None? && env.xdgDataHome.None? && env.home.None? ==>
      BaseDir(env) == Err(HomeNotSet)
  {
    if env.xdgDataHome.Some? {
      JoinComponent(Parse(env.xdgDataHome.value), "passman");
    }
    if env.home.Some? {
      HomeJoins(env.home.value);
    }
  }

  /** With PASSMAN_DIR set, nothing else in the environment matters. */
  lemma OverrideWins(env: Env, other: Env)
    requires env.passmanDir.Some? && other.passmanDir == env.passmanDir
    ensures BaseDir(env) == BaseDir(other) == Ok(Parse(env.passmanDir.value))
  {
  }

  predicate AllDigits(s: string) {
    forall k | 0 <= k < |s| :: '0' <= s[k] <= '9'
  }

  /** The number a string of decimal digits stands for. */
  function DigitsValue(s: string): nat
    requires AllDigits(s)
  {
    if s == [] then 0 else DigitsValue(s[..|s| - 1]) * 10 + (s[|s| - 1] as int - '0' as int)
  }

  /** `str::parse::<u64>`: an optional '+', then one or more decimal digits
      whose value fits in 64 bits. */
  function ParseU64(s: string): (r: Option<nat>)
    ensures r.Some? ==> r.value < U64Limit
    ensures r.Some? ==> s != [] && s != "+"
  {
    var digits := if s != [] && s[0] == '+' then s[1..] else s;
    if digits == [] || !AllDigits(digits) then None
    else if DigitsValue(digits) < U64Limit then Some(DigitsValue(digits))
    else None
  }

  lemma {:induction false} DigitsOfNat(n: nat)
    ensures AllDigits(NatToString(n)) && DigitsValue(NatToString(n)) == n
  {
    var s := NatToString(n);
    if n >= 10 {
      DigitsOfNat(n / 10);
      assert s[..|s| - 1] == NatToString(n / 10);
    }
  }

  /** A number printed in decimal parses back to itself, when it fits. */
  lemma ParseU64OfDecimal(n: nat)
    requires n < U64Limit
    ensures ParseU64(NatToString(n)) == Some(n)
  {
    DigitsOfNat(n);
    assert NatToString(n)[0] != '+';
  }

  /** PASSWORD_STORE_CLIP_TIME when it parses as a u64, else 45 seconds. */
  function ClipTime(env: Env): (r: nat)
    ensures r < U64Limit
    ensures env.clipTime.Some? && ParseU64(env.clipTime.value).Some? ==>
      r == ParseU64(env.clipTime.value).value
    ensures env.clipTime.None? || ParseU64(env.clipTime.value).None? ==> r == DefaultClipTime
  {
    match env.clipTime
    case None => DefaultClipTime
    case Some(s) => ParseU64(s).GetOr(DefaultClipTime)
  }

  /** Decimal digits, with or without a leading `+`, set the timeout. */
  lemma ClipTimeExamples()
    ensures ClipTime(Env(None, None, None, Some("30"))) == 30
    ensures ClipTime(Env(None, None, None, Some("+7"))) == 7
  {
    ParseU64OfDecimal(30);
    assert DigitsValue("7") == 7;
  }

  /** A sign other than `+`, surrounding blanks or no variable at all give
      the default. */
  lemma ClipTimeDefaults()
    ensures ClipTime(Env(None, None, None, Some("-5"))) == 45
    ensures ClipTime(Env(None, None, None, Some(" 30"))) == 45
    ensures ClipTime(Env(None, None, None, None)) == 45
  {
  }

  /** `load_config`: derive the layout, create the vault directory and then
      the extensions directory; the remaining fields are passed in. */
  method LoadConfig(h: Host, env: Env, cryptoExtension: string,
                    entryPath: string -> Path, readPublic: Fs -> Result<string>)
    returns (r: Result<Config>)
    modifies h
    ensures h.stdin == old(h.stdin) && h.trace == old(h.trace)
    ensures BaseDir(env).Err? ==> r == Err(HomeNotSet) && h.fs == old(h.fs)
    ensures BaseDir(env).Ok? ==>
      var base := BaseDir(env).value;
      match CreateDirAll(old(h.fs), VaultDir(base))
      case Err(_) =>
        r == Err("Failed to create passman vault directory") && h.fs == old(h.fs)
      case Ok(fs1) =>
        match CreateDirAll(fs1, ExtensionsDir(base))
        case Err(_) =>
          r == Err("Failed to create passman extensions directory") && h.fs == fs1
        case Ok(fs2) =>
          h.fs == fs2 &&
          r == Ok(Config(base, VaultDir(base), SecretFile(base), ExtensionsDir(base),
                         ClipTime(env), cryptoExtension, entryPath, readPublic))
    ensures r.Ok? ==> IsDir(h.fs, r.value.prefix) && IsDir(h.fs, r.value.extensionsDir)
  {
    var b := BaseDir(env);
    if b.Err? {
      return Err(HomeNotSet);
    }
    var base := b.value;
    Layout(base);
    var made := h.Apply(CreateDirAll(h.fs, VaultDir(base)));
    if made.Err? {
      return Err("Failed to create passman vault directory");
    }
    made := h.Apply(CreateDirAll(h.fs, ExtensionsDir(base)));
    if made.Err? {
      return Err("Failed to create passman extensions directory");
    }
    r := Ok(Config(base, VaultDir(base), SecretFile(base), ExtensionsDir(base),
                   ClipTime(env), cryptoExtension, entryPath, readPublic));
  }
}

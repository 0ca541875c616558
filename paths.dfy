/** Filesystem paths as Rust's `Path` sees them: a sequence of components.
    An absolute path starts with the component "/", empty and "." segments
    are not components, and `join` with an absolute right-hand side replaces
    the left-hand side. `FileName`, `Extension`, `SetExtension` and `Parent`
    follow `Path::file_name`, `Path::extension`, `PathBuf::set_extension`
    and `Path::parent`. */
module Paths {
  import opened Wrappers
  import opened Text

  type Path = seq<string>

  const Root: string := "/"

  /** A single component: not empty, not ".", no separator inside. */
  predicate IsComponent(c: string) {
    c != "" && c != "." && '/' !in c
  }

  function Keep(piece: string): seq<string> {
    if piece == "" || piece == "." then [] else [piece]
  }

  /** The components of a relative path string. */
  function Segments(s: string): (r: seq<string>)
    ensures forall k | 0 <= k < |r| :: IsComponent(r[k])
    decreases |s|
  {
    match IndexOf(s, '/')
    case None => Keep(s)
    case Some(i) =>
      assert '/' !in s[..i] by {
        forall j | 0 <= j < i ensures s[..i][j] != '/' {
          assert s[..i][j] == s[j];
        }
      }
      Keep(s[..i]) + Segments(s[i + 1..])
  }

  /** `PathBuf::from(s)`, compared component-wise as Rust compares paths. */
  function Parse(s: string): Path {
    if s != [] && s[0] == '/' then [Root] + Segments(s[1..]) else Segments(s)
  }

  predicate IsAbsolute(p: Path) {
    p != [] && p[0] == Root
  }

  /** `base.join(other)` */
  function JoinPath(base: Path, other: Path): (r: Path)
    ensures IsAbsolute(other) ==> r == other
    ensures !IsAbsolute(other) ==> r == base + other
  {
    if IsAbsolute(other) then other else base + other
  }

  function Join(base: Path, s: string): Path {
    JoinPath(base, Parse(s))
  }

  /** A plain name parses as the one component it is. */
  lemma ParseComponent(c: string)
    requires IsComponent(c)
    ensures Parse(c) == [c]
  {
    assert IndexOf(c, '/').None?;
  }

  /** `base.join(c)` for a plain name `c` appends that one component. */
  lemma JoinComponent(base: Path, c: string)
    requires IsComponent(c)
    ensures Join(base, c) == base + [c]
  {
    ParseComponent(c);
  }

  /** `path.display()` */
  function Display(p: Path): string {
    if IsAbsolute(p) then Root + JoinWith(p[1..], "/") else JoinWith(p, "/")
  }

  /** `Path::file_name`: the last component, unless the path is empty,
      the root, or ends in "..". */
  function FileName(p: Path): (r: Option<string>)
    ensures r.Some? ==> p != [] && r.value == p[|p| - 1]
  {
    if p == [] || p[|p| - 1] == Root || p[|p| - 1] == ".." then None
    else Some(p[|p| - 1])
  }

  /** The position of the dot that starts a file name's extension: the last
      dot, unless there is none or it is the first character. */
  function ExtensionDot(name: string): (r: Option<nat>)
    ensures r.Some? ==> 0 < r.value < |name| && name[r.value] == '.'
    ensures r.Some? ==> forall j | r.value < j < |name| :: name[j] != '.'
    ensures r.None? ==> forall j | 0 < j < |name| :: name[j] != '.'
  {
    match LastIndexOf(name, '.')
    case None => None
    case Some(k) => if k == 0 then None else Some(k)
  }

  /** The extension of a file name, as `Path::extension` gives it. */
  function NameExtension(name: string): Option<string> {
    match ExtensionDot(name)
    case None => None
    case Some(k) => Some(name[k + 1..])
  }

  /** The file stem of a file name, as `Path::file_stem` gives it. */
  function NameStem(name: string): string {
    match ExtensionDot(name)
    case None => name
    case Some(k) => name[..k]
  }

  /** `Path::extension` */
  function Extension(p: Path): Option<string> {
    match FileName(p)
    case None => None
    case Some(n) => NameExtension(n)
  }

  /** `PathBuf::set_extension`: the file name is cut back to its stem and,
      when `ext` is not empty, "." + `ext` is appended; a path without a
      file name is left alone. */
  function SetExtension(p: Path, ext: string): (r: Path)
    ensures FileName(p).None? ==> r == p
    ensures FileName(p).Some? ==> |r| == |p| && r[..|p| - 1] == p[..|p| - 1]
  {
    match FileName(p)
    case None => p
    case Some(n) => p[..|p| - 1] + [NameStem(n) + (if ext == "" then "" else "." + ext)]
  }

  /** `Path::parent`: everything but the last component; none for the
      empty path and for the root. */
  function Parent(p: Path): (r: Option<Path>)
    ensures r.Some? ==> |p| > 0 && r.value == p[..|p| - 1]
  {
    if p == [] || p == [Root] then None else Some(p[..|p| - 1])
  }

  /** `q` is `dir` itself or lies below it. */
  predicate Inside(dir: Path, q: Path) {
    |dir| <= |q| && q[..|dir|] == dir
  }

  /** The path the operating system reaches through `p` when none of its
      components is a symbolic link: each ".." cancels the component before
      it, ".." at the root stays at the root, and a relative path keeps the
      ".." it cannot cancel. `Path` itself never does this: two paths that
      differ here are different keys of a filesystem. */
  function Normalize(p: Path): (r: Path)
    ensures |r| <= |p|
    ensures ".." !in p ==> r == p
    decreases |p|
  {
    if p == [] then []
    else
      var front := Normalize(p[..|p| - 1]);
      var last := p[|p| - 1];
      assert p == p[..|p| - 1] + [last];
      if last != ".." then front + [last]
      else if front == [Root] then front
      else if front != [] && front[|front| - 1] != ".." then front[..|front| - 1]
      else front + [".."]
  }

  /** Components without ".." are kept as they are after whatever they
      are appended to is resolved: `p + s` resolves inside what `p`
      resolves to. */
  lemma {:induction false} NormalizeAppend(p: Path, s: Path)
    requires ".." !in s
    ensures Normalize(p + s) == Normalize(p) + s
    decreases |s|
  {
    if s == [] {
      assert p + s == p;
    } else {
      var front := s[..|s| - 1];
      assert s == front + [s[|s| - 1]];
      assert ".." !in front;
      NormalizeAppend(p, front);
      assert (p + s)[..|p + s| - 1] == p + front;
      assert (p + s)[|p + s| - 1] == s[|s| - 1];
    }
  }

  /** A ".." below a directory leads out of it: the two paths are distinct
      keys, yet the second resolves to a sibling of the directory. */
  lemma DotDotLeaves()
    ensures Normalize([Root, "home", "..", "x"]) == [Root, "x"]
    ensures Inside([Root, "home"], [Root, "home", "..", "x"])
    ensures !Inside([Root, "home"], Normalize([Root, "home", "..", "x"]))
  {
    var p: Path := [Root, "home", "..", "x"];
    assert p[..3][..2] == [Root, "home"];
    assert p[..3][..2][..1] == [Root];
    assert p[..3][..2][..1][..0] == [];
    assert Normalize(p[..3][..2]) == [Root, "home"];
    assert Normalize(p[..3]) == [Root];
    assert Normalize(p) == [Root, "x"];
  }

  /** Giving an extension to a file name that has none never yields "..". */
  lemma ExtendedNotDotDot(p: Path, ext: string)
    requires FileName(p).Some? && FileName(p).value != "" && Extension(p).None?
    ensures var r := SetExtension(p, ext); |r| == |p| && r[|r| - 1] != ".."
  {
    var n := FileName(p).value;
    assert NameStem(n) == n;
    var named := n + (if ext == "" then "" else "." + ext);
    var r := SetExtension(p, ext);
    assert r == p[..|p| - 1] + [named];
    if ext != "" {
      assert |named| >= 3;
    }
  }

  /** A prefix of a prefix of `p` is a prefix of `p`. */
  lemma PrefixOfPrefix<T>(p: seq<T>, a: seq<T>, q: seq<T>)
    requires |a| <= |p| && a == p[..|a|]
    requires |q| <= |a| && q == a[..|q|]
    ensures q == p[..|q|]
  {
  }

  /** Appending "." + `ext` to a non-empty stem gives a name whose
      extension is `ext`, when `ext` has no dot of its own. */
  lemma DotExtension(stem: string, ext: string)
    requires stem != [] && '.' !in ext
    ensures NameExtension(stem + "." + ext) == Some(ext)
  {
    var s := stem + "." + ext;
    var k := |stem|;
    assert s[k] == '.';
    assert forall j | k < j < |s| :: s[j] == ext[j - k - 1] && s[j] != '.';
    assert LastIndexOf(s, '.') == Some(k);
    assert s[k + 1..] == ext;
  }

  /** `SetExtension` with a dot-free, non-empty extension leaves a path whose
      extension is exactly that one. */
  lemma SetExtensionSets(p: Path, ext: string)
    requires FileName(p).Some? && NameStem(FileName(p).value) != []
    requires ext != "" && '.' !in ext && '/' !in ext
    ensures Extension(SetExtension(p, ext)) == Some(ext)
  {
    var n := FileName(p).value;
    DotExtension(NameStem(n), ext);
    var r := SetExtension(p, ext);
    assert r[|r| - 1] == NameStem(n) + "." + ext;
  }
}

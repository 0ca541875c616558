/** `passman list`: resolve an optional sub-path of the vault, print a
    header, and draw the directory tree below it. */
module List {
  import opened Wrappers
  import opened Text
  import opened Paths
  import opened Machine
  import opened Ordering
  import opened Configuration

  /** The names directly inside `dir`. */
  function Children(fs: Fs, dir: Path): set<string> {
    set p | p in fs && |p| == |dir| + 1 && p[..|dir|] == dir :: p[|dir|]
  }

  /** The entries `walk` visits in `dir`: every child but ".git", in
      ascending order of name. */
  function Entries(fs: Fs, dir: Path): (r: seq<string>)
    ensures StrictlySorted(r)
    ensures forall n :: n in r <==> n in Children(fs, dir) && n != ".git"
  {
    SortNames(Children(fs, dir) - {".git"})
  }

  lemma EntryExists(fs: Fs, dir: Path, n: string)
    requires n in Entries(fs, dir)
    ensures dir + [n] in fs && n != ".git"
  {
    var p :| p in fs && |p| == |dir| + 1 && p[..|dir|] == dir && p[|dir|] == n;
    assert p == dir + [n];
  }

  /** Everything strictly below `dir`. */
  function Under(fs: Fs, dir: Path): set<Path> {
    set p | p in fs && |p| > |dir| && p[..|dir|] == dir
  }

  lemma UnderShrinks(fs: Fs, dir: Path, n: string)
    requires dir + [n] in fs
    ensures Under(fs, dir + [n]) < Under(fs, dir)
  {
    var c := dir + [n];
    forall p | p in Under(fs, c) ensures p in Under(fs, dir) {
      assert p[..|dir|] == p[..|c|][..|dir|];
    }
    assert c in Under(fs, dir) && c !in Under(fs, c);
  }

  /** One entry of the tree as `walk` meets it: the lastness of each
      ancestor entry (`indent`), whether it is the last of its siblings, its
      path, and whether it is a directory. */
  datatype Row = Row(indent: seq<bool>, last: bool, path: Path, isDir: bool)

  /** The rows of the tree below `dir`, parents before their children, with
      `parts` as the indentation already accumulated. */
  function Rows(fs: Fs, dir: Path, parts: seq<bool>): seq<Row>
    decreases Under(fs, dir), 1, 0
  {
    RowsFrom(fs, dir, parts, Entries(fs, dir), 0)
  }

  /** The rows for the entries `names[i..]` of `dir`. */
  function RowsFrom(fs: Fs, dir: Path, parts: seq<bool>, names: seq<string>, i: nat): seq<Row>
    decreases Under(fs, dir), 0, |names| - i
  {
    if i >= |names| then []
    else
      var child := dir + [names[i]];
      var last := i == |names| - 1;
      var below := if IsDir(fs, child) then (UnderShrinks(fs, dir, names[i]); Rows(fs, child, parts + [!last])) else [];
      [Row(parts, last, child, IsDir(fs, child))] + below + RowsFrom(fs, dir, parts, names, i + 1)
  }

  function Name(r: Row): string {
    if r.path == [] then "" else r.path[|r.path| - 1]
  }

  const Pipe: string := "│   "
  const Blank: string := "    "
  const Tee: string := "├── "
  const Elbow: string := "└── "

  /** The indentation columns: a bar under an ancestor that was not last. */
  function Indent(parts: seq<bool>): (r: seq<Event>)
    ensures |r| == |parts|
  {
    if parts == [] then []
    else Indent(parts[..|parts| - 1]) + [Stdout(if parts[|parts| - 1] then Pipe else Blank)]
  }

  /** What `walk` prints for one row: the indentation, then a line for a
      directory or an entry file (without its ".rage"); other files get
      only the indentation. */
  function RowEvents(r: Row): seq<Event> {
    var branch := if r.last then Elbow else Tee;
    Indent(r.indent)
      + if r.isDir then [Stdout(branch + Name(r) + "\n")]
        else if EndsWith(Name(r), ".rage") then [Stdout(branch + StripSuffix(Name(r), ".rage") + "\n")]
        else []
  }

  function Events(rows: seq<Row>): seq<Event> {
    if rows == [] then [] else RowEvents(rows[0]) + Events(rows[1..])
  }

  lemma {:induction false} EventsAppend(a: seq<Row>, b: seq<Row>)
    ensures Events(a + b) == Events(a) + Events(b)
  {
    if a == [] {
      assert a + b == b;
    } else {
      assert (a + b)[0] == a[0] && (a + b)[1..] == a[1..] + b;
      assert Events(a + b) == RowEvents(a[0]) + Events(a[1..] + b);
      EventsAppend(a[1..], b);
      AppendAssoc(RowEvents(a[0]), Events(a[1..]), Events(b));
    }
  }

  /** Every row below `dir` is an existing entry below it, none is named
      ".git", and its indentation extends `parts`. */
  predicate RowBelow(fs: Fs, dir: Path, parts: seq<bool>, r: Row) {
    && r.path in fs
    && |r.path| > |dir| && r.path[..|dir|] == dir
    && Name(r) != ".git"
    && |r.indent| >= |parts| && r.indent[..|parts|] == parts
    && r.isDir == IsDir(fs, r.path)
  }

  lemma {:induction false} RowsBelow(fs: Fs, dir: Path, parts: seq<bool>)
    ensures forall r | r in Rows(fs, dir, parts) :: RowBelow(fs, dir, parts, r)
    decreases Under(fs, dir), 1, 0
  {
    RowsFromBelow(fs, dir, parts, Entries(fs, dir), 0);
  }

  lemma {:induction false} RowsFromBelow(fs: Fs, dir: Path, parts: seq<bool>, names: seq<string>, i: nat)
    requires forall n | n in names :: n in Entries(fs, dir)
    ensures forall r | r in RowsFrom(fs, dir, parts, names, i) :: RowBelow(fs, dir, parts, r)
    decreases Under(fs, dir), 0, |names| - i
  {
    if i < |names| {
      var n := names[i];
      var child := dir + [n];
      var last := i == |names| - 1;
      EntryExists(fs, dir, n);
      var head := Row(parts, last, child, IsDir(fs, child));
      HeadBelow(fs, dir, parts, n, last);
      var below := if IsDir(fs, child) then Rows(fs, child, parts + [!last]) else [];
      if IsDir(fs, child) {
        UnderShrinks(fs, dir, n);
        RowsBelow(fs, child, parts + [!last]);
        ShiftBelow(fs, dir, parts, n, !last, below);
      }
      var rest := RowsFrom(fs, dir, parts, names, i + 1);
      RowsFromBelow(fs, dir, parts, names, i + 1);
      assert RowsFrom(fs, dir, parts, names, i) == [head] + below + rest;
    }
  }

  lemma HeadBelow(fs: Fs, dir: Path, parts: seq<bool>, n: string, last: bool)
    requires dir + [n] in fs && n != ".git"
    ensures RowBelow(fs, dir, parts, Row(parts, last, dir + [n], IsDir(fs, dir + [n])))
  {
    assert (dir + [n])[..|dir|] == dir;
  }

  /** What lies below a child lies below its parent. */
  lemma ShiftBelow(fs: Fs, dir: Path, parts: seq<bool>, n: string, bar: bool, rows: seq<Row>)
    requires forall r | r in rows :: RowBelow(fs, dir + [n], parts + [bar], r)
    ensures forall r | r in rows :: RowBelow(fs, dir, parts, r)
  {
    var child := dir + [n];
    forall r | r in rows ensures RowBelow(fs, dir, parts, r) {
      assert RowBelow(fs, child, parts + [bar], r);
      assert r.path[..|dir|] == r.path[..|child|][..|dir|];
      assert r.indent[..|parts|] == r.indent[..|parts| + 1][..|parts|];
    }
  }

  /** The rows one level down are exactly the entries of `dir`, in order:
      the `k`-th of them is the `k`-th entry, and only the final one is
      marked last. */
  function TopRows(rows: seq<Row>, depth: nat): seq<Row> {
    if rows == [] then []
    else (if |rows[0].path| == depth + 1 then [rows[0]] else []) + TopRows(rows[1..], depth)
  }

  lemma {:induction false} TopRowsAppend(a: seq<Row>, b: seq<Row>, depth: nat)
    ensures TopRows(a + b, depth) == TopRows(a, depth) + TopRows(b, depth)
  {
    if a == [] {
      assert a + b == b;
    } else {
      var hd := if |a[0].path| == depth + 1 then [a[0]] else [];
      assert (a + b)[0] == a[0] && (a + b)[1..] == a[1..] + b;
      assert TopRows(a + b, depth) == hd + TopRows(a[1..] + b, depth);
      TopRowsAppend(a[1..], b, depth);
      AppendAssoc(hd, TopRows(a[1..], depth), TopRows(b, depth));
    }
  }

  lemma {:induction false} TopRowsDeeper(rows: seq<Row>, depth: nat)
    requires forall r | r in rows :: |r.path| > depth + 1
    ensures TopRows(rows, depth) == []
  {
    if rows != [] {
      TopRowsDeeper(rows[1..], depth);
    }
  }

  /** The top rows of entry `i` onwards: entry `i` itself, then those of
      the entries after it (a directory's own rows lie deeper). */
  lemma TopRowsStep(fs: Fs, dir: Path, parts: seq<bool>, names: seq<string>, i: nat)
    requires i < |names|
    requires forall n | n in names :: n in Entries(fs, dir)
    ensures TopRows(RowsFrom(fs, dir, parts, names, i), |dir|)
      == [Row(parts, i == |names| - 1, dir + [names[i]], IsDir(fs, dir + [names[i]]))]
        + TopRows(RowsFrom(fs, dir, parts, names, i + 1), |dir|)
  {
    var n := names[i];
    var child := dir + [n];
    var last := i == |names| - 1;
    var head := Row(parts, last, child, IsDir(fs, child));
    var below := if IsDir(fs, child) then Rows(fs, child, parts + [!last]) else [];
    var rest := RowsFrom(fs, dir, parts, names, i + 1);
    assert RowsFrom(fs, dir, parts, names, i) == [head] + below + rest;
    if IsDir(fs, child) {
      EntryExists(fs, dir, n);
      RowsBelow(fs, child, parts + [!last]);
      forall r | r in below ensures |r.path| > |dir| + 1 {
        assert RowBelow(fs, child, parts + [!last], r);
      }
    }
    TopRowsDeeper(below, |dir|);
    TopRowsAppend([head] + below, rest, |dir|);
    TopRowsAppend([head], below, |dir|);
    assert TopRows([head], |dir|) == [head];
  }

  lemma {:induction false} TopRowsOfRowsFrom(fs: Fs, dir: Path, parts: seq<bool>, names: seq<string>, i: nat)
    requires i <= |names|
    requires forall n | n in names :: n in Entries(fs, dir)
    ensures |TopRows(RowsFrom(fs, dir, parts, names, i), |dir|)| == |names| - i
    ensures forall k | 0 <= k < |names| - i ::
      TopRows(RowsFrom(fs, dir, parts, names, i), |dir|)[k]
        == Row(parts, i + k == |names| - 1, dir + [names[i + k]], IsDir(fs, dir + [names[i + k]]))
    decreases |names| - i
  {
    if i < |names| {
      TopRowsStep(fs, dir, parts, names, i);
      TopRowsOfRowsFrom(fs, dir, parts, names, i + 1);
      var top := TopRows(RowsFrom(fs, dir, parts, names, i), |dir|);
      var rest := TopRows(RowsFrom(fs, dir, parts, names, i + 1), |dir|);
      var head := Row(parts, i == |names| - 1, dir + [names[i]], IsDir(fs, dir + [names[i]]));
      assert top == [head] + rest;
      forall k | 0 <= k < |names| - i
        ensures top[k] == Row(parts, i + k == |names| - 1, dir + [names[i + k]], IsDir(fs, dir + [names[i + k]]))
      {
        if k == 0 {
          assert top[k] == head;
        } else {
          assert top[k] == rest[k - 1];
          assert i + 1 + (k - 1) == i + k;
        }
      }
    }
  }

  /** The entries directly under `dir` are drawn in ascending order of
      name, with no ".git", the last of them with the closing branch. */
  lemma TopLevel(fs: Fs, dir: Path, parts: seq<bool>)
    ensures var top := TopRows(Rows(fs, dir, parts), |dir|);
      var names := Entries(fs, dir);
      && |top| == |names|
      && (forall k | 0 <= k < |top| :: top[k].path == dir + [names[k]] && top[k].indent == parts)
      && (forall k | 0 <= k < |top| :: top[k].last <==> k == |top| - 1)
      && (forall k, l | 0 <= k < l < |top| :: LexLess(Name(top[k]), Name(top[l])))
      && (forall k | 0 <= k < |top| :: Name(top[k]) != ".git")
  {
    var names := Entries(fs, dir);
    TopRowsOfRowsFrom(fs, dir, parts, names, 0);
    var top := TopRows(Rows(fs, dir, parts), |dir|);
    assert top == TopRows(RowsFrom(fs, dir, parts, names, 0), |dir|);
    forall k | 0 <= k < |top|
      ensures top[k] == Row(parts, k == |names| - 1, dir + [names[k]], IsDir(fs, dir + [names[k]]))
      ensures Name(top[k]) == names[k]
    {
      assert 0 + k == k;
    }
    forall k, l | 0 <= k < l < |top| ensures LexLess(Name(top[k]), Name(top[l])) {
      assert LexLess(names[k], names[l]);
    }
    forall k | 0 <= k < |top| ensures Name(top[k]) != ".git" {
      assert names[k] in names;
    }
  }

  /** A directory entry's children are indented by one more column, a bar
      when the entry was not the last of its siblings and blanks when it
      was: everything printed for any row below it starts with those
      columns. */
  lemma ChildIndent(fs: Fs, dir: Path, parts: seq<bool>, names: seq<string>, i: nat)
    requires i < |names| && IsDir(fs, dir + [names[i]])
    ensures var last := i == |names| - 1;
      RowsFrom(fs, dir, parts, names, i)
        == [Row(parts, last, dir + [names[i]], true)]
          + Rows(fs, dir + [names[i]], parts + [!last])
          + RowsFrom(fs, dir, parts, names, i + 1)
    ensures var last := i == |names| - 1;
      var columns := Indent(parts) + [Stdout(if last then Blank else Pipe)];
      forall r | r in Rows(fs, dir + [names[i]], parts + [!last]) ::
        |RowEvents(r)| >= |columns| && RowEvents(r)[..|columns|] == columns
  {
    var last := i == |names| - 1;
    var inner := parts + [!last];
    var columns := Indent(parts) + [Stdout(if last then Blank else Pipe)];
    assert inner[..|parts|] == parts;
    assert Indent(inner) == columns;
    RowsBelow(fs, dir + [names[i]], inner);
    forall r | r in Rows(fs, dir + [names[i]], inner)
      ensures |RowEvents(r)| >= |columns| && RowEvents(r)[..|columns|] == columns
    {
      RowStartsWith(r, inner);
    }
  }

  /** What is printed for a row starts with the columns of any prefix of
      its indentation. */
  lemma RowStartsWith(r: Row, p: seq<bool>)
    requires |p| <= |r.indent| && r.indent[..|p|] == p
    ensures |RowEvents(r)| >= |p| && RowEvents(r)[..|p|] == Indent(p)
  {
    IndentPrefix(r.indent, p);
    var columns := Indent(r.indent);
    var line := RowEvents(r)[|columns|..];
    assert RowEvents(r) == columns + line;
    assert (columns + line)[..|p|] == columns[..|p|];
  }

  /** Indentation is printed column by column, so a longer indentation
      starts with the columns of any prefix of it. */
  lemma {:induction false} IndentPrefix(q: seq<bool>, p: seq<bool>)
    requires |p| <= |q| && q[..|p|] == p
    ensures Indent(q)[..|p|] == Indent(p)
    decreases |q|
  {
    if |q| == |p| {
      assert q == p;
    } else {
      var shorter := q[..|q| - 1];
      assert shorter[..|p|] == p;
      IndentPrefix(shorter, p);
      assert Indent(q) == Indent(shorter) + [Stdout(if q[|q| - 1] then Pipe else Blank)];
    }
  }

  /** Where `list` starts. */
  datatype Start = WalkFrom(base: Path) | EntryFile(sub: string) | Missing(sub: string)

  /** A sub-path naming a directory is walked; failing that, an entry
      file `<sub>.rage` is printed by name; otherwise it is not found. */
  function Resolve(fs: Fs, prefix: Path, path: Option<string>): Start {
    match path
    case None => WalkFrom(prefix)
    case Some(sub) =>
      if IsDir(fs, Join(prefix, sub)) then WalkFrom(Join(prefix, sub))
      else if Join(prefix, sub + ".rage") in fs then EntryFile(sub)
      else Missing(sub)
  }

  /** `Path::strip_prefix`, component by component. */
  function StripPrefix(p: Path, prefix: Path): (r: Option<Path>)
    ensures r.Some? ==> prefix + r.value == p
    ensures r.None? ==> !(|prefix| <= |p| && p[..|prefix|] == prefix)
  {
    if |prefix| <= |p| && p[..|prefix|] == prefix then Some(p[|prefix|..]) else None
  }

  /** The header: "vault" at the vault itself, "vault/<rest>" below it,
      and the path as it is when it lies elsewhere. */
  function Label(base: Path, prefix: Path): string {
    match StripPrefix(base, prefix)
    case Some(rest) => if rest == [] then "vault" else "vault/" + Display(rest)
    case None => Display(base)
  }

  lemma LabelExamples(prefix: Path, sub: string)
    requires IsComponent(sub)
    ensures Label(prefix, prefix) == "vault"
    ensures Label(Join(prefix, sub), prefix) == "vault/" + sub
  {
    JoinComponent(prefix, sub);
    assert StripPrefix(prefix + [sub], prefix) == Some([sub]);
    assert Display([sub]) == sub;
  }

  /** The error `fs::read_dir` gives for a path that is not a directory. */
  function ReadDirError(fs: Fs, dir: Path): string {
    if dir in fs then NotADirectoryError else NotFoundError
  }

  /** What `walk` prints for `dir`: nothing when it cannot be read. */
  function WalkEvents(fs: Fs, dir: Path, parts: seq<bool>): seq<Event> {
    if IsDir(fs, dir) then Events(Rows(fs, dir, parts)) else []
  }

  /** The header for `base`, then the tree below it. */
  function TreeEvents(fs: Fs, base: Path, prefix: Path): seq<Event> {
    [Stdout("📂 " + Label(base, prefix) + "\n")] + WalkEvents(fs, base, [])
  }

  /** The whole output of `list` for a filesystem. */
  function ListEvents(fs: Fs, prefix: Path, path: Option<string>): seq<Event> {
    match Resolve(fs, prefix, path)
    case WalkFrom(base) => TreeEvents(fs, base, prefix)
    case EntryFile(sub) => [Stdout(sub + "\n")]
    case Missing(_) => []
  }

  /** How `list` ends: an entry that is neither a directory nor an entry
      file is not found, and a vault directory that is missing cannot be
      read. */
  function ListResult(fs: Fs, prefix: Path, path: Option<string>): (r: Result<()>)
    ensures r.Err? <==> Resolve(fs, prefix, path).Missing? || (Resolve(fs, prefix, path).WalkFrom? && !IsDir(fs, Resolve(fs, prefix, path).base))
  {
    match Resolve(fs, prefix, path)
    case WalkFrom(base) => if IsDir(fs, base) then Ok(()) else Err(ReadDirError(fs, base))
    case EntryFile(_) => Ok(())
    case Missing(sub) => Err("Entry not found: " + sub)
  }

  /** `run` of `list`. An entry file matched by name is printed and not
      walked; a missing entry is an error and prints nothing. */
  method Run(h: Host, cfg: Config, path: Option<string>) returns (r: Result<()>)
    modifies h
    ensures h.fs == old(h.fs) && h.stdin == old(h.stdin)
    ensures h.trace == old(h.trace) + ListEvents(old(h.fs), cfg.prefix, path)
    ensures r == ListResult(old(h.fs), cfg.prefix, path)
  {
    var base: Path;
    match path {
      case Some(sub) =>
        var full := Join(cfg.prefix, sub);
        if IsDir(h.fs, full) {
          base := full;
        } else {
          var withExt := Join(cfg.prefix, sub + ".rage");
          if withExt in h.fs {
            assert Resolve(h.fs, cfg.prefix, path) == EntryFile(sub);
            h.Print(sub + "\n");
            return Ok(());
          } else {
            assert Resolve(h.fs, cfg.prefix, path) == Missing(sub);
            return Err("Entry not found: " + sub);
          }
        }
      case None =>
        base := cfg.prefix;
    }
    assert Resolve(h.fs, cfg.prefix, path) == WalkFrom(base);
    r := Tree(h, base, cfg.prefix);
  }

  /** The header line for `base`, then the tree below it. */
  method Tree(h: Host, base: Path, prefix: Path) returns (r: Result<()>)
    modifies h
    ensures h.fs == old(h.fs) && h.stdin == old(h.stdin)
    ensures h.trace == old(h.trace) + TreeEvents(old(h.fs), base, prefix)
    ensures r == if IsDir(old(h.fs), base) then Ok(()) else Err(ReadDirError(old(h.fs), base))
  {
    ghost var t0 := h.trace;
    var header := [Stdout("📂 " + Label(base, prefix) + "\n")];
    h.Print("📂 " + Label(base, prefix) + "\n");
    ghost var walked := WalkEvents(h.fs, base, []);
    r := Walk(h, base, []);
    assert h.trace == (t0 + header) + walked;
    AppendAssoc(t0, header, walked);
  }

  /** `walk`: list the entries of `dir` in order; for each, print the
      indentation, then its line, and descend into directories. */
  method Walk(h: Host, dir: Path, parts: seq<bool>) returns (r: Result<()>)
    modifies h
    ensures h.fs == old(h.fs) && h.stdin == old(h.stdin)
    ensures h.trace == old(h.trace) + WalkEvents(old(h.fs), dir, parts)
    ensures r == if IsDir(old(h.fs), dir) then Ok(()) else Err(ReadDirError(old(h.fs), dir))
    decreases Under(h.fs, dir), 1
  {
    if !IsDir(h.fs, dir) {
      return Err(ReadDirError(h.fs, dir));
    }
    var entries := Entries(h.fs, dir);
    ghost var start := h.trace;
    ghost var fs := h.fs;
    var i := 0;
    while i < |entries|
      invariant 0 <= i <= |entries| && h.fs == fs && h.stdin == old(h.stdin)
      invariant start + Events(Rows(fs, dir, parts)) == h.trace + Events(RowsFrom(fs, dir, parts, entries, i))
    {
      ghost var before := h.trace;
      WalkEntry(h, dir, parts, entries, i);
      i := i + 1;
    }
    r := Ok(());
  }

  /** One turn of `walk`'s loop: the rows for entry `i` are printed. */
  method WalkEntry(h: Host, dir: Path, parts: seq<bool>, entries: seq<string>, i: nat)
    requires i < |entries| && entries == Entries(h.fs, dir)
    modifies h
    ensures h.fs == old(h.fs) && h.stdin == old(h.stdin)
    ensures old(h.trace) + Events(RowsFrom(old(h.fs), dir, parts, entries, i))
      == h.trace + Events(RowsFrom(old(h.fs), dir, parts, entries, i + 1))
    decreases Under(h.fs, dir), 0
  {
    ghost var fs := h.fs;
    var name := entries[i];
    var child := dir + [name];
    var isLast := i == |entries| - 1;
    ghost var row := Row(parts, isLast, child, IsDir(fs, child));
    ghost var rest := RowsFrom(fs, dir, parts, entries, i + 1);
    ghost var below: seq<Row> := [];
    if IsDir(fs, child) {
      EntryExists(fs, dir, name);
      UnderShrinks(fs, dir, name);
      below := Rows(fs, child, parts + [!isLast]);
    }
    RowsFromAt(fs, dir, parts, entries, i);
    RowSplit(row, below, rest);
    assert Name(row) == name;
    ghost var before := h.trace;
    DrawIndent(h, parts);
    ghost var mid := h.trace;
    var branch := if isLast then Elbow else Tee;
    if IsDir(h.fs, child) {
      ghost var line := [Stdout(branch + name + "\n")];
      h.Print(branch + name + "\n");
      var sub := Walk(h, child, parts + [!isLast]);
      assert h.trace == mid + line + Events(below);
      assert RowEvents(row) == Indent(parts) + line;
      Regroup(before, Indent(parts), line, Events(below));
    } else if EndsWith(name, ".rage") {
      ghost var line := [Stdout(branch + StripSuffix(name, ".rage") + "\n")];
      h.Print(branch + StripSuffix(name, ".rage") + "\n");
      assert RowEvents(row) == Indent(parts) + line;
      AppendAssoc(before, Indent(parts), line);
      assert h.trace == before + RowEvents(row) + Events(below);
    } else {
      assert RowEvents(row) == Indent(parts);
      assert h.trace == before + RowEvents(row) + Events(below);
    }
    Regroup(before, RowEvents(row), Events(below), Events(rest));
  }

  /** Entry `i` of `dir` contributes its own row, then the rows below it
      when it is a directory. */
  lemma RowsFromAt(fs: Fs, dir: Path, parts: seq<bool>, names: seq<string>, i: nat)
    requires i < |names|
    ensures RowsFrom(fs, dir, parts, names, i)
      == [Row(parts, i == |names| - 1, dir + [names[i]], IsDir(fs, dir + [names[i]]))]
        + (if IsDir(fs, dir + [names[i]]) then Rows(fs, dir + [names[i]], parts + [!(i == |names| - 1)]) else [])
        + RowsFrom(fs, dir, parts, names, i + 1)
  {
  }

  lemma Regroup<T>(a: seq<T>, b: seq<T>, c: seq<T>, d: seq<T>)
    ensures a + b + c + d == a + (b + c) + d
    ensures a + (b + c + d) == a + b + c + d
  {
  }

  lemma RowSplit(row: Row, below: seq<Row>, rest: seq<Row>)
    ensures Events([row] + below + rest) == RowEvents(row) + Events(below) + Events(rest)
  {
    EventsAppend([row] + below, rest);
    EventsAppend([row], below);
    assert Events([row]) == RowEvents(row);
  }

  /** The indentation columns of one line. */
  method DrawIndent(h: Host, parts: seq<bool>)
    modifies h
    ensures h.fs == old(h.fs) && h.stdin == old(h.stdin)
    ensures h.trace == old(h.trace) + Indent(parts)
  {
    var j := 0;
    while j < |parts|
      invariant 0 <= j <= |parts| && h.fs == old(h.fs) && h.stdin == old(h.stdin)
      invariant h.trace == old(h.trace) + Indent(parts[..j])
    {
      if parts[j] {
        h.Print(Pipe);
      } else {
        h.Print(Blank);
      }
      assert parts[..j + 1][..j] == parts[..j];
      j := j + 1;
    }
    assert parts[..j] == parts;
  }
}

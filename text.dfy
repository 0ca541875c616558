/** String helpers with the semantics of the Rust standard library calls
    the program makes: `trim`, `trim_start`, `trim_end`, `starts_with`,
    `contains`, `str::lines`, `to_lowercase` on the characters that matter,
    decimal formatting of integers and `join`. */
module Text {
  import opened Wrappers

  /** Rust's `char::is_whitespace`: the Unicode White_Space property. */
  predicate IsWhitespace(c: char) {
    || c == ' ' || c == '\t' || c == '\n' || c == '\r'
    || c == '\U{000B}' || c == '\U{000C}' || c == '\U{0085}' || c == '\U{00A0}'
    || c == '\U{1680}' || ('\U{2000}' <= c <= '\U{200A}')
    || c == '\U{2028}' || c == '\U{2029}' || c == '\U{202F}' || c == '\U{205F}'
    || c == '\U{3000}'
  }

  /** `str::trim_end`: the longest prefix that does not end in whitespace. */
  function TrimEnd(s: string): (r: string)
    ensures |r| <= |s| && r == s[..|r|]
    ensures r == [] || !IsWhitespace(r[|r| - 1])
    ensures forall i | |r| <= i < |s| :: IsWhitespace(s[i])
  {
    if s != [] && IsWhitespace(s[|s| - 1]) then TrimEnd(s[..|s| - 1]) else s
  }

  /** `str::trim_start`: the longest suffix that does not start with whitespace. */
  function TrimStart(s: string): (r: string)
    ensures |r| <= |s| && r == s[|s| - |r|..]
    ensures r == [] || !IsWhitespace(r[0])
    ensures forall i | 0 <= i < |s| - |r| :: IsWhitespace(s[i])
  {
    if s != [] && IsWhitespace(s[0]) then TrimStart(s[1..]) else s
  }

  /** `str::trim`: whitespace removed from both ends. */
  function Trim(s: string): string {
    TrimStart(TrimEnd(s))
  }

  /** A string with no whitespace at either end is its own trim. */
  lemma TrimOfTrimmed(s: string)
    requires s == [] || (!IsWhitespace(s[0]) && !IsWhitespace(s[|s| - 1]))
    ensures TrimEnd(s) == s && TrimStart(s) == s && Trim(s) == s
  {
  }

  predicate StartsWith(s: string, p: string) {
    |p| <= |s| && s[..|p|] == p
  }

  predicate EndsWith(s: string, suffix: string) {
    |suffix| <= |s| && s[|s| - |suffix|..] == suffix
  }

  /** `str::contains` for a string pattern. */
  predicate Contains(s: string, sub: string) {
    exists i | 0 <= i <= |s| - |sub| :: StartsWith(s[i..], sub)
  }

  lemma ContainsMiddle(a: string, b: string, c: string)
    ensures Contains(a + b + c, b)
  {
    var s := a + b + c;
    assert s[|a|..][..|b|] == b;
  }

  /** `str::strip_suffix`, falling back to the string itself. */
  function StripSuffix(s: string, suffix: string): (r: string)
    ensures EndsWith(s, suffix) ==> r + suffix == s
    ensures !EndsWith(s, suffix) ==> r == s
  {
    if EndsWith(s, suffix) then s[..|s| - |suffix|] else s
  }

  /** `str::trim_start_matches(c)` for a single character. */
  function TrimStartMatches(s: string, c: char): (r: string)
    ensures |r| <= |s| && r == s[|s| - |r|..]
    ensures r == [] || r[0] != c
    ensures forall i | 0 <= i < |s| - |r| :: s[i] == c
  {
    if s != [] && s[0] == c then TrimStartMatches(s[1..], c) else s
  }

  function LowerAscii(c: char): char {
    if 'A' <= c <= 'Z' then (c as int + 32) as char else c
  }

  /** `to_lowercase`, on ASCII letters. No other character lowercases to one
      of the letters of "rage" or "age", so comparisons with those two words
      come out as in the program. */
  function ToLower(s: string): (r: string)
    ensures |r| == |s|
    ensures forall i | 0 <= i < |s| :: r[i] == LowerAscii(s[i])
  {
    seq(|s|, i requires 0 <= i < |s| => LowerAscii(s[i]))
  }

  /** The first position of `c` in `s`. */
  function IndexOf(s: string, c: char): (r: Option<nat>)
    ensures r.None? ==> forall j | 0 <= j < |s| :: s[j] != c
    ensures r.Some? ==> r.value < |s| && s[r.value] == c
    ensures r.Some? ==> forall j | 0 <= j < r.value :: s[j] != c
  {
    if s == [] then None
    else if s[0] == c then Some(0)
    else match IndexOf(s[1..], c)
      case None => None
      case Some(i) => Some(i + 1)
  }

  /** The last position of `c` in `s`. */
  function LastIndexOf(s: string, c: char): (r: Option<nat>)
    ensures r.None? ==> forall j | 0 <= j < |s| :: s[j] != c
    ensures r.Some? ==> r.value < |s| && s[r.value] == c
    ensures r.Some? ==> forall j | r.value < j < |s| :: s[j] != c
  {
    if s == [] then None
    else if s[|s| - 1] == c then Some(|s| - 1)
    else LastIndexOf(s[..|s| - 1], c)
  }

  /** Drops one `\r` ending a line that was terminated by `\n`. */
  function StripCR(s: string): string {
    if s != [] && s[|s| - 1] == '\r' then s[..|s| - 1] else s
  }

  /** Rust's `str::lines` (and `BufRead::lines`): split after every `\n`,
      strip the `\n` and then one `\r` from each terminated line; a final
      segment without `\n` is kept as it is, and an empty final segment is
      not a line. */
  function Lines(s: string): seq<string>
    decreases |s|
  {
    if s == [] then []
    else match IndexOf(s, '\n')
      case None => [s]
      case Some(i) => [StripCR(s[..i])] + Lines(s[i + 1..])
  }

  /** A line without `\n` comes off the front of the text unchanged
      (up to its carriage return). */
  lemma LinesCons(a: string, rest: string)
    requires '\n' !in a
    ensures Lines(a + "\n" + rest) == [StripCR(a)] + Lines(rest)
  {
    var s := a + "\n" + rest;
    assert s[|a|] == '\n';
    assert forall j | 0 <= j < |a| :: s[j] == a[j] && s[j] != '\n';
    assert IndexOf(s, '\n') == Some(|a|);
    assert s[..|a|] == a;
    assert s[|a| + 1..] == rest;
  }

  /** Text made only of whole lines splits at its end: the lines of `x + y`
      are those of `x` followed by those of `y`. */
  lemma {:induction false} LinesConcat(x: string, y: string)
    requires x == [] || x[|x| - 1] == '\n'
    ensures Lines(x + y) == Lines(x) + Lines(y)
    decreases |x|
  {
    if x != [] {
      FirstLine(x);
      var i := IndexOf(x, '\n').value;
      LinesConcat(x[i + 1..], y);
      LineThenConcat(x[..i], x[i + 1..], y);
    } else {
      assert x + y == y;
    }
  }

  /** One step of `LinesConcat`: a first line in front of text that
      already splits at its end. */
  lemma LineThenConcat(a: string, b: string, y: string)
    requires '\n' !in a
    requires Lines(b + y) == Lines(b) + Lines(y)
    ensures Lines(a + "\n" + b + y) == Lines(a + "\n" + b) + Lines(y)
  {
    LinesCons(a, b + y);
    LinesCons(a, b);
    AppendAssoc(a + "\n", b, y);
    AppendAssoc([StripCR(a)], Lines(b), Lines(y));
  }

  /** Text ending in `\n` splits at its first `\n` into a line and a rest
      that is again empty or ends in `\n`. */
  lemma FirstLine(x: string)
    requires x != [] && x[|x| - 1] == '\n'
    ensures IndexOf(x, '\n').Some?
    ensures var i := IndexOf(x, '\n').value;
      && '\n' !in x[..i] && x == x[..i] + "\n" + x[i + 1..]
      && (x[i + 1..] == [] || x[i + 1..][|x[i + 1..]| - 1] == '\n')
  {
    var i := IndexOf(x, '\n').value;
    var a, b := x[..i], x[i + 1..];
    assert '\n' !in a by {
      forall j | 0 <= j < |a| ensures a[j] != '\n' {
        assert a[j] == x[j];
      }
    }
    assert x == a + "\n" + b;
    if b != [] {
      assert b[|b| - 1] == x[|x| - 1];
    }
  }

  /** The text `writeln!` produces for each of `ls` in turn. */
  function Terminated(ls: seq<string>): string {
    if ls == [] then "" else ls[0] + "\n" + Terminated(ls[1..])
  }

  predicate IsPlainLine(l: string) {
    '\n' !in l && (l == [] || l[|l| - 1] != '\r')
  }

  /** Writing lines with `writeln!` and reading them back with `lines()`
      gives the same lines, when none of them holds a line break. */
  lemma {:induction false} LinesOfTerminated(ls: seq<string>)
    requires forall k | 0 <= k < |ls| :: IsPlainLine(ls[k])
    ensures Lines(Terminated(ls)) == ls
  {
    if ls != [] {
      LinesCons(ls[0], Terminated(ls[1..]));
      LinesOfTerminated(ls[1..]);
    }
  }

  /** A line written between two line breaks is one of the lines read back. */
  lemma LineBetween(x: string, l: string, rest: string)
    requires IsPlainLine(l)
    ensures l in Lines(x + "\n" + l + "\n" + rest)
  {
    var front := x + "\n";
    assert x + "\n" + l + "\n" + rest == front + (l + "\n" + rest);
    LinesConcat(front, l + "\n" + rest);
    LinesCons(l, rest);
    assert Lines(l + "\n" + rest)[0] == l;
  }

  /** `slice.join(sep)` */
  function JoinWith(parts: seq<string>, sep: string): string {
    if parts == [] then ""
    else if |parts| == 1 then parts[0]
    else parts[0] + sep + JoinWith(parts[1..], sep)
  }

  function DigitChar(d: nat): char
    requires d < 10
  {
    "0123456789"[d]
  }

  /** Decimal rendering of a natural number, as `{}` formats it. */
  function NatToString(n: nat): (r: string)
    ensures r != []
    ensures forall k | 0 <= k < |r| :: '0' <= r[k] <= '9'
  {
    if n < 10 then [DigitChar(n)] else NatToString(n / 10) + [DigitChar(n % 10)]
  }

  /** Decimal rendering of an integer, with a leading '-' when negative. */
  function IntToString(i: int): string {
    if i < 0 then "-" + NatToString(-i) else NatToString(i)
  }
}

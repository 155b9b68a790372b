/**
 * Rust's `PathBuf`, as far as the modelled code uses it: `parent()`,
 * `file_name()`, `with_file_name()`, `ends_with()` and `display()`.
 * A path is its list of components, as `Path::components` yields them:
 * empty pieces and "." are skipped, except that a relative path starting
 * with "." keeps it as its first component (`CurDir`). The text the path
 * was built from is not kept, so `display()` shows the components joined
 * by '/', which for "./a//b/" is "./a/b".
 */
module Paths {
  import opened Wrappers
  import opened Strings

  datatype Path = Path(absolute: bool, parts: seq<string>)

  /** Splits `s` at every '/' (no piece contains one). */
  function SplitSlash(s: string): (r: seq<string>)
    ensures |r| > 0
    decreases |s|
  {
    if s == [] then [""]
    else
      var rest := SplitSlash(s[1..]);
      if s[0] == '/' then [""] + rest else [[s[0]] + rest[0]] + rest[1..]
  }

  /** Two names joined by one '/' split back into the two names. */
  lemma {:induction false} SplitSlashTwo(a: string, b: string)
    requires '/' !in a && '/' !in b
    ensures SplitSlash(a + "/" + b) == [a, b]
  {
    if a == [] {
      assert a + "/" + b == "/" + b;
      assert ("/" + b)[1..] == b;
      SplitSlashNone(b);
    } else {
      assert (a + "/" + b)[1..] == a[1..] + "/" + b;
      SplitSlashTwo(a[1..], b);
      assert [a[0]] + a[1..] == a;
    }
  }

  lemma {:induction false} SplitSlashNone(s: string)
    requires '/' !in s
    ensures SplitSlash(s) == [s]
  {
    if s != [] {
      SplitSlashNone(s[1..]);
      assert [s[0]] + s[1..] == s;
    }
  }

  function DropEmpty(pieces: seq<string>): (r: seq<string>)
    ensures forall i :: 0 <= i < |r| ==> r[i] != "" && r[i] != "."
  {
    if pieces == [] then []
    else if pieces[0] == "" || pieces[0] == "." then DropEmpty(pieces[1..])
    else [pieces[0]] + DropEmpty(pieces[1..])
  }

  /** `PathBuf::from(s)`, seen through its components. */
  function FromStr(s: string): (r: Path)
    ensures forall i :: 0 <= i < |r.parts| ==> r.parts[i] != "" && (r.parts[i] == "." ==> i == 0 && !r.absolute)
  {
    var absolute := |s| > 0 && s[0] == '/';
    var pieces := SplitSlash(s);
    if !absolute && pieces[0] == "." then Path(false, ["."] + DropEmpty(pieces[1..]))
    else Path(absolute, DropEmpty(pieces))
  }

  /** `path.display()`: the components joined by '/'. */
  function Display(p: Path): string
  {
    (if p.absolute then "/" else "") + Join(p.parts, "/")
  }

  /** `path.parent()`: None for the empty path and the root. */
  function Parent(p: Path): (r: Option<Path>)
    ensures r.Some? <==> |p.parts| > 0
    ensures r.Some? ==> r.value.absolute == p.absolute && r.value.parts + [p.parts[|p.parts| - 1]] == p.parts
  {
    if p.parts == [] then None else Some(Path(p.absolute, p.parts[..|p.parts| - 1]))
  }

  /** `path.file_name()`: the last component, unless the path is empty or ends in ".." or ".". */
  function FileName(p: Path): (r: Option<string>)
    ensures r.Some? <==> |p.parts| > 0 && p.parts[|p.parts| - 1] != ".." && p.parts[|p.parts| - 1] != "."
    ensures r.Some? ==> r.value == p.parts[|p.parts| - 1]
  {
    if p.parts == [] || p.parts[|p.parts| - 1] == ".." || p.parts[|p.parts| - 1] == "." then None
    else Some(p.parts[|p.parts| - 1])
  }

  /**
   * `path.push(q)`: an absolute `q` replaces the path; pushing onto the
   * empty path gives `q`; otherwise `q`'s components follow, less its
   * leading ".", which is no longer leading.
   */
  function Push(p: Path, q: Path): Path
  {
    if q.absolute || (p.parts == [] && !p.absolute) then q
    else Path(p.absolute, p.parts + (if |q.parts| > 0 && q.parts[0] == "." then q.parts[1..] else q.parts))
  }

  /** `path.with_file_name(name)`: drop the file name if there is one, then push `name`. */
  function WithFileName(p: Path, name: string): (r: Path)
    ensures FromStr(name) == Path(false, [name]) && name != "." && FileName(p).Some? ==>
              r == Path(p.absolute, p.parts[..|p.parts| - 1] + [name])
  {
    var base := if FileName(p).Some? then Path(p.absolute, p.parts[..|p.parts| - 1]) else p;
    Push(base, FromStr(name))
  }

  /** `path.ends_with(child)`: `child`'s components are a trailing run of `path`'s. */
  predicate EndsWith(p: Path, child: Path)
  {
    && |child.parts| <= |p.parts|
    && p.parts[|p.parts| - |child.parts|..] == child.parts
    && (child.absolute ==> p.absolute && |child.parts| == |p.parts|)
  }
}

/**
 * Relative paths as `mkdirSync` and `chdir` resolve them against the
 * working directory. A directory is the list of its segments from the root;
 * a relative path is split at `/`, and `.`, `..` and empty segments are
 * walked the way the operating system walks them.
 */
module Paths {

  type Path = seq<string>

  /** The segments of `s` between its `/` separators. */
  function Split(s: string): (parts: seq<string>)
    ensures |parts| >= 1
    ensures forall k :: 0 <= k < |parts| ==> '/' !in parts[k]
  {
    if s == [] then [""]
    else
      var rest := Split(s[1..]);
      if s[0] == '/' then [""] + rest
      else [[s[0]] + rest[0]] + rest[1..]
  }

  /** The segments joined again with `/`. */
  function Join(parts: seq<string>): string
    requires |parts| >= 1
  {
    if |parts| == 1 then parts[0] else parts[0] + "/" + Join(parts[1..])
  }

  /** Splitting then joining gives back the string. */
  lemma {:induction false} JoinSplit(s: string)
    ensures Join(Split(s)) == s
  {
    if s != [] {
      JoinSplit(s[1..]);
      var rest := Split(s[1..]);
      if s[0] == '/' {
        assert Split(s) == [""] + rest;
        assert Join(Split(s)) == "" + "/" + Join(rest);
      } else {
        var parts := Split(s);
        assert parts == [[s[0]] + rest[0]] + rest[1..];
        if |rest| == 1 {
          assert Join(parts) == [s[0]] + rest[0];
        } else {
          assert Join(rest) == rest[0] + "/" + Join(rest[1..]);
          assert parts[1..] == rest[1..];
          assert Join(parts) == [s[0]] + rest[0] + "/" + Join(rest[1..]);
        }
      }
    }
  }

  /** A string without `/` is a single segment. */
  lemma {:induction false} SplitSegment(s: string)
    requires '/' !in s
    ensures Split(s) == [s]
  {
    if s != [] {
      SplitSegment(s[1..]);
      assert [s[0]] + s[1..] == s;
    }
  }

  /** `./name` is the segment `.` followed by `name`'s segments. */
  lemma SplitDotSlash(name: string)
    ensures Split("./" + name) == ["."] + Split(name)
  {
    var s := "./" + name;
    assert s[1..][1..] == name;
    assert Split(s[1..]) == [""] + Split(name);
    assert ['.'] + "" == ".";
    assert Split(s) == [['.'] + ""] + Split(name);
  }

  /** One segment walked from `cwd`. */
  function Step(cwd: Path, segment: string): Path {
    if segment == "" || segment == "." then cwd
    else if segment == ".." then (if cwd == [] then [] else cwd[..|cwd| - 1])
    else cwd + [segment]
  }

  function Walk(cwd: Path, segments: seq<string>): Path
    decreases |segments|
  {
    if segments == [] then cwd else Walk(Step(cwd, segments[0]), segments[1..])
  }

  /** The directory a relative path names from the working directory `cwd`. */
  function Resolve(cwd: Path, rel: string): Path {
    Walk(cwd, Split(rel))
  }

  /** `./name` and `name` name the same place. */
  lemma DotSlashIsSame(cwd: Path, name: string)
    ensures Resolve(cwd, "./" + name) == Resolve(cwd, name)
  {
    SplitDotSlash(name);
    var segments := ["."] + Split(name);
    assert segments[1..] == Split(name);
  }

  /** `./..` names the parent of `cwd` (the root is its own parent). */
  lemma DotSlashDotDotIsParent(cwd: Path)
    ensures Resolve(cwd, "./..") == if cwd == [] then [] else cwd[..|cwd| - 1]
  {
    SplitDotSlash("..");
    SplitSegment("..");
    var segments := Split("./..");
    assert segments == [".", ".."];
    assert Walk(cwd, segments) == Walk(cwd, segments[1..]);
    assert segments[1..][1..] == [];
  }

  /**
   * A plain segment (not empty, no `/`, neither `.` nor `..`) names a child
   * of `cwd`, whether written `name` or `./name`, and going to `./..` from
   * that child comes back to `cwd`.
   */
  lemma EnterAndLeave(cwd: Path, name: string)
    requires name != "" && name != "." && name != ".."
    requires '/' !in name
    ensures Resolve(cwd, name) == cwd + [name]
    ensures Resolve(cwd, "./" + name) == cwd + [name]
    ensures Resolve(cwd + [name], "./..") == cwd
  {
    SplitSegment(name);
    assert Walk(cwd, [name]) == Walk(cwd + [name], []);
    DotSlashIsSame(cwd, name);
    DotSlashDotDotIsParent(cwd + [name]);
    assert (cwd + [name])[..|cwd|] == cwd;
  }
}

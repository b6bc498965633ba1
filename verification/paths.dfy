/**
 * The slash-separated path helpers of Go's path/filepath that the config
 * search and the hot-reload watcher rely on, for clean paths (no "." or ".."
 * elements, no doubled or trailing separator except the root "/").
 */
module Paths {

  /** A path as Getwd returns it: one that starts at the root. */
  predicate IsAbsolute(path: string)
  {
    |path| > 0 && path[0] == '/'
  }

  /** A single path element: a name without a separator. */
  predicate IsName(name: string)
  {
    forall k :: 0 <= k < |name| ==> name[k] != '/'
  }

  /** The index of the last '/' in `s`, or -1 when there is none. */
  function LastSlash(s: string): (i: int)
    ensures -1 <= i < |s|
    ensures i >= 0 ==> s[i] == '/'
    ensures forall k :: i < k < |s| ==> s[k] != '/'
  {
    if s == [] then -1
    else if s[|s| - 1] == '/' then |s| - 1
    else LastSlash(s[..|s| - 1])
  }

  /** filepath.Dir of a clean path: "." without a separator, "/" for a top-level entry, else everything before the last separator. */
  function Dir(path: string): string
  {
    var i := LastSlash(path);
    if i < 0 then "." else if i == 0 then "/" else path[..i]
  }

  /** filepath.Base: "." for the empty path, "/" for a path of separators only, else the final element. */
  function Base(path: string): string
    decreases |path|
  {
    if path == "" then "."
    else if path[|path| - 1] == '/' then (if |path| == 1 then "/" else Base(path[..|path| - 1]))
    else path[LastSlash(path) + 1..]
  }

  /** filepath.Join of a clean directory and a relative path. */
  function Join(dir: string, name: string): string
  {
    if dir == "" then name
    else if dir[|dir| - 1] == '/' then dir + name
    else dir + "/" + name
  }

  /** filepath.Ext: the suffix from the last '.' of the final element, or "" when that element has none. */
  function Ext(path: string): (e: string)
    ensures e == "" || (e[0] == '.' && |e| <= |path| && path[|path| - |e|..] == e)
    ensures forall k :: 0 < k < |e| ==> e[k] != '.' && e[k] != '/'
    decreases |path|
  {
    if path == [] || path[|path| - 1] == '/' then ""
    else if path[|path| - 1] == '.' then "."
    else
      var e := Ext(path[..|path| - 1]);
      if e == "" then "" else e + [path[|path| - 1]]
  }

  /** The parent of an absolute path is absolute, is the path itself only at the root, and is otherwise shorter. */
  lemma DirOfAbsolute(path: string)
    requires IsAbsolute(path)
    ensures IsAbsolute(Dir(path))
    ensures Dir(path) == path <==> path == "/"
    ensures Dir(path) != path ==> |Dir(path)| < |path|
  {
    assert path[0] == '/';
  }

  /** Appending an extension-shaped suffix to a path makes it the path's extension. */
  lemma {:induction false} ExtOfSuffix(q: string, e: string)
    requires |e| > 0 && e[0] == '.'
    requires forall k :: 0 < k < |e| ==> e[k] != '.' && e[k] != '/'
    ensures Ext(q + e) == e
    decreases |e|
  {
    var p := q + e;
    if |e| == 1 {
      assert p[|p| - 1] == '.';
    } else {
      var e' := e[..|e| - 1];
      assert p[..|p| - 1] == q + e';
      ExtOfSuffix(q, e');
      assert e' + [e[|e| - 1]] == e;
    }
  }

  /** In a path made of a directory, a separator and a name, the last separator is the one joining them. */
  lemma {:induction false} LastSlashOfJoin(d: string, name: string)
    requires IsName(name)
    ensures LastSlash(d + "/" + name) == |d|
    decreases |name|
  {
    if name != [] {
      var p := d + "/" + name;
      var name' := name[..|name| - 1];
      assert p[..|p| - 1] == d + "/" + name';
      LastSlashOfJoin(d, name');
    }
  }

  /** Dir and Base split a joined path back into its directory and its name. */
  lemma DirBaseOfJoin(d: string, name: string)
    requires d != "" && d[|d| - 1] != '/' && name != "" && IsName(name)
    ensures Join(d, name) == d + "/" + name
    ensures Dir(Join(d, name)) == d
    ensures Base(Join(d, name)) == name
  {
    var p := d + "/" + name;
    LastSlashOfJoin(d, name);
    assert p[..|d|] == d;
    assert p[|d| + 1..] == name;
    assert p[|p| - 1] == name[|name| - 1];
  }

  /** The extension of a joined path is that of its final name. */
  lemma {:induction false} ExtOfJoin(d: string, name: string)
    requires IsName(name)
    ensures Ext(d + "/" + name) == Ext(name)
    decreases |name|
  {
    var p := d + "/" + name;
    if name != [] && name[|name| - 1] != '.' {
      var name' := name[..|name| - 1];
      assert p[..|p| - 1] == d + "/" + name';
      ExtOfJoin(d, name');
    }
  }
}

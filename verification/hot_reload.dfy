/**
 * Change detection of the hot-reload watcher in internal/cli/hotreload.go:
 * which paths are watched, how the modification-time table is updated by
 * the initial scan and by each tick, and the one-slot restart signal.  The
 * directory walk is given as the sequence of entries it visits, each with
 * whether it is a directory, its modification time, and whether the walk
 * reported an error for it.
 */
module HotReload {
  import opened Paths

  /** One entry the directory walk hands to the callback. */
  datatype Visit = Visit(path: string, isDir: bool, mtime: int, failed: bool)

  predicate SkippedDir(name: string)
  {
    name == "tmp" || name == "vendor" || name == ".git"
  }

  predicate WatchedExt(ext: string)
  {
    ext == ".go" || ext == ".yaml" || ext == ".yml" || ext == ".html" || ext == ".tmpl"
  }

  /** shouldWatch, with whether `path` is a directory given. */
  predicate ShouldWatch(path: string, isDir: bool)
  {
    if isDir then false
    else if |path| > 0 && path[0] == '.' then false
    else if SkippedDir(Base(Dir(path))) then false
    else WatchedExt(Ext(path))
  }

  /** Whether an element of the relative path `rel` starts with '.': a hidden file, or anything inside a hidden directory. */
  predicate Hidden(rel: string)
  {
    exists k :: 0 <= k < |rel| && rel[k] == '.' && (k == 0 || rel[k - 1] == '/')
  }

  /** A walked path relative to the walk's root (the path itself when it does not lie below the root). */
  function Rel(root: string, path: string): string
  {
    if |root| < |path| && path[..|root|] == root && path[|root|] == '/' then path[|root| + 1..] else path
  }

  /**
   * shouldWatch with the hidden rule its comment describes, "skip hidden
   * files and directories": no element of the path below the project root
   * `root` may start with '.'.
   */
  predicate ShouldWatchIntended(root: string, path: string, isDir: bool)
  {
    if isDir then false
    else if Hidden(Rel(root, path)) then false
    else if SkippedDir(Base(Dir(path))) then false
    else WatchedExt(Ext(path))
  }

  // ---------------------------------------------------------------- lemmas about paths

  /** A file whose name ends in ".go", outside tmp, vendor and .git, is watched unless its path starts with '.'. */
  lemma GoSourceWatched(stem: string)
    requires stem != [] && stem[0] != '.' && !SkippedDir(Base(Dir(stem + ".go")))
    ensures ShouldWatch(stem + ".go", false)
  {
    var p := stem + ".go";
    assert p[0] == stem[0];
    assert WatchedExt(Ext(p)) by {
      ExtOfSuffix(stem, ".go");
    }
  }

  /** A watched path never lies directly in tmp, vendor or .git, and carries one of the five extensions. */
  lemma WatchedPathShape(path: string, isDir: bool)
    requires ShouldWatch(path, isDir)
    ensures !isDir && !SkippedDir(Base(Dir(path))) && Ext(path) != "" && Ext(path)[0] == '.'
    ensures path[|path| - |Ext(path)|..] == Ext(path)
  {
  }

  /** Below a root, the relative path of root/rel is rel. */
  lemma RelOfJoin(root: string, rel: string)
    requires root != "" && root[|root| - 1] != '/' && rel != ""
    ensures Join(root, rel) == root + "/" + rel
    ensures Rel(root, Join(root, rel)) == rel
  {
    var p := root + "/" + rel;
    assert p[..|root|] == root;
    assert p[|root|] == '/';
    assert p[|root| + 1..] == rel;
  }

  /**
   * The hidden rule of shouldWatch looks at the first character of the whole
   * path, so it never fires below an absolute project root: a file whose
   * name starts with '.' there is watched whenever its extension is, though
   * the intended rule skips it.
   */
  lemma HiddenFilesUnderAbsoluteRootWatched(d: string, name: string)
    requires IsAbsolute(d) && d[|d| - 1] != '/' && !SkippedDir(Base(d))
    requires |name| > 0 && name[0] == '.' && IsName(name) && WatchedExt(Ext(name))
    ensures ShouldWatch(Join(d, name), false)
    ensures !ShouldWatchIntended(d, Join(d, name), false)
  {
    ExtOfJoin(d, name);
    DirBaseOfJoin(d, name);
    RelOfJoin(d, name);
    assert Rel(d, Join(d, name))[0] == '.';
  }

  /** The path of `name` inside the subdirectory `h` of `d` is d/h/name, whose directory is d/h. */
  lemma SubdirJoin(d: string, h: string, name: string)
    requires d != "" && d[|d| - 1] != '/' && h != "" && IsName(h) && name != "" && IsName(name)
    ensures Join(Join(d, h), name) == Join(d, h) + "/" + name
    ensures Dir(Join(Join(d, h), name)) == Join(d, h) && Base(Join(d, h)) == h
  {
    DirBaseOfJoin(d, h);
    var dh := Join(d, h);
    assert dh[|dh| - 1] == h[|h| - 1];
    DirBaseOfJoin(dh, name);
  }

  /** The extension of d/h/name is that of name. */
  lemma SubdirExt(d: string, h: string, name: string)
    requires d != "" && d[|d| - 1] != '/' && h != "" && IsName(h) && name != "" && IsName(name)
    ensures Ext(Join(Join(d, h), name)) == Ext(name)
  {
    SubdirJoin(d, h, name);
    ExtOfJoin(Join(d, h), name);
  }

  /** Relative to `d`, the path d/h/name is h/name. */
  lemma SubdirRel(d: string, h: string, name: string)
    requires d != "" && d[|d| - 1] != '/' && h != "" && IsName(h) && name != "" && IsName(name)
    ensures Rel(d, Join(Join(d, h), name)) == h + "/" + name
    ensures Join(Join(d, h), name)[0] == d[0]
  {
    SubdirJoin(d, h, name);
    DirBaseOfJoin(d, h);
    assert Join(Join(d, h), name) == d + "/" + (h + "/" + name);
    RelOfJoin(d, h + "/" + name);
  }

  /** Likewise, a file inside a hidden directory below an absolute root is watched, though the intended rule skips it. */
  lemma HiddenDirContentsWatched(d: string, h: string, name: string)
    requires IsAbsolute(d) && d[|d| - 1] != '/'
    requires |h| > 0 && h[0] == '.' && IsName(h) && !SkippedDir(h)
    requires |name| > 0 && name[0] != '.' && IsName(name) && WatchedExt(Ext(name))
    ensures ShouldWatch(Join(Join(d, h), name), false)
    ensures !ShouldWatchIntended(d, Join(Join(d, h), name), false)
  {
    SubdirJoin(d, h, name);
    SubdirExt(d, h, name);
    SubdirRel(d, h, name);
    assert Rel(d, Join(Join(d, h), name))[0] == '.';
  }

  /** The intended rule skips everything below the root whose relative path has a hidden element. */
  lemma IntendedSkipsHidden(root: string, rel: string, isDir: bool)
    requires root != "" && root[|root| - 1] != '/' && rel != "" && Hidden(rel)
    ensures !ShouldWatchIntended(root, Join(root, rel), isDir)
  {
    RelOfJoin(root, rel);
  }

  /**
   * The intended rule watches nothing with a hidden element below the root,
   * and differs from shouldWatch only in where it looks for one: the two
   * agree on every path that neither starts with '.' nor has a hidden
   * element below the root.
   */
  lemma IntendedAgreesOnVisiblePaths(root: string, path: string, isDir: bool)
    ensures ShouldWatchIntended(root, path, isDir) ==> !Hidden(Rel(root, path))
    ensures !Hidden(Rel(root, path)) && !(|path| > 0 && path[0] == '.') ==>
              (ShouldWatchIntended(root, path, isDir) <==> ShouldWatch(path, isDir))
  {
  }

  // ---------------------------------------------------------------- the mtime table

  /** The decision which walked entries to watch, given a path and whether it is a directory. */
  type Filter = (string, bool) -> bool

  /** The table after the initial scan over `visits` from `m`: every watched entry's time is recorded. */
  function Scan(m: map<string, int>, visits: seq<Visit>, watch: Filter): map<string, int>
    decreases |visits|
  {
    if visits == [] then m
    else
      var v := visits[0];
      var m' := if Seen(v, watch) then m[v.path := v.mtime] else m;
      Scan(m', visits[1..], watch)
  }

  /** The table and `changed` flag after one callback of a tick. */
  datatype Tick = Tick(lastMod: map<string, int>, changed: bool)

  function Observe(t: Tick, v: Visit, watch: Filter): Tick
  {
    if !Seen(v, watch) then t
    else if v.path !in t.lastMod then Tick(t.lastMod[v.path := v.mtime], t.changed)
    else if v.mtime > t.lastMod[v.path] then Tick(t.lastMod[v.path := v.mtime], true)
    else t
  }

  /** One tick's walk over `visits`. */
  function TickOver(t: Tick, visits: seq<Visit>, watch: Filter): Tick
    decreases |visits|
  {
    if visits == [] then t else TickOver(Observe(t, visits[0], watch), visits[1..], watch)
  }

  /** A visit the callbacks act on. */
  predicate Seen(v: Visit, watch: Filter)
  {
    !v.failed && watch(v.path, v.isDir)
  }

  /** The paths of the watched visits, split at the first visit. */
  lemma SeenPathsSplit(visits: seq<Visit>, watch: Filter)
    requires visits != []
    ensures (set v | v in visits && Seen(v, watch) :: v.path)
            == (if Seen(visits[0], watch) then {visits[0].path} else {}) + set w | w in visits[1..] && Seen(w, watch) :: w.path
  {
    assert forall w :: w in visits <==> w == visits[0] || w in visits[1..] by {
      assert visits == [visits[0]] + visits[1..];
    }
  }

  /** The initial scan records exactly the watched entries on top of what was there. */
  lemma {:induction false} ScanRecordsWatched(m: map<string, int>, visits: seq<Visit>, watch: Filter)
    ensures Scan(m, visits, watch).Keys == m.Keys + set v | v in visits && Seen(v, watch) :: v.path
    decreases |visits|
  {
    if visits != [] {
      var v := visits[0];
      var m' := if Seen(v, watch) then m[v.path := v.mtime] else m;
      assert Scan(m, visits, watch) == Scan(m', visits[1..], watch);
      assert m'.Keys == m.Keys + (if Seen(v, watch) then {v.path} else {});
      ScanRecordsWatched(m', visits[1..], watch);
      SeenPathsSplit(visits, watch);
    }
  }

  /** The initial scan leaves the time of every path it records no watched visit for as it was. */
  lemma {:induction false} ScanKeepsUnseen(m: map<string, int>, visits: seq<Visit>, watch: Filter, p: string)
    requires p in m
    requires forall v :: v in visits && Seen(v, watch) ==> v.path != p
    ensures p in Scan(m, visits, watch) && Scan(m, visits, watch)[p] == m[p]
    decreases |visits|
  {
    if visits != [] {
      var v := visits[0];
      var m' := if Seen(v, watch) then m[v.path := v.mtime] else m;
      assert Scan(m, visits, watch) == Scan(m', visits[1..], watch);
      assert forall w :: w in visits[1..] ==> w in visits;
      ScanKeepsUnseen(m', visits[1..], watch, p);
    }
  }

  /** The initial scan records, for every watched path, the modification time of its last watched visit. */
  lemma {:induction false} ScanRecordsLastVisit(m: map<string, int>, visits: seq<Visit>, watch: Filter, j: nat)
    requires j < |visits| && Seen(visits[j], watch)
    requires forall k :: j < k < |visits| && Seen(visits[k], watch) ==> visits[k].path != visits[j].path
    ensures visits[j].path in Scan(m, visits, watch)
    ensures Scan(m, visits, watch)[visits[j].path] == visits[j].mtime
    decreases |visits|
  {
    var v := visits[0];
    var m' := if Seen(v, watch) then m[v.path := v.mtime] else m;
    assert Scan(m, visits, watch) == Scan(m', visits[1..], watch);
    if j == 0 {
      forall w | w in visits[1..] && Seen(w, watch)
        ensures w.path != v.path
      {
        var k :| 0 <= k < |visits[1..]| && visits[1..][k] == w;
        assert visits[k + 1] == w;
      }
      ScanKeepsUnseen(m', visits[1..], watch, v.path);
    } else {
      assert visits[1..][j - 1] == visits[j];
      forall k | j - 1 < k < |visits[1..]| && Seen(visits[1..][k], watch)
        ensures visits[1..][k].path != visits[1..][j - 1].path
      {
        assert visits[1..][k] == visits[k + 1];
      }
      ScanRecordsLastVisit(m', visits[1..], watch, j - 1);
    }
  }

  /**
   * A tick never removes an entry, never lowers a time, and leaves every
   * watched entry it visited at a time no earlier than the visit's.
   */
  lemma {:induction false} TickKeepsAndCovers(t: Tick, visits: seq<Visit>, watch: Filter)
    ensures var t' := TickOver(t, visits, watch);
            && t.lastMod.Keys <= t'.lastMod.Keys
            && (forall p :: p in t.lastMod ==> t.lastMod[p] <= t'.lastMod[p])
            && (forall v :: v in visits && Seen(v, watch) ==> v.path in t'.lastMod && v.mtime <= t'.lastMod[v.path])
            && (t.changed ==> t'.changed)
    decreases |visits|
  {
    if visits != [] {
      var v := visits[0];
      var t1 := Observe(t, v, watch);
      assert TickOver(t, visits, watch) == TickOver(t1, visits[1..], watch);
      assert t.lastMod.Keys <= t1.lastMod.Keys;
      assert forall p :: p in t.lastMod ==> t.lastMod[p] <= t1.lastMod[p];
      assert Seen(v, watch) ==> v.path in t1.lastMod && v.mtime <= t1.lastMod[v.path];
      TickKeepsAndCovers(t1, visits[1..], watch);
      assert forall w :: w in visits <==> w == v || w in visits[1..] by {
        assert visits == [v] + visits[1..];
      }
    }
  }

  /** A tick that finds nothing newer than the table, only known paths at their times or earlier, changes nothing. */
  lemma {:induction false} NothingNewerIsQuiet(t: Tick, visits: seq<Visit>, watch: Filter)
    requires forall v :: v in visits && Seen(v, watch) ==> v.path in t.lastMod && v.mtime <= t.lastMod[v.path]
    ensures TickOver(t, visits, watch) == t
    decreases |visits|
  {
    if visits != [] {
      assert visits == [visits[0]] + visits[1..];
      NothingNewerIsQuiet(t, visits[1..], watch);
    }
  }

  /** Repeating a tick over the same entries finds nothing: the second tick leaves the table as it is and signals no change. */
  lemma RepeatedTickIsQuiet(t: Tick, visits: seq<Visit>, watch: Filter)
    ensures var t' := TickOver(t, visits, watch);
            TickOver(Tick(t'.lastMod, false), visits, watch) == Tick(t'.lastMod, false)
  {
    TickKeepsAndCovers(t, visits, watch);
    NothingNewerIsQuiet(Tick(TickOver(t, visits, watch).lastMod, false), visits, watch);
  }

  /** No two visits of `visits` are to the same path. */
  predicate DistinctPaths(visits: seq<Visit>)
  {
    forall i, j :: 0 <= i < j < |visits| ==> visits[i].path != visits[j].path
  }

  lemma DistinctPathsTail(visits: seq<Visit>)
    requires visits != [] && DistinctPaths(visits)
    ensures DistinctPaths(visits[1..])
    ensures forall w :: w in visits[1..] ==> w.path != visits[0].path
  {
    forall i, j | 0 <= i < j < |visits[1..]|
      ensures visits[1..][i].path != visits[1..][j].path
    {
      assert visits[1..][i] == visits[i + 1] && visits[1..][j] == visits[j + 1];
    }
  }

  /** New files are recorded but never signal a change: a tick over distinct paths the table does not hold keeps `changed` as it was. */
  lemma {:induction false} NewPathsAreQuiet(t: Tick, visits: seq<Visit>, watch: Filter)
    requires DistinctPaths(visits)
    requires forall v :: v in visits ==> v.path !in t.lastMod
    ensures TickOver(t, visits, watch).changed == t.changed
    ensures TickOver(t, visits, watch).lastMod.Keys == t.lastMod.Keys + set v | v in visits && Seen(v, watch) :: v.path
    decreases |visits|
  {
    if visits != [] {
      var v := visits[0];
      var t1 := Observe(t, v, watch);
      DistinctPathsTail(visits);
      assert t1.changed == t.changed;
      assert t1.lastMod.Keys == t.lastMod.Keys + (if Seen(v, watch) then {v.path} else {});
      NewPathsAreQuiet(t1, visits[1..], watch);
      SeenPathsSplit(visits, watch);
    }
  }

  /** One callback touches only the visited path's entry and never clears `changed`. */
  lemma ObserveFrame(t: Tick, v: Visit, watch: Filter)
    ensures var t' := Observe(t, v, watch);
            && (forall p :: p != v.path ==> (p in t'.lastMod <==> p in t.lastMod))
            && (forall p :: p != v.path && p in t.lastMod ==> t'.lastMod[p] == t.lastMod[p])
            && (t.changed ==> t'.changed)
            && (Seen(v, watch) && v.path in t.lastMod && v.mtime > t.lastMod[v.path] ==> t'.changed)
  {
    if !Seen(v, watch) {
      assert Observe(t, v, watch) == t;
    } else if v.path !in t.lastMod {
      assert Observe(t, v, watch) == Tick(t.lastMod[v.path := v.mtime], t.changed);
    } else if v.mtime > t.lastMod[v.path] {
      assert Observe(t, v, watch) == Tick(t.lastMod[v.path := v.mtime], true);
    } else {
      assert Observe(t, v, watch) == t;
    }
  }

  /** A watched file seen with a strictly later time than the table holds, before any other visit to it in the tick, signals a change. */
  lemma {:induction false} LaterTimeSignals(t: Tick, visits: seq<Visit>, i: nat, watch: Filter)
    requires i < |visits| && Seen(visits[i], watch)
    requires visits[i].path in t.lastMod && visits[i].mtime > t.lastMod[visits[i].path]
    requires forall j :: 0 <= j < i ==> visits[j].path != visits[i].path
    ensures TickOver(t, visits, watch).changed
    decreases |visits|
  {
    var v := visits[0];
    var t1 := Observe(t, v, watch);
    assert TickOver(t, visits, watch) == TickOver(t1, visits[1..], watch);
    ObserveFrame(t, v, watch);
    if i == 0 {
      TickKeepsAndCovers(t1, visits[1..], watch);
    } else {
      var p := visits[i].path;
      assert visits[1..][i - 1] == visits[i];
      assert v.path != p;
      assert p in t1.lastMod && t1.lastMod[p] == t.lastMod[p];
      assert forall j :: 0 <= j < i - 1 ==> visits[1..][j].path != p by {
        forall j | 0 <= j < i - 1
          ensures visits[1..][j].path != p
        {
          assert visits[1..][j] == visits[j + 1];
        }
      }
      LaterTimeSignals(t1, visits[1..], i - 1, watch);
    }
  }

  // ---------------------------------------------------------------- the watcher

  class FileWatcher {
    var lastMod: map<string, int>
    /** Whether the one-slot restart channel holds a value. */
    var restartPending: bool

    constructor ()
      ensures lastMod == map[] && !restartPending
    {
      lastMod := map[];
      restartPending := false;
    }

    /** The initial walk: the time of every watched entry is recorded; nothing is signalled. */
    method InitialScan(visits: seq<Visit>)
      modifies this
      ensures lastMod == Scan(old(lastMod), visits, ShouldWatch)
      ensures restartPending == old(restartPending)
    {
      var i := 0;
      while i < |visits|
        invariant 0 <= i <= |visits|
        invariant Scan(old(lastMod), visits, ShouldWatch) == Scan(lastMod, visits[i..], ShouldWatch)
        invariant restartPending == old(restartPending)
      {
        assert visits[i..][1..] == visits[i + 1..];
        var v := visits[i];
        if !v.failed && ShouldWatch(v.path, v.isDir) {
          lastMod := lastMod[v.path := v.mtime];
        }
        i := i + 1;
      }
    }

    /**
     * One tick: the walk updates the table, and when a known file changed a
     * restart is offered to the one-slot channel without blocking, so at most
     * one restart is ever pending.
     */
    method OnTick(visits: seq<Visit>) returns (changed: bool)
      modifies this
      ensures var t := TickOver(Tick(old(lastMod), false), visits, ShouldWatch);
              lastMod == t.lastMod && changed == t.changed
      ensures restartPending == (old(restartPending) || changed)
    {
      changed := false;
      var i := 0;
      while i < |visits|
        invariant 0 <= i <= |visits|
        invariant TickOver(Tick(old(lastMod), false), visits, ShouldWatch) == TickOver(Tick(lastMod, changed), visits[i..], ShouldWatch)
        invariant restartPending == old(restartPending)
      {
        assert visits[i..][1..] == visits[i + 1..];
        var v := visits[i];
        if !v.failed && ShouldWatch(v.path, v.isDir) {
          var known := v.path in lastMod;
          if !known || v.mtime > lastMod[v.path] {
            lastMod := lastMod[v.path := v.mtime];
            if known {
              changed := true;
            }
          }
        }
        i := i + 1;
      }
      if changed && !restartPending {
        restartPending := true;
      }
    }

    /** The main loop's receive on the restart channel: takes the pending signal, if any. */
    method TakeRestart() returns (restart: bool)
      modifies this
      ensures restart == old(restartPending) && !restartPending
      ensures lastMod == old(lastMod)
    {
      restart := restartPending;
      restartPending := false;
    }
  }
}

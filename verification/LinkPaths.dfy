/**
 Path names: skipelem takes off one element at a time, and namex walks the directories that the
 elements name.
 */
module LinkPaths {
  import opened Common
  import opened LinkCount
  import opened Links

  // ---- What a path means ----

  /** The stretches between slashes, empty ones included. */
  function Split(path: string): (parts: seq<string>)
    ensures |parts| >= 1
  {
    if path == "" then [""]
    else
      var rest := Split(path[1..]);
      if path[0] == '/' then [""] + rest else [[path[0]] + rest[0]] + rest[1..]
  }

  function Kept(parts: seq<string>): seq<string>
  {
    if parts == [] then []
    else if parts[0] == "" then Kept(parts[1..])
    else [Trunc(parts[0])] + Kept(parts[1..])
  }

  /** The names of a path: what is between slashes, as far as a directory entry can hold it. */
  function Names(path: string): seq<string>
  {
    Kept(Split(path))
  }

  predicate NoSlash(s: string) {
    forall k :: 0 <= k < |s| ==> s[k] != '/'
  }

  lemma SlashFirst(path: string)
    requires path != "" && path[0] == '/'
    ensures Names(path) == Names(path[1..])
  {
    var rest := Split(path[1..]);
    assert Split(path)[1..] == rest;
  }

  /** One element: a stretch without slashes, up to a slash or the end. */
  lemma {:induction false} SplitElem(path: string, n: nat)
    requires n <= |path| && NoSlash(path[..n]) && (n < |path| ==> path[n] == '/')
    ensures Split(path) == if n < |path| then [path[..n]] + Split(path[n + 1..]) else [path]
    decreases n
  {
    if n == 0 {
      if path != "" {
        assert path[..0] == "";
      }
    } else {
      var tail := path[1..];
      assert path[..n][0] == path[0];
      assert tail[..n - 1] == path[..n][1..];
      SplitElem(tail, n - 1);
      assert n < |path| ==> tail[n..] == path[n + 1..];
      assert [path[0]] + tail[..n - 1] == path[..n];
      assert n == |path| ==> [path[0]] + tail == path;
    }
  }

  lemma FirstElem(path: string, n: nat)
    requires 0 < n <= |path| && NoSlash(path[..n]) && (n < |path| ==> path[n] == '/')
    ensures Names(path) == [Trunc(path[..n])] + Names(path[n..])
  {
    hide Trunc;
    SplitElem(path, n);
    if n < |path| {
      SlashFirst(path[n..]);
      assert path[n..][1..] == path[n + 1..];
      assert ([path[..n]] + Split(path[n + 1..]))[1..] == Split(path[n + 1..]);
    } else {
      assert path[..n] == path && path[n..] == "";
      assert [path][1..] == [];
      assert Names("") == [];
    }
  }

  // ---- skipelem ----

  /** The first name and the rest of the path without leading slashes, or nothing if there is no name. */
  method SkipElem(path: string) returns (r: Option<string>, name: string)
    ensures r.None? <==> Names(path) == []
    ensures r.Some? ==> Names(path) == [name] + Names(r.value)
    ensures r.Some? ==> |r.value| < |path| && (r.value == "" <==> |Names(path)| == 1)
  {
    var i := 0;
    while i < |path| && path[i] == '/'
      invariant i <= |path| && Names(path[i..]) == Names(path)
    {
      SlashFirst(path[i..]);
      assert path[i..][1..] == path[i + 1..];
      i := i + 1;
    }
    if i == |path| {
      assert path[i..] == "" && Names("") == [];
      return None, "";
    }
    var s := i;
    while i < |path| && path[i] != '/'
      invariant s <= i <= |path| && forall k :: s <= k < i ==> path[k] != '/'
    {
      i := i + 1;
    }
    var len := i - s;
    name := if len >= DIRSIZ then path[s..s + DIRSIZ] else path[s..s + len];
    OneElem(path, s, i, name);
    ghost var e := i;
    while i < |path| && path[i] == '/'
      invariant e <= i <= |path| && Names(path[i..]) == Names(path[e..])
    {
      SlashFirst(path[i..]);
      assert path[i..][1..] == path[i + 1..];
      i := i + 1;
    }
    RestEmpty(path[i..]);
    r := Some(path[i..]);
  }

  lemma OneElem(path: string, s: nat, e: nat, name: string)
    requires s < e <= |path| && (forall k :: s <= k < e ==> path[k] != '/') && (e < |path| ==> path[e] == '/')
    requires name == if e - s >= DIRSIZ then path[s..s + DIRSIZ] else path[s..e]
    ensures Names(path[s..]) == [name] + Names(path[e..])
  {
    var p, n := path[s..], e - s;
    assert forall k :: 0 <= k < n ==> p[..n][k] == path[s + k];
    FirstElem(p, n);
    assert p[n..] == path[e..];
    assert p[..n] == path[s..e];
    assert Trunc(p[..n]) == name;
  }

  lemma RestEmpty(path: string)
    requires path != "" ==> path[0] != '/'
    ensures path == "" <==> Names(path) == []
  {
    if path == "" {
      assert Split(path) == [""];
    } else {
      assert Split(path)[0] != "";
    }
  }

  // ---- namex ----

  function Find(es: seq<Dirent>, name: string, k: nat): Option<nat>
    decreases |es| - k
  {
    if k >= |es| then None
    else if es[k].inum != 0 && es[k].name == Trunc(name) then Some(es[k].inum)
    else Find(es, name, k + 1)
  }

  lemma {:induction false} FindIs(es: seq<Dirent>, name: string, k: nat, r: Option<nat>)
    requires k <= |es| && (forall j :: 0 <= j < k && es[j].inum != 0 ==> es[j].name != Trunc(name))
    requires r.None? ==> Absent(es, name)
    requires r.Some? ==> FoundAt(es, name, r.value)
    ensures Find(es, name, k) == if r.Some? then Some(es[r.value].inum) else None
    decreases |es| - k
  {
    if k < |es| && !(es[k].inum != 0 && es[k].name == Trunc(name)) {
      FindIs(es, name, k + 1, r);
    }
  }

  /** At: the names lead there.  Panic: ilock panics on a free inode that is still to be searched. */
  datatype Reached = At(inum: nat) | Nothing | Panic

  /** The inode that the names lead to from i; every one on the way must be a directory. */
  function Walk(fs: Fs, i: nat, names: seq<string>): Reached
    requires i < |fs|
    decreases |names|
  {
    if names == [] then At(i)
    else if fs[i].kind == Free then Panic
    else if fs[i].kind != Dir then Nothing
    else
      match Find(fs[i].entries, names[0], 0)
      case None => Nothing
      case Some(next) => if next < |fs| then Walk(fs, next, names[1..]) else Nothing
  }

  /** The directory that all names but the last lead to. */
  function WalkParent(fs: Fs, i: nat, names: seq<string>): Reached
    requires i < |fs|
  {
    if names == [] then Nothing
    else
      match Walk(fs, i, names[..|names| - 1])
      case At(d) => if d >= |fs| then Nothing else if fs[d].kind == Free then Panic else if fs[d].kind == Dir then At(d) else Nothing
      case Nothing => Nothing
      case Panic => Panic
  }

  // ---- When the walk panics ----

  predicate AtFree(fs: Fs, r: Reached) {
    r.At? && r.inum < |fs| && fs[r.inum].kind == Free
  }

  /** Some names, but not all, lead to a free inode. */
  ghost predicate MeetsFree(fs: Fs, i: nat, names: seq<string>)
    requires i < |fs|
  {
    exists n: nat :: n < |names| && AtFree(fs, Walk(fs, i, names[..n]))
  }

  lemma PrefixStep(fs: Fs, i: nat, names: seq<string>, n: nat, next: nat)
    requires i < |fs| && 0 < n <= |names| && fs[i].kind == Dir && Find(fs[i].entries, names[0], 0) == Some(next) && next < |fs|
    ensures Walk(fs, i, names[..n]) == Walk(fs, next, names[1..][..n - 1])
  {
    hide Find;
    assert names[..n][1..] == names[1..][..n - 1];
  }

  lemma MeetsNext(fs: Fs, i: nat, names: seq<string>, next: nat)
    requires i < |fs| && names != [] && fs[i].kind == Dir && Find(fs[i].entries, names[0], 0) == Some(next) && next < |fs|
    ensures MeetsFree(fs, i, names) <==> MeetsFree(fs, next, names[1..])
  {
    hide Find, Walk;
    if MeetsFree(fs, i, names) {
      var n: nat :| n < |names| && AtFree(fs, Walk(fs, i, names[..n]));
      WalkNowhere(fs, i, names[..n]);
      PrefixStep(fs, i, names, n, next);
      assert n - 1 < |names[1..]|;
    }
    if MeetsFree(fs, next, names[1..]) {
      var n: nat :| n < |names[1..]| && AtFree(fs, Walk(fs, next, names[1..][..n]));
      PrefixStep(fs, i, names, n + 1, next);
      assert n + 1 < |names|;
    }
  }

  lemma WalkNowhere(fs: Fs, i: nat, names: seq<string>)
    requires i < |fs| && fs[i].kind != Free
    ensures names == [] ==> !AtFree(fs, Walk(fs, i, names))
  {
  }

  lemma StuckAt(fs: Fs, i: nat, names: seq<string>, n: nat)
    requires i < |fs| && 0 < n <= |names| && fs[i].kind != Free && (fs[i].kind == Dir ==> Find(fs[i].entries, names[0], 0).None?)
    ensures Walk(fs, i, names[..n]) == Nothing
  {
    hide Find;
    assert names[..n][0] == names[0];
  }

  /** A walk panics exactly if it meets a free inode before its last name. */
  lemma {:induction false} WalkPanics(fs: Fs, home: Homes, i: nat, names: seq<string>)
    requires FsOk(fs, home) && i < |fs|
    ensures Walk(fs, i, names) == Panic <==> MeetsFree(fs, i, names)
    decreases |names|
  {
    hide Find, FsOk, MeetsFree, AtFree;
    if names == [] {
      NoNames(fs, i, names);
    } else if fs[i].kind == Free {
      FreeStart(fs, i, names);
    } else if fs[i].kind == Dir && Find(fs[i].entries, names[0], 0).Some? {
      var next := Find(fs[i].entries, names[0], 0).value;
      FindReads(fs, home, i, names[0], 0);
      MeetsNext(fs, i, names, next);
      WalkPanics(fs, home, next, names[1..]);
    } else {
      Stuck(fs, i, names);
    }
  }

  lemma NoNames(fs: Fs, i: nat, names: seq<string>)
    requires i < |fs| && names == []
    ensures !MeetsFree(fs, i, names)
  {
  }

  lemma FreeStart(fs: Fs, i: nat, names: seq<string>)
    requires i < |fs| && names != [] && fs[i].kind == Free
    ensures MeetsFree(fs, i, names)
  {
    assert names[..0] == [];
    assert AtFree(fs, Walk(fs, i, names[..0]));
  }

  lemma Stuck(fs: Fs, i: nat, names: seq<string>)
    requires i < |fs| && names != [] && fs[i].kind != Free && (fs[i].kind == Dir ==> Find(fs[i].entries, names[0], 0).None?)
    ensures !MeetsFree(fs, i, names)
  {
    hide Find, Walk;
    forall n: nat | n < |names|
      ensures !AtFree(fs, Walk(fs, i, names[..n]))
    {
      if n == 0 {
        WalkNowhere(fs, i, names[..n]);
      } else {
        StuckAt(fs, i, names, n);
      }
    }
  }

  lemma FindReads(fs: Fs, home: Homes, i: nat, name: string, k: nat)
    requires FsOk(fs, home) && i < |fs| && fs[i].kind == Dir && Find(fs[i].entries, name, k).Some?
    ensures Find(fs[i].entries, name, k).value < |fs|
  {
    hide FsOk, Trunc;
    Reads(fs, home, i);
    FindFrom(fs[i].entries, name, k);
  }

  /** What Find finds is in the list. */
  lemma {:induction false} FindFrom(es: seq<Dirent>, name: string, k: nat)
    requires Find(es, name, k).Some?
    ensures exists j: nat :: j < |es| && es[j].inum == Find(es, name, k).value && es[j].inum != 0
    decreases |es| - k
  {
    if !(es[k].inum != 0 && es[k].name == Trunc(name)) {
      FindFrom(es, name, k + 1);
    }
  }

  /** nameiparent panics on the same inodes as namei, and on the parent itself. */
  lemma ParentPanics(fs: Fs, home: Homes, i: nat, names: seq<string>)
    requires FsOk(fs, home) && i < |fs|
    ensures WalkParent(fs, i, names) == Panic <==> MeetsFree(fs, i, names)
  {
    hide FsOk, Walk, AtFree;
    if names != [] {
      var front := names[..|names| - 1];
      WalkPanics(fs, home, i, front);
      assert MeetsFree(fs, i, names) <==> MeetsFree(fs, i, front) || AtFree(fs, Walk(fs, i, front)) by {
        FrontMeets(fs, i, names);
      }
      IsAtFree(fs, Walk(fs, i, front));
    }
  }

  lemma IsAtFree(fs: Fs, r: Reached)
    ensures AtFree(fs, r) <==> r.At? && r.inum < |fs| && fs[r.inum].kind == Free
  {
  }

  lemma FrontMeets(fs: Fs, i: nat, names: seq<string>)
    requires i < |fs| && names != []
    ensures MeetsFree(fs, i, names) <==> MeetsFree(fs, i, names[..|names| - 1]) || AtFree(fs, Walk(fs, i, names[..|names| - 1]))
  {
    hide Walk, AtFree;
    var front := names[..|names| - 1];
    forall n: nat | n < |front|
      ensures names[..n] == front[..n]
    {
    }
    if MeetsFree(fs, i, names) {
      var n: nat :| n < |names| && AtFree(fs, Walk(fs, i, names[..n]));
      assert n < |front| ==> AtFree(fs, Walk(fs, i, front[..n]));
    }
    if MeetsFree(fs, i, front) {
      var n: nat :| n < |front| && AtFree(fs, Walk(fs, i, front[..n]));
      assert AtFree(fs, Walk(fs, i, names[..n]));
    }
  }

  /** From an inode with a name the walk only meets inodes with a name: it never panics. */
  lemma {:induction false} LinkedWalk(fs: Fs, home: Homes, i: nat, names: seq<string>)
    requires FsOk(fs, home) && i < |fs| && fs[i].kind != Free && fs[i].nlink >= 1
    ensures Walk(fs, i, names) != Panic
    ensures Walk(fs, i, names).At? ==> Walk(fs, i, names).inum < |fs| && fs[Walk(fs, i, names).inum].kind != Free && fs[Walk(fs, i, names).inum].nlink >= 1
    decreases |names|
  {
    hide Find, FsOk;
    if names != [] && fs[i].kind == Dir && Find(fs[i].entries, names[0], 0).Some? {
      FindFrom(fs[i].entries, names[0], 0);
      var j: nat :| j < |fs[i].entries| && fs[i].entries[j].inum == Find(fs[i].entries, names[0], 0).value && fs[i].entries[j].inum != 0;
      NamedIsLinked(fs, home, i, j);
      LinkedWalk(fs, home, fs[i].entries[j].inum, names[1..]);
    }
  }

  lemma Reads(fs: Fs, home: Homes, i: nat)
    requires FsOk(fs, home) && i < |fs| && fs[i].kind == Dir
    ensures forall k :: 0 <= k < |fs[i].entries| ==> fs[i].entries[k].inum < |fs|
  {
    assert InodeOk(fs, i);
  }

  /** One step of the walk; the last name is what the parent is asked for. */
  lemma WalkStep(fs: Fs, home: Homes, i: nat, names: seq<string>)
    requires FsOk(fs, home) && i < |fs| && names != [] && fs[i].kind == Dir
    ensures match Find(fs[i].entries, names[0], 0)
      case None => Walk(fs, i, names) == Nothing && (|names| > 1 ==> WalkParent(fs, i, names) == Nothing)
      case Some(next) => next < |fs| && Walk(fs, i, names) == Walk(fs, next, names[1..]) && (|names| > 1 ==> WalkParent(fs, i, names) == WalkParent(fs, next, names[1..]) && Last(names[1..]) == Last(names))
    ensures |names| == 1 ==> Last(names) == names[0]
  {
    hide Find, FsOk;
    if Find(fs[i].entries, names[0], 0).Some? {
      FindReads(fs, home, i, names[0], 0);
    }
    if |names| > 1 {
      assert names[..|names| - 1][1..] == names[1..][..|names[1..]| - 1];
      assert names[..|names| - 1][0] == names[0];
    }
  }

  /** Where the path starts: at the root, or in the current directory. */
  function Start(path: string, cwd: nat): nat
  {
    if path != "" && path[0] == '/' then ROOT else cwd
  }

  function Last(names: seq<string>): string
  {
    if names == [] then "" else names[|names| - 1]
  }

  /** The loop of namex; the references taken on the way are dropped again. */
  method Follow(v: Volume, start: nat, path: string, parent: bool) returns (r: Reached, name: string)
    requires v.Ok() && start < |v.inodes|
    ensures r == if parent then WalkParent(v.inodes, start, Names(path)) else Walk(v.inodes, start, Names(path))
    ensures parent && r.At? ==> name == Last(Names(path))
  {
    hide Find, Names, FsOk, HeldOk, Walk, WalkParent, FoundAt, Absent, Trunc;
    var ip: nat, rest := start, path;
    name := "";
    while true
      invariant ip < |v.inodes| && (parent ==> Last(Names(rest)) == Last(Names(path)))
      invariant Walk(v.inodes, ip, Names(rest)) == Walk(v.inodes, start, Names(path))
      invariant parent ==> WalkParent(v.inodes, ip, Names(rest)) == WalkParent(v.inodes, start, Names(path))
      decreases |rest|
    {
      ghost var names := Names(rest);
      var more, elem := SkipElem(rest);
      if more.None? {
        NoMore(v.inodes, ip, names);
        return if parent then Nothing else At(ip), name;
      }
      name := elem;
      if v.inodes[ip].kind != Dir {
        NotSearched(v.inodes, ip, names);
        return if v.inodes[ip].kind == Free then Panic else Nothing, name;
      }
      if parent && more.value == "" {
        LastName(v.inodes, ip, names);
        return At(ip), name;
      }
      var k := v.DirLookup(ip, name);
      FindIs(v.inodes[ip].entries, name, 0, k);
      WalkStep(v.inodes, v.home, ip, names);
      if k.None? {
        return Nothing, name;
      }
      FindReads(v.inodes, v.home, ip, name, 0);
      assert names[1..] == Names(more.value);
      ip, rest := v.inodes[ip].entries[k.value].inum, more.value;
    }
  }

  /** namei, or with parent nameiparent. */
  method Namex(v: Volume, cwd: nat, path: string, parent: bool) returns (r: Reached, name: string)
    requires v.Ok() && cwd < |v.inodes|
    ensures Start(path, cwd) < |v.inodes|
    ensures r == if parent then WalkParent(v.inodes, Start(path, cwd), Names(path)) else Walk(v.inodes, Start(path, cwd), Names(path))
    ensures r == Panic <==> MeetsFree(v.inodes, Start(path, cwd), Names(path))
    ensures parent && r.At? ==> Names(path) != [] && name == Names(path)[|Names(path)| - 1]
  {
    hide Names, FsOk, HeldOk, MeetsFree, Walk;
    RootIn(v.inodes, v.home);
    var start := if path != "" && path[0] == '/' then ROOT else cwd;
    WalkPanics(v.inodes, v.home, start, Names(path));
    ParentPanics(v.inodes, v.home, start, Names(path));
    r, name := Follow(v, start, path, parent);
  }

  lemma RootIn(fs: Fs, home: Homes)
    requires FsOk(fs, home)
    ensures ROOT < |fs| && LinkedDir(fs, ROOT)
  {
  }

  lemma NoMore(fs: Fs, i: nat, names: seq<string>)
    requires i < |fs| && names == []
    ensures Walk(fs, i, names) == At(i) && WalkParent(fs, i, names) == Nothing
  {
  }

  /** Absolute path names never make namex panic, and lead to an inode with a name. */
  lemma AbsolutePaths(fs: Fs, home: Homes, path: string, cwd: nat)
    requires FsOk(fs, home) && path != "" && path[0] == '/'
    ensures Start(path, cwd) < |fs| && var r := Walk(fs, Start(path, cwd), Names(path)); r != Panic && (r.At? ==> r.inum < |fs| && fs[r.inum].nlink >= 1)
    ensures WalkParent(fs, Start(path, cwd), Names(path)) != Panic
  {
    hide FsOk, Names, Walk, WalkParent, MeetsFree;
    RootIn(fs, home);
    LinkedWalk(fs, home, ROOT, Names(path));
    WalkPanics(fs, home, ROOT, Names(path));
    ParentPanics(fs, home, ROOT, Names(path));
  }

  lemma LastName(fs: Fs, i: nat, names: seq<string>)
    requires i < |fs| && |names| == 1 && fs[i].kind == Dir
    ensures WalkParent(fs, i, names) == At(i)
  {
  }

  lemma NotSearched(fs: Fs, i: nat, names: seq<string>)
    requires i < |fs| && names != [] && fs[i].kind != Dir
    ensures var r := if fs[i].kind == Free then Panic else Nothing; Walk(fs, i, names) == r && WalkParent(fs, i, names) == r
  {
  }
}

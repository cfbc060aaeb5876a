/** Link counts through unlink, mkdir and rmdir, and through the release of inodes. */
module LinkDirs {
  import opened Common
  import opened LinkCount

  // ---- Inodes without a name ----

  /** An inode fresh from ialloc, or a directory with its dots, that nothing names yet. */
  function Unnamed(fs: Fs, i: nat, kind: Kind, es: seq<Dirent>): Fs
    requires i < |fs|
  {
    fs[i := Inode(kind, 0, es)]
  }

  function Dots(i: nat, d: nat): seq<Dirent>
  {
    [Dirent(i, "."), Dirent(d, "..")]
  }

  lemma UnnamedRefs(fs: Fs, i: nat, kind: Kind, es: seq<Dirent>, x: nat, y: nat, j: nat)
    requires i < |fs| && fs[i].nlink == 0
    ensures IsRef(Unnamed(fs, i, kind, es), x, y, j) <==> IsRef(fs, x, y, j)
    ensures LinkedDir(Unnamed(fs, i, kind, es), x) <==> LinkedDir(fs, x)
  {
  }

  /** The same entries name the same inodes. */
  lemma SameRefs(fs: Fs, fs': Fs, j: nat)
    requires forall x: nat, y: nat :: IsRef(fs', x, y, j) <==> IsRef(fs, x, y, j)
    ensures Refs(fs', j) == Refs(fs, j)
  {
    hide IsRef;
    forall x: nat, y: nat
      ensures (x, y) in Refs(fs', j) <==> (x, y) in Refs(fs, j)
    {
      RefAt(fs, j, x, y);
      RefAt(fs', j, x, y);
    }
  }

  lemma UnnamedDir(fs: Fs, i: nat, kind: Kind, es: seq<Dirent>, j: nat)
    requires 0 < i < |fs| && fs[i].nlink == 0 && j < |fs| && j != i && fs[j].kind == Dir && DirOk(fs, j) && Refs(fs, i) == {}
    ensures DirOk(Unnamed(fs, i, kind, es), j)
  {
    hide Refs, Trunc, UniqueNames;
    NoRefs(fs, i);
    var es := fs[j].entries;
    forall k | 0 <= k < |es| && fs[j].nlink > 0 && es[k].inum != 0
      ensures es[k].inum != i
    {
      assert !IsRef(fs, j, k, i);
    }
  }

  lemma UnnamedHomes(fs: Fs, home: Homes, i: nat, kind: Kind, es: seq<Dirent>)
    requires HomesOk(fs, home) && i < |fs| && fs[i].nlink == 0 && Refs(fs, i) == {}
    ensures HomesOk(Unnamed(fs, i, kind, es), home)
  {
    hide IsRef, Refs;
    NoRefs(fs, i);
    forall x: nat, y: nat, j: nat
      ensures IsRef(Unnamed(fs, i, kind, es), x, y, j) <==> IsRef(fs, x, y, j)
      ensures LinkedDir(Unnamed(fs, i, kind, es), x) <==> LinkedDir(fs, x)
    {
      UnnamedRefs(fs, i, kind, es, x, y, j);
    }
  }

  /** ialloc, the dots of a new directory, and iput's release all leave the rest alone. */
  lemma UnnamedKeeps(fs: Fs, home: Homes, i: nat, kind: Kind, es: seq<Dirent>)
    requires FsOk(fs, home) && 0 < i < |fs| && fs[i].nlink == 0
    requires kind == Free ==> es == []
    requires kind == Dir ==> exists d: nat :: 0 < d < |fs| && es == Dots(i, d)
    ensures FsOk(Unnamed(fs, i, kind, es), home)
  {
    hide Refs, IsRef, DirOk, HomesOk;
    var fs' := Unnamed(fs, i, kind, es);
    assert InodeOk(fs, i);
    EmptyRefs(fs, i);
    UnnamedHomes(fs, home, i, kind, es);
    forall j: nat | j < |fs|
      ensures InodeOk(fs', j)
    {
      assert InodeOk(fs, j);
      forall x: nat, y: nat
        ensures IsRef(fs', x, y, j) <==> IsRef(fs, x, y, j)
      {
        UnnamedRefs(fs, i, kind, es, x, y, j);
      }
      SameRefs(fs, fs', j);
      if fs[j].kind == Dir && j != i {
        UnnamedDir(fs, i, kind, es, j);
      }
      if j == i && kind == Dir {
        DotsOk(fs', i);
      }
    }
  }

  lemma EmptyRefs(fs: Fs, i: nat)
    requires i < |fs| && InodeOk(fs, i) && fs[i].nlink == 0
    ensures Refs(fs, i) == {}
  {
  }

  lemma DotsOk(fs: Fs, i: nat)
    requires i < |fs| && fs[i].nlink == 0 && exists d: nat :: 0 < d < |fs| && fs[i].entries == Dots(i, d)
    ensures DirOk(fs, i)
  {
    assert "."[0] == '.' && |"."| == 1 && |".."| == 2;
  }

  /** What iput leaves of the inodes. */
  function AfterPut(fs: Fs, refs: seq<nat>, i: nat): Fs
    requires i < |fs| == |refs|
  {
    if fs[i].nlink == 0 && refs[i] == 1 then Unnamed(fs, i, Free, []) else fs
  }

  // ---- unlink of a file ----

  /** sys_unlink of entry k of d, which names a file. */
  function Unlinked(fs: Fs, d: nat, k: nat): Fs
    requires d < |fs| && k < |fs[d].entries| && fs[d].entries[k].inum < |fs|
  {
    var i := fs[d].entries[k].inum;
    var fs1 := fs[d := fs[d].(entries := fs[d].entries[k := Dirent(0, "")])];
    WithLinks(fs1, i, fs1[i].nlink - 1)
  }

  /** The entry can be put back: unlink is undone by link. */
  lemma RelinkUndoes(fs: Fs, d: nat, k: nat)
    requires d < |fs| && k < |fs[d].entries| && fs[d].entries[k].inum < |fs| && fs[d].entries[k].inum != d
    requires Trunc(fs[d].entries[k].name) == fs[d].entries[k].name
    ensures Linked(Unlinked(fs, d, k), d, k, fs[d].entries[k].name, fs[d].entries[k].inum) == fs
  {
    hide Trunc;
    var i := fs[d].entries[k].inum;
    var fs' := Unlinked(fs, d, k);
    var back := Linked(fs', d, k, fs[d].entries[k].name, i);
    assert back[d].entries == fs[d].entries;
    assert back[d] == fs[d] && back[i] == fs[i];
  }

  lemma UnlinkDirOk(fs: Fs, d: nat, k: nat, j: nat)
    requires d < |fs| && 2 <= k < |fs[d].entries| && fs[d].entries[k].inum < |fs| && j < |fs| && DirOk(fs, j) && fs[j].kind == Dir
    requires fs[fs[d].entries[k].inum].kind != Dir && fs[fs[d].entries[k].inum].kind != Free
    ensures DirOk(Unlinked(fs, d, k), j)
  {
    hide Trunc;
    assert Trunc("") == "" by { TruncShort(""); }
  }

  lemma TruncShort(name: string)
    requires |name| <= DIRSIZ
    ensures Trunc(name) == name
  {
  }

  lemma UnlinkHomes(fs: Fs, home: Homes, d: nat, k: nat, i: nat)
    requires HomesOk(fs, home) && LinkedDir(fs, d) && 2 <= k < |fs[d].entries|
    requires i == fs[d].entries[k].inum < |fs| && fs[i].kind != Dir
    requires Gains(Unlinked(fs, d, k), fs, d, k, i)
    ensures HomesOk(Unlinked(fs, d, k), home)
  {
    hide IsRef;
    forall x: nat
      ensures LinkedDir(Unlinked(fs, d, k), x) <==> LinkedDir(fs, x)
    {
    }
  }

  lemma UnlinkKeeps(fs: Fs, home: Homes, d: nat, k: nat)
    requires FsOk(fs, home) && LinkedDir(fs, d) && 2 <= k < |fs[d].entries|
    requires 0 < fs[d].entries[k].inum < |fs| && fs[fs[d].entries[k].inum].kind != Dir
    ensures fs[fs[d].entries[k].inum].nlink >= 1
    ensures FsOk(Unlinked(fs, d, k), home)
  {
    hide Refs, Trunc, IsRef, DirOk, HomesOk, Gains;
    var i := fs[d].entries[k].inum;
    var fs' := Unlinked(fs, d, k);
    assert InodeOk(fs, d) && InodeOk(fs, i);
    EntryFacts(fs, d, k);
    RelinkUndoes(fs, d, k);
    LinkGains(fs', d, k, fs[d].entries[k].name, i);
    UnlinkHomes(fs, home, d, k, i);
    GainsCount(fs', fs, d, k, i, i);
    forall j: nat | j < |fs|
      ensures InodeOk(fs', j)
    {
      assert InodeOk(fs, j);
      GainsCount(fs', fs, d, k, i, j);
      FreeStays(fs', j);
      if fs[j].kind == Dir {
        UnlinkDirOk(fs, d, k, j);
      }
    }
  }

  lemma FreeStays(fs: Fs, j: nat)
    ensures |Refs(fs, j)| == 0 ==> Refs(fs, j) == {}
  {
  }

  lemma EntryFacts(fs: Fs, d: nat, k: nat)
    requires LinkedDir(fs, d) && DirOk(fs, d) && 2 <= k < |fs[d].entries| && fs[d].entries[k].inum != 0
    ensures Trunc(fs[d].entries[k].name) == fs[d].entries[k].name && fs[d].entries[k].name != "." && fs[d].entries[k].name != ".."
    ensures fs[d].entries[k].inum < |fs| && fs[fs[d].entries[k].inum].kind != Free
    ensures IsRef(fs, d, k, fs[d].entries[k].inum)
  {
  }

  // ---- mkdir and rmdir ----

  /** i is a directory with nothing but its dots, whose parent is d. */
  predicate BareDir(fs: Fs, i: nat, d: nat) {
    && i < |fs| && fs[i].kind == Dir && |fs[i].entries| >= 2 && fs[i].entries[0] == Dirent(i, ".") && fs[i].entries[1] == Dirent(d, "..")
    && forall k :: 2 <= k < |fs[i].entries| ==> fs[i].entries[k].inum == 0
  }

  /** create of a directory: its name in d, its link, and d's link for "..". */
  function Attached(fs: Fs, d: nat, k: nat, name: string, i: nat): Fs
    requires d < |fs| && i < |fs| && k <= |fs[d].entries| && i != d
  {
    WithEntry(WithLinks(WithLinks(fs, i, fs[i].nlink + 1), d, fs[d].nlink + 1), d, k, name, i)
  }

  /** What create leaves: the new inode, its name in d, and for a directory its dots and d's extra link. */
  function WithNew(fs: Fs, d: nat, k: nat, name: string, i: nat, kind: Kind): (r: Fs)
    requires d < |fs| && i < |fs| && i != d && k <= |fs[d].entries|
    ensures |r| == |fs|
  {
    if kind == Dir then Attached(Unnamed(fs, i, Dir, Dots(i, d)), d, k, name, i)
    else Linked(Unnamed(fs, i, kind, []), d, k, name, i)
  }

  /** sys_unlink of an empty directory. */
  function Detached(fs: Fs, d: nat, k: nat): Fs
    requires d < |fs| && k < |fs[d].entries| && fs[d].entries[k].inum < |fs| && fs[d].entries[k].inum != d
  {
    var i := fs[d].entries[k].inum;
    var fs1 := fs[d := Inode(fs[d].kind, fs[d].nlink - 1, fs[d].entries[k := Dirent(0, "")])];
    WithLinks(fs1, i, fs[i].nlink - 1)
  }

  /** Two more entries count: k of d names i, and ".." of i names d. */
  ghost predicate GainsTwo(fs: Fs, fs': Fs, d: nat, k: nat, i: nat) {
    && !IsRef(fs, d, k, i) && !IsRef(fs, i, 1, d) && i != d
    && forall x: nat, y: nat, j: nat :: IsRef(fs', x, y, j) <==> IsRef(fs, x, y, j) || (x == d && y == k && j == i) || (x == i && y == 1 && j == d)
  }

  lemma AttachedRefs(fs: Fs, d: nat, k: nat, name: string, i: nat, x: nat, y: nat, j: nat)
    requires LinkedDir(fs, d) && i != d && i != 0 && d != 0 && BareDir(fs, i, d) && fs[i].nlink == 0
    requires FreeSlot(fs[d].entries, k) && Trunc(name) != "."
    ensures IsRef(Attached(fs, d, k, name, i), x, y, j) <==> IsRef(fs, x, y, j) || (x == d && y == k && j == i) || (x == i && y == 1 && j == d)
    ensures !IsRef(fs, d, k, i) && !IsRef(fs, i, 1, d)
    ensures LinkedDir(Attached(fs, d, k, name, i), x) <==> LinkedDir(fs, x) || x == i
  {
    hide Trunc;
  }

  lemma AttachGains(fs: Fs, d: nat, k: nat, name: string, i: nat)
    requires LinkedDir(fs, d) && i != d && i != 0 && d != 0 && BareDir(fs, i, d) && fs[i].nlink == 0
    requires FreeSlot(fs[d].entries, k) && Trunc(name) != "."
    ensures GainsTwo(fs, Attached(fs, d, k, name, i), d, k, i)
  {
    hide IsRef, Trunc, Attached;
    forall x: nat, y: nat, j: nat
      ensures IsRef(Attached(fs, d, k, name, i), x, y, j) <==> IsRef(fs, x, y, j) || (x == d && y == k && j == i) || (x == i && y == 1 && j == d)
      ensures !IsRef(fs, d, k, i) && !IsRef(fs, i, 1, d)
    {
      AttachedRefs(fs, d, k, name, i, x, y, j);
    }
  }

  lemma GainsTwoAt(fs: Fs, fs': Fs, d: nat, k: nat, i: nat, j: nat, r: (nat, nat))
    requires GainsTwo(fs, fs', d, k, i)
    ensures r in Refs(fs', j) <==> r in Refs(fs, j) || (j == i && r == (d, k)) || (j == d && r == (i, 1))
    ensures (d, k) !in Refs(fs, i) && (i, 1) !in Refs(fs, d)
  {
    hide IsRef, Refs;
    RefAt(fs, j, r.0, r.1);
    RefAt(fs', j, r.0, r.1);
    RefAt(fs, i, d, k);
    RefAt(fs, d, i, 1);
  }

  lemma GainsTwoCount(fs: Fs, fs': Fs, d: nat, k: nat, i: nat, j: nat)
    requires GainsTwo(fs, fs', d, k, i)
    ensures |Refs(fs', j)| == |Refs(fs, j)| + if j == i || j == d then 1 else 0
  {
    hide IsRef, Refs;
    forall r: (nat, nat)
      ensures r in Refs(fs', j) <==> r in Refs(fs, j) || (j == i && r == (d, k)) || (j == d && r == (i, 1))
      ensures (d, k) !in Refs(fs, i) && (i, 1) !in Refs(fs, d)
    {
      GainsTwoAt(fs, fs', d, k, i, j, r);
    }
    GainsTwoAt(fs, fs', d, k, i, j, (0, 0));
    hide GainsTwo;
    assert Refs(fs', j) == Refs(fs, j) + if j == i then {(d, k)} else if j == d then {(i, 1)} else {};
  }

  lemma AttachDir(fs: Fs, d: nat, k: nat, name: string, i: nat, j: nat)
    requires d != 0 && i != 0 && i != d && LinkedDir(fs, d) && BareDir(fs, i, d) && j < |fs|
    requires fs[j].kind == Dir && DirOk(fs, j) && DirOk(fs, d)
    requires fs[i].nlink == 0 && FreeSlot(fs[d].entries, k) && Absent(fs[d].entries, name)
    ensures DirOk(Attached(fs, d, k, name, i), j)
  {
    hide Trunc, UniqueNames;
    NewName(fs, d, name);
    PutNames(fs[d].entries, k, name, i);
    assert Trunc(Trunc(name)) == Trunc(name);
  }

  lemma AttachHomes(fs: Fs, home: Homes, d: nat, k: nat, name: string, i: nat)
    requires HomesOk(fs, home) && LinkedDir(fs, d) && i != d && i != 0 && d != 0 && i != ROOT
    requires BareDir(fs, i, d) && fs[i].nlink == 0
    requires FreeSlot(fs[d].entries, k) && Trunc(name) != "." && Refs(fs, i) == {}
    requires GainsTwo(fs, Attached(fs, d, k, name, i), d, k, i)
    ensures HomesOk(Attached(fs, d, k, name, i), home[i := (d, k)])
  {
    hide IsRef, Trunc, Refs;
    NoRefs(fs, i);
    forall x: nat
      ensures LinkedDir(Attached(fs, d, k, name, i), x) <==> LinkedDir(fs, x) || x == i
    {
      AttachedRefs(fs, d, k, name, i, x, 0, 0);
    }
  }

  lemma AttachKeeps(fs: Fs, home: Homes, d: nat, k: nat, name: string, i: nat)
    requires FsOk(fs, home) && LinkedDir(fs, d) && i != d && 0 < i < |fs| && BareDir(fs, i, d) && fs[i].nlink == 0
    requires FreeSlot(fs[d].entries, k) && Absent(fs[d].entries, name)
    ensures FsOk(Attached(fs, d, k, name, i), home[i := (d, k)])
  {
    hide Refs, Trunc, IsRef, DirOk, HomesOk, GainsTwo, Absent;
    var fs' := Attached(fs, d, k, name, i);
    assert InodeOk(fs, d) && InodeOk(fs, i) && InodeOk(fs, ROOT);
    EmptyRefs(fs, i);
    NewName(fs, d, name);
    AttachGains(fs, d, k, name, i);
    AttachHomes(fs, home, d, k, name, i);
    forall j: nat | j < |fs|
      ensures InodeOk(fs', j)
    {
      assert InodeOk(fs, j);
      GainsTwoCount(fs, fs', d, k, i, j);
      FreeStays(fs', j);
      if fs[j].kind == Dir {
        AttachDir(fs, d, k, name, i, j);
      }
    }
  }

  /** An empty directory is named once, by its parent, and the parent has a link left without it. */
  lemma EmptyDirFacts(fs: Fs, home: Homes, d: nat, k: nat, i: nat)
    requires FsOk(fs, home) && LinkedDir(fs, d) && 2 <= k < |fs[d].entries| && i == fs[d].entries[k].inum
    requires 0 < i < |fs| && fs[i].kind == Dir
    requires forall y :: 2 <= y < |fs[i].entries| ==> fs[i].entries[y].inum == 0
    ensures i != ROOT && i != d && d != 0 && BareDir(fs, i, d) && fs[i].nlink == 1 && fs[d].nlink >= 2
  {
    hide Refs, Trunc, UniqueNames;
    assert InodeOk(fs, d) && InodeOk(fs, i) && InodeOk(fs, ROOT);
    EntryFacts(fs, d, k);
    RefAt(fs, i, d, k);
    OnlyName(fs, home, d, k, i);
    OneRef(fs, i, (d, k));
    RefAt(fs, d, i, 1);
    var other := if d == ROOT then (ROOT, 1) else home[d];
    RefAt(fs, d, other.0, other.1);
    TwoRefs(fs, d, (i, 1), other);
  }

  lemma OneRef(fs: Fs, i: nat, r: (nat, nat))
    requires Refs(fs, i) == {r}
    ensures |Refs(fs, i)| == 1
  {
  }

  lemma TwoRefs(fs: Fs, i: nat, r: (nat, nat), q: (nat, nat))
    requires r in Refs(fs, i) && q in Refs(fs, i) && r != q
    ensures |Refs(fs, i)| >= 2
  {
    hide IsRef;
    assert {r, q} <= Refs(fs, i);
    SubsetCard({r, q}, Refs(fs, i));
  }

  lemma OnlyNameAt(fs: Fs, home: Homes, d: nat, k: nat, i: nat, x: nat, y: nat)
    requires FsOk(fs, home) && IsRef(fs, d, k, i) && k >= 2 && i < |fs| && fs[i].kind == Dir && IsRef(fs, x, y, i)
    requires forall y :: 2 <= y < |fs[i].entries| ==> fs[i].entries[y].inum == 0
    ensures i != ROOT && i in home && home[i] == (d, k) && x == d && y == k
  {
    hide Refs, Trunc, UniqueNames;
    assert InodeOk(fs, x);
  }

  lemma OnlyName(fs: Fs, home: Homes, d: nat, k: nat, i: nat)
    requires FsOk(fs, home) && IsRef(fs, d, k, i) && k >= 2 && i < |fs| && fs[i].kind == Dir
    requires forall y :: 2 <= y < |fs[i].entries| ==> fs[i].entries[y].inum == 0
    ensures i != ROOT && i in home && home[i] == (d, k) && Refs(fs, i) == {(d, k)}
  {
    hide Refs, IsRef, FsOk;
    OnlyNameAt(fs, home, d, k, i, d, k);
    forall r: (nat, nat)
      ensures r in Refs(fs, i) <==> r == (d, k)
    {
      RefAt(fs, i, r.0, r.1);
      if IsRef(fs, r.0, r.1, i) {
        OnlyNameAt(fs, home, d, k, i, r.0, r.1);
      }
    }
    assert Refs(fs, i) == {(d, k)};
  }

  /** The directory can be put back: rmdir is undone by mkdir. */
  lemma ReattachUndoes(fs: Fs, d: nat, k: nat)
    requires d < |fs| && k < |fs[d].entries| && fs[d].entries[k].inum < |fs| && fs[d].entries[k].inum != d
    requires Trunc(fs[d].entries[k].name) == fs[d].entries[k].name
    ensures Attached(Detached(fs, d, k), d, k, fs[d].entries[k].name, fs[d].entries[k].inum) == fs
  {
    hide Trunc;
    var i := fs[d].entries[k].inum;
    var back := Attached(Detached(fs, d, k), d, k, fs[d].entries[k].name, i);
    assert back[d].entries == fs[d].entries;
    assert back[d] == fs[d] && back[i] == fs[i];
  }

  lemma DetachDir(fs: Fs, d: nat, k: nat, i: nat, j: nat)
    requires LinkedDir(fs, d) && 2 <= k < |fs[d].entries| && i == fs[d].entries[k].inum && i != d && j < |fs|
    requires fs[j].kind == Dir && DirOk(fs, j)
    requires BareDir(fs, i, d) && fs[i].nlink == 1 && fs[d].nlink >= 2
    ensures DirOk(Detached(fs, d, k), j)
  {
    hide Trunc;
    TruncShort("");
  }

  lemma DetachHomes(fs: Fs, home: Homes, d: nat, k: nat, i: nat)
    requires HomesOk(fs, home) && LinkedDir(fs, d) && 2 <= k < |fs[d].entries| && i == fs[d].entries[k].inum && i != d
    requires BareDir(fs, i, d) && fs[i].nlink == 1 && fs[d].nlink >= 2 && GainsTwo(Detached(fs, d, k), fs, d, k, i)
    ensures HomesOk(Detached(fs, d, k), home - {i})
  {
    hide IsRef;
    var fs' := Detached(fs, d, k);
    forall x: nat
      ensures LinkedDir(fs', x) <==> LinkedDir(fs, x) && x != i
    {
    }
  }

  lemma DetachKeeps(fs: Fs, home: Homes, d: nat, k: nat, i: nat)
    requires FsOk(fs, home) && LinkedDir(fs, d) && 2 <= k < |fs[d].entries| && i == fs[d].entries[k].inum
    requires 0 < i < |fs| && fs[i].kind == Dir
    requires forall y :: 2 <= y < |fs[i].entries| ==> fs[i].entries[y].inum == 0
    ensures i != d && fs[i].nlink == 1 && FsOk(Detached(fs, d, k), home - {i})
  {
    hide Refs, Trunc, IsRef, DirOk, HomesOk, GainsTwo;
    EmptyDirFacts(fs, home, d, k, i);
    var fs' := Detached(fs, d, k);
    assert InodeOk(fs, d) && InodeOk(fs, i);
    EntryFacts(fs, d, k);
    ReattachUndoes(fs, d, k);
    AttachGains(fs', d, k, fs[d].entries[k].name, i);
    DetachHomes(fs, home, d, k, i);
    forall j: nat | j < |fs|
      ensures InodeOk(fs', j)
    {
      assert InodeOk(fs, j);
      GainsTwoCount(fs', fs, d, k, i, j);
      FreeStays(fs', j);
      if fs[j].kind == Dir {
        DetachDir(fs, d, k, i, j);
      }
    }
  }
}

/**
 Directories that have lost their last name but are still held, such as a removed current
 directory.  create and sys_link do not look for them: a name made in one breaks the count.
 */
module LinkDead {
  import opened LinkCount
  import opened LinkDirs

  ghost predicate Counted(fs: Fs, i: nat)
    requires i < |fs|
  {
    (fs[i].kind == Free ==> Refs(fs, i) == {}) && (fs[i].kind != Free ==> fs[i].nlink == |Refs(fs, i)|)
  }

  /** nlink is the number of names, for every inode. */
  ghost predicate CountLaw(fs: Fs) {
    forall i: nat :: i < |fs| ==> Counted(fs, i)
  }

  lemma OkCounts(fs: Fs, home: Homes)
    requires FsOk(fs, home)
    ensures CountLaw(fs)
  {
    hide Refs, DirOk, HomesOk;
    forall i: nat | i < |fs|
      ensures Counted(fs, i)
    {
      assert InodeOk(fs, i);
    }
  }

  /** A directory without a name, which only its dots are left in. */
  predicate DeadDir(fs: Fs, d: nat) {
    d < |fs| && fs[d].kind == Dir && fs[d].nlink <= 0
  }

  lemma DeadEntries(fs: Fs, home: Homes, d: nat)
    requires FsOk(fs, home) && DeadDir(fs, d)
    ensures d != 0 && d != ROOT && fs[d].nlink == 0 && Refs(fs, d) == {}
    ensures |fs[d].entries| >= 2 && fs[d].entries[0] == Dirent(d, ".") && fs[d].entries[1].name == ".."
    ensures 0 < fs[d].entries[1].inum < |fs| && forall k :: 2 <= k < |fs[d].entries| ==> fs[d].entries[k].inum == 0
  {
    hide Refs, HomesOk, Trunc, UniqueNames;
    assert InodeOk(fs, d);
    EmptyRefs(fs, d);
  }

  // ---- A file ----

  lemma DeadLinkRefs(fs: Fs, d: nat, k: nat, name: string, i: nat, x: nat, y: nat, j: nat)
    requires DeadDir(fs, d) && i < |fs| && fs[i].kind != Dir && k <= |fs[d].entries|
    ensures IsRef(Linked(fs, d, k, name, i), x, y, j) <==> IsRef(fs, x, y, j)
  {
    hide Trunc;
  }

  /** link into a dead directory: one more link and no more names, whether or not d is then released. */
  lemma DeadLink(fs: Fs, d: nat, k: nat, name: string, i: nat, freed: bool)
    requires DeadDir(fs, d) && fs[d].nlink == 0 && i < |fs| && fs[i].kind != Dir && fs[i].kind != Free
    requires k <= |fs[d].entries| && Counted(fs, i)
    ensures var fs' := Linked(fs, d, k, name, i); !CountLaw(if freed then Unnamed(fs', d, Free, []) else fs')
  {
    hide IsRef, Refs, Trunc;
    var fs1 := Linked(fs, d, k, name, i);
    var fs2 := if freed then Unnamed(fs1, d, Free, []) else fs1;
    forall x: nat, y: nat
      ensures IsRef(fs2, x, y, i) <==> IsRef(fs, x, y, i)
    {
      DeadLinkRefs(fs, d, k, name, i, x, y, i);
      UnnamedRefs(fs1, d, Free, [], x, y, i);
    }
    SameRefs(fs, fs2, i);
    assert !Counted(fs2, i);
  }

  // ---- A directory ----

  /** mkdir in a dead directory revives it, so that its ".." counts again. */
  lemma DeadAttachRefs(fs: Fs, d: nat, k: nat, name: string, i: nat, x: nat, y: nat, j: nat)
    requires DeadDir(fs, d) && fs[d].nlink == 0 && i != d && i != 0 && d != 0 && BareDir(fs, i, d) && fs[i].nlink == 0
    requires |fs[d].entries| >= 2 && fs[d].entries[0] == Dirent(d, ".") && fs[d].entries[1].name == ".."
    requires fs[d].entries[1].inum != 0
    requires forall y :: 2 <= y < |fs[d].entries| ==> fs[d].entries[y].inum == 0
    requires FreeSlot(fs[d].entries, k) && Trunc(name) != "."
    ensures IsRef(Attached(fs, d, k, name, i), x, y, j) <==> IsRef(fs, x, y, j) || (x, y, j) in {(d, k, i), (i, 1, d), (d, 1, fs[d].entries[1].inum)}
    ensures !IsRef(fs, d, 1, fs[d].entries[1].inum)
  {
    hide Trunc;
    assert |"."| == 1 && |".."| == 2;
  }

  /** The inode that ".." of d names: it has one name more, and the same links as before. */
  lemma DeadAttach(fs: Fs, d: nat, k: nat, name: string, i: nat)
    requires DeadDir(fs, d) && fs[d].nlink == 0 && i != d && i != 0 && d != 0 && BareDir(fs, i, d) && fs[i].nlink == 0
    requires |fs[d].entries| >= 2 && fs[d].entries[0] == Dirent(d, ".") && fs[d].entries[1].name == ".."
    requires 0 < fs[d].entries[1].inum < |fs|
    requires forall y :: 2 <= y < |fs[d].entries| ==> fs[d].entries[y].inum == 0
    requires FreeSlot(fs[d].entries, k) && Trunc(name) != "." && Counted(fs, fs[d].entries[1].inum)
    ensures !CountLaw(Attached(fs, d, k, name, i))
  {
    hide IsRef, Refs, Trunc;
    var fs', q := Attached(fs, d, k, name, i), fs[d].entries[1].inum;
    forall x: nat, y: nat
      ensures IsRef(fs', x, y, q) <==> IsRef(fs, x, y, q) || (x, y, q) in {(d, k, i), (i, 1, d), (d, 1, q)}
      ensures !IsRef(fs, d, 1, q)
    {
      DeadAttachRefs(fs, d, k, name, i, x, y, q);
    }
    RefAt(fs', q, d, 1);
    if q == i || q == d {
      var other := if q == i then (d, k) else (i, 1);
      RefAt(fs', q, other.0, other.1);
      TwoRefs(fs', q, (d, 1), other);
    } else {
      OneMoreRef(fs, fs', q, (d, 1));
    }
    assert !Counted(fs', q);
  }

  lemma OneMoreRef(fs: Fs, fs': Fs, q: nat, r: (nat, nat))
    requires !IsRef(fs, r.0, r.1, q) && forall x: nat, y: nat :: IsRef(fs', x, y, q) <==> IsRef(fs, x, y, q) || (x, y) == r
    ensures |Refs(fs', q)| == |Refs(fs, q)| + 1 && Refs(fs', q) != {}
  {
    hide IsRef;
    forall x: nat, y: nat
      ensures (x, y) in Refs(fs', q) <==> (x, y) in Refs(fs, q) || (x, y) == r
    {
      RefAt(fs, q, x, y);
      RefAt(fs', q, x, y);
    }
    RefAt(fs, q, r.0, r.1);
    assert Refs(fs', q) == Refs(fs, q) + {r};
  }

  // ---- Exactly when a new name keeps the law ----

  /** sys_link: the law survives exactly if the directory has a name itself. */
  lemma LinkLaw(fs: Fs, home: Homes, d: nat, k: nat, name: string, i: nat)
    requires FsOk(fs, home) && d < |fs| && fs[d].kind == Dir && 0 < i < |fs| && fs[i].kind != Dir && fs[i].kind != Free
    requires FreeSlot(fs[d].entries, k) && Absent(fs[d].entries, name)
    ensures CountLaw(Linked(fs, d, k, name, i)) <==> LinkedDir(fs, d)
    ensures (exists home': Homes :: FsOk(Linked(fs, d, k, name, i), home')) <==> LinkedDir(fs, d)
  {
    hide FsOk, CountLaw, Counted, Absent, Trunc;
    var fs' := Linked(fs, d, k, name, i);
    if LinkedDir(fs, d) {
      LinkKeeps(fs, home, d, k, name, i);
      OkCounts(fs', home);
    } else {
      DeadEntries(fs, home, d);
      CountedAt(fs, home, i);
      DeadLink(fs, d, k, name, i, false);
      NotOk(fs');
    }
  }

  lemma CountedAt(fs: Fs, home: Homes, i: nat)
    requires FsOk(fs, home) && i < |fs|
    ensures Counted(fs, i)
  {
    OkCounts(fs, home);
  }

  lemma NotOk(fs: Fs)
    requires !CountLaw(fs)
    ensures !exists home: Homes :: FsOk(fs, home)
  {
    hide FsOk, CountLaw;
    forall home: Homes
      ensures !FsOk(fs, home)
    {
      if FsOk(fs, home) {
        OkCounts(fs, home);
      }
    }
  }

  lemma NewDeadDir(fs: Fs, home: Homes, d: nat, k: nat, name: string, i: nat)
    requires FsOk(fs, home) && DeadDir(fs, d) && 0 < i < |fs| && i != d && fs[i].kind == Free
    requires FreeSlot(fs[d].entries, k) && Absent(fs[d].entries, name)
    ensures !CountLaw(WithNew(fs, d, k, name, i, Dir))
  {
    hide Refs, DirOk, HomesOk, IsRef, CountLaw, Counted, Trunc;
    assert InodeOk(fs, i) && InodeOk(fs, d);
    NewName(fs, d, name);
    UnnamedKeeps(fs, home, i, Dir, Dots(i, d));
    var fs1 := Unnamed(fs, i, Dir, Dots(i, d));
    DeadEntries(fs, home, d);
    CountedAt(fs1, home, fs[d].entries[1].inum);
    DeadAttach(fs1, d, k, name, i);
  }

  lemma NewDeadFile(fs: Fs, home: Homes, d: nat, k: nat, name: string, i: nat, kind: Kind, freed: bool)
    requires FsOk(fs, home) && DeadDir(fs, d) && 0 < i < |fs| && i != d && fs[i].kind == Free && kind != Dir && kind != Free
    requires k <= |fs[d].entries|
    ensures var fs' := WithNew(fs, d, k, name, i, kind); !CountLaw(if freed then Unnamed(fs', d, Free, []) else fs')
  {
    hide Refs, DirOk, HomesOk, IsRef, CountLaw, Counted, Trunc;
    assert InodeOk(fs, i);
    UnnamedKeeps(fs, home, i, kind, []);
    var fs1 := Unnamed(fs, i, kind, []);
    DeadEntries(fs, home, d);
    CountedAt(fs1, home, i);
    DeadLink(fs1, d, k, name, i, freed);
  }

  /** create in a dead directory breaks the law, whether or not the directory is then released. */
  lemma NewDead(fs: Fs, home: Homes, d: nat, k: nat, name: string, i: nat, kind: Kind, refs: seq<nat>)
    requires FsOk(fs, home) && DeadDir(fs, d) && 0 < i < |fs| == |refs| && i != d && fs[i].kind == Free && kind != Free
    requires FreeSlot(fs[d].entries, k) && Absent(fs[d].entries, name)
    ensures !CountLaw(AfterPut(WithNew(fs, d, k, name, i, kind), refs, d))
  {
    hide FsOk, CountLaw, Absent, Trunc;
    DeadEntries(fs, home, d);
    if kind == Dir {
      NewDeadDir(fs, home, d, k, name, i);
    } else {
      NewDeadFile(fs, home, d, k, name, i, kind, refs[d] == 1);
    }
  }

  lemma NewLinked(fs: Fs, home: Homes, d: nat, k: nat, name: string, i: nat, kind: Kind)
    requires FsOk(fs, home) && LinkedDir(fs, d) && 0 < i < |fs| && fs[i].kind == Free && kind != Free
    requires FreeSlot(fs[d].entries, k) && Absent(fs[d].entries, name)
    ensures i != d && LinkedDir(WithNew(fs, d, k, name, i, kind), d) && WithNew(fs, d, k, name, i, kind)[d].nlink >= 1
    ensures FsOk(WithNew(fs, d, k, name, i, kind), if kind == Dir then home[i := (d, k)] else home)
  {
    hide FsOk, Absent, Trunc;
    NewInode(fs, home, d, i);
    var es := if kind == Dir then Dots(i, d) else [];
    UnnamedKeeps(fs, home, i, kind, es);
    var fs1 := Unnamed(fs, i, kind, es);
    if kind == Dir {
      AttachKeeps(fs1, home, d, k, name, i);
    } else {
      LinkKeeps(fs1, home, d, k, name, i);
    }
  }

  lemma NewInode(fs: Fs, home: Homes, d: nat, i: nat)
    requires FsOk(fs, home) && d < |fs| && fs[d].kind == Dir && i < |fs| && fs[i].kind == Free
    ensures d != 0 && i != d && fs[i].nlink == 0 && fs[i].entries == []
  {
    assert InodeOk(fs, i);
  }

  /** create: the law survives exactly if the directory has a name itself. */
  lemma CreateLaw(fs: Fs, home: Homes, d: nat, k: nat, name: string, i: nat, kind: Kind, refs: seq<nat>)
    requires FsOk(fs, home) && d < |fs| && fs[d].kind == Dir && 0 < i < |fs| == |refs| && fs[i].kind == Free && kind != Free
    requires FreeSlot(fs[d].entries, k) && Absent(fs[d].entries, name)
    ensures i != d && var fs' := AfterPut(WithNew(fs, d, k, name, i, kind), refs, d);
      (CountLaw(fs') <==> LinkedDir(fs, d)) && ((exists home': Homes :: FsOk(fs', home')) <==> LinkedDir(fs, d))
  {
    hide FsOk, CountLaw, Absent, Trunc, WithNew;
    NewInode(fs, home, d, i);
    var fs' := AfterPut(WithNew(fs, d, k, name, i, kind), refs, d);
    if LinkedDir(fs, d) {
      NewLinked(fs, home, d, k, name, i, kind);
      OkCounts(fs', if kind == Dir then home[i := (d, k)] else home);
    } else {
      NewDead(fs, home, d, k, name, i, kind, refs);
      NotOk(fs');
    }
  }
}

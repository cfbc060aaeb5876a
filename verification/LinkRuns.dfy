/** Two runs from the volume that mkfs writes, each of calls that any program can make. */
module LinkRuns {
  import opened Common
  import opened LinkCount
  import opened LinkDirs
  import opened LinkDead
  import opened Links
  import opened LinkPaths

  lemma MkdirFacts(fs: Fs, refs: seq<nat>, fs': Fs, d: nat, k: nat, name: string, i: nat)
    requires CreateDone(fs, refs, fs', d, k, name, i, Dir) && fs[d].nlink >= 0 && Absent(fs[d].entries, name) && i != 0
    ensures i != d && |fs'| == |fs| && fs'[i] == Inode(Dir, 1, Dots(i, d)) && fs'[d].kind == fs[d].kind
    ensures fs'[d].nlink == fs[d].nlink + 1
    ensures FreeSlot(fs[d].entries, k) && fs'[d].entries == PutAt(fs[d].entries, k, Dirent(i, Trunc(name)))
    ensures FoundAt(fs'[d].entries, name, k) && fs'[d].entries[k].inum == i && forall j :: 0 <= j < |fs| && j != i && j != d ==> fs'[j] == fs[j]
  {
    hide Trunc;
  }

  lemma RmdirFacts(fs: Fs, refs: seq<nat>, fs': Fs, d: nat, k: nat, name: string, i: nat)
    requires UnlinkDone(fs, refs, fs', d, name, k) && i == fs[d].entries[k].inum && fs[i].kind == Dir && fs[i].nlink == 1
    ensures |fs'| == |fs| && fs'[d].kind == fs[d].kind && fs'[d].nlink == fs[d].nlink - 1
    ensures fs'[i] == if refs[i] > 0 then fs[i].(nlink := 0) else Inode(Free, 0, [])
    ensures k < |fs[d].entries| && fs'[d].entries == fs[d].entries[k := Dirent(0, "")]
    ensures forall j :: 0 <= j < |fs| && j != i && j != d ==> fs'[j] == fs[j]
  {
    hide Trunc;
  }

  predicate HasFree(fs: Fs) {
    exists i :: 1 <= i < |fs| && fs[i].kind == Free
  }

  /** mkdir of a new name; the new directory stays held. */
  method Mkdir(v: Volume, d: nat, name: string) returns (i: nat, ghost k: nat)
    requires v.Ok() && LinkedDir(v.inodes, d) && Absent(v.inodes[d].entries, name) && HasFree(v.inodes)
    modifies v
    ensures v.Ok() && CreateDone(old(v.inodes), old(v.refs)[d := old(v.refs)[d] + 1], v.inodes, d, k, name, i, Dir)
    ensures 0 < i < |old(v.inodes)| && old(v.inodes)[i].kind == Free && v.refs == old(v.refs)[i := old(v.refs)[i] + 1]
  {
    hide FsOk, HeldOk, Trunc, Absent, AfterPut, CountLaw, WithNew;
    Lengths(v.inodes, v.home, v.refs);
    AddHeld(v.inodes, v.home, v.refs, d);
    v.IGet(d);
    var r := v.Create(d, name, Dir);
    i := r.inum;
    k :| CreateDone(old(v.inodes), old(v.refs)[d := old(v.refs)[d] + 1], v.inodes, d, k, name, i, Dir);
    assert v.refs == old(v.refs)[i := old(v.refs)[i] + 1];
  }

  /** rmdir of an empty directory. */
  method Rmdir(v: Volume, d: nat, name: string, i: nat, ghost k: nat)
    requires v.Ok() && LinkedDir(v.inodes, d) && FoundAt(v.inodes[d].entries, name, k)
    requires v.inodes[d].entries[k].inum == i < |v.inodes|
    requires Trunc(name) != "." && Trunc(name) != ".." && IsEmptyDir(v.inodes, i)
    modifies v
    ensures v.Ok() && v.refs == old(v.refs) && i != d && d < |v.refs| && i < |v.refs|
    ensures UnlinkDone(old(v.inodes), old(v.refs)[d := old(v.refs)[d] + 1], v.inodes, d, name, k)
  {
    hide FsOk, HeldOk, Trunc, FoundAt, IsEmptyDir, AfterPut, Removed;
    Lengths(v.inodes, v.home, v.refs);
    AddHeld(v.inodes, v.home, v.refs, d);
    v.IGet(d);
    assert Removable(v.inodes, d, name, k);
    OneSlot(v.inodes, d, name, k);
    var ok := v.Unlink(d, name);
    assert v.refs == old(v.refs);
  }

  lemma FreshRoot(n: nat, name: string)
    requires n > 2 && Trunc(name) != "." && Trunc(name) != ".."
    ensures Absent(EmptyVolume(n)[ROOT].entries, name) && HasFree(EmptyVolume(n)) && EmptyVolume(n)[ROOT].nlink == 1
  {
    hide Trunc;
    assert EmptyVolume(n)[2].kind == Free;
  }

  lemma Letters()
    ensures Trunc("a") == "a" && Trunc("b") == "b" && "a" != "." && "a" != ".." && "b" != "." && "b" != ".."
  {
    assert |"a"| == 1 && |"b"| == 1 && |".."| == 2 && "a"[0] == 'a' && "b"[0] == 'b' && "."[0] == '.';
  }

  lemma OnlyDots(fs: Fs, i: nat, d: nat, name: string)
    requires i < |fs| && fs[i].entries == Dots(i, d) && Trunc(name) != "." && Trunc(name) != ".."
    ensures Absent(fs[i].entries, name) && IsEmptyDir(fs, i)
  {
    hide Trunc;
  }

  lemma SpareInode(fs: Fs, d: nat)
    requires |fs| == 4 && d < 4 && forall j :: 0 <= j < 4 && j != d && j != ROOT ==> fs[j] == EmptyVolume(4)[j]
    ensures HasFree(fs)
  {
    assert fs[if d == 2 then 3 else 2].kind == Free;
  }

  /** A program whose current directory has been removed makes a file in it: the counts are wrong from then on. */
  method CwdRemoved() returns (v: Volume)
    ensures fresh(v) && !CountLaw(v.inodes)
  {
    hide FsOk, HeldOk, Trunc, Absent, FoundAt, IsEmptyDir, CreateDone, UnlinkDone, CountLaw, EmptyVolume, Dots;
    v := new Volume(4);
    Letters();
    FreshRoot(4, "a");
    ghost var refs := v.refs;
    Lengths(v.inodes, v.home, v.refs);
    var d, k := Mkdir(v, ROOT, "a");
    ghost var fs := v.inodes;
    MkdirFacts(EmptyVolume(4), refs[ROOT := refs[ROOT] + 1], fs, ROOT, k, "a", d);
    OnlyDots(fs, d, ROOT, "a");
    Lengths(fs, v.home, v.refs);
    Rmdir(v, ROOT, "a", d, k);
    RmdirFacts(fs, v.refs[ROOT := v.refs[ROOT] + 1], v.inodes, ROOT, k, "a", d);
    OnlyDots(v.inodes, d, ROOT, "b");
    SpareInode(v.inodes, d);
    var r := v.Create(d, "b", File);
  }

  // ---- A parent that is gone ----

  lemma EmptyAgain(fs1: Fs, fs2: Fs, fs3: Fs, a: nat, d: nat, k: nat, e: Dirent)
    requires a < |fs1| == |fs2| == |fs3| && fs1[a].entries == Dots(a, d) && FreeSlot(fs1[a].entries, k)
    requires fs2[a].entries == PutAt(fs1[a].entries, k, e) && k < |fs2[a].entries|
    requires fs3[a].entries == fs2[a].entries[k := Dirent(0, "")]
    ensures IsEmptyDir(fs3, a)
  {
  }

  lemma UpAndOn()
    ensures Names("../b") == ["..", "b"]
  {
    var p := "../b";
    assert p[..2] == ".." && p[2..] == "/b" && p[2..][1..] == "b";
    FirstElem(p, 2);
    SlashFirst(p[2..]);
    assert "b"[..1] == "b" && "b"[1..] == "";
    FirstElem("b", 1);
    assert Names("") == [];
    DotNames();
    Letters();
  }

  lemma WalkUp(fs: Fs, b: nat, a: nat)
    requires b < |fs| && a < |fs| && 0 < a && fs[b].kind == Dir && fs[b].entries == Dots(b, a) && fs[a].kind == Free
    ensures Walk(fs, b, ["..", "b"]) == Panic
  {
    DotNames();
    var es := fs[b].entries;
    assert Find(es, "..", 1) == Some(a);
    assert Find(es, "..", 0) == Some(a);
    assert ["..", "b"][1..] == ["b"];
  }

  /** mkdir of a and a/b, and rmdir of both while b is held: ".." of b names a free inode, and namei panics on it. */
  method ParentRemoved() returns (v: Volume, b: nat, r: Reached)
    ensures fresh(v) && v.Ok() && DeadDir(v.inodes, b) && |v.refs| == |v.inodes| && v.refs[b] > 0 && r == Panic
  {
    hide FsOk, HeldOk, Trunc, Absent, FoundAt, IsEmptyDir, CreateDone, UnlinkDone, EmptyVolume, HasFree, Names,
      MeetsFree, AfterPut, Walk;
    v := new Volume(4);
    Letters();
    FreshRoot(4, "a");
    ghost var refs := v.refs;
    Lengths(v.inodes, v.home, v.refs);
    var a, k := Mkdir(v, ROOT, "a");
    ghost var fs1 := v.inodes;
    MkdirFacts(EmptyVolume(4), refs[ROOT := refs[ROOT] + 1], fs1, ROOT, k, "a", a);
    Lengths(fs1, v.home, v.refs);
    PutKeeps(fs1, v.home, v.refs, a);
    PutsNothing(fs1, v.refs, a);
    v.IPut(a);
    assert v.refs == refs;
    OnlyDots(fs1, a, ROOT, "b");
    SpareInode(fs1, a);
    ghost var kb;
    b, kb := Mkdir(v, a, "b");
    ghost var fs2 := v.inodes;
    MkdirFacts(fs1, refs[a := refs[a] + 1], fs2, a, kb, "b", b);
    OnlyDots(fs2, b, a, "b");
    Lengths(fs2, v.home, v.refs);
    Rmdir(v, a, "b", b, kb);
    ghost var fs3 := v.inodes;
    RmdirFacts(fs2, v.refs[a := v.refs[a] + 1], fs3, a, kb, "b", b);
    EmptyAgain(fs1, fs2, fs3, a, ROOT, kb, Dirent(b, Trunc("b")));
    Rmdir(v, ROOT, "a", a, k);
    RmdirFacts(fs3, v.refs[ROOT := v.refs[ROOT] + 1], v.inodes, ROOT, k, "a", a);
    var name;
    r, name := Namex(v, b, "../b", false);
    UpAndOn();
    WalkUp(v.inodes, b, a);
  }
}

/**
 dirlookup, dirlink, isdirempty, ialloc, iput, create, sys_link and sys_unlink as operations on the
 inodes and on the references that are held to them in memory.
 */
module Links {
  import opened Common
  import opened LinkCount
  import opened LinkDirs
  import opened LinkDead

  datatype CreateResult = Found(inum: nat) | Refused | Created(inum: nat) | PanicNoInodes | PanicNoType

  /** dirlookup finds name in slot k. */
  predicate FoundAt(es: seq<Dirent>, name: string, k: nat) {
    && k < |es| && es[k].inum != 0 && es[k].name == Trunc(name)
    && forall j :: 0 <= j < k && es[j].inum != 0 ==> es[j].name != Trunc(name)
  }

  /** dirlink takes slot k: the first empty one, or a new one behind the last. */
  predicate FirstSlot(es: seq<Dirent>, k: nat) {
    && k <= |es| && (k < |es| ==> es[k].inum == 0)
    && forall j :: 0 <= j < k ==> es[j].inum != 0
  }

  /** ialloc takes inode i: the first one that is free. */
  predicate FirstInode(fs: Fs, i: nat) {
    1 <= i < |fs| && fs[i].kind == Free && forall j :: 1 <= j < i ==> fs[j].kind != Free
  }

  /** An inode in use has a name or a reference; a reference is to an inode in use. */
  ghost predicate HeldOk(fs: Fs, refs: seq<nat>) {
    && |refs| == |fs|
    && forall i: nat :: i < |fs| ==> (refs[i] > 0 ==> fs[i].kind != Free) && (fs[i].kind != Free && fs[i].nlink == 0 ==> refs[i] > 0)
  }

  ghost predicate State(fs: Fs, home: Homes, refs: seq<nat>) {
    FsOk(fs, home) && HeldOk(fs, refs)
  }

  lemma PutKeeps(fs: Fs, home: Homes, refs: seq<nat>, i: nat)
    requires State(fs, home, refs) && i < |fs| && refs[i] > 0
    ensures State(AfterPut(fs, refs, i), home, refs[i := refs[i] - 1])
  {
    hide FsOk;
    FreeInode(fs, home, i);
    if fs[i].nlink == 0 {
      UnnamedKeeps(fs, home, i, Free, []);
    }
  }

  lemma FreeInode(fs: Fs, home: Homes, i: nat)
    requires FsOk(fs, home) && i < |fs| && fs[i].kind != Free
    ensures i != 0
  {
  }

  /** Whatever a linked directory names has a link. */
  lemma NamedIsLinked(fs: Fs, home: Homes, d: nat, k: nat)
    requires FsOk(fs, home) && LinkedDir(fs, d) && k < |fs[d].entries| && fs[d].entries[k].inum != 0
    ensures fs[d].entries[k].inum < |fs| && fs[fs[d].entries[k].inum].kind != Free && fs[fs[d].entries[k].inum].nlink >= 1
  {
    hide Refs, Trunc, HomesOk;
    assert InodeOk(fs, d) && DirOk(fs, d);
    var i := fs[d].entries[k].inum;
    assert InodeOk(fs, i);
    if k > 0 {
      assert UniqueNames(fs[d].entries);
      assert fs[d].entries[k].name != ".";
      RefAt(fs, i, d, k);
      SomeRef(fs, i, (d, k));
    }
  }

  lemma SomeRef(fs: Fs, i: nat, r: (nat, nat))
    requires r in Refs(fs, i)
    ensures |Refs(fs, i)| >= 1
  {
    hide IsRef;
    SubsetCard({r}, Refs(fs, i));
  }

  // ---- unlink ----

  predicate IsEmptyDir(fs: Fs, i: nat) {
    i < |fs| && forall k :: 2 <= k < |fs[i].entries| ==> fs[i].entries[k].inum == 0
  }

  /** What sys_unlink writes when entry k of d goes. */
  function Removed(fs: Fs, d: nat, k: nat): Fs
    requires d < |fs| && k < |fs[d].entries| && fs[d].entries[k].inum < |fs| && fs[d].entries[k].inum != d
  {
    if fs[fs[d].entries[k].inum].kind == Dir then Detached(fs, d, k) else Unlinked(fs, d, k)
  }

  /** sys_unlink may remove the name in slot k. */
  predicate Removable(fs: Fs, d: nat, name: string, k: nat) {
    && d < |fs| && FoundAt(fs[d].entries, name, k) && Trunc(name) != "." && Trunc(name) != ".."
    && fs[d].entries[k].inum < |fs|
    && (fs[fs[d].entries[k].inum].kind == Dir ==> IsEmptyDir(fs, fs[d].entries[k].inum))
  }

  /** The name has gone, and the inode too if that was its last name and nobody holds it. */
  predicate UnlinkDone(fs: Fs, refs: seq<nat>, fs': Fs, d: nat, name: string, k: nat) {
    && Removable(fs, d, name, k) && |refs| == |fs| && fs[d].entries[k].inum != d
    && var i := fs[d].entries[k].inum;
       fs' == AfterPut(Removed(fs, d, k), refs[i := refs[i] + 1], i)
  }

  /** A name that is found and is not a dot sits in a linked directory, and names something with a link. */
  lemma FoundName(fs: Fs, home: Homes, d: nat, name: string, k: nat)
    requires FsOk(fs, home) && d < |fs| && fs[d].kind == Dir && FoundAt(fs[d].entries, name, k)
    requires Trunc(name) != "." && Trunc(name) != ".."
    ensures 2 <= k < |fs[d].entries| && LinkedDir(fs, d) && d != 0
    ensures 0 < fs[d].entries[k].inum < |fs| && fs[fs[d].entries[k].inum].nlink >= 1 && fs[fs[d].entries[k].inum].kind != Free
  {
    hide Trunc, HomesOk, Refs;
    assert InodeOk(fs, d) && DirOk(fs, d);
    NamedIsLinked(fs, home, d, k);
  }

  lemma RemoveKeeps(fs: Fs, home: Homes, d: nat, name: string, k: nat)
    requires FsOk(fs, home) && d < |fs| && fs[d].kind == Dir && Removable(fs, d, name, k)
    ensures var i := fs[d].entries[k].inum;
      && i != d && i != 0 && LinkedDir(fs, d) && fs[i].kind != Free && FsOk(Removed(fs, d, k), if fs[i].kind == Dir then home - {i} else home)
      && (fs[i].kind == Dir ==> fs[d].nlink >= 2)
  {
    hide Trunc, HomesOk, Refs, InodeOk, IsRef;
    FoundName(fs, home, d, name, k);
    var i := fs[d].entries[k].inum;
    if fs[i].kind == Dir {
      DetachKeeps(fs, home, d, k, i);
      EmptyDirFacts(fs, home, d, k, i);
    } else {
      UnlinkKeeps(fs, home, d, k);
    }
  }

  /** After the name has gone, dp and ip are put: only ip can have become free. */
  lemma RemovePuts(fs: Fs, home: Homes, refs: seq<nat>, d: nat, name: string, k: nat)
    requires State(fs, home, refs) && d < |fs| && fs[d].kind == Dir && Removable(fs, d, name, k)
    requires k < |fs[d].entries| && refs[d] > 0
    ensures var i := fs[d].entries[k].inum;
      && i != d && i != 0 && LinkedDir(fs, d) && (fs[i].kind == Dir ==> fs[d].nlink >= 2)
      && var home' := if fs[i].kind == Dir then home - {i} else home;
      && State(AfterPut(Removed(fs, d, k), refs[i := refs[i] + 1], i), home', refs[d := refs[d] - 1])
  {
    hide FsOk, Trunc, FoundAt, IsEmptyDir;
    RemoveKeeps(fs, home, d, name, k);
    var i := fs[d].entries[k].inum;
    var home' := if fs[i].kind == Dir then home - {i} else home;
    var fs1, refs1 := Removed(fs, d, k), refs[d := refs[d] - 1][i := refs[i] + 1];
    assert HeldOk(fs1, refs1);
    PutKeeps(fs1, home', refs1, i);
    assert refs1[i := refs1[i] - 1] == refs[d := refs[d] - 1];
  }

  // ---- link and create ----

  /** dirlink in a directory in order never uses the slots of the dots. */
  lemma SlotFree(fs: Fs, home: Homes, d: nat, k: nat)
    requires FsOk(fs, home) && d < |fs| && fs[d].kind == Dir && k <= |fs[d].entries| && (k < |fs[d].entries| ==> fs[d].entries[k].inum == 0)
    ensures FreeSlot(fs[d].entries, k) && d != 0
  {
    assert InodeOk(fs, d);
  }

  lemma LinkHeld(fs: Fs, home: Homes, refs: seq<nat>, d: nat, k: nat, name: string, i: nat)
    requires State(fs, home, refs) && LinkedDir(fs, d) && i < |fs| && fs[i].kind != Dir && refs[i] > 0
    requires k <= |fs[d].entries| && (k < |fs[d].entries| ==> fs[d].entries[k].inum == 0) && Absent(fs[d].entries, name)
    ensures State(Linked(fs, d, k, name, i), home, refs[i := refs[i] - 1])
  {
    hide FsOk, Absent, Trunc;
    FreeInode(fs, home, i);
    NoNegative(fs, home, i);
    SlotFree(fs, home, d, k);
    LinkKeeps(fs, home, d, k, name, i);
  }

  lemma CreateKeeps(fs: Fs, home: Homes, refs: seq<nat>, d: nat, k: nat, name: string, i: nat, kind: Kind)
    requires State(fs, home, refs) && LinkedDir(fs, d) && 0 < i < |fs| && fs[i].kind == Free && kind != Free && refs[d] > 0
    requires FreeSlot(fs[d].entries, k) && Absent(fs[d].entries, name)
    ensures i != d && AfterPut(WithNew(fs, d, k, name, i, kind), refs, d) == WithNew(fs, d, k, name, i, kind)
    ensures var home' := if kind == Dir then home[i := (d, k)] else home;
      State(WithNew(fs, d, k, name, i, kind), home', refs[d := refs[d] - 1][i := refs[i] + 1])
  {
    hide FsOk, Absent, Trunc;
    FreeCount(fs, home, i);
    NewLinked(fs, home, d, k, name, i, kind);
  }

  lemma NoNegative(fs: Fs, home: Homes, i: nat)
    requires FsOk(fs, home) && i < |fs|
    ensures fs[i].nlink >= 0
  {
    assert InodeOk(fs, i);
  }

  lemma FreeCount(fs: Fs, home: Homes, i: nat)
    requires FsOk(fs, home) && i < |fs| && fs[i].kind == Free
    ensures fs[i].nlink == 0 && fs[i].entries == []
  {
    assert InodeOk(fs, i);
  }

  /** An inode in use that nobody holds has a link. */
  lemma HeldOrLinked(fs: Fs, home: Homes, refs: seq<nat>, i: nat)
    requires State(fs, home, refs) && i < |fs| && fs[i].kind != Free
    ensures refs[i] > 0 || fs[i].nlink >= 1
  {
    NoNegative(fs, home, i);
  }

  lemma InUse(fs: Fs, home: Homes, refs: seq<nat>, i: nat)
    requires State(fs, home, refs) && i < |fs| && refs[i] > 0
    ensures fs[i].kind != Free && i != 0
  {
    hide FsOk;
    FreeInode(fs, home, i);
  }

  lemma Present(es: seq<Dirent>, name: string, k: nat)
    requires FoundAt(es, name, k)
    ensures !Absent(es, name)
  {
  }

  lemma EntryRange(fs: Fs, home: Homes, d: nat, k: nat)
    requires FsOk(fs, home) && d < |fs| && fs[d].kind == Dir && k < |fs[d].entries|
    ensures fs[d].entries[k].inum < |fs|
  {
    assert InodeOk(fs, d);
  }

  lemma SameRefsPut(fs: Fs, refs: seq<nat>, refs': seq<nat>, d: nat)
    requires d < |fs| == |refs| == |refs'| && refs[d] == refs'[d]
    ensures AfterPut(fs, refs, d) == AfterPut(fs, refs', d)
  {
  }

  /** A second reference to dp, or one to another inode, is taken before dp is put. */
  lemma PutOther(fs: Fs, refs: seq<nat>, refs': seq<nat>, d: nat, i: nat)
    requires d < |fs| == |refs| && i < |fs| && refs[d] > 0 && refs' == refs[i := refs[i] + 1]
    ensures i != d ==> AfterPut(fs, refs', d) == AfterPut(fs, refs, d)
    ensures i == d ==> AfterPut(fs, refs', d) == fs
    ensures AfterPut(fs, refs', d)[i] == fs[i] && |AfterPut(fs, refs', d)| == |fs|
  {
  }

  /** Taking a reference to i and dropping it again changes nothing. */
  lemma GetPut(fs: Fs, home: Homes, refs: seq<nat>, d: nat, i: nat)
    requires State(fs, home, refs) && d < |fs| && i < |fs| && fs[i].kind != Free && refs[d] > 0
    ensures var refs1 := refs[i := refs[i] + 1];
      AfterPut(AfterPut(fs, refs1, d), refs1[d := refs1[d] - 1], i) == AfterPut(fs, refs, d)
  {
    hide FsOk;
    HeldOrLinked(fs, home, refs, i);
  }

  /** What create says of a name it finds. */
  predicate ExistingIs(fs: Fs, d: nat, name: string, kind: Kind, k: nat, r: CreateResult) {
    && d < |fs| && FoundAt(fs[d].entries, name, k) && fs[d].entries[k].inum < |fs|
    && var i := fs[d].entries[k].inum;
    && (r.PanicNoType? <==> fs[i].kind == Free)
    && (r.Found? <==> kind == File && fs[i].kind == File) && (r.Found? ==> r.inum == i)
  }

  /** The new inode and its name, and dp put. */
  predicate CreateDone(fs: Fs, refs: seq<nat>, fs': Fs, d: nat, k: nat, name: string, i: nat, kind: Kind) {
    && d < |fs| == |refs| && FirstInode(fs, i) && i != d && FreeSlot(fs[d].entries, k) && FirstSlot(fs[d].entries, k)
    && fs' == AfterPut(WithNew(fs, d, k, name, i, kind), refs, d)
  }

  lemma AddHeld(fs: Fs, home: Homes, refs: seq<nat>, i: nat)
    requires State(fs, home, refs) && i < |fs| && fs[i].kind != Free
    ensures State(fs, home, refs[i := refs[i] + 1])
  {
    hide FsOk;
  }

  function EmptyVolume(n: nat): (fs: Fs)
    ensures |fs| == n
  {
    seq(n, i => if i == ROOT then Inode(Dir, 1, Dots(ROOT, ROOT)) else Inode(Free, 0, []))
  }

  lemma EmptyVolumeOk(n: nat)
    requires n > ROOT
    ensures FsOk(EmptyVolume(n), map[])
  {
    var fs := EmptyVolume(n);
    DotNames();
    forall d: nat, k: nat, i: nat
      ensures IsRef(fs, d, k, i) <==> d == ROOT && k == 1 && i == ROOT
    {
    }
    forall r: (nat, nat)
      ensures r in Refs(fs, ROOT) <==> r == (ROOT, 1)
    {
      RefAt(fs, ROOT, r.0, r.1);
    }
    assert Refs(fs, ROOT) == {(ROOT, 1)};
    forall i: nat | i < n
      ensures InodeOk(fs, i)
    {
      NoRefs(fs, i);
    }
  }

  class Volume {
    var inodes: Fs
    var refs: seq<nat>
    ghost var home: Homes

    ghost predicate Ok()
      reads this
    {
      State(inodes, home, refs)
    }

    /** What mkfs writes: a root directory that is its own parent. */
    constructor (n: nat)
      requires n > ROOT
      ensures Ok() && inodes == EmptyVolume(n) && LinkedDir(inodes, ROOT) && forall i :: 0 <= i < n ==> refs[i] == 0
    {
      inodes := EmptyVolume(n);
      refs := seq(n, _ => 0);
      home := map[];
      EmptyVolumeOk(n);
    }

    method DirLookup(dp: nat, name: string) returns (r: Option<nat>)
      requires dp < |inodes|
      ensures r.Some? ==> FoundAt(inodes[dp].entries, name, r.value)
      ensures r.None? <==> Absent(inodes[dp].entries, name)
    {
      var off := 0;
      while off < |inodes[dp].entries|
        invariant off <= |inodes[dp].entries|
        invariant forall j :: 0 <= j < off && inodes[dp].entries[j].inum != 0 ==> inodes[dp].entries[j].name != Trunc(name)
      {
        var de := inodes[dp].entries[off];
        if de.inum != 0 && Trunc(name) == de.name {
          return Some(off);
        }
        off := off + 1;
      }
      r := None;
    }

    /** Writes a new entry unless the name is taken; in a directory in order the slot is never one of the dots. */
    method DirLink(dp: nat, name: string, inum: nat) returns (ok: bool, ghost k: nat)
      requires dp < |inodes|
      modifies `inodes
      ensures ok <==> Absent(old(inodes)[dp].entries, name)
      ensures !ok ==> inodes == old(inodes)
      ensures ok ==> FirstSlot(old(inodes)[dp].entries, k)
      ensures ok ==> inodes == WithEntry(old(inodes), dp, k, name, inum)
    {
      var found := DirLookup(dp, name);
      if found.Some? {
        return false, 0;
      }
      var off := 0;
      while off < |inodes[dp].entries| && inodes[dp].entries[off].inum != 0
        invariant off <= |inodes[dp].entries| && inodes == old(inodes) && forall j :: 0 <= j < off ==> inodes[dp].entries[j].inum != 0
      {
        off := off + 1;
      }
      var es := inodes[dp].entries;
      inodes := inodes[dp := inodes[dp].(entries := if off < |es| then es[off := Dirent(inum, Trunc(name))] else es + [Dirent(inum, Trunc(name))])];
      ok, k := true, off;
    }

    method IsDirEmpty(dp: nat) returns (empty: bool)
      requires dp < |inodes|
      ensures empty <==> forall k :: 2 <= k < |inodes[dp].entries| ==> inodes[dp].entries[k].inum == 0
    {
      var off := 2;
      while off < |inodes[dp].entries|
        invariant 2 <= off && forall k :: 2 <= k < off && k < |inodes[dp].entries| ==> inodes[dp].entries[k].inum == 0
      {
        if inodes[dp].entries[off].inum != 0 {
          return false;
        }
        off := off + 1;
      }
      empty := true;
    }

    /** The first free inode, marked with its new kind and cleared. */
    method IAlloc(kind: Kind) returns (r: Option<nat>)
      requires |refs| == |inodes|
      modifies `inodes, `refs
      ensures r.None? ==> inodes == old(inodes) && refs == old(refs) && forall i :: 1 <= i < |inodes| ==> inodes[i].kind != Free
      ensures r.Some? ==> FirstInode(old(inodes), r.value) && inodes == Unnamed(old(inodes), r.value, kind, [])
      ensures r.Some? ==> refs == old(refs)[r.value := old(refs)[r.value] + 1]
    {
      var inum := 1;
      while inum < |inodes|
        invariant 1 <= inum && inodes == old(inodes) && refs == old(refs)
        invariant forall i :: 1 <= i < inum && i < |inodes| ==> inodes[i].kind != Free
      {
        if inodes[inum].kind == Free {
          inodes := inodes[inum := Inode(kind, 0, [])];
          refs := refs[inum := refs[inum] + 1];
          return Some(inum);
        }
        inum := inum + 1;
      }
      r := None;
    }

    /** Drops a reference; the last one to an inode without links frees it. */
    method IPut(i: nat)
      requires i < |inodes| == |refs| && refs[i] > 0
      modifies `inodes, `refs
      ensures inodes == AfterPut(old(inodes), old(refs), i) && refs == old(refs)[i := old(refs)[i] - 1]
    {
      if inodes[i].nlink == 0 && refs[i] == 1 {
        inodes := inodes[i := Inode(Free, 0, [])];
      }
      refs := refs[i := refs[i] - 1];
    }

    method IGet(i: nat)
      requires i < |refs|
      modifies `refs
      ensures refs == old(refs)[i := old(refs)[i] + 1]
    {
      refs := refs[i := refs[i] + 1];
    }

    /** A new name for ip in the directory dp that nameiparent gives, or everything as before. */
    method Link(ip: nat, dp: Option<nat>, sameDev: bool, name: string) returns (ok: bool)
      requires Ok() && ip < |inodes| && refs[ip] > 0
      requires dp.Some? ==> dp.value < |inodes| && inodes[dp.value].kind == Dir
      modifies this
      ensures refs == old(refs)[ip := old(refs)[ip] - 1]
      ensures ok <==> old(inodes)[ip].kind != Dir && dp.Some? && sameDev && Absent(old(inodes)[dp.value].entries, name)
      ensures !ok ==> Ok() && inodes == AfterPut(old(inodes), old(refs), ip)
      ensures ok ==> exists k: nat :: FreeSlot(old(inodes)[dp.value].entries, k) && FirstSlot(old(inodes)[dp.value].entries, k) && inodes == Linked(old(inodes), dp.value, k, name, ip)
      ensures ok ==> (CountLaw(inodes) <==> LinkedDir(old(inodes), dp.value)) && (CountLaw(inodes) ==> Ok())
    {
      hide FsOk, HeldOk, Trunc, Absent, AfterPut, CountLaw;
      Lengths(inodes, home, refs);
      NoNegative(inodes, home, ip);
      PutKeeps(inodes, home, refs, ip);
      if inodes[ip].kind == Dir {
        IPut(ip);
        return false;
      }
      inodes := inodes[ip := inodes[ip].(nlink := inodes[ip].nlink + 1)];
      if dp.Some? {
        var d := dp.value;
        HeldOrLinked(old(inodes), home, refs, d);
        IGet(d);
        ok := false;
        ghost var k := 0;
        if sameDev {
          ok, k := DirLink(d, name, ip);
        }
        PutsNothing(inodes, refs, d);
        IPut(d);
        assert refs == old(refs);
        if ok {
          SlotFree(old(inodes), home, d, k);
          InUse(old(inodes), home, refs, ip);
          LinkLaw(old(inodes), home, d, k, name, ip);
          if LinkedDir(old(inodes), d) {
            LinkHeld(old(inodes), home, refs, d, k, name, ip);
          }
          PutsNothing(inodes, refs, ip);
          IPut(ip);
          return true;
        }
      }
      inodes := inodes[ip := inodes[ip].(nlink := inodes[ip].nlink - 1)];
      assert inodes == old(inodes);
      IPut(ip);
      ok := false;
    }

    /**
     Finds or makes a file, device or directory of that name in dp.  The law of the counts survives a
     new name exactly if dp has a name itself; ilock panics exactly if the name found is that of a
     free inode.
     */
    method Create(dp: nat, name: string, kind: Kind) returns (r: CreateResult)
      requires Ok() && dp < |inodes| && inodes[dp].kind == Dir && refs[dp] > 0 && kind != Free
      modifies this
      ensures !r.Created? && !r.PanicNoType? ==> Ok()
      ensures r.Found? || r.Refused? || r.PanicNoType? <==> !Absent(old(inodes)[dp].entries, name)
      ensures r.Found? || r.Refused? ==> inodes == AfterPut(old(inodes), old(refs), dp)
      ensures r.Found? || r.Refused? || r.PanicNoType? ==> exists k: nat :: ExistingIs(old(inodes), dp, name, kind, k, r)
      ensures r.Found? || r.Created? ==> r.inum < |old(refs)| && r.inum != dp && refs == old(refs)[dp := old(refs)[dp] - 1][r.inum := old(refs)[r.inum] + 1]
      ensures r.Refused? ==> refs == old(refs)[dp := old(refs)[dp] - 1]
      ensures r.PanicNoInodes? ==> inodes == old(inodes) && refs == old(refs) && forall i :: 1 <= i < |inodes| ==> inodes[i].kind != Free
      ensures r.Created? ==> 0 < r.inum < |old(inodes)| && old(inodes)[r.inum].kind == Free && exists k: nat :: CreateDone(old(inodes), old(refs), inodes, dp, k, name, r.inum, kind)
      ensures r.Created? ==> (CountLaw(inodes) <==> LinkedDir(old(inodes), dp)) && (CountLaw(inodes) ==> Ok())
    {
      hide FsOk, HeldOk, Trunc, AfterPut, WithNew, CountLaw, Absent;
      Lengths(inodes, home, refs);
      var off := DirLookup(dp, name);
      if off.Some? {
        Present(inodes[dp].entries, name, off.value);
        r := Existing(dp, name, kind, off.value);
        return;
      }
      var ip := IAlloc(kind);
      if ip.None? {
        return PanicNoInodes;
      }
      var i := ip.value;
      FreeInode(old(inodes), home, dp);
      ghost var k := NameNew(dp, name, kind, i, old(inodes));
      SlotFree(old(inodes), home, dp, k);
      CreateLaw(old(inodes), home, dp, k, name, i, kind, old(refs));
      SameRefsPut(inodes, old(refs), refs, dp);
      if LinkedDir(old(inodes), dp) {
        CreateKeeps(old(inodes), home, old(refs), dp, k, name, i, kind);
        home := if kind == Dir then home[i := (dp, k)] else home;
      }
      IPut(dp);
      assert CreateDone(old(inodes), old(refs), inodes, dp, k, name, i, kind);
      assert refs == old(refs)[dp := old(refs)[dp] - 1][i := old(refs)[i] + 1];
      r := Created(i);
    }

    /** create when the name is there already. */
    method Existing(dp: nat, name: string, kind: Kind, k: nat) returns (r: CreateResult)
      requires Ok() && dp < |inodes| && inodes[dp].kind == Dir && refs[dp] > 0 && FoundAt(inodes[dp].entries, name, k)
      modifies `inodes, `refs
      ensures r.Found? || r.Refused? || r.PanicNoType?
      ensures ExistingIs(old(inodes), dp, name, kind, k, r)
      ensures !r.PanicNoType? ==> Ok() && inodes == AfterPut(old(inodes), old(refs), dp)
      ensures r.Found? ==> r.inum != dp && r.inum < |old(refs)| && refs == old(refs)[dp := old(refs)[dp] - 1][r.inum := old(refs)[r.inum] + 1]
      ensures r.Refused? ==> refs == old(refs)[dp := old(refs)[dp] - 1]
    {
      hide FsOk, HeldOk, Trunc, AfterPut;
      Lengths(inodes, home, refs);
      EntryRange(inodes, home, dp, k);
      var ip := inodes[dp].entries[k].inum;
      IGet(ip);
      PutOther(inodes, old(refs), refs, dp, ip);
      if inodes[ip].kind == Free {
        IPut(dp);
        return PanicNoType;
      }
      AddHeld(inodes, home, old(refs), ip);
      PutKeeps(inodes, home, refs, dp);
      GetPut(inodes, home, old(refs), dp, ip);
      IPut(dp);
      if kind == File && inodes[ip].kind == File {
        assert refs == old(refs)[dp := old(refs)[dp] - 1][ip := old(refs)[ip] + 1];
        return Found(ip);
      }
      PutKeeps(inodes, home, refs, ip);
      IPut(ip);
      assert refs == old(refs)[dp := old(refs)[dp] - 1];
      r := Refused;
    }

    /** create after ialloc: the link, the dots of a directory, the name.  dirlink cannot fail here. */
    method NameNew(dp: nat, name: string, kind: Kind, i: nat, ghost fs: Fs) returns (ghost k: nat)
      requires dp < |fs| && 0 < i < |fs| && i != dp && dp != 0 && inodes == Unnamed(fs, i, kind, [])
      requires Absent(fs[dp].entries, name)
      modifies `inodes
      ensures FirstSlot(fs[dp].entries, k)
      ensures inodes == WithNew(fs, dp, k, name, i, kind)
    {
      hide Trunc, Absent;
      inodes := inodes[i := inodes[i].(nlink := 1)];
      if kind == Dir {
        inodes := inodes[dp := inodes[dp].(nlink := inodes[dp].nlink + 1)];
        MakeDots(i, dp);
      }
      ghost var fs1 := inodes;
      var ok;
      ok, k := DirLink(dp, name, i);
      assert ok;
      NewIs(fs, fs1, dp, k, name, i, kind);
    }

    method MakeDots(i: nat, dp: nat)
      requires 0 < i < |inodes| && dp < |inodes| && inodes[i].entries == []
      modifies `inodes
      ensures inodes == old(inodes)[i := old(inodes)[i].(entries := Dots(i, dp))]
    {
      DotNames();
      var ok, dot := DirLink(i, ".", i);
      assert inodes[i].entries == [Dirent(i, ".")];
      ok, dot := DirLink(i, "..", dp);
      assert inodes[i].entries == Dots(i, dp);
    }

    /** Removes a name of a file or of an empty directory; the panic for a count below 1 is never reached. */
    method Unlink(dp: nat, name: string) returns (ok: bool)
      requires Ok() && dp < |inodes| && inodes[dp].kind == Dir && refs[dp] > 0
      modifies this
      ensures Ok() && refs == old(refs)[dp := old(refs)[dp] - 1]
      ensures ok <==> exists k: nat :: Removable(old(inodes), dp, name, k)
      ensures !ok ==> inodes == AfterPut(old(inodes), old(refs), dp)
      ensures ok ==> exists k: nat :: UnlinkDone(old(inodes), old(refs), inodes, dp, name, k)
    {
      hide FsOk, Removed, Trunc;
      if Trunc(name) == "." || Trunc(name) == ".." {
        PutKeeps(inodes, home, refs, dp);
        IPut(dp);
        return false;
      }
      var off := DirLookup(dp, name);
      if off.None? {
        PutKeeps(inodes, home, refs, dp);
        IPut(dp);
        return false;
      }
      ok := UnlinkAt(dp, name, off.value);
      OneSlot(old(inodes), dp, name, off.value);
    }

    /** sys_unlink once the name is found in slot k. */
    method UnlinkAt(dp: nat, name: string, k: nat) returns (ok: bool)
      requires Ok() && dp < |inodes| && inodes[dp].kind == Dir && refs[dp] > 0
      requires FoundAt(inodes[dp].entries, name, k) && Trunc(name) != "." && Trunc(name) != ".."
      modifies this
      ensures Ok() && refs == old(refs)[dp := old(refs)[dp] - 1]
      ensures ok <==> Removable(old(inodes), dp, name, k)
      ensures !ok ==> inodes == AfterPut(old(inodes), old(refs), dp)
      ensures ok ==> UnlinkDone(old(inodes), old(refs), inodes, dp, name, k)
    {
      hide FsOk, Removed, Trunc, HeldOk, AfterPut, FoundAt;
      FoundName(inodes, home, dp, name, k);
      var ip := inodes[dp].entries[k].inum;
      assert |refs| == |inodes| by { Lengths(inodes, home, refs); }
      IGet(ip);
      assert inodes[ip].nlink >= 1;
      if inodes[ip].kind == Dir {
        var empty := IsDirEmpty(ip);
        if !empty {
          PutsNothing(inodes, refs, ip);
          IPut(ip);
          assert refs == old(refs);
          PutKeeps(inodes, home, refs, dp);
          IPut(dp);
          return false;
        }
      }
      RemovePuts(inodes, home, old(refs), dp, name, k);
      TakeName(dp, k, ip);
      assert refs == old(refs)[dp := old(refs)[dp] - 1];
      home := if old(inodes)[ip].kind == Dir then home - {ip} else home;
      ok := true;
    }

    /** The writes of sys_unlink. */
    method TakeName(dp: nat, k: nat, ip: nat)
      requires dp < |inodes| == |refs| && k < |inodes[dp].entries| && ip == inodes[dp].entries[k].inum < |inodes| && ip != dp
      requires refs[dp] > 0 && refs[ip] > 0 && inodes[dp].nlink >= if inodes[ip].kind == Dir then 2 else 1
      modifies `inodes, `refs
      ensures inodes == AfterPut(Removed(old(inodes), dp, k), old(refs), ip)
      ensures refs == old(refs)[dp := old(refs)[dp] - 1][ip := old(refs)[ip] - 1]
    {
      var dir := inodes[ip].kind == Dir;
      inodes := inodes[dp := inodes[dp].(entries := inodes[dp].entries[k := Dirent(0, "")])];
      if dir {
        inodes := inodes[dp := inodes[dp].(nlink := inodes[dp].nlink - 1)];
      }
      IPut(dp);
      inodes := inodes[ip := inodes[ip].(nlink := inodes[ip].nlink - 1)];
      assert inodes == Removed(old(inodes), dp, k);
      IPut(ip);
    }
  }

  lemma DotNames()
    ensures Trunc(".") == "." && Trunc("..") == ".." && "." != ".."
  {
    assert |"."| == 1 && |".."| == 2;
  }

  lemma NewIs(fs: Fs, fs1: Fs, d: nat, k: nat, name: string, i: nat, kind: Kind)
    requires d < |fs| && i < |fs| && i != d && k <= |fs[d].entries|
    requires var u := Unnamed(fs, i, kind, []);
      fs1 == if kind == Dir then u[i := Inode(Dir, 1, Dots(i, d))][d := u[d].(nlink := u[d].nlink + 1)] else u[i := Inode(kind, 1, [])]
    ensures WithEntry(fs1, d, k, name, i) == WithNew(fs, d, k, name, i, kind)
  {
    hide Trunc;
  }

  lemma Lengths(fs: Fs, home: Homes, refs: seq<nat>)
    requires State(fs, home, refs)
    ensures |refs| == |fs|
  {
  }

  lemma PutsNothing(fs: Fs, refs: seq<nat>, i: nat)
    requires i < |fs| == |refs| && (fs[i].nlink >= 1 || refs[i] >= 2)
    ensures AfterPut(fs, refs, i) == fs
  {
  }

  lemma OneSlot(fs: Fs, d: nat, name: string, k: nat)
    requires d < |fs| && FoundAt(fs[d].entries, name, k)
    ensures forall j: nat :: FoundAt(fs[d].entries, name, j) ==> j == k
  {
  }
}

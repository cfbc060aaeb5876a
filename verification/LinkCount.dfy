/**
 Directories and link counts of fs.c and sysfile.c: an inode's nlink is the number of directory
 entries that name it, not counting ".", in directories that still have a link themselves.
 */
module LinkCount {

  const DIRSIZ: nat := 14
  const ROOT: nat := 1

  datatype Kind = Free | File | Dir | Dev

  /** inum 0 is an empty slot. */
  datatype Dirent = Dirent(inum: nat, name: string)

  datatype Inode = Inode(kind: Kind, nlink: int, entries: seq<Dirent>)

  type Fs = seq<Inode>

  /** What a directory entry can hold of a name. */
  function Trunc(name: string): (r: string)
    ensures r <= name && |r| == if |name| <= DIRSIZ then |name| else DIRSIZ
  {
    if |name| > DIRSIZ then name[..DIRSIZ] else name
  }

  // ---- References ----

  predicate LinkedDir(fs: Fs, d: nat) {
    d < |fs| && fs[d].kind == Dir && fs[d].nlink > 0
  }

  /** Entry k of directory d names inode i. */
  predicate IsRef(fs: Fs, d: nat, k: nat, i: nat) {
    i != 0 && LinkedDir(fs, d) && k < |fs[d].entries| && fs[d].entries[k].inum == i && fs[d].entries[k].name != "."
  }

  ghost function Refs(fs: Fs, i: nat): set<(nat, nat)>
  {
    set d: nat, k: nat | d < |fs| && k < |fs[d].entries| && IsRef(fs, d, k, i) :: (d, k)
  }

  // ---- Directories ----

  predicate UniqueNames(es: seq<Dirent>) {
    forall j, k :: 0 <= j < k < |es| && es[j].inum != 0 && es[k].inum != 0 ==> es[j].name != es[k].name
  }

  /** "." and ".." come first, names fit and are unique, and every entry names an inode in use. */
  ghost predicate DirOk(fs: Fs, d: nat)
    requires d < |fs|
  {
    var es := fs[d].entries;
    && |es| >= 2 && es[0] == Dirent(d, ".") && es[1].name == ".." && es[1].inum != 0
    && UniqueNames(es)
    && (forall k :: 0 <= k < |es| ==> Trunc(es[k].name) == es[k].name)
    && (forall k :: 2 <= k < |es| && es[k].inum != 0 ==> es[k].name != "." && es[k].name != "..")
    && (forall k :: 0 <= k < |es| ==> es[k].inum < |fs|)
    && (fs[d].nlink > 0 ==> forall k :: 0 <= k < |es| && es[k].inum != 0 ==> fs[es[k].inum].kind != Free)
    && (fs[d].nlink == 0 ==> forall k :: 2 <= k < |es| ==> es[k].inum == 0)
  }

  type Homes = map<nat, (nat, nat)>

  /** Each linked directory but the root has exactly one name, and that in the directory of its "..". */
  ghost predicate HomesOk(fs: Fs, home: Homes) {
    && (forall i: nat :: LinkedDir(fs, i) && i != ROOT ==>
          i in home && home[i].1 >= 2 && IsRef(fs, home[i].0, home[i].1, i) && |fs[i].entries| >= 2 && fs[i].entries[1].inum == home[i].0)
    && (forall d: nat, k: nat, i: nat :: k >= 2 && i < |fs| && fs[i].kind == Dir && IsRef(fs, d, k, i) ==> i != ROOT && i in home && home[i] == (d, k))
  }

  ghost predicate InodeOk(fs: Fs, i: nat)
    requires i < |fs|
  {
    && (fs[i].kind == Free ==> Refs(fs, i) == {} && fs[i].nlink == 0 && fs[i].entries == [])
    && (fs[i].kind != Free ==> fs[i].nlink == |Refs(fs, i)|)
    && (fs[i].kind == Dir ==> DirOk(fs, i))
  }

  ghost predicate FsOk(fs: Fs, home: Homes) {
    && ROOT < |fs| && fs[0].kind == Free && LinkedDir(fs, ROOT)
    && |fs[ROOT].entries| >= 2 && fs[ROOT].entries[1].inum == ROOT
    && (forall i: nat :: i < |fs| ==> InodeOk(fs, i))
    && HomesOk(fs, home)
  }

  // ---- Counting ----

  lemma RefAt(fs: Fs, i: nat, d: nat, k: nat)
    ensures (d, k) in Refs(fs, i) <==> IsRef(fs, d, k, i)
  {
  }

  /** Exactly one more entry names an inode: entry k of d names i. */
  ghost predicate Gains(fs: Fs, fs': Fs, d: nat, k: nat, i: nat) {
    && !IsRef(fs, d, k, i)
    && forall x: nat, y: nat, j: nat :: IsRef(fs', x, y, j) <==> IsRef(fs, x, y, j) || (x == d && y == k && j == i)
  }

  lemma GainsCount(fs: Fs, fs': Fs, d: nat, k: nat, i: nat, j: nat)
    requires Gains(fs, fs', d, k, i)
    ensures |Refs(fs', j)| == |Refs(fs, j)| + if j == i then 1 else 0
  {
    hide IsRef;
    forall x: nat, y: nat
      ensures (x, y) in Refs(fs', j) <==> (x, y) in Refs(fs, j) || (j == i && (x, y) == (d, k))
    {
      RefAt(fs, j, x, y);
      RefAt(fs', j, x, y);
    }
    RefAt(fs, i, d, k);
    assert Refs(fs', j) == if j == i then Refs(fs, j) + {(d, k)} else Refs(fs, j);
  }

  lemma NoRefs(fs: Fs, i: nat)
    ensures Refs(fs, i) == {} <==> forall d: nat, k: nat :: !IsRef(fs, d, k, i)
  {
    hide IsRef;
    forall d: nat, k: nat
      ensures (d, k) in Refs(fs, i) <==> IsRef(fs, d, k, i)
    {
      RefAt(fs, i, d, k);
    }
    assert Refs(fs, i) == {} <==> forall d: nat, k: nat :: (d, k) !in Refs(fs, i);
  }

  // ---- What the system calls do to directories and counts ----

  /** Slot k is where dirlink puts a new entry. */
  predicate FreeSlot(es: seq<Dirent>, k: nat) {
    2 <= k <= |es| && (k < |es| ==> es[k].inum == 0)
  }

  predicate Absent(es: seq<Dirent>, name: string) {
    forall k :: 0 <= k < |es| && es[k].inum != 0 ==> es[k].name != Trunc(name)
  }

  function PutAt(es: seq<Dirent>, k: nat, e: Dirent): seq<Dirent>
    requires k <= |es|
  {
    if k < |es| then es[k := e] else es + [e]
  }

  /** A new entry for i in directory d. */
  function WithEntry(fs: Fs, d: nat, k: nat, name: string, i: nat): Fs
    requires d < |fs| && k <= |fs[d].entries|
  {
    fs[d := fs[d].(entries := PutAt(fs[d].entries, k, Dirent(i, Trunc(name))))]
  }

  function WithLinks(fs: Fs, i: nat, n: int): Fs
    requires i < |fs|
  {
    fs[i := fs[i].(nlink := n)]
  }

  /** sys_link on success. */
  function Linked(fs: Fs, d: nat, k: nat, name: string, i: nat): Fs
    requires d < |fs| && i < |fs| && k <= |fs[d].entries|
  {
    WithEntry(WithLinks(fs, i, fs[i].nlink + 1), d, k, name, i)
  }

  lemma PutNames(es: seq<Dirent>, k: nat, name: string, i: nat)
    requires FreeSlot(es, k) && UniqueNames(es) && Absent(es, name)
    ensures UniqueNames(PutAt(es, k, Dirent(i, Trunc(name))))
  {
  }

  lemma LinkedRefs(fs: Fs, d: nat, k: nat, name: string, i: nat, x: nat, y: nat, j: nat)
    requires LinkedDir(fs, d) && 0 < i < |fs| && fs[i].kind != Dir && FreeSlot(fs[d].entries, k) && Trunc(name) != "."
    ensures IsRef(Linked(fs, d, k, name, i), x, y, j) <==> IsRef(fs, x, y, j) || (x == d && y == k && j == i)
    ensures !IsRef(fs, d, k, i)
    ensures LinkedDir(Linked(fs, d, k, name, i), x) <==> LinkedDir(fs, x)
  {
  }

  lemma LinkGains(fs: Fs, d: nat, k: nat, name: string, i: nat)
    requires LinkedDir(fs, d) && 0 < i < |fs| && fs[i].kind != Dir && FreeSlot(fs[d].entries, k) && Trunc(name) != "."
    ensures Gains(fs, Linked(fs, d, k, name, i), d, k, i)
  {
    hide IsRef, Trunc, Linked;
    forall x: nat, y: nat, j: nat
      ensures IsRef(Linked(fs, d, k, name, i), x, y, j) <==> IsRef(fs, x, y, j) || (x == d && y == k && j == i)
      ensures !IsRef(fs, d, k, i)
    {
      LinkedRefs(fs, d, k, name, i, x, y, j);
    }
  }

  lemma LinkDirOk(fs: Fs, d: nat, k: nat, name: string, i: nat, j: nat)
    requires d != 0 && LinkedDir(fs, d) && 0 < i < |fs| && fs[i].kind != Dir && fs[i].kind != Free && j < |fs|
    requires fs[j].kind == Dir && DirOk(fs, j) && DirOk(fs, d)
    requires FreeSlot(fs[d].entries, k) && Absent(fs[d].entries, name)
    ensures DirOk(Linked(fs, d, k, name, i), j) && Trunc(name) != "." && Trunc(name) != ".."
  {
    hide Trunc, UniqueNames;
    NewName(fs, d, name);
    PutNames(fs[d].entries, k, name, i);
    assert Trunc(Trunc(name)) == Trunc(name);
  }

  lemma NewName(fs: Fs, d: nat, name: string)
    requires d < |fs| && DirOk(fs, d) && Absent(fs[d].entries, name) && d != 0
    ensures Trunc(name) != "." && Trunc(name) != ".."
  {
    hide Trunc, UniqueNames;
    assert fs[d].entries[0].name == "." && fs[d].entries[1].name == "..";
  }

  lemma LinkHomes(fs: Fs, home: Homes, d: nat, k: nat, name: string, i: nat)
    requires HomesOk(fs, home) && LinkedDir(fs, d) && 0 < i < |fs| && fs[i].kind != Dir && FreeSlot(fs[d].entries, k)
    requires Gains(fs, Linked(fs, d, k, name, i), d, k, i)
    ensures HomesOk(Linked(fs, d, k, name, i), home)
  {
    hide IsRef, Trunc;
    forall x: nat
      ensures LinkedDir(Linked(fs, d, k, name, i), x) <==> LinkedDir(fs, x)
    {
    }
  }

  lemma LinkKeeps(fs: Fs, home: Homes, d: nat, k: nat, name: string, i: nat)
    requires FsOk(fs, home) && LinkedDir(fs, d) && 0 < i < |fs| && fs[i].kind != Dir && fs[i].kind != Free
    requires FreeSlot(fs[d].entries, k) && Absent(fs[d].entries, name)
    ensures FsOk(Linked(fs, d, k, name, i), home)
  {
    hide Refs, Trunc, IsRef, DirOk, HomesOk, Gains, Absent;
    var fs' := Linked(fs, d, k, name, i);
    assert InodeOk(fs, d);
    LinkDirOk(fs, d, k, name, i, d);
    LinkGains(fs, d, k, name, i);
    LinkHomes(fs, home, d, k, name, i);
    forall j: nat | j < |fs|
      ensures InodeOk(fs', j)
    {
      assert InodeOk(fs, j);
      GainsCount(fs, fs', d, k, i, j);
      if fs[j].kind == Dir {
        LinkDirOk(fs, d, k, name, i, j);
      }
    }
  }
}

/**
 bio.c: a fixed set of buffers on a list in order of use, each assigned to at most one block.  Any
 sequence of the steps below, by any number of clients, keeps the list whole, keeps referenced and
 dirty buffers, and lets every reader see what was stored last.
 */
module BufCache {
  import opened BufRing

  type Block = seq<nat>

  datatype Key = Key(dev: nat, blockno: nat)

  datatype Buf = Buf(key: Key, refcnt: nat, valid: bool, dirty: bool, locked: bool, data: Block)

  datatype GetResult = Hit(b: nat) | Recycled(b: nat) | PanicNoBuffers

  type Blocks = map<Key, Block>

  function At(m: Blocks, key: Key): Block
  {
    if key in m then m[key] else []
  }

  // ---- What is kept ----

  /** The list visits the head and every buffer once, and back. */
  ghost predicate ListOk(next: seq<nat>, prev: seq<nat>, ring: seq<nat>, n: nat) {
    && |next| == n + 1 == |ring| && Chain(next, prev, ring) && ring[0] == n
    && forall i: nat :: i <= n ==> i in ring
  }

  predicate BufOk(b: Buf) {
    (b.locked ==> b.refcnt > 0) && (b.dirty ==> b.valid)
  }

  /** No block has two buffers; device 0 is what binit leaves in buffers that are not assigned yet. */
  ghost predicate OneBufferEach(bufs: seq<Buf>) {
    && (forall i: nat :: i < |bufs| ==> BufOk(bufs[i]))
    && (forall i: nat, j: nat :: i < j < |bufs| && bufs[i].key.dev >= 1 ==> bufs[i].key != bufs[j].key)
  }

  ghost predicate Cached(bufs: seq<Buf>, key: Key) {
    exists i: nat :: i < |bufs| && bufs[i].key == key && bufs[i].valid
  }

  /** latest is what clients stored last; touched are the buffers stored into and not yet passed to log_write or bwrite. */
  ghost predicate Coherent(bufs: seq<Buf>, disk: Blocks, latest: Blocks, touched: set<nat>) {
    && (forall i: nat :: i < |bufs| && bufs[i].key.dev >= 1 && bufs[i].valid ==> bufs[i].data == At(latest, bufs[i].key))
    && (forall i: nat :: i < |bufs| && bufs[i].key.dev >= 1 && bufs[i].valid && !bufs[i].dirty && i !in touched ==> bufs[i].data == At(disk, bufs[i].key))
    && (forall key: Key :: key.dev >= 1 && !Cached(bufs, key) ==> At(disk, key) == At(latest, key))
    && (forall i :: i in touched ==> i < |bufs| && bufs[i].locked && bufs[i].valid)
  }

  // ---- Steps on one buffer ----

  ghost predicate Sound(bufs: seq<Buf>, disk: Blocks, latest: Blocks, touched: set<nat>) {
    OneBufferEach(bufs) && Coherent(bufs, disk, latest, touched)
  }

  /** The buffer's assignment, contents and validity stay. */
  lemma SameContents(bufs: seq<Buf>, b: nat, u: Buf, disk: Blocks, latest: Blocks, touched: set<nat>)
    requires Sound(bufs, disk, latest, touched) && b < |bufs| && BufOk(u)
    requires u.key == bufs[b].key && u.valid == bufs[b].valid && u.data == bufs[b].data && (bufs[b].dirty ==> u.dirty)
    requires b in touched ==> u.locked
    ensures Sound(bufs[b := u], disk, latest, touched)
  {
    forall key: Key
      ensures Cached(bufs[b := u], key) <==> Cached(bufs, key)
    {
      CachedUpdate(bufs, b, u, key);
    }
  }

  lemma CachedUpdate(bufs: seq<Buf>, b: nat, u: Buf, key: Key)
    requires b < |bufs|
    ensures Cached(bufs[b := u], key) ==> Cached(bufs, key) || (u.key == key && u.valid)
    ensures u.key == key && u.valid ==> Cached(bufs[b := u], key)
    ensures bufs[b].key == key && bufs[b].valid ==> Cached(bufs, key)
    ensures Cached(bufs, key) ==> Cached(bufs[b := u], key) || (bufs[b].key == key && bufs[b].valid)
  {
    var bufs' := bufs[b := u];
    if i: nat :| i < |bufs'| && bufs'[i].key == key && bufs'[i].valid {
      assert i != b ==> bufs[i].key == key && bufs[i].valid;
    }
    if i: nat :| i < |bufs| && bufs[i].key == key && bufs[i].valid {
      assert i != b ==> bufs'[i].key == key && bufs'[i].valid;
    }
    assert bufs'[b] == u;
  }

  /** A buffer that nobody uses and that equals the disk can be given to another block. */
  lemma Recycle(bufs: seq<Buf>, b: nat, key: Key, disk: Blocks, latest: Blocks, touched: set<nat>)
    requires Sound(bufs, disk, latest, touched) && b < |bufs| && bufs[b].refcnt == 0 && !bufs[b].dirty
    requires forall i: nat :: i < |bufs| ==> bufs[i].key != key
    ensures Sound(bufs[b := bufs[b].(key := key, valid := false, dirty := false, refcnt := 1)], disk, latest, touched)
  {
    var u := bufs[b].(key := key, valid := false, dirty := false, refcnt := 1);
    assert BufOk(bufs[b]);
    forall k: Key | k.dev >= 1 && !Cached(bufs[b := u], k)
      ensures At(disk, k) == At(latest, k)
    {
      CachedUpdate(bufs, b, u, k);
    }
  }

  /** iderw's read. */
  lemma Fill(bufs: seq<Buf>, b: nat, disk: Blocks, latest: Blocks, touched: set<nat>)
    requires Sound(bufs, disk, latest, touched) && b < |bufs| && !bufs[b].valid
    ensures Sound(bufs[b := bufs[b].(valid := true, data := At(disk, bufs[b].key))], disk, latest, touched)
  {
    var u := bufs[b].(valid := true, data := At(disk, bufs[b].key));
    if bufs[b].key.dev >= 1 {
      assert !Cached(bufs, bufs[b].key);
    }
    assert BufOk(bufs[b]);
    forall k: Key
      ensures Cached(bufs, k) ==> Cached(bufs[b := u], k)
    {
      CachedUpdate(bufs, b, u, k);
    }
  }

  /** A client stores into a buffer that it has locked. */
  lemma Store(bufs: seq<Buf>, b: nat, data: Block, disk: Blocks, latest: Blocks, touched: set<nat>)
    requires Sound(bufs, disk, latest, touched) && b < |bufs| && bufs[b].locked && bufs[b].valid
    ensures Sound(bufs[b := bufs[b].(data := data)], disk, latest[bufs[b].key := data], touched + {b})
  {
    var u := bufs[b].(data := data);
    assert BufOk(bufs[b]);
    forall k: Key
      ensures Cached(bufs, k) <==> Cached(bufs[b := u], k)
    {
      CachedUpdate(bufs, b, u, k);
    }
    assert Cached(bufs, bufs[b].key);
  }

  /** log_write pins the buffer. */
  lemma Pin(bufs: seq<Buf>, b: nat, disk: Blocks, latest: Blocks, touched: set<nat>)
    requires Sound(bufs, disk, latest, touched) && b < |bufs| && bufs[b].valid
    ensures Sound(bufs[b := bufs[b].(dirty := true)], disk, latest, touched - {b})
  {
    var u := bufs[b].(dirty := true);
    assert BufOk(bufs[b]);
    forall k: Key
      ensures Cached(bufs, k) <==> Cached(bufs[b := u], k)
    {
      CachedUpdate(bufs, b, u, k);
    }
  }

  lemma Others(bufs: seq<Buf>, b: nat, u: Buf)
    requires OneBufferEach(bufs) && b < |bufs| && u.key == bufs[b].key && BufOk(u)
    ensures OneBufferEach(bufs[b := u])
    ensures bufs[b].key.dev >= 1 ==> forall j: nat :: j < |bufs| && j != b ==> bufs[j].key != bufs[b].key
  {
  }

  /** bwrite: the disk gets the contents. */
  lemma WriteOut(bufs: seq<Buf>, b: nat, disk: Blocks, latest: Blocks, touched: set<nat>)
    requires Sound(bufs, disk, latest, touched) && b < |bufs| && bufs[b].valid
    ensures Sound(bufs[b := bufs[b].(dirty := false)], disk[bufs[b].key := bufs[b].data], latest, touched - {b})
  {
    hide OneBufferEach, Cached;
    var u := bufs[b].(dirty := false);
    EachOk(bufs, b);
    Others(bufs, b, u);
    forall k: Key
      ensures Cached(bufs, k) <==> Cached(bufs[b := u], k)
    {
      CachedUpdate(bufs, b, u, k);
    }
  }

  lemma EachOk(bufs: seq<Buf>, b: nat)
    requires OneBufferEach(bufs) && b < |bufs|
    ensures BufOk(bufs[b])
  {
  }

  /** What a reader gets. */
  lemma ReadsLatest(bufs: seq<Buf>, b: nat, disk: Blocks, latest: Blocks, touched: set<nat>)
    requires Sound(bufs, disk, latest, touched) && b < |bufs| && bufs[b].valid && bufs[b].key.dev >= 1
    ensures bufs[b].data == At(latest, bufs[b].key)
  {
  }

  class Cache {
    const n: nat
    const next: array<nat>
    const prev: array<nat>
    const bufs: array<Buf>
    var disk: Blocks
    ghost var ring: seq<nat>
    ghost var latest: Blocks
    ghost var touched: set<nat>

    ghost predicate Shape()
      reads this
    {
      next.Length == prev.Length == n + 1 && bufs.Length == n && next != prev
    }

    ghost predicate Ok()
      reads this, next, prev, bufs
    {
      Shape() && ListOk(next[..], prev[..], ring, n) && Sound(bufs[..], disk, latest, touched)
    }

    /** binit over a disk whose contents are what clients stored last. */
    constructor (size: nat, contents: Blocks)
      ensures Ok() && n == size && disk == contents == latest && touched == {} && fresh(next) && fresh(prev) && fresh(bufs)
      ensures forall i: nat :: i < n ==> bufs[i] == Buf(Key(0, 0), 0, false, false, false, [])
    {
      n := size;
      next := new nat[size + 1](_ => size);
      prev := new nat[size + 1](_ => size);
      bufs := new Buf[size](_ => Buf(Key(0, 0), 0, false, false, false, []));
      disk, latest, touched, ring := contents, contents, {}, [size];
      new;
      var b: nat := 0;
      while b < size
        invariant b <= size && Shape() && n == size && disk == contents == latest && touched == {}
        invariant Chain(next[..], prev[..], ring) && ring[0] == size && |ring| == b + 1
        invariant forall i: nat :: i in ring <==> i < b || i == size
        invariant forall i: nat :: i < size ==> bufs[i] == Buf(Key(0, 0), 0, false, false, false, [])
      {
        Pushed(ring, size, b);
        Push(b);
        b := b + 1;
      }
    }

    /** The four stores that put b right after the head. */
    method Push(b: nat)
      requires Shape() && Chain(next[..], prev[..], ring) && ring[0] == n && b < n && b !in ring
      modifies next, prev, `ring
      ensures Chain(next[..], prev[..], ring) && ring == [n, b] + old(ring)[1..]
    {
      PushFront(next[..], prev[..], ring, b);
      ghost var next0: seq<nat>, prev0: seq<nat> := next[..], prev[..];
      next[b] := next[n];
      prev[b] := n;
      prev[next[n]] := b;
      next[n] := b;
      assert next[..] == next0[b := next0[n]][n := b];
      assert prev[..] == prev0[b := n][next0[n] := b];
      ring := [n, b] + ring[1..];
    }

    /** The two stores that take b out of the list. */
    method Unlink(b: nat, ghost k: nat)
      requires Shape() && Chain(next[..], prev[..], ring) && 1 <= k < |ring| && ring[k] == b
      modifies next, prev, `ring
      ensures Chain(next[..], prev[..], ring) && ring == Without(old(ring), k) && b !in ring
    {
      TakeOut(next[..], prev[..], ring, k);
      ghost var next0: seq<nat>, prev0: seq<nat> := next[..], prev[..];
      prev[next[b]] := prev[b];
      next[prev[b]] := next[b];
      assert prev[..] == prev0[next0[b] := prev0[b]];
      assert next[..] == next0[prev0[b] := next0[b]];
      ring := Without(ring, k);
    }

    /** The buffer of the block if it has one, else the least recently used one that is free and clean. */
    method BGet(key: Key) returns (r: GetResult)
      requires Ok()
      modifies bufs
      ensures Ok()
      ensures r.Hit? <==> exists i: nat :: i < n && old(bufs[..])[i].key == key
      ensures r.PanicNoBuffers? ==> bufs[..] == old(bufs[..]) && forall i: nat :: i < n ==> bufs[i].refcnt > 0 || bufs[i].dirty
      ensures r.Hit? ==> r.b < n && old(bufs[r.b]).key == key && bufs[..] == old(bufs[..])[r.b := old(bufs[r.b]).(refcnt := old(bufs[r.b]).refcnt + 1)]
      ensures r.Recycled? ==> exists k: nat :: LeastRecent(old(bufs[..]), ring, k, r.b)
      ensures r.Recycled? ==> r.b < n && bufs[..] == old(bufs[..])[r.b := old(bufs[r.b]).(key := key, valid := false, dirty := false, refcnt := 1)]
    {
      hide Sound, Chain;
      var b := FindKey(key);
      if b < n {
        RefMore(bufs[..], b, disk, latest, touched);
        bufs[b] := bufs[b].(refcnt := bufs[b].refcnt + 1);
        assert bufs[..] == old(bufs[..])[b := old(bufs[b]).(refcnt := old(bufs[b]).refcnt + 1)];
        return Hit(b);
      }
      b := FindFree();
      if b < n {
        Recycle(bufs[..], b, key, disk, latest, touched);
        bufs[b] := bufs[b].(key := key, valid := false, dirty := false, refcnt := 1);
        assert bufs[..] == old(bufs[..])[b := old(bufs[b]).(key := key, valid := false, dirty := false, refcnt := 1)];
        return Recycled(b);
      }
      r := PanicNoBuffers;
    }

    /** The first search: forward from the most recently used. */
    method FindKey(key: Key) returns (b: nat)
      requires Shape() && ListOk(next[..], prev[..], ring, n)
      ensures b <= n && (b < n ==> bufs[b].key == key)
      ensures b == n ==> forall i: nat :: i < n ==> bufs[i].key != key
    {
      hide Chain;
      ListLength(next[..], prev[..], ring, n);
      StepOn(next[..], prev[..], ring, n, 0);
      b := next[n];
      ghost var k := 1;
      while b != n
        invariant 1 <= k <= |ring| && b == if k < |ring| then ring[k] else n
        invariant forall j: nat :: 1 <= j < k ==> ring[j] < n && bufs[ring[j]].key != key
        decreases |ring| - k
      {
        StepOn(next[..], prev[..], ring, n, k);
        if bufs[b].key == key {
          return;
        }
        b := next[b];
        k := k + 1;
      }
      assert k == |ring| by { HeadOnce(next[..], prev[..], ring, n); }
      forall i: nat | i < n
        ensures bufs[i].key != key
      {
        assert i in ring;
        var j: nat :| j < |ring| && ring[j] == i;
      }
    }

    /** The second search: backward from the least recently used. */
    method FindFree() returns (b: nat)
      requires Shape() && ListOk(next[..], prev[..], ring, n)
      ensures b <= n && (b < n ==> exists k: nat :: LeastRecent(bufs[..], ring, k, b))
      ensures b == n ==> forall i: nat :: i < n ==> bufs[i].refcnt > 0 || bufs[i].dirty
    {
      hide Chain;
      ListLength(next[..], prev[..], ring, n);
      ghost var k: nat := n;
      StepBack(next[..], prev[..], ring, n, 0);
      b := prev[n];
      while b != n
        invariant k <= n < |ring| && b == ring[k]
        invariant forall j: nat :: k < j <= n ==> ring[j] < n && (bufs[ring[j]].refcnt > 0 || bufs[ring[j]].dirty)
        decreases k
      {
        StepBack(next[..], prev[..], ring, n, k);
        if bufs[b].refcnt == 0 && !bufs[b].dirty {
          assert LeastRecent(bufs[..], ring, k, b);
          return;
        }
        b := prev[b];
        k := k - 1;
      }
      assert k == 0 by { HeadOnce(next[..], prev[..], ring, n); }
      forall i: nat | i < n
        ensures bufs[i].refcnt > 0 || bufs[i].dirty
      {
        assert i in ring;
        var j: nat :| j < |ring| && ring[j] == i;
      }
    }

    /** acquiresleep by a client that holds a reference, once the lock is free. */
    method Acquire(b: nat)
      requires Ok() && b < n && bufs[b].refcnt > 0 && !bufs[b].locked
      modifies bufs
      ensures Ok() && bufs[..] == old(bufs[..])[b := old(bufs[b]).(locked := true)]
    {
      hide ListOk, Coherent;
      SameContents(bufs[..], b, bufs[b].(locked := true), disk, latest, touched);
      ghost var before := bufs[..];
      bufs[b] := bufs[b].(locked := true);
      assert bufs[..] == before[b := before[b].(locked := true)];
    }

    /** iderw: a dirty buffer is written, any other is read. */
    method IdeRw(b: nat)
      requires Ok() && b < n && (bufs[b].dirty || !bufs[b].valid)
      modifies bufs, `disk, `touched
      ensures Ok() && latest == old(latest)
      ensures old(bufs[b]).dirty ==> disk == old(disk)[old(bufs[b]).key := old(bufs[b]).data] && touched == old(touched) - {b}
      ensures old(bufs[b]).dirty ==> bufs[..] == old(bufs[..])[b := old(bufs[b]).(dirty := false)]
      ensures !old(bufs[b]).dirty ==> disk == old(disk) && touched == old(touched)
      ensures !old(bufs[b]).dirty ==> bufs[..] == old(bufs[..])[b := old(bufs[b]).(valid := true, data := At(disk, old(bufs[b]).key))]
    {
      hide ListOk, Coherent;
      EachOk(bufs[..], b);
      ghost var before := bufs[..];
      if bufs[b].dirty {
        WriteOut(bufs[..], b, disk, latest, touched);
        disk := disk[bufs[b].key := bufs[b].data];
        touched := touched - {b};
        bufs[b] := bufs[b].(dirty := false);
        assert bufs[..] == before[b := before[b].(dirty := false)];
      } else {
        Fill(bufs[..], b, disk, latest, touched);
        bufs[b] := bufs[b].(valid := true, data := At(disk, bufs[b].key));
        assert bufs[..] == before[b := before[b].(valid := true, data := At(disk, before[b].key))];
      }
    }

    /** A locked buffer with what was stored last in the block; the block's buffer must not be locked by another. */
    method BRead(key: Key) returns (r: GetResult)
      requires Ok() && forall i: nat :: i < n && bufs[i].key == key ==> !bufs[i].locked
      modifies bufs, `disk, `touched
      ensures Ok() && latest == old(latest) && disk == old(disk) && touched == old(touched)
      ensures !r.PanicNoBuffers? ==> r.b < n && bufs[r.b].key == key && bufs[r.b].locked && bufs[r.b].valid
      ensures !r.PanicNoBuffers? && key.dev >= 1 ==> bufs[r.b].data == At(latest, key)
      ensures !r.PanicNoBuffers? ==> forall i: nat :: i < n && i != r.b ==> bufs[i] == old(bufs[i])
      ensures r.PanicNoBuffers? ==> forall i: nat :: i < n ==> bufs[i] == old(bufs[i]) && (bufs[i].refcnt > 0 || bufs[i].dirty)
      ensures r.Hit? <==> exists i: nat :: i < n && old(bufs[..])[i].key == key
      ensures r.Hit? ==> bufs[r.b].refcnt == old(bufs[r.b]).refcnt + 1 && bufs[r.b].dirty == old(bufs[r.b]).dirty
      ensures r.Recycled? ==> bufs[r.b].refcnt == 1 && !bufs[r.b].dirty && exists k: nat :: LeastRecent(old(bufs[..]), ring, k, r.b)
    {
      hide ListOk, Coherent, Cached;
      ghost var before := bufs[..];
      r := BGet(key);
      assert bufs.Length == n;
      if r.PanicNoBuffers? {
        assert forall i: nat :: i < n ==> bufs[..][i] == before[i];
        return;
      }
      EachOk(before, r.b);
      assert bufs[r.b] == bufs[..][r.b];
      Acquire(r.b);
      assert bufs[r.b] == bufs[..][r.b];
      EachOk(bufs[..], r.b);
      if !bufs[r.b].valid {
        IdeRw(r.b);
      }
      assert forall i: nat :: i < n && i != r.b ==> bufs[..][i] == before[i];
      assert bufs[r.b] == bufs[..][r.b];
      if key.dev >= 1 {
        ReadsLatest(bufs[..], r.b, disk, latest, touched);
      }
    }

    /** A client's store into a buffer that it has locked. */
    method Write(b: nat, data: Block)
      requires Ok() && b < n && bufs[b].locked && bufs[b].valid
      modifies bufs, `latest, `touched
      ensures Ok() && bufs[..] == old(bufs[..])[b := old(bufs[b]).(data := data)]
      ensures latest == old(latest)[bufs[b].key := data] && touched == old(touched) + {b}
    {
      hide ListOk, Coherent;
      Store(bufs[..], b, data, disk, latest, touched);
      ghost var before := bufs[..];
      latest := latest[bufs[b].key := data];
      touched := touched + {b};
      bufs[b] := bufs[b].(data := data);
      assert bufs[..] == before[b := before[b].(data := data)];
    }

    /** What log_write does to the buffer. */
    method LogWrite(b: nat)
      requires Ok() && b < n && bufs[b].locked && bufs[b].valid
      modifies bufs, `touched
      ensures Ok() && bufs[..] == old(bufs[..])[b := old(bufs[b]).(dirty := true)] && touched == old(touched) - {b}
    {
      hide ListOk, Coherent;
      Pin(bufs[..], b, disk, latest, touched);
      ghost var before := bufs[..];
      touched := touched - {b};
      bufs[b] := bufs[b].(dirty := true);
      assert bufs[..] == before[b := before[b].(dirty := true)];
    }

    method BWrite(b: nat)
      requires Ok() && b < n && bufs[b].locked && bufs[b].valid
      modifies bufs, `disk, `touched
      ensures Ok() && latest == old(latest) && touched == old(touched) - {b}
      ensures disk == old(disk)[old(bufs[b]).key := old(bufs[b]).data]
      ensures bufs[..] == old(bufs[..])[b := old(bufs[b]).(dirty := false)]
    {
      hide ListOk, Coherent, Sound;
      LogWrite(b);
      assert bufs[b] == bufs[..][b];
      IdeRw(b);
      assert bufs[..] == old(bufs[..])[b := old(bufs[b]).(dirty := false)];
    }

    /** Gives up the lock and the reference; the last reference makes the buffer the most recently used. */
    method BRelse(b: nat)
      requires Ok() && b < n && bufs[b].locked && b !in touched
      modifies bufs, next, prev, `ring
      ensures Ok() && bufs[..] == old(bufs[..])[b := old(bufs[b]).(locked := false, refcnt := old(bufs[b]).refcnt - 1)]
      ensures old(bufs[b]).refcnt > 1 ==> ring == old(ring)
      ensures old(bufs[b]).refcnt == 1 ==> exists k: nat :: 1 <= k < |old(ring)| && old(ring)[k] == b && ring == [n, b] + Without(old(ring), k)[1..]
    {
      hide Chain, Coherent;
      EachOk(bufs[..], b);
      SameContents(bufs[..], b, bufs[b].(locked := false, refcnt := bufs[b].refcnt - 1), disk, latest, touched);
      ghost var before := bufs[..];
      bufs[b] := bufs[b].(locked := false, refcnt := bufs[b].refcnt - 1);
      assert bufs[..] == before[b := before[b].(locked := false, refcnt := before[b].refcnt - 1)];
      if bufs[b].refcnt == 0 {
        assert b in ring;
        ghost var k: nat :| k < |ring| && ring[k] == b;
        Moved(next[..], prev[..], ring, n, k);
        Unlink(b, k);
        Push(b);
      }
    }
  }

  lemma Moved(next: seq<nat>, prev: seq<nat>, ring: seq<nat>, n: nat, k: nat)
    requires ListOk(next, prev, ring, n) && 1 <= k <= n
    ensures Without(ring, k)[0] == n && |Without(ring, k)| == n
    ensures forall i: nat :: i <= n ==> i in [n, ring[k]] + Without(ring, k)[1..]
  {
    hide Chain;
    var w := Without(ring, k);
    var r := [n, ring[k]] + w[1..];
    forall i: nat | i <= n
      ensures i in r
    {
      assert i in ring;
      var j: nat :| j < |ring| && ring[j] == i;
      assert j == k || j == 0 || i == r[if j < k then j + 1 else j];
    }
  }

  lemma ListLength(next: seq<nat>, prev: seq<nat>, ring: seq<nat>, n: nat)
    requires ListOk(next, prev, ring, n)
    ensures |ring| == n + 1 && ring[0] == n && forall i: nat :: i <= n ==> i in ring
  {
  }

  lemma HeadOnce(next: seq<nat>, prev: seq<nat>, ring: seq<nat>, n: nat)
    requires ListOk(next, prev, ring, n)
    ensures forall k: nat :: 1 <= k < |ring| ==> ring[k] != n
  {
  }

  lemma StepOn(next: seq<nat>, prev: seq<nat>, ring: seq<nat>, n: nat, k: nat)
    requires ListOk(next, prev, ring, n) && k <= n
    ensures ring[k] <= n && next[ring[k]] == (if k < n then ring[k + 1] else n) && (k > 0 ==> ring[k] < n)
  {
    assert next[ring[k]] == After(ring, k);
  }

  lemma StepBack(next: seq<nat>, prev: seq<nat>, ring: seq<nat>, n: nat, k: nat)
    requires ListOk(next, prev, ring, n) && k <= n
    ensures ring[k] <= n && prev[ring[k]] == ring[if k > 0 then k - 1 else n] && (k > 0 ==> ring[k] < n)
  {
    var j := if k > 0 then k - 1 else n;
    assert prev[After(ring, j)] == ring[j];
  }

  /** b is free and clean, and nothing used less recently is. */
  ghost predicate LeastRecent(bufs: seq<Buf>, ring: seq<nat>, k: nat, b: nat) {
    && k < |ring| && ring[k] == b < |bufs| && bufs[b].refcnt == 0 && !bufs[b].dirty
    && forall j: nat :: k < j < |ring| && ring[j] < |bufs| ==> bufs[ring[j]].refcnt > 0 || bufs[ring[j]].dirty
  }

  lemma RefMore(bufs: seq<Buf>, b: nat, disk: Blocks, latest: Blocks, touched: set<nat>)
    requires Sound(bufs, disk, latest, touched) && b < |bufs|
    ensures Sound(bufs[b := bufs[b].(refcnt := bufs[b].refcnt + 1)], disk, latest, touched)
  {
    hide Coherent, Cached;
    EachOk(bufs, b);
    TouchedLocked(bufs, b, disk, latest, touched);
    SameContents(bufs, b, bufs[b].(refcnt := bufs[b].refcnt + 1), disk, latest, touched);
  }

  lemma TouchedLocked(bufs: seq<Buf>, b: nat, disk: Blocks, latest: Blocks, touched: set<nat>)
    requires Coherent(bufs, disk, latest, touched)
    ensures b in touched ==> b < |bufs| && bufs[b].locked
  {
  }

  lemma Pushed(ring: seq<nat>, h: nat, b: nat)
    requires |ring| >= 1 && ring[0] == h
    ensures forall i: nat :: i in [h, b] + ring[1..] <==> i in ring || i == b
  {
    assert ring == [h] + ring[1..];
  }
}

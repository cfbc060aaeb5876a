/**
 Any number of clients of the buffer cache at once, one atomic step per critical section of bio.c:
 between bget's search and acquiresleep others may lock, fill, store into and release the buffer.
 */
module BufMachine {
  import opened Common
  import opened BufCache

  /** Waiting: bget has counted its reference and is in acquiresleep.  Dropping: brelse has released the lock. */
  datatype Client = Out | Waiting(b: nat, key: Key) | Holding(b: nat, key: Key) | Dropping(b: nat, key: Key)

  /** holder is lk->pid of each buffer's sleep lock. */
  datatype State = State(bufs: seq<Buf>, disk: Blocks, latest: Blocks, touched: set<nat>, holder: seq<Option<nat>>, clients: seq<Client>)

  datatype Event =
    | Get(c: nat, key: Key, b: nat)
    | Lock(c: nat)
    | Read(c: nat)
    | Store(c: nat, data: Block)
    | LogWrite(c: nat)
    | BWrite(c: nat)
    | Unlock(c: nat)
    | Drop(c: nat)

  /** bget takes the buffer of the block, or recycles a free and clean one if the block has none. */
  ghost predicate CanGet(bufs: seq<Buf>, key: Key, b: nat) {
    && b < |bufs|
    && (bufs[b].key == key || (bufs[b].refcnt == 0 && !bufs[b].dirty && forall i: nat :: i < |bufs| ==> bufs[i].key != key))
  }

  ghost predicate Enabled(s: State, e: Event) {
    && e.c < |s.clients|
    && match e
       case Get(c, key, b) => s.clients[c].Out? && CanGet(s.bufs, key, b)
       case Lock(c) => s.clients[c].Waiting? && s.clients[c].b < |s.bufs| && !s.bufs[s.clients[c].b].locked
       case Read(c) => s.clients[c].Holding? && s.clients[c].b < |s.bufs| && !s.bufs[s.clients[c].b].valid
       case Store(c, _) => Returned(s, c)
       case LogWrite(c) => Returned(s, c)
       case BWrite(c) => Returned(s, c)
       case Unlock(c) => Returned(s, c) && s.clients[c].b !in s.touched
       case Drop(c) => s.clients[c].Dropping? && s.clients[c].b < |s.bufs| && s.bufs[s.clients[c].b].refcnt > 0
  }

  /** bread has returned to c. */
  ghost predicate Returned(s: State, c: nat) {
    c < |s.clients| && s.clients[c].Holding? && s.clients[c].b < |s.bufs| && s.bufs[s.clients[c].b].valid
  }

  function Gotten(u: Buf, key: Key): Buf
  {
    if u.key == key then u.(refcnt := u.refcnt + 1) else u.(key := key, valid := false, dirty := false, refcnt := 1)
  }

  function SetHolder(holder: seq<Option<nat>>, b: nat, h: Option<nat>): seq<Option<nat>>
  {
    if b < |holder| then holder[b := h] else holder
  }

  ghost function Next(s: State, e: Event): State
    requires Enabled(s, e)
  {
    var b := if e.Get? then e.b else s.clients[e.c].b;
    var u := s.bufs[b];
    match e
    case Get(c, key, _) => s.(bufs := s.bufs[b := Gotten(u, key)], clients := s.clients[c := Waiting(b, key)])
    case Lock(c) =>
      s.(bufs := s.bufs[b := u.(locked := true)], holder := SetHolder(s.holder, b, Some(c)), clients := s.clients[c := Holding(b, s.clients[c].key)])
    case Read(c) => s.(bufs := s.bufs[b := u.(valid := true, data := At(s.disk, u.key))])
    case Store(c, data) => s.(bufs := s.bufs[b := u.(data := data)], latest := s.latest[u.key := data], touched := s.touched + {b})
    case LogWrite(c) => s.(bufs := s.bufs[b := u.(dirty := true)], touched := s.touched - {b})
    case BWrite(c) => s.(bufs := s.bufs[b := u.(dirty := false)], disk := s.disk[u.key := u.data], touched := s.touched - {b})
    case Unlock(c) =>
      s.(bufs := s.bufs[b := u.(locked := false)], holder := SetHolder(s.holder, b, None), clients := s.clients[c := Dropping(b, s.clients[c].key)])
    case Drop(c) => s.(bufs := s.bufs[b := u.(refcnt := u.refcnt - 1)], clients := s.clients[c := Out])
  }

  // ---- What is kept ----

  ghost function Users(clients: seq<Client>, b: nat): set<nat>
  {
    set c: nat | c < |clients| && !clients[c].Out? && clients[c].b == b
  }

  /** A buffer keeps its block as long as a client is anywhere between bget and the end of brelse. */
  ghost predicate Assigned(bufs: seq<Buf>, clients: seq<Client>) {
    forall c: nat :: c < |clients| && !clients[c].Out? ==> clients[c].b < |bufs| && bufs[clients[c].b].key == clients[c].key
  }

  ghost predicate Counted(bufs: seq<Buf>, clients: seq<Client>) {
    forall b: nat :: b < |bufs| ==> bufs[b].refcnt == |Users(clients, b)|
  }

  ghost predicate LocksOk(bufs: seq<Buf>, holder: seq<Option<nat>>, clients: seq<Client>) {
    && |holder| == |bufs|
    && (forall b: nat :: b < |bufs| ==> (bufs[b].locked <==> holder[b].Some?))
    && (forall c: nat :: c < |clients| && clients[c].Holding? ==> clients[c].b < |holder| && holder[clients[c].b] == Some(c))
    && (forall b: nat :: b < |holder| && holder[b].Some? ==> HeldBy(clients, b, holder[b].value))
  }

  predicate HeldBy(clients: seq<Client>, b: nat, c: nat) {
    c < |clients| && clients[c].Holding? && clients[c].b == b
  }

  ghost predicate Inv(s: State) {
    && Sound(s.bufs, s.disk, s.latest, s.touched)
    && Assigned(s.bufs, s.clients) && Counted(s.bufs, s.clients) && LocksOk(s.bufs, s.holder, s.clients)
  }

  lemma UserAt(clients: seq<Client>, b: nat, c: nat)
    ensures c in Users(clients, b) <==> c < |clients| && !clients[c].Out? && clients[c].b == b
  {
  }

  /** A buffer that a client uses has a reference. */
  lemma Referenced(bufs: seq<Buf>, clients: seq<Client>, c: nat)
    requires Counted(bufs, clients) && c < |clients| && !clients[c].Out? && clients[c].b < |bufs|
    ensures bufs[clients[c].b].refcnt > 0
  {
    hide Users;
    UserAt(clients, clients[c].b, c);
    NotEmpty(Users(clients, clients[c].b), c);
  }

  lemma NotEmpty(cs: set<nat>, c: nat)
    requires c in cs
    ensures |cs| == |cs - {c}| + 1
  {
  }

  lemma UsersChange(clients: seq<Client>, c: nat, x: Client, b: nat)
    requires c < |clients|
    ensures clients[c].Out? && !x.Out? && x.b == b ==> |Users(clients[c := x], b)| == |Users(clients, b)| + 1
    ensures !clients[c].Out? && clients[c].b == b && x.Out? ==> |Users(clients[c := x], b)| == |Users(clients, b)| - 1
    ensures (clients[c].Out? || clients[c].b != b) && (x.Out? || x.b != b) ==> Users(clients[c := x], b) == Users(clients, b)
    ensures !clients[c].Out? && !x.Out? && clients[c].b == x.b ==> Users(clients[c := x], b) == Users(clients, b)
  {
    hide Users;
    var clients' := clients[c := x];
    forall k: nat
      ensures k in Users(clients', b) <==> if k == c then !x.Out? && x.b == b else k in Users(clients, b)
    {
      UserAt(clients, b, k);
      UserAt(clients', b, k);
    }
    UserAt(clients, b, c);
    if !x.Out? && x.b == b {
      assert Users(clients', b) == Users(clients, b) + {c};
    } else {
      assert Users(clients', b) == Users(clients, b) - {c};
    }
  }

  lemma AssignedStep(s: State, e: Event)
    requires Assigned(s.bufs, s.clients) && Counted(s.bufs, s.clients) && Enabled(s, e)
    ensures Assigned(Next(s, e).bufs, Next(s, e).clients)
  {
    hide Counted, Users;
    if e.Get? && s.bufs[e.b].key != e.key {
      forall c: nat | c < |s.clients| && !s.clients[c].Out?
        ensures s.clients[c].b != e.b
      {
        Referenced(s.bufs, s.clients, c);
      }
    }
  }

  lemma CountedStep(s: State, e: Event)
    requires Assigned(s.bufs, s.clients) && Counted(s.bufs, s.clients) && Enabled(s, e)
    ensures Counted(Next(s, e).bufs, Next(s, e).clients)
  {
    hide Users, CanGet, Assigned;
    var s' := Next(s, e);
    forall b: nat | b < |s'.bufs|
      ensures s'.bufs[b].refcnt == |Users(s'.clients, b)|
    {
      UsersChange(s.clients, e.c, s'.clients[e.c], b);
      if e.Get? {
        GetsOne(s, e);
      }
    }
  }

  lemma GetsOne(s: State, e: Event)
    requires Enabled(s, e) && e.Get?
    ensures e.b < |s.bufs| && Gotten(s.bufs[e.b], e.key).refcnt == s.bufs[e.b].refcnt + 1
  {
  }

  lemma LockBit(s: State, e: Event, b: nat)
    requires LocksOk(s.bufs, s.holder, s.clients) && Enabled(s, e) && b < |s.bufs|
    ensures var s' := Next(s, e);
      && |s'.holder| == |s'.bufs| == |s.bufs| && (s'.bufs[b].locked <==> s'.holder[b].Some?)
      && (s'.holder[b].Some? ==> HeldBy(s'.clients, b, s'.holder[b].value))
  {
    hide At;
  }

  lemma LockHolder(s: State, e: Event, c: nat)
    requires LocksOk(s.bufs, s.holder, s.clients) && Enabled(s, e) && c < |s.clients|
    ensures var s' := Next(s, e);
      |s'.clients| == |s.clients| && (s'.clients[c].Holding? ==> s'.clients[c].b < |s'.holder| && s'.holder[s'.clients[c].b] == Some(c))
  {
    hide CanGet, At, Gotten, HeldBy;
  }

  lemma LocksStep(s: State, e: Event)
    requires LocksOk(s.bufs, s.holder, s.clients) && Enabled(s, e)
    ensures LocksOk(Next(s, e).bufs, Next(s, e).holder, Next(s, e).clients)
  {
    hide Next, HeldBy;
    var s' := Next(s, e);
    forall b: nat | b < |s.bufs|
      ensures |s'.holder| == |s'.bufs| == |s.bufs| && (s'.bufs[b].locked <==> s'.holder[b].Some?)
      ensures s'.holder[b].Some? ==> HeldBy(s'.clients, b, s'.holder[b].value)
    {
      LockBit(s, e, b);
    }
    forall c: nat | c < |s.clients|
      ensures |s'.clients| == |s.clients| && (s'.clients[c].Holding? ==> s'.clients[c].b < |s'.holder| && s'.holder[s'.clients[c].b] == Some(c))
    {
      LockHolder(s, e, c);
    }
    LockBit(s, e, if e.Get? then e.b else s.clients[e.c].b);
    LockHolder(s, e, e.c);
  }

  lemma GetSound(bufs: seq<Buf>, disk: Blocks, latest: Blocks, touched: set<nat>, key: Key, b: nat)
    requires Sound(bufs, disk, latest, touched) && CanGet(bufs, key, b)
    ensures Sound(bufs[b := Gotten(bufs[b], key)], disk, latest, touched)
  {
    hide Sound;
    if bufs[b].key == key {
      RefMore(bufs, b, disk, latest, touched);
    } else {
      Recycle(bufs, b, key, disk, latest, touched);
    }
  }

  /** The lock bit or the count of a buffer changes, with a reference left for whoever holds it. */
  lemma FlagsSound(bufs: seq<Buf>, disk: Blocks, latest: Blocks, touched: set<nat>, b: nat, refcnt: nat, locked: bool)
    requires Sound(bufs, disk, latest, touched) && b < |bufs| && (locked ==> refcnt > 0) && (b in touched ==> locked)
    ensures Sound(bufs[b := bufs[b].(refcnt := refcnt, locked := locked)], disk, latest, touched)
  {
    hide Coherent;
    EachOk(bufs, b);
    SameContents(bufs, b, bufs[b].(refcnt := refcnt, locked := locked), disk, latest, touched);
  }

  /** Whoever still has the lock has a reference besides the one that is dropped. */
  lemma StillReferenced(s: State, c: nat)
    requires Counted(s.bufs, s.clients) && LocksOk(s.bufs, s.holder, s.clients) && Enabled(s, Drop(c))
    requires s.bufs[s.clients[c].b].locked
    ensures s.bufs[s.clients[c].b].refcnt > 1
  {
    hide Users;
    var b := s.clients[c].b;
    var h := s.holder[b].value;
    assert HeldBy(s.clients, b, h);
    UserAt(s.clients, b, c);
    UserAt(s.clients, b, h);
    NotEmpty(Users(s.clients, b), c);
    NotEmpty(Users(s.clients, b) - {c}, h);
  }

  lemma OwnLocked(s: State, c: nat)
    requires LocksOk(s.bufs, s.holder, s.clients) && c < |s.clients| && s.clients[c].Holding? && s.clients[c].b < |s.bufs|
    ensures s.bufs[s.clients[c].b].locked
  {
  }

  lemma SoundStep(s: State, e: Event)
    requires Inv(s) && Enabled(s, e)
    ensures Sound(Next(s, e).bufs, Next(s, e).disk, Next(s, e).latest, Next(s, e).touched)
  {
    hide Sound, Assigned, Counted, LocksOk, CanGet, Gotten, Users, At;
    var b := if e.Get? then e.b else s.clients[e.c].b;
    match e
    case Get(c, key, _) => GetSound(s.bufs, s.disk, s.latest, s.touched, key, b);
    case Lock(c) =>
      Referenced(s.bufs, s.clients, c);
      FlagsSound(s.bufs, s.disk, s.latest, s.touched, b, s.bufs[b].refcnt, true);
    case Read(c) => Fill(s.bufs, b, s.disk, s.latest, s.touched);
    case Store(c, data) =>
      OwnLocked(s, c);
      BufCache.Store(s.bufs, b, data, s.disk, s.latest, s.touched);
    case LogWrite(c) => Pin(s.bufs, b, s.disk, s.latest, s.touched);
    case BWrite(c) => WriteOut(s.bufs, b, s.disk, s.latest, s.touched);
    case Unlock(c) => FlagsSound(s.bufs, s.disk, s.latest, s.touched, b, s.bufs[b].refcnt, false);
    case Drop(c) => DropSound(s, c);
  }

  lemma DropSound(s: State, c: nat)
    requires Inv(s) && Enabled(s, Drop(c))
    ensures Sound(Next(s, Drop(c)).bufs, s.disk, s.latest, s.touched)
  {
    hide Assigned, Counted, LocksOk, Users, At, OneBufferEach;
    var b := s.clients[c].b;
    if s.bufs[b].locked {
      StillReferenced(s, c);
    }
    TouchedLocked(s.bufs, b, s.disk, s.latest, s.touched);
    FlagsSound(s.bufs, s.disk, s.latest, s.touched, b, s.bufs[b].refcnt - 1, s.bufs[b].locked);
  }

  lemma StepInv(s: State, e: Event)
    requires Inv(s) && Enabled(s, e)
    ensures Inv(Next(s, e))
  {
    hide Sound, Assigned, Counted, LocksOk, Next, Enabled;
    SoundStep(s, e);
    AssignedStep(s, e);
    CountedStep(s, e);
    LocksStep(s, e);
  }

  // ---- Every run ----

  ghost predicate Leads(s: State, es: seq<Event>, s': State)
    decreases |es|
  {
    if es == [] then s' == s else Enabled(s, es[0]) && Leads(Next(s, es[0]), es[1..], s')
  }

  lemma {:induction false} RunInv(s: State, es: seq<Event>, s': State)
    requires Inv(s) && Leads(s, es, s')
    ensures Inv(s')
    decreases |es|
  {
    hide Inv, Next, Enabled;
    if es != [] {
      StepInv(s, es[0]);
      RunInv(Next(s, es[0]), es[1..], s');
    }
  }

  /** After binit. */
  ghost predicate Fresh(s: State) {
    && s.disk == s.latest && s.touched == {} && |s.holder| == |s.bufs|
    && (forall b: nat :: b < |s.bufs| ==> s.bufs[b] == Buf(Key(0, 0), 0, false, false, false, []) && s.holder[b].None?)
    && (forall c: nat :: c < |s.clients| ==> s.clients[c].Out?)
  }

  lemma FreshInv(s: State)
    requires Fresh(s)
    ensures Inv(s)
  {
    forall b: nat | b < |s.bufs|
      ensures Users(s.clients, b) == {}
    {
    }
  }

  /** In every run: a bread that has returned, however long it waited, holds what was stored last in the block it asked for. */
  lemma ReadersSeeLatest(s0: State, es: seq<Event>, s: State, c: nat)
    requires Fresh(s0) && Leads(s0, es, s) && Returned(s, c) && s.clients[c].key.dev >= 1
    ensures s.bufs[s.clients[c].b].key == s.clients[c].key && s.bufs[s.clients[c].b].data == At(s.latest, s.clients[c].key)
  {
    hide Leads, Counted, LocksOk, OneBufferEach;
    FreshInv(s0);
    RunInv(s0, es, s);
  }

  /** Never do two clients hold the same block. */
  lemma OneHolder(s0: State, es: seq<Event>, s: State, c: nat, d: nat)
    requires Fresh(s0) && Leads(s0, es, s) && c < |s.clients| && d < |s.clients|
    requires s.clients[c].Holding? && s.clients[d].Holding? && s.clients[c].key == s.clients[d].key && s.clients[c].key.dev >= 1
    ensures c == d
  {
    hide Leads, Counted, Coherent;
    FreshInv(s0);
    RunInv(s0, es, s);
  }
}

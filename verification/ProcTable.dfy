/**
 The process table of proc.c and the loops that run over it with ptable.lock held.  A pointer to a
 struct proc is the number of its slot; a channel is either such a pointer or some other address.
 */
module ProcTable {
  import opened Common

  datatype PState = UNUSED | EMBRYO | SLEEPING | RUNNABLE | RUNNING | ZOMBIE

  datatype Chan = Null | OfProc(slot: nat) | Other(addr: nat)

  datatype Proc = Proc(state: PState, pid: nat, parent: Option<nat>, chan: Chan, killed: bool, hasStack: bool)

  // ---- What the loops compute ----

  /** wakeup1. */
  function Woken(procs: seq<Proc>, ch: Chan): (r: seq<Proc>)
    ensures |r| == |procs|
    ensures forall i :: 0 <= i < |r| ==> r[i] == WokenProc(procs[i], ch) && RunsFrom(procs[i], r[i], ch)
  {
    seq(|procs|, i requires 0 <= i < |procs| => WokenProc(procs[i], ch))
  }

  /** q is p, made RUNNABLE if it slept on ch. */
  predicate RunsFrom(p: Proc, q: Proc, ch: Chan) {
    && SameButState(p, q)
    && q.state == if p.state == SLEEPING && p.chan == ch then RUNNABLE else p.state
  }

  predicate SameButState(p: Proc, q: Proc) {
    q.pid == p.pid && q.parent == p.parent && q.chan == p.chan && q.killed == p.killed && q.hasStack == p.hasStack
  }

  function WokenProc(p: Proc, ch: Chan): Proc
  {
    if p.state == SLEEPING && p.chan == ch then p.(state := RUNNABLE) else p
  }

  /** The reparenting loop of exit: p's children pass to init, which is woken if one of them is a zombie. */
  function Reparented(procs: seq<Proc>, p: nat, init: nat): (r: seq<Proc>)
    ensures |r| == |procs|
    ensures forall i :: 0 <= i < |r| ==> r[i] == Adopted(procs[i], p, init, HasZombieChild(procs, p, |procs|))
    ensures forall i :: 0 <= i < |r| ==> r[i].parent == if procs[i].parent == Some(p) then Some(init) else procs[i].parent
    ensures HasZombieChild(procs, p, |procs|) ==> forall i :: 0 <= i < |r| ==> RunsFrom(procs[i], r[i].(parent := procs[i].parent), OfProc(init))
    ensures !HasZombieChild(procs, p, |procs|) ==> forall i :: 0 <= i < |r| ==> r[i].(parent := procs[i].parent) == procs[i]
  {
    var zombie := HasZombieChild(procs, p, |procs|);
    seq(|procs|, i requires 0 <= i < |procs| => Adopted(procs[i], p, init, zombie))
  }

  function Adopted(q: Proc, p: nat, init: nat, wake: bool): Proc
  {
    var q' := if q.parent == Some(p) then q.(parent := Some(init)) else q;
    if wake then WokenProc(q', OfProc(init)) else q'
  }

  predicate HasZombieChild(procs: seq<Proc>, p: nat, n: nat)
    requires n <= |procs|
  {
    exists i :: 0 <= i < n && procs[i].parent == Some(p) && procs[i].state == ZOMBIE
  }

  predicate HasChild(procs: seq<Proc>, p: nat) {
    exists i :: 0 <= i < |procs| && procs[i].parent == Some(p)
  }

  /** i is the first slot that wait of p finds. */
  predicate FirstZombie(procs: seq<Proc>, p: nat, i: nat) {
    && i < |procs| && procs[i].parent == Some(p) && procs[i].state == ZOMBIE
    && !HasZombieChild(procs, p, i)
  }

  predicate FirstUnused(procs: seq<Proc>, i: nat) {
    && i < |procs| && procs[i].state == UNUSED
    && forall j :: 0 <= j < i ==> procs[j].state != UNUSED
  }

  predicate FirstPid(procs: seq<Proc>, pid: nat, i: nat) {
    && i < |procs| && procs[i].pid == pid
    && forall j :: 0 <= j < i ==> procs[j].pid != pid
  }

  predicate NoPid(procs: seq<Proc>, pid: nat) {
    forall j :: 0 <= j < |procs| ==> procs[j].pid != pid
  }

  /** kill sets the flag and ends a sleep; nothing else changes. */
  predicate IsKilled(p: Proc, q: Proc) {
    && q.killed && q.state == (if p.state == SLEEPING then RUNNABLE else p.state)
    && q.pid == p.pid && q.parent == p.parent && q.chan == p.chan && q.hasStack == p.hasStack
  }

  /** A reaped slot: free, with no pid, parent, stack or mark of a kill; the channel stays. */
  predicate IsFreed(p: Proc, q: Proc) {
    q.state == UNUSED && q.pid == 0 && q.parent == None && !q.killed && !q.hasStack && q.chan == p.chan
  }

  function KilledProc(p: Proc): (q: Proc)
    ensures IsKilled(p, q)
  {
    p.(killed := true, state := if p.state == SLEEPING then RUNNABLE else p.state)
  }

  /** What wait leaves of a reaped slot. */
  function Cleared(p: Proc): (q: Proc)
    ensures IsFreed(p, q)
  {
    p.(state := UNUSED, pid := 0, parent := None, killed := false, hasStack := false)
  }

  datatype WaitResult = Reaped(pid: nat) | NoChild | MustSleep

  // ---- The loops ----

  class Table {
    var procs: array<Proc>
    var nextpid: nat
    const init: nat

    constructor (n: nat, initSlot: nat)
      ensures procs.Length == n && fresh(procs) && init == initSlot && nextpid == 1
      ensures forall i :: 0 <= i < n ==> procs[i] == Proc(UNUSED, 0, None, Null, false, false)
    {
      procs := new Proc[n](_ => Proc(UNUSED, 0, None, Null, false, false));
      nextpid := 1;
      init := initSlot;
    }

    method Wakeup1(ch: Chan)
      modifies procs
      ensures procs[..] == Woken(old(procs[..]), ch)
      ensures forall i :: 0 <= i < procs.Length ==> RunsFrom(old(procs[i]), procs[i], ch)
    {
      var p := 0;
      while p < procs.Length
        invariant p <= procs.Length
        invariant forall i :: 0 <= i < procs.Length ==> procs[i] == if i < p then WokenProc(old(procs[i]), ch) else old(procs[i])
      {
        if procs[p].state == SLEEPING && procs[p].chan == ch {
          procs[p] := procs[p].(state := RUNNABLE);
        }
        p := p + 1;
      }
    }

    method Kill(pid: nat) returns (found: bool)
      modifies procs
      ensures !found ==> NoPid(old(procs[..]), pid) && procs[..] == old(procs[..])
      ensures found ==> exists i: nat :: FirstPid(old(procs[..]), pid, i) && procs[..] == old(procs[..])[i := procs[..][i]] && i < procs.Length && IsKilled(old(procs[..])[i], procs[..][i])
    {
      var p := 0;
      while p < procs.Length
        invariant p <= procs.Length && procs[..] == old(procs[..])
        invariant forall j :: 0 <= j < p ==> procs[..][j].pid != pid
      {
        if procs[p].pid == pid {
          procs[p] := procs[p].(killed := true);
          if procs[p].state == SLEEPING {
            procs[p] := procs[p].(state := RUNNABLE);
          }
          assert FirstPid(old(procs[..]), pid, p) && procs[..] == old(procs[..])[p := procs[..][p]] && IsKilled(old(procs[..])[p], procs[..][p]);
          return true;
        }
        p := p + 1;
      }
      found := false;
    }

    /** allocproc up to the release of the lock. */
    method AllocProc() returns (r: Option<nat>)
      modifies procs, `nextpid
      ensures r.None? ==> nextpid == old(nextpid) && procs[..] == old(procs[..]) && forall i: nat :: !FirstUnused(procs[..], i)
      ensures r.Some? ==> nextpid == old(nextpid) + 1 && FirstUnused(old(procs[..]), r.value)
      ensures r.Some? ==> procs[..] == old(procs[..])[r.value := old(procs[..])[r.value].(state := EMBRYO, pid := old(nextpid))]
    {
      var p := 0;
      while p < procs.Length
        invariant p <= procs.Length && procs[..] == old(procs[..]) && nextpid == old(nextpid)
        invariant forall j :: 0 <= j < p ==> procs[..][j].state != UNUSED
      {
        if procs[p].state == UNUSED {
          procs[p] := procs[p].(state := EMBRYO, pid := nextpid);
          nextpid := nextpid + 1;
          return Some(p);
        }
        p := p + 1;
      }
      r := None;
    }

    /** exit from taking the lock up to the state change. */
    method PassChildren(cur: nat)
      requires cur < procs.Length && procs[cur].parent.Some?
      modifies procs
      ensures procs[..] == Reparented(Woken(old(procs[..]), OfProc(old(procs[cur].parent.value))), cur, init)
    {
      Wakeup1(OfProc(procs[cur].parent.value));
      ghost var w := procs[..];
      var p := 0;
      while p < procs.Length
        invariant p <= procs.Length
        invariant forall i :: 0 <= i < procs.Length ==> procs[i] == Passed(w, cur, init, i, p)
      {
        ghost var before := procs[..];
        if procs[p].parent == Some(cur) {
          procs[p] := procs[p].(parent := Some(init));
          ghost var mid := procs[..];
          if procs[p].state == ZOMBIE {
            Wakeup1(OfProc(init));
          }
          PassedNext(w, cur, init, p, before, mid, procs[..]);
        } else {
          PassedNext(w, cur, init, p, before, before, procs[..]);
        }
        p := p + 1;
      }
    }

    /** One scan of wait's loop. */
    method WaitScan(cur: nat) returns (r: WaitResult)
      requires cur < procs.Length
      modifies procs
      ensures r.Reaped? ==> exists i: nat :: FirstZombie(old(procs[..]), cur, i) && r.pid == old(procs[..])[i].pid
                              && procs[..] == old(procs[..])[i := procs[..][i]] && IsFreed(old(procs[..])[i], procs[..][i])
      ensures !r.Reaped? ==> procs[..] == old(procs[..]) && !HasZombieChild(procs[..], cur, |procs[..]|)
      ensures r.NoChild? <==> !HasZombieChild(old(procs[..]), cur, |old(procs[..])|) && (!HasChild(old(procs[..]), cur) || old(procs[cur].killed))
    {
      var p, havekids := 0, false;
      while p < procs.Length
        invariant p <= procs.Length && procs[..] == old(procs[..])
        invariant !HasZombieChild(procs[..], cur, p)
        invariant havekids <==> exists j :: 0 <= j < p && procs[..][j].parent == Some(cur)
      {
        assert procs[p] == procs[..][p];
        if procs[p].parent == Some(cur) {
          havekids := true;
          if procs[p].state == ZOMBIE {
            r := Reaped(procs[p].pid);
            procs[p] := procs[p].(pid := 0, parent := None, killed := false, hasStack := false);
            procs[p] := procs[p].(state := UNUSED);
            assert FirstZombie(old(procs[..]), cur, p);
            assert procs[..] == old(procs[..])[p := procs[..][p]] && IsFreed(old(procs[..])[p], procs[..][p]);
            return;
          }
        }
        p := p + 1;
      }
      assert havekids <==> HasChild(procs[..], cur);
      if !havekids || procs[cur].killed {
        return NoChild;
      }
      r := MustSleep;
    }
  }

  /** Slot i after exit's loop has passed the first p slots. */
  ghost function Passed(w: seq<Proc>, cur: nat, init: nat, i: nat, p: nat): Proc
    requires i < |w| && p <= |w|
  {
    var q := if i < p && w[i].parent == Some(cur) then w[i].(parent := Some(init)) else w[i];
    if HasZombieChild(w, cur, p) then WokenProc(q, OfProc(init)) else q
  }

  lemma PassedNext(w: seq<Proc>, cur: nat, init: nat, p: nat, before: seq<Proc>, mid: seq<Proc>, after: seq<Proc>)
    requires p < |w| == |before| == |after| && |mid| == |w|
    requires forall i :: 0 <= i < |w| ==> before[i] == Passed(w, cur, init, i, p)
    requires mid == if before[p].parent == Some(cur) then before[p := before[p].(parent := Some(init))] else before
    requires after == if before[p].parent == Some(cur) && before[p].state == ZOMBIE then Woken(mid, OfProc(init)) else mid
    ensures forall i :: 0 <= i < |w| ==> after[i] == Passed(w, cur, init, i, p + 1)
  {
    var zombie := w[p].parent == Some(cur) && w[p].state == ZOMBIE;
    assert HasZombieChild(w, cur, p + 1) <==> HasZombieChild(w, cur, p) || zombie;
  }
}

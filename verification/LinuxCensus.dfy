/** The Linux socket census: which one process holds a socket, decided by many separate reads of
    a process table that never stands still. */
module LinuxCensus {
  import opened Base
  import opened ProcessTable

  const MAX_PIDS := 16384
  const MAX_FDS := 0x40_0000
  const MAX_ROUNDS := 1024
  const MAX_DENIALS := 3
  const MAX_CENSUSES := 16

  const NOBODY := Identity(0, 0, 'L', 0, 0)

  datatype Owner = Owner(instance: Instance, identity: Identity)

  // ----- what a read establishes ------------------------------------------------------------

  /** Between `a` and `b` nothing kept the socket in one place, except out of sight in a table of
      another user. */
  ghost predicate ThreadClear(
    trace: Trace, uid: nat, from: nat, to: nat, x: Instance, tid: nat, socket: nat)
  {
    forall fd :: HoldsThroughout(trace, from, to, x, tid, fd, socket) ==> ForeignTable(trace, from, to, x, tid, uid)
  }

  ghost predicate NoneHeld(trace: Trace, uid: nat, from: nat, to: nat, x: Instance, socket: nat) {
    forall tid :: ThreadClear(trace, uid, from, to, x, tid, socket)
  }

  /** One thread was read between two equal readings of its users, and either nothing in it kept the socket
      meanwhile or its table is another user's and could not be read. */
  ghost predicate ThreadRead(trace: Trace, uid: nat, from: nat, to: nat, x: Instance, tid: nat, socket: nat) {
    exists a: nat, b: nat, id: Identity ::
      from <= a <= b <= to && ThreadFramed(trace, from, a, b, to, x, tid, id)
      && (NothingKept(trace, a, b, x, tid, socket) || (Unreadable(trace, a, b, x, tid) && Foreign(id, uid)))
  }

  ghost predicate ThreadFramed(trace: Trace, from: nat, a: nat, b: nat, to: nat, x: Instance, tid: nat, id: Identity) {
    ReadThreadIdentity(trace, from, a, x, tid, id) && ReadThreadIdentity(trace, b, to, x, tid, id)
  }

  ghost predicate NothingKept(trace: Trace, from: nat, to: nat, x: Instance, tid: nat, socket: nat) {
    forall fd :: !HoldsThroughout(trace, from, to, x, tid, fd, socket)
  }

  /** Every thread that was there while the threads were listed for the last time had been read. */
  ghost predicate AllThreadsRead(trace: Trace, uid: nat, from: nat, to: nat, x: Instance, socket: nat) {
    exists c: nat :: from <= c <= to && ThreadsReadBy(trace, uid, from, c, to, x, socket)
  }

  ghost predicate ThreadsReadBy(trace: Trace, uid: nat, from: nat, c: nat, to: nat, x: Instance, socket: nat) {
    forall tid :: ThreadThroughout(trace, c, to, x, tid) ==> ThreadRead(trace, uid, from, to, x, tid, socket)
  }

  /** The same identity was read up to `a` and from `c` on, where the process was alive. */
  ghost predicate Framed(trace: Trace, from: nat, a: nat, c: nat, to: nat, x: Instance, id: Identity) {
    ReadIdentity(trace, from, a, x, id) && Alive(trace, c, x) && ReadIdentity(trace, c, to, x, id)
  }

  /** All threads of one living process of one identity were read. */
  ghost predicate WholeRead(trace: Trace, uid: nat, from: nat, to: nat, x: Instance, socket: nat) {
    exists a: nat, b: nat, c: nat, id: Identity ::
      from <= a <= b <= c <= to && Framed(trace, from, a, c, to, x, id) && AllThreadsRead(trace, uid, a, b, x, socket)
  }

  /** One complete read of the instance, starting while it was there, did not find the socket: its threads were
      all read, or it was seen to end. */
  ghost predicate FullyRead(trace: Trace, uid: nat, from: nat, to: nat, x: Instance, socket: nat) {
    exists a: nat, b: nat ::
      && from <= a <= b <= to && Present(trace, a, x) && NoneHeld(trace, uid, a, b, x, socket)
      && (WholeRead(trace, uid, a, b, x, socket) || Departed(trace, a, b, x))
  }

  ghost predicate DepartedBetween(trace: Trace, a: nat, b: nat, x: Instance) {
    Present(trace, a, x) && !Alive(trace, b, x)
  }

  /** The instance was there and later was not: exited, or its PID names another process. */
  ghost predicate Departed(trace: Trace, from: nat, to: nat, x: Instance) {
    exists a: nat, b: nat :: from <= a <= b <= to && DepartedBetween(trace, a, b, x)
  }

  ghost predicate Cleared(trace: Trace, uid: nat, from: nat, to: nat, x: Instance, socket: nat) {
    FullyRead(trace, uid, from, to, x, socket) || Departed(trace, from, to, x)
  }

  ghost predicate AliveThroughout(trace: Trace, from: nat, to: nat, x: Instance) {
    forall t: nat {:trigger Alive(trace, t, x)} :: from <= t <= to ==> Alive(trace, t, x)
  }

  /** In every instant of the window in which it is alive, `x` holds the socket in that one place:
      true of a process that inherits the descriptor at birth, however late it is born. */
  ghost predicate HoldsWhileAlive(
    trace: Trace, from: nat, to: nat, x: Instance, tid: nat, fd: nat, socket: nat)
  {
    forall t: nat {:trigger Alive(trace, t, x)} ::
      from <= t <= to && Alive(trace, t, x) ==> Holds(trace, t, x, tid, fd, socket)
  }

  /** What a returned owner means. The attempt ran from `from` to `to`, and its last listing from
      `settled` to `to`. */
  ghost predicate Verdict(
    trace: Trace, uid: nat, from: nat, settled: nat, to: nat, owner: Instance, socket: nat)
  {
    && from <= settled <= to
    && Seen(trace, settled, to, owner)
    && Held(trace, from, to, owner, socket)
    && forall x: Instance, tid, fd ::
         && x != owner
         && AliveThroughout(trace, settled, to, x)
         && HoldsWhileAlive(trace, from, to, x, tid, fd, socket)
         ==> ForeignTable(trace, from, to, x, tid, uid)
  }

  // ----- consequences -----------------------------------------------------------------------

  lemma ForeignTableWidens(trace: Trace, uid: nat, from: nat, a: nat, b: nat, to: nat, x: Instance, tid: nat)
    requires from <= a <= b <= to && ForeignTable(trace, a, b, x, tid, uid)
    ensures ForeignTable(trace, from, to, x, tid, uid)
  {
  }

  lemma DepartedIsFinal(trace: Trace, from: nat, to: nat, x: Instance)
    requires Departed(trace, from, to, x)
    ensures !Alive(trace, to, x)
  {
    var a: nat, b: nat :| from <= a <= b <= to && DepartedBetween(trace, a, b, x);
    assert InOrder(a, b, to);
  }

  /** A cleared instance that survives to the end cannot have kept the socket anywhere readable. */
  lemma ClearedHoldsNothing(
    trace: Trace, uid: nat, from: nat, to: nat, x: Instance, tid: nat, fd: nat, socket: nat)
    requires from <= to && Cleared(trace, uid, from, to, x, socket) && Alive(trace, to, x)
    requires HoldsWhileAlive(trace, from, to, x, tid, fd, socket)
    ensures ForeignTable(trace, from, to, x, tid, uid)
  {
    hide WholeRead;
    if FullyRead(trace, uid, from, to, x, socket) {
      var a: nat, b: nat :| from <= a <= b <= to && Present(trace, a, x) && NoneHeld(trace, uid, a, b, x, socket);
      forall t: nat | a <= t <= b
        ensures Holds(trace, t, x, tid, fd, socket)
      {
        AliveBetween(trace, a, t, to, x);
      }
      assert ThreadClear(trace, uid, a, b, x, tid, socket) && HoldsThroughout(trace, a, b, x, tid, fd, socket);
      ForeignTableWidens(trace, uid, from, a, b, to, x, tid);
    } else {
      DepartedIsFinal(trace, from, to, x);
    }
  }

  /** The process always runs as the caller, by real or effective user, or its thread's table is
      always readable. */
  ghost predicate InPlainSight(trace: Trace, uid: nat, from: nat, to: nat, x: Instance, tid: nat) {
    || (forall t: nat :: from <= t <= to && Present(trace, t, x) ==> !Foreign(trace.table(t)[x.pid].identity, uid))
    || (forall t: nat :: from <= t <= to && ThreadAt(trace, t, x, tid) ==> trace.table(t)[x.pid].threads[tid].readable)
  }

  lemma HoldingThroughoutIsLiving(
    trace: Trace, from: nat, settled: nat, to: nat, x: Instance, tid: nat, fd: nat, socket: nat)
    requires from <= settled <= to && HoldsThroughout(trace, from, to, x, tid, fd, socket)
    ensures AliveThroughout(trace, settled, to, x) && HoldsWhileAlive(trace, from, to, x, tid, fd, socket)
  {
    forall t: nat | from <= t <= to
      ensures Alive(trace, t, x) && Holds(trace, t, x, tid, fd, socket)
    {
      assert Holds(trace, t, x, tid, fd, socket);
    }
  }

  /** Whoever keeps the socket in one place, in plain sight, throughout the attempt is the owner. */
  lemma PlainHolderIsTheOwner(
    trace: Trace, uid: nat, from: nat, settled: nat, to: nat, owner: Instance, socket: nat,
    x: Instance, tid: nat, fd: nat)
    requires Verdict(trace, uid, from, settled, to, owner, socket)
    requires HoldsThroughout(trace, from, to, x, tid, fd, socket)
    requires InPlainSight(trace, uid, from, to, x, tid)
    ensures x == owner
  {
    HoldingThroughoutIsLiving(trace, from, settled, to, x, tid, fd, socket);
  }

  /** A socket that two processes keep throughout, both in plain sight, never gets an owner. */
  lemma SharedSocketHasNoOwner(
    trace: Trace, uid: nat, from: nat, settled: nat, to: nat, socket: nat,
    x: Instance, xTid: nat, xFd: nat, y: Instance, yTid: nat, yFd: nat)
    requires x != y
    requires HoldsThroughout(trace, from, to, x, xTid, xFd, socket) && InPlainSight(trace, uid, from, to, x, xTid)
    requires HoldsThroughout(trace, from, to, y, yTid, yFd, socket) && InPlainSight(trace, uid, from, to, y, yTid)
    ensures forall owner: Instance :: !Verdict(trace, uid, from, settled, to, owner, socket)
  {
    forall owner: Instance
      ensures !Verdict(trace, uid, from, settled, to, owner, socket)
    {
      if Verdict(trace, uid, from, settled, to, owner, socket) {
        PlainHolderIsTheOwner(trace, uid, from, settled, to, owner, socket, x, xTid, xFd);
        PlainHolderIsTheOwner(trace, uid, from, settled, to, owner, socket, y, yTid, yFd);
      }
    }
  }

  /** A process born during the attempt that inherits the socket and keeps it is found out too. */
  lemma InheritorIsFound(
    trace: Trace, uid: nat, from: nat, settled: nat, to: nat, owner: Instance, socket: nat,
    child: Instance, born: nat, tid: nat, fd: nat)
    requires Verdict(trace, uid, from, settled, to, owner, socket)
    requires from < born <= settled && !Present(trace, born - 1, child) && child != owner
    requires HoldsThroughout(trace, born, to, child, tid, fd, socket)
    ensures !InPlainSight(trace, uid, from, to, child, tid)
  {
    HoldingThroughoutIsLiving(trace, born, settled, to, child, tid, fd, socket);
    assert Alive(trace, to, child);
    forall t: nat | from <= t <= to && Alive(trace, t, child)
      ensures Holds(trace, t, child, tid, fd, socket)
    {
      assert t < born ==> InOrder(t, born - 1, to);
    }
    assert HoldsWhileAlive(trace, from, to, child, tid, fd, socket);
  }

  // ----- monotonicity: a later end keeps what was established -------------------------------

  lemma ClearedStays(trace: Trace, uid: nat, from: nat, a: nat, b: nat, to: nat, x: Instance, socket: nat)
    requires from <= a <= b <= to && Cleared(trace, uid, a, b, x, socket)
    ensures Cleared(trace, uid, from, to, x, socket)
  {
    hide WholeRead;
    if FullyRead(trace, uid, a, b, x, socket) {
      var c: nat, d: nat :|
        && a <= c <= d <= b && Present(trace, c, x) && NoneHeld(trace, uid, c, d, x, socket)
        && (WholeRead(trace, uid, c, d, x, socket) || Departed(trace, c, d, x));
      assert from <= c <= d <= to;
    } else {
      var c: nat, d: nat :| a <= c <= d <= b && DepartedBetween(trace, c, d, x);
      assert from <= c <= d <= to;
    }
  }

  lemma SeenThenNotAlive(trace: Trace, from: nat, mid: nat, to: nat, x: Instance)
    requires from <= mid <= to && Seen(trace, from, mid, x) && NotAlive(trace, mid, to, x)
    ensures Departed(trace, from, to, x)
  {
    var a: nat :| from <= a <= mid && Present(trace, a, x);
    var b: nat :| mid <= b <= to && !Alive(trace, b, x);
    assert DepartedBetween(trace, a, b, x);
  }

  lemma ReusedPidMeansNotAlive(trace: Trace, from: nat, to: nat, x: Instance, y: Instance)
    requires x != y && x.pid == y.pid && Seen(trace, from, to, y)
    ensures NotAlive(trace, from, to, x)
  {
    var t: nat :| from <= t <= to && Present(trace, t, y);
    assert !Alive(trace, t, x);
  }

  // ----- a table that stands still ----------------------------------------------------------

  /** The descriptors that can be read show the socket. */
  ghost predicate Shows(thread: Thread, socket: nat) {
    thread.readable && ShowsAmong(thread, thread.fds.Keys, socket)
  }

  ghost predicate ShowsAmong(thread: Thread, fds: set<nat>, socket: nat) {
    exists fd :: fd in fds && fd in thread.fds && thread.fds[fd] == Socket(socket)
  }

  ghost predicate HasSocket(p: Process, socket: nat) {
    HasSocketAmong(p, p.threads.Keys, socket)
  }

  ghost predicate HasSocketAmong(p: Process, tids: set<nat>, socket: nat) {
    exists tid :: tid in tids && tid in p.threads && Shows(p.threads[tid], socket)
  }

  /** A live process whose tables can all be read, or another user's without the socket in what can be. */
  ghost predicate Plain(p: Process, uid: nat, socket: nat) {
    && !p.dead && p.threads != map[] && |p.threads| <= MAX_PIDS
    && (forall tid :: tid in p.threads ==> |p.threads[tid].fds| <= MAX_FDS)
    && ((forall tid :: tid in p.threads ==> p.threads[tid].readable) || OutOfSight(p, uid, socket))
  }

  ghost predicate OutOfSight(p: Process, uid: nat, socket: nat) {
    && Foreign(p.identity, uid) && !HasSocket(p, socket)
    && forall tid :: tid in p.threads && !p.threads[tid].readable ==> Foreign(p.threads[tid].identity, uid)
  }

  ghost predicate Calm(trace: Trace, at: nat, x: Instance, tid: nat) {
    && Still(trace, at) && Alive(trace, at, x) && ThreadAt(trace, at, x, tid)
    && |trace.table(at)[x.pid].threads[tid].fds| <= MAX_FDS
  }

  lemma StaysCalm(trace: Trace, a: nat, b: nat, x: Instance, tid: nat)
    requires a <= b && Calm(trace, a, x, tid)
    ensures Calm(trace, b, x, tid) && trace.table(b) == trace.table(a)
    ensures Still(trace, b) && Alive(trace, b, x) && ThreadAt(trace, b, x, tid) && !trace.failing(b)
    ensures |trace.table(b)[x.pid].threads[tid].fds| <= MAX_FDS
  {
    StillLater(trace, a, b);
  }

  /** What a read of one table comes to: it is denied, or shows a second owner, or says whether the socket is
      in it. */
  ghost predicate FdsTell(
    thread: Thread, socket: nat, pid: nat, r: Outcome<()>, seen0: set<nat>, found0: bool, seen: set<nat>, found: bool)
  {
    if !thread.readable then r == Raised(Denied) && seen == seen0 && found == found0
    else if Shows(thread, socket) && seen0 != {} && pid !in seen0 then r == Raised(Refuse(MultipleOwners))
    else
      && r == Done(()) && found == (found0 || Shows(thread, socket))
      && seen == if Shows(thread, socket) then seen0 + {pid} else seen0
  }

  ghost predicate FdsSoFar(
    thread: Thread, taken: set<nat>, count: nat, socket: nat, pid: nat, seen0: set<nat>, found0: bool, seen: set<nat>,
    found: bool)
  {
    && taken <= thread.fds.Keys && |taken| == count && (!thread.readable ==> taken == {})
    && var shown := ShowsAmong(thread, taken, socket);
       && !(shown && seen0 != {} && pid !in seen0)
       && found == (found0 || shown) && seen == if shown then seen0 + {pid} else seen0
  }

  lemma FdsBegin(thread: Thread, socket: nat, pid: nat, seen0: set<nat>, found0: bool)
    ensures FdsSoFar(thread, {}, 0, socket, pid, seen0, found0, seen0, found0)
  {
  }

  /** One more descriptor. */
  lemma FdsMore(
    thread: Thread, taken: set<nat>, count: nat, socket: nat, pid: nat, seen0: set<nat>, found0: bool, seen: set<nat>,
    found: bool, fd: nat)
    requires FdsSoFar(thread, taken, count, socket, pid, seen0, found0, seen, found)
    requires thread.readable && fd in thread.fds && fd !in taken
    ensures count < |thread.fds|
    ensures var more := taken + {fd};
            if thread.fds[fd] != Socket(socket) then
              FdsSoFar(thread, more, count + 1, socket, pid, seen0, found0, seen, found)
            else if seen != {} && pid !in seen then
              FdsTell(thread, socket, pid, Raised(Refuse(MultipleOwners)), seen0, found0, seen, found)
            else FdsSoFar(thread, more, count + 1, socket, pid, seen0, found0, seen + {pid}, true)
  {
    var more := taken + {fd};
    assert more <= thread.fds.Keys && |thread.fds.Keys| == |thread.fds|;
    SubsetSize(more, thread.fds.Keys);
    assert ShowsAmong(thread, more, socket) <==> ShowsAmong(thread, taken, socket) || thread.fds[fd] == Socket(socket);
  }

  lemma {:induction false} SubsetSize(s: set<nat>, u: set<nat>)
    requires s <= u
    ensures |s| <= |u|
  {
    assert u == s + (u - s);
  }

  lemma FdsEnd(
    thread: Thread, taken: set<nat>, count: nat, socket: nat, pid: nat, seen0: set<nat>, found0: bool, seen: set<nat>,
    found: bool)
    requires FdsSoFar(thread, taken, count, socket, pid, seen0, found0, seen, found)
    ensures !thread.readable ==> FdsTell(thread, socket, pid, Raised(Denied), seen0, found0, seen, found)
    ensures thread.readable && thread.fds.Keys <= taken ==>
              FdsTell(thread, socket, pid, Done(()), seen0, found0, seen, found)
    ensures !(thread.fds.Keys <= taken) ==> count < |thread.fds|
  {
    if thread.fds.Keys <= taken {
      assert taken == thread.fds.Keys;
    } else {
      var fd :| fd in thread.fds.Keys && fd !in taken;
      SubsetSize(taken + {fd}, thread.fds.Keys);
      assert |thread.fds.Keys| == |thread.fds|;
    }
  }

  /** A live and plain process of a table that stands still. */
  ghost predicate Quiet(trace: Trace, uid: nat, at: nat, x: Instance, socket: nat) {
    Still(trace, at) && Alive(trace, at, x) && Plain(trace.table(at)[x.pid], uid, socket)
  }

  lemma StaysQuiet(trace: Trace, uid: nat, a: nat, b: nat, x: Instance, socket: nat)
    requires a <= b && Quiet(trace, uid, a, x, socket)
    ensures Quiet(trace, uid, b, x, socket) && Alive(trace, b, x) && Still(trace, b)
    ensures trace.table(b) == trace.table(a) && !trace.failing(b)
  {
    StillLater(trace, a, b);
  }

  lemma QuietIsCalm(trace: Trace, uid: nat, at: nat, x: Instance, tid: nat, socket: nat)
    requires Quiet(trace, uid, at, x, socket) && tid in trace.table(at)[x.pid].threads
    ensures Calm(trace, at, x, tid)
  {
  }

  /** What a read of one thread, or of all of a process, comes to where nothing moves: a second owner is refused,
      and otherwise the read says whether the socket is there. */
  ghost predicate Tells(
    shown: bool, pid: nat, r: Outcome<Progress>, seen0: set<nat>, found0: bool, seen: set<nat>, found: bool)
  {
    if shown && seen0 != {} && pid !in seen0 then r == Raised(Refuse(MultipleOwners))
    else r == Done(Continue) && found == (found0 || shown) && seen == if shown then seen0 + {pid} else seen0
  }

  // ----- reading one process ----------------------------------------------------------------

  datatype Progress = Continue | ProcessExited

  /** At some instant of the window a live process had the PID. */
  ghost predicate PidAlive(trace: Trace, from: nat, to: nat, pid: nat) {
    exists t: nat :: from <= t <= to && pid in trace.table(t) && !trace.table(t)[pid].dead
  }

  /** Confirmed exit only: the handle's whole group is gone, or no live process has the PID. */
  method Exited(trace: Trace, start: nat, pid: nat, handle: Option<Instance>)
    returns (r: Outcome<bool>, now: nat)
    ensures now >= start
    ensures r.Raised? ==> r.error != Denied
    ensures r.Done? && handle.Some? ==> (r.value <==> !Alive(trace, now, handle.value))
    ensures r.Raised? && handle.Some? ==> r.error == Refuse(BudgetExhausted)
    ensures r == Done(true) && handle.None? ==>
              forall x: Instance :: x.pid == pid ==> NotAlive(trace, start, now, x)
    ensures r == Done(false) && handle.None? ==> PidAlive(trace, start, now, pid)
    ensures Still(trace, start) && handle.Some? && Alive(trace, start, handle.value) ==> r == Done(false)
  {
    now := start;
    if handle.Some? {
      var _ :- Bound(trace, now);
      var live;
      live, now := Live(trace, now, handle.value);
      return Done(!live), now;
    }
    var pidfd;
    pidfd, now := OpenPidfd(trace, now, pid);
    if pidfd == Raised(Gone) {
      forall x: Instance | x.pid == pid
        ensures NotAlive(trace, start, now, x)
      {
        assert !Alive(trace, now, x);
      }
      return Done(true), now;
    }
    if pidfd.Raised? { return Raised(pidfd.error), now; }
    ghost var held := now;
    var live;
    live, now := Live(trace, now, pidfd.value);
    if !live {
      forall x: Instance | x.pid == pid
        ensures NotAlive(trace, start, now, x)
      {
        assert !Alive(trace, if x == pidfd.value then now else held, x);
      }
    }
    r := Done(!live);
  }

  ghost predicate NotHeldOnce(
    trace: Trace, from: nat, to: nat, x: Instance, tid: nat, fd: nat, socket: nat)
  {
    exists t: nat :: from <= t <= to && !Holds(trace, t, x, tid, fd, socket)
  }

  lemma HeldFdIsThere(trace: Trace, from: nat, to: nat, x: Instance, tid: nat, fd: nat, socket: nat)
    requires HoldsThroughout(trace, from, to, x, tid, fd, socket)
    ensures FdThroughout(trace, from, to, x, tid, fd) && ThreadThroughout(trace, from, to, x, tid)
  {
    forall t: nat | from <= t <= to
      ensures ThreadAt(trace, t, x, tid) && fd in trace.table(t)[x.pid].threads[tid].fds
    {
      assert Holds(trace, t, x, tid, fd, socket);
    }
  }

  lemma FdThroughoutNarrows(trace: Trace, from: nat, a: nat, to: nat, x: Instance, tid: nat, fd: nat)
    requires from <= a && FdThroughout(trace, from, to, x, tid, fd)
    ensures FdThroughout(trace, a, to, x, tid, fd)
  {
  }

  /** Each of these descriptors was without the socket at an instant of the window. */
  ghost predicate NoneThroughout(
    trace: Trace, from: nat, to: nat, x: Instance, tid: nat, fds: set<nat>, socket: nat)
  {
    forall fd :: fd in fds ==> NotHeldOnce(trace, from, to, x, tid, fd, socket)
  }

  lemma NoneYet(trace: Trace, from: nat, to: nat, x: Instance, tid: nat, socket: nat)
    ensures NoneThroughout(trace, from, to, x, tid, {}, socket)
  {
  }

  lemma NoneStays(
    trace: Trace, from: nat, a: nat, b: nat, x: Instance, tid: nat, fds: set<nat>, socket: nat)
    requires a <= b && NoneThroughout(trace, from, a, x, tid, fds, socket)
    ensures NoneThroughout(trace, from, b, x, tid, fds, socket)
  {
    hide Holds;
  }

  lemma OneMoreNot(
    trace: Trace, from: nat, a: nat, b: nat, x: Instance, tid: nat, fds: set<nat>, fd: nat, socket: nat)
    requires from <= a <= b && NoneThroughout(trace, from, a, x, tid, fds, socket)
    requires !Holds(trace, b, x, tid, fd, socket)
    ensures NoneThroughout(trace, from, b, x, tid, fds + {fd}, socket)
  {
    hide Holds;
  }

  lemma HeldNow(trace: Trace, from: nat, to: nat, x: Instance, tid: nat, fd: nat, socket: nat)
    requires from <= to && Holds(trace, to, x, tid, fd, socket)
    ensures Held(trace, from, to, x, socket)
  {
  }

  lemma HeldStays(trace: Trace, from: nat, a: nat, b: nat, x: Instance, socket: nat)
    requires a <= b
    ensures Held(trace, from, a, x, socket) ==> Held(trace, from, b, x, socket)
  {
  }

  /** A listing that ended without the socket shows that no descriptor kept it throughout. */
  lemma NothingFound(
    trace: Trace, from: nat, since: nat, to: nat, x: Instance, tid: nat, fds: set<nat>, socket: nat)
    requires from <= since && NoneThroughout(trace, from, to, x, tid, fds, socket)
    requires forall fd :: FdThroughout(trace, since, to, x, tid, fd) ==> fd in fds
    ensures forall fd :: !HoldsThroughout(trace, from, to, x, tid, fd, socket)
  {
    forall fd
      ensures !HoldsThroughout(trace, from, to, x, tid, fd, socket)
    {
      if HoldsThroughout(trace, from, to, x, tid, fd, socket) {
        HeldFdIsThere(trace, from, to, x, tid, fd, socket);
        FdThroughoutNarrows(trace, from, since, to, x, tid, fd);
        assert false;
      }
    }
  }

  /** How reading a process may change `seen` and `found`: the process is added only if it is the first, and
      whenever it is added the socket was found in it. */
  ghost predicate Noted(pid: nat, seen0: set<nat>, found0: bool, seen: set<nat>, found: bool) {
    && (seen == seen0 || (seen == seen0 + {pid} && (seen0 == {} || pid in seen0)))
    && (found0 ==> found) && (found ==> pid in seen) && (pid in seen && pid !in seen0 ==> found)
  }

  lemma NotedTwice(
    pid: nat, seen0: set<nat>, found0: bool, seen1: set<nat>, found1: bool, seen: set<nat>, found: bool)
    requires Noted(pid, seen0, found0, seen1, found1) && Noted(pid, seen1, found1, seen, found)
    ensures Noted(pid, seen0, found0, seen, found)
  {
  }

  lemma NotedNothing(pid: nat, seen: set<nat>, found: bool)
    requires found ==> pid in seen
    ensures Noted(pid, seen, found, seen, found)
  {
  }

  lemma NotedNow(pid: nat, seen0: set<nat>, found0: bool, seen: set<nat>, found: bool)
    requires Noted(pid, seen0, found0, seen, found) && (seen == {} || pid in seen)
    ensures Noted(pid, seen0, found0, seen + {pid}, true)
  {
  }

  lemma NotedInOne(pid: nat, seen0: set<nat>, seen: set<nat>, found: bool)
    requires pid !in seen0 && Noted(pid, seen0, false, seen, found)
    ensures found <==> pid in seen
    ensures if found then seen0 == {} && seen == {pid} else seen == seen0
  {
  }

  /** The next entry of an open descriptor table, within the bound, and what it links to. */
  method ReadEntry(
    trace: Trace, ghost since: nat, start: nat, x: Instance, tid: nat, ghost socket: nat, taken: set<nat>, count: nat)
    returns (r: Outcome<Option<(nat, Target)>>, now: nat)
    requires since <= start
    ensures now >= start
    ensures r == Raised(Denied) ==> Unreadable(trace, start, now, x, tid)
    ensures r == Done(None) ==> forall fd :: FdThroughout(trace, since, now, x, tid, fd) ==> fd in taken
    ensures r.Done? && r.value.Some? ==>
              count < MAX_FDS && (r.value.value.1 == Socket(socket)
                                  <==> Holds(trace, now, x, tid, r.value.value.0, socket))
    ensures Calm(trace, start, x, tid) ==>
              EntryTells(trace.table(start)[x.pid].threads[tid], taken, count, r)
  {
    hide Still, Calm, FdThroughout;
    ghost var calm := Calm(trace, start, x, tid);
    if calm { StaysCalm(trace, start, start, x, tid); }
    var entry;
    entry, now :- NextFd(trace, since, start, x, tid, taken);
    if entry.None? { return Done(None), now; }
    if calm { StaysCalm(trace, start, now, x, tid); }
    var _ :- Bound(trace, now);
    if count + 1 > MAX_FDS { return Raised(Refuse(FdListBounds)), now; }
    ghost var linking := now;
    var target;
    target, now := ReadLink(trace, now, x, tid, entry.value);
    UnreadableStays(trace, start, linking, now, x, tid);
    r := if target.Done? then Done(Some((entry.value, target.value))) else Raised(target.error);
  }

  lemma UnreadableStays(trace: Trace, from: nat, a: nat, to: nat, x: Instance, tid: nat)
    requires from <= a
    ensures Unreadable(trace, a, to, x, tid) ==> Unreadable(trace, from, to, x, tid)
  {
  }

  ghost predicate EntryTells(thread: Thread, taken: set<nat>, count: nat, r: Outcome<Option<(nat, Target)>>) {
    if !thread.readable then r == Raised(Denied)
    else if thread.fds.Keys <= taken then r == Done(None)
    else if count >= MAX_FDS then r == Raised(Refuse(FdListBounds))
    else
      && r.Done? && r.value.Some?
      && var (fd, target) := r.value.value;
         fd in thread.fds && fd !in taken && target == thread.fds[fd]
  }

  /** What the next entry leads to. */
  lemma FdsStep(
    thread: Thread, taken: set<nat>, count: nat, entry: Outcome<Option<(nat, Target)>>, socket: nat, pid: nat,
    seen0: set<nat>, found0: bool, seen: set<nat>, found: bool)
    requires FdsSoFar(thread, taken, count, socket, pid, seen0, found0, seen, found)
    requires EntryTells(thread, taken, count, entry) && |thread.fds| <= MAX_FDS
    ensures entry.Raised? ==> FdsTell(thread, socket, pid, Raised(entry.error), seen0, found0, seen, found)
    ensures entry == Done(None) ==> FdsTell(thread, socket, pid, Done(()), seen0, found0, seen, found)
    ensures entry.Done? && entry.value.Some? ==>
              var fd, more := entry.value.value.0, taken + {entry.value.value.0};
              if entry.value.value.1 != Socket(socket) then
                FdsSoFar(thread, more, count + 1, socket, pid, seen0, found0, seen, found)
              else if seen != {} && pid !in seen then
                FdsTell(thread, socket, pid, Raised(Refuse(MultipleOwners)), seen0, found0, seen, found)
              else FdsSoFar(thread, more, count + 1, socket, pid, seen0, found0, seen + {pid}, true)
  {
    FdsEnd(thread, taken, count, socket, pid, seen0, found0, seen, found);
    if entry.Done? && entry.value.Some? {
      FdsMore(thread, taken, count, socket, pid, seen0, found0, seen, found, entry.value.value.0);
    }
  }

  /** Every entry of one thread's descriptor table. A second process seen with the socket refuses
      at once; `seen` and `found` keep what was seen even when the table then fails to read. */
  method ScanFds(trace: Trace, start: nat, x: Instance, tid: nat, socket: nat, seen0: set<nat>, found0: bool)
    returns (r: Outcome<()>, now: nat, seen: set<nat>, found: bool)
    requires found0 ==> x.pid in seen0
    ensures now >= start
    ensures Noted(x.pid, seen0, found0, seen, found)
    ensures found && !found0 ==> Held(trace, start, now, x, socket)
    ensures r == Raised(Denied) ==> Unreadable(trace, start, now, x, tid)
    ensures r.Done? && !found ==> forall fd :: !HoldsThroughout(trace, start, now, x, tid, fd, socket)
    ensures Calm(trace, start, x, tid) ==>
              FdsTell(trace.table(start)[x.pid].threads[tid], socket, x.pid, r, seen0, found0, seen, found)
  {
    hide FdsTell, FdsSoFar, EntryTells, Still, Calm, Noted, NoneThroughout, FdThroughout, Held, Unreadable, Holds;
    hide HoldsThroughout;
    seen, found := seen0, found0;
    now := Later(start);
    var taken: set<nat>, count := {}, 0;
    ghost var since := now;
    ghost var calm, thread := Calm(trace, start, x, tid), Thread(NOBODY, true, map[]);
    if calm {
      StaysCalm(trace, start, start, x, tid);
      thread := trace.table(start)[x.pid].threads[tid];
    }
    FdsBegin(thread, socket, x.pid, seen, found);
    NoneYet(trace, start, now, x, tid, socket);
    NotedNothing(x.pid, seen, found);
    while true
      invariant start <= since <= now
      invariant 0 <= count <= MAX_FDS
      invariant Noted(x.pid, seen0, found0, seen, found)
      invariant found && !found0 ==> Held(trace, start, now, x, socket)
      invariant !found ==> NoneThroughout(trace, start, now, x, tid, taken, socket)
      invariant calm ==> FdsSoFar(thread, taken, count, socket, x.pid, seen0, found0, seen, found)
      decreases MAX_FDS - count
    {
      ghost var before := now;
      if calm { StaysCalm(trace, start, now, x, tid); }
      var entry;
      entry, now := ReadEntry(trace, since, now, x, tid, socket, taken, count);
      UnreadableStays(trace, start, before, now, x, tid);
      HeldStays(trace, start, before, now, x, socket);
      if calm { FdsStep(thread, taken, count, entry, socket, x.pid, seen0, found0, seen, found); }
      var next :- (entry);
      if !found { NoneStays(trace, start, before, now, x, tid, taken, socket); }
      if next.None? { break; }
      var fd, target := next.value.0, next.value.1;
      count := count + 1;
      if target == Socket(socket) {
        if seen != {} && x.pid !in seen { return Raised(Refuse(MultipleOwners)), now, seen, found; }
        HeldNow(trace, start, now, x, tid, fd, socket);
        NotedNow(x.pid, seen0, found0, seen, found);
        seen, found := seen + {x.pid}, true;
      } else if !found {
        OneMoreNot(trace, start, before, now, x, tid, taken, fd, socket);
      }
      taken := taken + {fd};
    }
    if !found { NothingFound(trace, start, since, now, x, tid, taken, socket); }
    r := Done(());
  }

  lemma HoldsThroughoutNarrows(
    trace: Trace, from: nat, a: nat, b: nat, to: nat, x: Instance, tid: nat, fd: nat, socket: nat)
    requires from <= a <= b <= to && HoldsThroughout(trace, from, to, x, tid, fd, socket)
    ensures HoldsThroughout(trace, a, b, x, tid, fd, socket)
  {
  }

  lemma ThreadClearStays(
    trace: Trace, uid: nat, from: nat, a: nat, b: nat, to: nat, x: Instance, tid: nat, socket: nat)
    requires from <= a <= b <= to && ThreadClear(trace, uid, a, b, x, tid, socket)
    ensures ThreadClear(trace, uid, from, to, x, tid, socket)
  {
    forall fd | HoldsThroughout(trace, from, to, x, tid, fd, socket)
      ensures ForeignTable(trace, from, to, x, tid, uid)
    {
      HoldsThroughoutNarrows(trace, from, a, b, to, x, tid, fd, socket);
      ForeignTableWidens(trace, uid, from, a, b, to, x, tid);
    }
  }

  /** A process that exits while it is read kept nothing throughout the read. */
  lemma ExitClears(
    trace: Trace, uid: nat, from: nat, opened': nat, to: nat, x: Instance, handle: Instance, socket: nat)
    requires from <= opened' <= to && Present(trace, from, x)
    requires handle.pid == x.pid && Present(trace, opened', handle) && NotAlive(trace, opened', to, handle)
    ensures NoneHeld(trace, uid, from, to, x, socket)
  {
    var t: nat :| opened' <= t <= to && !Alive(trace, t, handle);
    forall tid, fd
      ensures !HoldsThroughout(trace, from, to, x, tid, fd, socket)
    {
      assert !Holds(trace, if handle == x then t else opened', x, tid, fd, socket);
    }
  }

  ghost predicate QuietThread(
    trace: Trace, uid: nat, at: nat, x: Instance, tid: nat, handle: Instance, before: Identity, socket: nat,
    seen: set<nat>, found: bool)
  {
    && Quiet(trace, uid, at, x, socket) && tid in trace.table(at)[x.pid].threads
    && handle == x && before == trace.table(at)[x.pid].identity
    && (found <==> x.pid in seen) && (found ==> HasSocket(trace.table(at)[x.pid], socket))
  }

  /** One thread: its identity before and after bracket the descriptor table. A denied table is
      passed over only when the process is confirmed gone, or was seen under other users. */
  method ScanThread(
    trace: Trace, uid: nat, ghost from: nat, start: nat, x: Instance, tid: nat, handle: Instance,
    before: Identity, socket: nat, seen0: set<nat>, found0: bool)
    returns (r: Outcome<Progress>, now: nat, seen: set<nat>, found: bool)
    requires from <= start && ReadIdentity(trace, from, start, x, before)
    requires found0 ==> x.pid in seen0
    ensures now >= start
    ensures Noted(x.pid, seen0, found0, seen, found)
    ensures found && !found0 ==> Held(trace, start, now, x, socket)
    ensures r.Raised? ==> r.error != Denied
    ensures r == Done(ProcessExited) ==> seen == seen0 && !found && NotAlive(trace, start, now, handle)
    ensures r == Done(Continue) && !found ==>
              ThreadClear(trace, uid, from, now, x, tid, socket) && ThreadRead(trace, uid, start, now, x, tid, socket)
    ensures QuietThread(trace, uid, start, x, tid, handle, before, socket, seen0, found0) ==>
              Tells(Shows(trace.table(start)[x.pid].threads[tid], socket), x.pid, r, seen0, found0, seen, found)
  {
    seen, found := seen0, found0;
    now := start;
    ghost var quiet := QuietThread(trace, uid, start, x, tid, handle, before, socket, seen0, found0);
    if quiet { QuietThreadStays(trace, uid, start, now, x, tid, handle, before, socket, seen0, found0); }
    var original;
    original, now :- ThreadIdentity(trace, now, x, tid);
    hide ReadIdentity, ReadThreadIdentity, QuietThread, Still, Calm, HasSocket, Shows, ThreadRead, ThreadClear;
    ghost var reading := now;
    if quiet { QuietThreadStays(trace, uid, start, now, x, tid, handle, before, socket, seen0, found0); }
    var listed;
    listed, now, seen, found := ScanFds(trace, now, x, tid, socket, seen, found);
    ghost var read := now;
    if quiet { QuietThreadStays(trace, uid, start, now, x, tid, handle, before, socket, seen0, found0); }
    if listed.Done? {
      var again;
      again, now :- ThreadIdentity(trace, now, x, tid);
      if original != again { return Raised(Refuse(ProcessChanged)), now, seen, found; }
      if !found {
        ReadsClearly(trace, uid, from, reading, read, now, x, tid, socket);
        ThreadIsRead(trace, uid, start, reading, read, now, x, tid, original, socket);
      }
      return Done(Continue), now, seen, found;
    }
    if listed.error != Denied { return Raised(listed.error), now, seen, found; }
    BracketWidens(trace, from, start, reading, now, x, tid, before, original);
    assert Unreadable(trace, reading, read, x, tid);
    r, now := DeniedTable(trace, uid, from, now, x, tid, handle, before, original, socket, seen, found);
    if r == Done(Continue) {
      ForeignIsClear(trace, uid, from, now, x, tid, socket);
      ThreadIsRead(trace, uid, start, reading, read, now, x, tid, original, socket);
    }
  }

  lemma ForeignIsClear(trace: Trace, uid: nat, from: nat, to: nat, x: Instance, tid: nat, socket: nat)
    requires ForeignTable(trace, from, to, x, tid, uid)
    ensures ThreadClear(trace, uid, from, to, x, tid, socket)
  {
  }

  /** The thread's users were read up to `a` and again from `b` on. */
  lemma ThreadIsRead(
    trace: Trace, uid: nat, from: nat, a: nat, b: nat, to: nat, x: Instance, tid: nat, id: Identity, socket: nat)
    requires from <= a <= b <= to && ReadThreadIdentity(trace, from, a, x, tid, id)
    requires ReadThreadIdentity(trace, b, to, x, tid, id)
    requires NothingKept(trace, a, b, x, tid, socket) || (Unreadable(trace, a, b, x, tid) && Foreign(id, uid))
    ensures ThreadRead(trace, uid, from, to, x, tid, socket)
  {
    hide ReadThreadIdentity, NothingKept, Unreadable;
    assert ThreadFramed(trace, from, a, b, to, x, tid, id);
  }

  lemma QuietThreadStays(
    trace: Trace, uid: nat, a: nat, b: nat, x: Instance, tid: nat, handle: Instance, before: Identity, socket: nat,
    seen: set<nat>, found: bool)
    requires a <= b && QuietThread(trace, uid, a, x, tid, handle, before, socket, seen, found)
    ensures QuietThread(trace, uid, b, x, tid, handle, before, socket, seen, found)
    ensures Still(trace, b) && Calm(trace, b, x, tid) && ThreadAt(trace, b, x, tid)
    ensures trace.table(b) == trace.table(a) && !trace.failing(b)
    ensures var thread := trace.table(b)[x.pid].threads[tid];
            !thread.readable ==> !Shows(thread, socket) && !found && x.pid !in seen
  {
    StillLater(trace, a, b);
  }

  lemma BracketWidens(
    trace: Trace, from: nat, a: nat, b: nat, to: nat, x: Instance, tid: nat, before: Identity, original: Identity)
    requires from <= a <= b <= to && ReadIdentity(trace, from, a, x, before)
    requires ReadThreadIdentity(trace, a, b, x, tid, original) && Unreadable(trace, b, to, x, tid)
    ensures ReadIdentity(trace, from, to, x, before) && ReadThreadIdentity(trace, from, to, x, tid, original)
    ensures Unreadable(trace, from, to, x, tid)
  {
  }

  /** A table that could not be read: passed over for a process that is gone, or another user's. */
  method DeniedTable(
    trace: Trace, uid: nat, ghost from: nat, start: nat, x: Instance, tid: nat, handle: Instance,
    before: Identity, original: Identity, ghost socket: nat, seen: set<nat>, found: bool)
    returns (r: Outcome<Progress>, now: nat)
    requires from <= start && ReadIdentity(trace, from, start, x, before)
    requires ReadThreadIdentity(trace, from, start, x, tid, original) && Unreadable(trace, from, start, x, tid)
    ensures now >= start
    ensures r.Raised? ==> r.error != Denied
    ensures r == Done(ProcessExited) ==> !found && x.pid !in seen && NotAlive(trace, start, now, handle)
    ensures r == Done(Continue) ==> !found && ForeignTable(trace, from, now, x, tid, uid)
    ensures r == Done(Continue) ==> Foreign(original, uid) && ReadThreadIdentity(trace, start, now, x, tid, original)
    ensures r == Raised(Refusal(FdListUnavailable, true)) && !found && x.pid !in seen ==>
              AliveOnce(trace, start, now, handle)
    ensures
      && QuietThread(trace, uid, start, x, tid, handle, before, socket, seen, found)
      && trace.table(start)[x.pid].threads[tid] == Thread(original, false, trace.table(start)[x.pid].threads[tid].fds)
      ==> r == Done(Continue)
  {
    hide ReadIdentity, ReadThreadIdentity, Unreadable, Still, Calm, Shows, QuietThread, Alive, ForeignTable, AliveOnce;
    now := start;
    ghost var quiet := QuietThread(trace, uid, start, x, tid, handle, before, socket, seen, found);
    if quiet { QuietThreadIs(trace, uid, start, now, x, tid, handle, before, socket, seen, found); }
    if !found && x.pid !in seen {
      var gone;
      gone, now :- Exited(trace, now, x.pid, Some(handle));
      AliveOrNot(trace, start, now, handle);
      if gone { return Done(ProcessExited), now; }
      if quiet { QuietThreadIs(trace, uid, start, now, x, tid, handle, before, socket, seen, found); }
      var exiting: bool := *;
      if exiting {
        gone, now :- Exited(trace, now, x.pid, Some(handle));
        AliveOrNot(trace, start, now, handle);
        if gone { return Done(ProcessExited), now; }
        if quiet { QuietThreadIs(trace, uid, start, now, x, tid, handle, before, socket, seen, found); }
      }
    }
    ghost var looked := now;
    if found || before.ruid == uid || before.euid == uid || original.ruid == uid || original.euid == uid {
      return Raised(Refusal(FdListUnavailable, true)), now;
    }
    var reading;
    reading, now := ThreadIdentity(trace, now, x, tid);
    AliveOnceStays(trace, start, looked, now, handle);
    var again :- (reading);
    if original != again { return Raised(Refusal(FdListUnavailable, true)), now; }
    ForeignIs(trace, uid, from, start, now, x, tid, before, original);
    ReadThreadIdentityStays(trace, looked, now, start, now, x, tid, original);
    r := Done(Continue);
  }

  ghost predicate AliveOnce(trace: Trace, from: nat, to: nat, x: Instance) {
    exists t: nat :: from <= t <= to && Alive(trace, t, x)
  }

  lemma AliveOrNot(trace: Trace, from: nat, t: nat, x: Instance)
    requires from <= t
    ensures if Alive(trace, t, x) then AliveOnce(trace, from, t, x) else NotAlive(trace, from, t, x)
  {
  }

  lemma AliveOnceStays(trace: Trace, from: nat, a: nat, b: nat, x: Instance)
    requires a <= b
    ensures AliveOnce(trace, from, a, x) ==> AliveOnce(trace, from, b, x)
  {
  }

  lemma ReadThreadIdentityStays(
    trace: Trace, a: nat, b: nat, from: nat, to: nat, x: Instance, tid: nat, id: Identity)
    requires from <= a && b <= to && ReadThreadIdentity(trace, a, b, x, tid, id)
    ensures ReadThreadIdentity(trace, from, to, x, tid, id)
  {
  }

  lemma QuietThreadIs(
    trace: Trace, uid: nat, a: nat, b: nat, x: Instance, tid: nat, handle: Instance, before: Identity, socket: nat,
    seen: set<nat>, found: bool)
    requires a <= b && QuietThread(trace, uid, a, x, tid, handle, before, socket, seen, found)
    ensures Still(trace, b) && ThreadAt(trace, b, x, tid) && Alive(trace, b, x) && handle == x && !trace.failing(b)
    ensures trace.table(b) == trace.table(a) && before == trace.table(b)[x.pid].identity
    ensures var thread := trace.table(b)[x.pid].threads[tid];
            !thread.readable ==> !found && x.pid !in seen && Foreign(before, uid) && Foreign(thread.identity, uid)
  {
    QuietThreadStays(trace, uid, a, b, x, tid, handle, before, socket, seen, found);
  }

  lemma ForeignIs(
    trace: Trace, uid: nat, from: nat, a: nat, to: nat, x: Instance, tid: nat, before: Identity, original: Identity)
    requires from <= a <= to && ReadIdentity(trace, from, a, x, before) && Foreign(before, uid)
    requires ReadThreadIdentity(trace, from, a, x, tid, original) && Foreign(original, uid)
    requires Unreadable(trace, from, a, x, tid)
    ensures ForeignTable(trace, from, to, x, tid, uid)
  {
  }

  lemma ReadsClearly(
    trace: Trace, uid: nat, from: nat, a: nat, b: nat, to: nat, x: Instance, tid: nat, socket: nat)
    requires from <= a <= b <= to && forall fd :: !HoldsThroughout(trace, a, b, x, tid, fd, socket)
    ensures ThreadClear(trace, uid, from, to, x, tid, socket)
  {
    forall fd
      ensures !HoldsThroughout(trace, from, to, x, tid, fd, socket)
    {
      if HoldsThroughout(trace, from, to, x, tid, fd, socket) {
        HoldsThroughoutNarrows(trace, from, a, b, to, x, tid, fd, socket);
      }
    }
  }

  method Entries(trace: Trace, start: nat, x: Instance) returns (r: Outcome<set<nat>>, now: nat)
    ensures now >= start
    ensures r.Raised? ==> r.error != Denied
    ensures r.Done? ==> |r.value| <= 16384
    ensures r.Done? ==> forall tid :: ThreadThroughout(trace, start, now, x, tid) ==> tid in r.value
    ensures Still(trace, start) && Present(trace, start, x) && |trace.table(start)[x.pid].threads| <= MAX_PIDS ==>
              r == Done(trace.table(start)[x.pid].threads.Keys)
  {
    now := start;
    var _ :- Bound(trace, now);
    var tids;
    tids, now :- Tasks(trace, now, x);
    if |tids| > MAX_PIDS { return Raised(Refuse(CensusChanged)), now; }
    r := Done(tids);
  }

  lemma NoneHeldStays(trace: Trace, uid: nat, from: nat, a: nat, b: nat, to: nat, x: Instance, socket: nat)
    requires from <= a <= b <= to && NoneHeld(trace, uid, a, b, x, socket)
    ensures NoneHeld(trace, uid, from, to, x, socket)
  {
    forall tid
      ensures ThreadClear(trace, uid, from, to, x, tid, socket)
    {
      ThreadClearStays(trace, uid, from, a, b, to, x, tid, socket);
    }
  }

  /** A process pinned and identified where nothing moves. */
  ghost predicate QuietRead(
    trace: Trace, uid: nat, at: nat, x: Instance, handle: Instance, before: Identity, socket: nat)
  {
    Quiet(trace, uid, at, x, socket) && handle == x && before == trace.table(at)[x.pid].identity
  }

  lemma QuietReadStays(
    trace: Trace, uid: nat, a: nat, b: nat, x: Instance, handle: Instance, before: Identity, socket: nat)
    requires a <= b && QuietRead(trace, uid, a, x, handle, before, socket)
    ensures QuietRead(trace, uid, b, x, handle, before, socket)
    ensures Still(trace, b) && Present(trace, b, x) && Alive(trace, b, x) && !trace.failing(b)
    ensures trace.table(b) == trace.table(a)
    ensures trace.table(b)[x.pid].threads.Keys != {} && |trace.table(b)[x.pid].threads| <= MAX_PIDS
  {
    StillLater(trace, a, b);
    assert trace.table(b)[x.pid].threads != map[];
  }

  /** The threads read so far decide `found`, and the next one may be read. */
  lemma QuietNext(
    trace: Trace, uid: nat, at: nat, x: Instance, tid: nat, handle: Instance, before: Identity, socket: nat,
    done: set<nat>, seen: set<nat>, found: bool)
    requires QuietRead(trace, uid, at, x, handle, before, socket)
    requires tid in trace.table(at)[x.pid].threads && (found <==> x.pid in seen)
    requires found <==> HasSocketAmong(trace.table(at)[x.pid], done, socket)
    ensures QuietThread(trace, uid, at, x, tid, handle, before, socket, seen, found)
    ensures var p := trace.table(at)[x.pid];
            && HasSocketAmong(p, done + {tid}, socket) == (found || Shows(p.threads[tid], socket))
            && (Shows(p.threads[tid], socket) ==> HasSocket(p, socket))
  {
    hide Shows;
  }

  ghost predicate ThreadsClear(
    trace: Trace, uid: nat, from: nat, to: nat, x: Instance, tids: set<nat>, socket: nat)
  {
    forall tid :: tid in tids ==> ThreadClear(trace, uid, from, to, x, tid, socket)
  }

  lemma ThreadsClearMore(
    trace: Trace, uid: nat, from: nat, a: nat, b: nat, x: Instance, tids: set<nat>, tid: nat, socket: nat)
    requires from <= a <= b && ThreadsClear(trace, uid, from, a, x, tids, socket)
    requires ThreadClear(trace, uid, from, b, x, tid, socket)
    ensures ThreadsClear(trace, uid, from, b, x, tids + {tid}, socket)
  {
    forall other | other in tids
      ensures ThreadClear(trace, uid, from, b, x, other, socket)
    {
      ThreadClearStays(trace, uid, from, from, a, b, x, other, socket);
    }
  }

  ghost predicate ThreadsRead(
    trace: Trace, uid: nat, from: nat, to: nat, x: Instance, tids: set<nat>, socket: nat)
  {
    forall tid :: tid in tids ==> ThreadRead(trace, uid, from, to, x, tid, socket)
  }

  lemma ThreadReadStays(
    trace: Trace, uid: nat, from: nat, a: nat, b: nat, to: nat, x: Instance, tid: nat, socket: nat)
    requires from <= a && b <= to && ThreadRead(trace, uid, a, b, x, tid, socket)
    ensures ThreadRead(trace, uid, from, to, x, tid, socket)
  {
    hide ReadThreadIdentity, NothingKept, Unreadable;
    var c: nat, d: nat, id :|
      a <= c <= d <= b && ThreadFramed(trace, a, c, d, b, x, tid, id)
      && (NothingKept(trace, c, d, x, tid, socket) || (Unreadable(trace, c, d, x, tid) && Foreign(id, uid)));
    ReadThreadIdentityStays(trace, a, c, from, c, x, tid, id);
    ReadThreadIdentityStays(trace, d, b, d, to, x, tid, id);
    assert ThreadFramed(trace, from, c, d, to, x, tid, id);
  }

  lemma ThreadsReadMore(
    trace: Trace, uid: nat, from: nat, a: nat, b: nat, x: Instance, tids: set<nat>, tid: nat, socket: nat)
    requires from <= a <= b && ThreadsRead(trace, uid, from, a, x, tids, socket)
    requires ThreadRead(trace, uid, a, b, x, tid, socket)
    ensures ThreadsRead(trace, uid, from, b, x, tids + {tid}, socket)
  {
    hide ThreadRead;
    forall other | other in tids
      ensures ThreadRead(trace, uid, from, b, x, other, socket)
    {
      ThreadReadStays(trace, uid, from, from, a, b, x, other, socket);
    }
    ThreadReadStays(trace, uid, from, a, b, b, x, tid, socket);
  }

  lemma NoThreadsYet(trace: Trace, uid: nat, from: nat, start: nat, x: Instance, socket: nat)
    ensures ThreadsClear(trace, uid, from, start, x, {}, socket) && ThreadsRead(trace, uid, start, start, x, {}, socket)
  {
  }

  /** The listed threads, one after the other. */
  method ReadThreads(
    trace: Trace, uid: nat, ghost from: nat, start: nat, x: Instance, handle: Instance,
    before: Identity, socket: nat, seen0: set<nat>, tids: set<nat>)
    returns (r: Outcome<Progress>, now: nat, seen: set<nat>, found: bool)
    requires from <= start && ReadIdentity(trace, from, start, x, before)
    requires x.pid !in seen0
    ensures now >= start
    ensures Noted(x.pid, seen0, false, seen, found)
    ensures found ==> Held(trace, start, now, x, socket)
    ensures r.Raised? ==> r.error != Denied
    ensures r == Done(ProcessExited) ==> !found && NotAlive(trace, start, now, handle)
    ensures r == Done(Continue) && !found ==>
              && ThreadsClear(trace, uid, from, now, x, tids, socket)
              && ThreadsRead(trace, uid, start, now, x, tids, socket)
    ensures
      QuietRead(trace, uid, start, x, handle, before, socket) && tids == trace.table(start)[x.pid].threads.Keys ==>
        Tells(HasSocket(trace.table(start)[x.pid], socket), x.pid, r, seen0, false, seen, found)
  {
    seen, found, now := seen0, false, start;
    ghost var quiet :=
      QuietRead(trace, uid, start, x, handle, before, socket) && tids == trace.table(start)[x.pid].threads.Keys;
    hide QuietRead, QuietThread, Still, Alive, Present, Shows, ReadIdentity, Held, Plain, Foreign, ThreadClear;
    hide NotAlive, ThreadsClear, ThreadRead, ThreadsRead;
    NoThreadsYet(trace, uid, from, start, x, socket);
    r := Done(Continue);
    assert tids - tids == {};
    var left := tids;
    while r == Done(Continue) && left != {}
      invariant start <= now && left <= tids
      invariant Noted(x.pid, seen0, false, seen, found)
      invariant found ==> Held(trace, start, now, x, socket)
      invariant r.Raised? ==> r.error != Denied
      invariant r == Done(ProcessExited) ==> !found && NotAlive(trace, start, now, handle)
      invariant r == Done(Continue) && !found ==>
                  && ThreadsClear(trace, uid, from, now, x, tids - left, socket)
                  && ThreadsRead(trace, uid, start, now, x, tids - left, socket)
      invariant quiet ==> ReadSoFar(trace.table(start)[x.pid], tids - left, socket, x.pid, r, seen0, seen, found)
      decreases left
    {
      ghost var earlier, seen1, found1, done := now, seen, found, tids - left;
      var tid :| tid in left;
      left := left - {tid};
      assert done + {tid} == tids - left;
      if quiet {
        QuietReadStays(trace, uid, start, now, x, handle, before, socket);
        QuietNext(trace, uid, now, x, tid, handle, before, socket, done, seen, found);
      }
      ReadIdentityStays(trace, from, start, from, now, x, before);
      var fails: bool := *;
      if fails && trace.failing(now) {
        var e := Failure();
        r := Raised(e);
      } else {
        r, now, seen, found := ScanThread(trace, uid, from, now, x, tid, handle, before, socket, seen, found);
      }
      NotedTwice(x.pid, seen0, false, seen1, found1, seen, found);
      NotedInOne(x.pid, seen0, seen, found);
      ObservedStays(trace, start, earlier, now, x, handle, socket);
      if r == Done(Continue) && !found {
        ThreadsClearMore(trace, uid, from, earlier, now, x, done, tid, socket);
        ThreadsReadMore(trace, uid, start, earlier, now, x, done, tid, socket);
      }
    }
    assert tids - {} == tids;
  }

  ghost predicate ReadSoFar(
    p: Process, done: set<nat>, socket: nat, pid: nat, r: Outcome<Progress>, seen0: set<nat>, seen: set<nat>,
    found: bool)
  {
    if r == Done(Continue) then found <==> HasSocketAmong(p, done, socket)
    else r == Raised(Refuse(MultipleOwners)) && HasSocket(p, socket) && seen0 != {}
  }

  /** What was observed over a part of a window was observed over the window. */
  lemma ObservedStays(trace: Trace, start: nat, mid: nat, to: nat, x: Instance, handle: Instance, socket: nat)
    requires start <= mid <= to
    ensures Held(trace, start, mid, x, socket) ==> Held(trace, start, to, x, socket)
    ensures Held(trace, mid, to, x, socket) ==> Held(trace, start, to, x, socket)
    ensures NotAlive(trace, mid, to, handle) ==> NotAlive(trace, start, to, handle)
  {
  }

  /** All threads, between two equal listings of them. */
  method ScanThreads(
    trace: Trace, uid: nat, ghost from: nat, start: nat, x: Instance, handle: Instance,
    before: Identity, socket: nat, seen0: set<nat>)
    returns (r: Outcome<Progress>, now: nat, seen: set<nat>, found: bool, ghost empty: bool)
    requires from <= start && ReadIdentity(trace, from, start, x, before)
    requires x.pid !in seen0
    ensures now >= start
    ensures Noted(x.pid, seen0, false, seen, found)
    ensures found ==> Held(trace, start, now, x, socket)
    ensures r.Raised? ==> r.error != Denied
    ensures r == Done(ProcessExited) ==> !found && NotAlive(trace, start, now, handle)
    ensures r == Done(Continue) && !found ==>
              NoneHeld(trace, uid, from, now, x, socket) && AllThreadsRead(trace, uid, start, now, x, socket)
    ensures empty ==> r != Done(Continue) && (r == Raised(Refuse(FdListUnavailable)) ==> Alive(trace, now, handle))
    ensures QuietRead(trace, uid, start, x, handle, before, socket) ==>
              Tells(HasSocket(trace.table(start)[x.pid], socket), x.pid, r, seen0, false, seen, found)
  {
    hide QuietRead, Still, Alive, Present, HasSocket, ReadIdentity, Held, NotAlive, ThreadsClear, ThreadsRead, NoneHeld;
    hide AllThreadsRead, Noted;
    NotedNothing(x.pid, seen0, false);
    seen, found, now, empty := seen0, false, start, false;
    ghost var quiet := QuietRead(trace, uid, start, x, handle, before, socket);
    if quiet { QuietReadStays(trace, uid, start, now, x, handle, before, socket); }
    var tids;
    tids, now :- Entries(trace, now, x);
    ghost var listed := now;
    if tids == {} {
      empty := true;
      var exit;
      exit, now := Exited(trace, now, x.pid, Some(handle));
      AliveOrNot(trace, start, now, handle);
      var gone :- (exit);
      return if gone then Done(ProcessExited) else Raised(Refuse(FdListUnavailable)), now, seen, found, empty;
    }
    if quiet { QuietReadStays(trace, uid, start, now, x, handle, before, socket); }
    ReadIdentityStays(trace, from, start, from, now, x, before);
    var step;
    step, now, seen, found := ReadThreads(trace, uid, from, now, x, handle, before, socket, seen, tids);
    ObservedStays(trace, start, listed, now, x, handle, socket);
    if step.Raised? || step.value.ProcessExited? { return step, now, seen, found, empty; }
    ghost var read := now;
    if !found { NothingWasKept(trace, uid, from, start, listed, read, x, tids, socket); }
    if quiet { QuietReadStays(trace, uid, start, now, x, handle, before, socket); }
    var last;
    last, now := Entries(trace, now, x);
    ObservedStays(trace, start, read, now, x, handle, socket);
    var after :- (last);
    if tids != after { return Raised(Refuse(CensusChanged)), now, seen, found, empty; }
    if !found {
      NoneHeldStays(trace, uid, from, from, read, now, x, socket);
      AllWereRead(trace, uid, start, listed, read, now, x, tids, socket);
    }
    r := Done(Continue);
  }

  lemma AllWereRead(
    trace: Trace, uid: nat, from: nat, a: nat, read: nat, to: nat, x: Instance, tids: set<nat>, socket: nat)
    requires from <= a <= read <= to && ThreadsRead(trace, uid, a, read, x, tids, socket)
    requires forall tid :: ThreadThroughout(trace, read, to, x, tid) ==> tid in tids
    ensures AllThreadsRead(trace, uid, from, to, x, socket)
  {
    hide ThreadRead, ThreadThroughout;
    forall tid | ThreadThroughout(trace, read, to, x, tid)
      ensures ThreadRead(trace, uid, from, to, x, tid, socket)
    {
      ThreadReadStays(trace, uid, from, a, read, to, x, tid, socket);
    }
    assert ThreadsReadBy(trace, uid, from, read, to, x, socket);
  }

  /** The socket was seen in the process between two readings of one and the same identity, the second of them
      of a process still alive. */
  ghost predicate Bracketed(trace: Trace, from: nat, to: nat, x: Instance, id: Identity, socket: nat) {
    exists a: nat, b: nat, c: nat ::
      from <= a <= b <= c <= to && Framed(trace, from, a, c, to, x, id) && Held(trace, a, b, x, socket)
  }

  lemma FramedStays(
    trace: Trace, a: nat, c: nat, d: nat, b: nat, from: nat, to: nat, x: Instance, id: Identity)
    requires from <= a && b <= to && Framed(trace, a, c, d, b, x, id)
    ensures Framed(trace, from, c, d, to, x, id)
  {
    ReadIdentityStays(trace, a, c, from, c, x, id);
    ReadIdentityStays(trace, d, b, d, to, x, id);
    hide ReadIdentity;
  }

  lemma BracketedStays(trace: Trace, a: nat, b: nat, from: nat, to: nat, x: Instance, id: Identity, socket: nat)
    requires from <= a && b <= to && Bracketed(trace, a, b, x, id, socket)
    ensures Bracketed(trace, from, to, x, id, socket)
  {
    hide Framed, Held;
    var c: nat, e: nat, d: nat :|
      a <= c <= e <= d <= b && Framed(trace, a, c, d, b, x, id) && Held(trace, c, e, x, socket);
    FramedStays(trace, a, c, d, b, from, to, x, id);
  }

  lemma BracketedIsHeld(trace: Trace, from: nat, to: nat, x: Instance, id: Identity, socket: nat)
    requires Bracketed(trace, from, to, x, id, socket)
    ensures Held(trace, from, to, x, socket) && ReadIdentity(trace, from, to, x, id)
  {
    hide ReadIdentity;
    var a: nat, b: nat, c: nat :|
      from <= a <= b <= c <= to && Framed(trace, from, a, c, to, x, id) && Held(trace, a, b, x, socket);
    ReadIdentityStays(trace, from, a, from, to, x, id);
  }

  /** A pinned process: its threads, and then that it is still there and still what it was. Only then is a
      socket found in it worth an owner. */
  method ReadPinned(
    trace: Trace, uid: nat, ghost from: nat, ghost pinned: nat, start: nat, x: Instance, handle: Instance,
    before: Identity, socket: nat, seen0: set<nat>)
    returns (r: Outcome<()>, now: nat, seen: set<nat>, found: bool, ghost through: bool)
    requires from <= pinned <= start && Present(trace, from, x) && ReadIdentity(trace, pinned, start, x, before)
    requires handle.pid == x.pid && Present(trace, pinned, handle) && x.pid !in seen0
    ensures now >= start
    ensures Noted(x.pid, seen0, false, seen, found)
    ensures r.Raised? ==> r.error != Denied
    ensures r.Done? && !found ==> FullyRead(trace, uid, from, now, x, socket)
    ensures r.Done? && found ==> Bracketed(trace, from, now, x, before, socket)
    ensures through && r == Raised(Refuse(ProcessChanged)) && !found ==> AliveOnce(trace, start, now, handle)
    ensures QuietRead(trace, uid, start, x, handle, before, socket) ==>
              if HasSocket(trace.table(start)[x.pid], socket) && seen0 != {} then r == Raised(Refuse(MultipleOwners))
              else r == Done(()) && found == HasSocket(trace.table(start)[x.pid], socket)
  {
    hide QuietRead, Still, HasSocket, ReadIdentity, Held, NotAlive, Alive, Present, Noted, NoneHeld, FullyRead;
    hide AllThreadsRead, Bracketed;
    ghost var quiet := QuietRead(trace, uid, start, x, handle, before, socket);
    SameHandle(trace, from, pinned, start, x, handle, before);
    ReadIdentityStays(trace, pinned, start, from, start, x, before);
    var step;
    ghost var empty;
    through := false;
    step, now, seen, found, empty := ScanThreads(trace, uid, from, start, x, handle, before, socket, seen0);
    NotedInOne(x.pid, seen0, seen, found);
    if step.Raised? { return Raised(step.error), now, seen, found, through; }
    through := true;
    ghost var read := now;
    if quiet { QuietReadStays(trace, uid, start, now, x, handle, before, socket); }
    var gone := step.value.ProcessExited?;
    if !gone && !found {
      gone, now :- Exited(trace, now, x.pid, Some(handle));
      AliveOrNot(trace, start, now, handle);
      if quiet { QuietReadStays(trace, uid, start, now, x, handle, before, socket); }
    }
    if gone {
      NotAliveStays(trace, pinned, start, now, handle);
      ExitReads(trace, uid, from, pinned, now, x, handle, socket);
      return Done(()), now, seen, found, through;
    }
    ghost var looked := now;
    var live, again;
    live, now := Live(trace, now, handle);
    AliveOnceStays(trace, start, looked, now, handle);
    if quiet { QuietReadStays(trace, uid, start, now, x, handle, before, socket); }
    if !live { return Raised(Refuse(ProcessChanged)), now, seen, found, through; }
    ghost var checking := now;
    AliveOrNot(trace, start, checking, handle);
    var reading;
    reading, now := ProcessIdentity(trace, now, x);
    AliveOnceStays(trace, start, checking, now, handle);
    again :- (reading);
    if before != again { return Raised(Refuse(ProcessChanged)), now, seen, found, through; }
    assert Framed(trace, from, start, checking, now, x, before);
    if found {
      SeenInside(trace, from, start, read, checking, now, x, before, socket);
    } else {
      NoneHeldStays(trace, uid, from, from, read, now, x, socket);
      ReadInside(trace, uid, from, start, read, checking, now, x, before, socket);
    }
    r := Done(());
  }

  /** A process that is there before and after a handle on its PID is taken is the one the handle is on. */
  lemma SameHandle(trace: Trace, from: nat, pinned: nat, to: nat, x: Instance, handle: Instance, id: Identity)
    requires from <= pinned && Present(trace, from, x) && Present(trace, pinned, handle) && x.pid == handle.pid
    requires ReadIdentity(trace, pinned, to, x, id)
    ensures handle == x
  {
    var t: nat :| pinned <= t <= to && Present(trace, t, x) && trace.table(t)[x.pid].identity.ruid == id.ruid
      && trace.table(t)[x.pid].identity.euid == id.euid;
    assert InOrder(from, pinned, t);
    assert Present(trace, pinned, x);
  }

  lemma SeenInside(
    trace: Trace, from: nat, a: nat, b: nat, c: nat, to: nat, x: Instance, id: Identity, socket: nat)
    requires from <= a <= b <= c <= to && Framed(trace, from, a, c, to, x, id) && Held(trace, a, b, x, socket)
    ensures Bracketed(trace, from, to, x, id, socket)
  {
    hide Framed, Held;
  }

  lemma ReadInside(
    trace: Trace, uid: nat, from: nat, a: nat, b: nat, c: nat, to: nat, x: Instance, id: Identity, socket: nat)
    requires from <= a <= b <= c <= to && Framed(trace, from, a, c, to, x, id) && Present(trace, from, x)
    requires AllThreadsRead(trace, uid, a, b, x, socket) && NoneHeld(trace, uid, from, to, x, socket)
    ensures FullyRead(trace, uid, from, to, x, socket)
  {
    hide Framed, AllThreadsRead, NoneHeld;
    assert WholeRead(trace, uid, from, to, x, socket);
  }

  /** A process that ended while it was read is settled. */
  lemma ExitReads(
    trace: Trace, uid: nat, from: nat, opened': nat, to: nat, x: Instance, handle: Instance, socket: nat)
    requires from <= opened' <= to && Present(trace, from, x)
    requires handle.pid == x.pid && Present(trace, opened', handle) && NotAlive(trace, opened', to, handle)
    ensures FullyRead(trace, uid, from, to, x, socket)
  {
    ExitClears(trace, uid, from, opened', to, x, handle, socket);
    hide NoneHeld, WholeRead;
    var t: nat :| opened' <= t <= to && !Alive(trace, t, handle);
    assert DepartedBetween(trace, from, if handle == x then t else opened', x);
  }

  lemma FullyReadStays(trace: Trace, uid: nat, from: nat, a: nat, b: nat, x: Instance, socket: nat)
    requires from <= a && FullyRead(trace, uid, a, b, x, socket)
    ensures FullyRead(trace, uid, from, b, x, socket)
  {
    hide NoneHeld, WholeRead, Departed;
  }

  lemma NotAliveStays(trace: Trace, a: nat, b: nat, to: nat, x: Instance)
    requires a <= b <= to
    ensures NotAlive(trace, b, to, x) ==> NotAlive(trace, a, to, x)
    ensures NotAlive(trace, a, b, x) ==> NotAlive(trace, a, to, x)
  {
  }

  ghost predicate QuietPid(trace: Trace, uid: nat, at: nat, pid: nat, socket: nat) {
    pid in trace.table(at) && Quiet(trace, uid, at, Instance(pid, trace.table(at)[pid].inode), socket)
  }

  lemma QuietPidStays(trace: Trace, uid: nat, a: nat, b: nat, pid: nat, socket: nat)
    requires a <= b && QuietPid(trace, uid, a, pid, socket)
    ensures pid in trace.table(b) && trace.table(b) == trace.table(a) && Still(trace, b) && !trace.failing(b)
    ensures var x := Instance(pid, trace.table(b)[pid].inode);
            && QuietRead(trace, uid, b, x, x, trace.table(b)[pid].identity, socket)
            && Present(trace, b, x) && Alive(trace, b, x)
  {
    StillLater(trace, a, b);
  }

  /** What reading one process comes to where nothing moves. */
  ghost predicate ScanTells(
    p: Process, socket: nat, pid: nat, r: Outcome<Instance>, seen0: set<nat>, seen: set<nat>, owners: map<nat, Owner>)
  {
    if HasSocket(p, socket) && seen0 != {} then r == Raised(Refuse(MultipleOwners))
    else
      && r == Done(Instance(pid, p.inode))
      && if HasSocket(p, socket) then seen == {pid} && pid in owners && owners[pid].identity == p.identity
         else seen == seen0
  }

  /** One process. The instance read is returned, because the PID may by now name another one than
      was listed. It becomes an owner only when its lifetime was still unbroken. */
  method Scan(
    trace: Trace, uid: nat, start: nat, pid: nat, socket: nat, seen0: set<nat>, owners0: map<nat, Owner>)
    returns (r: Outcome<Instance>, now: nat, seen: set<nat>, owners: map<nat, Owner>)
    requires pid !in seen0
    ensures now >= start
    ensures seen == seen0 || (seen0 == {} && seen == {pid})
    ensures r.Raised? ==> owners == owners0 && r.error != Denied
    ensures r.Done? ==> r.value.pid == pid && Seen(trace, start, now, r.value)
    ensures r.Done? && seen == seen0 ==>
              owners == owners0 && FullyRead(trace, uid, start, now, r.value, socket)
    ensures r.Done? && seen != seen0 ==>
              && pid in owners && owners == owners0[pid := owners[pid]] && owners[pid].instance == r.value
              && Bracketed(trace, start, now, r.value, owners[pid].identity, socket)
    ensures QuietPid(trace, uid, start, pid, socket) ==>
              ScanTells(trace.table(start)[pid], socket, pid, r, seen0, seen, owners)
  {
    hide QuietPid, QuietRead, Still, HasSocket, ReadIdentity, Held, NotAlive, Alive, Noted, Bracketed, FullyRead;
    seen, owners, now := seen0, owners0, start;
    ghost var quiet := QuietPid(trace, uid, start, pid, socket);
    if quiet { QuietPidStays(trace, uid, start, now, pid, socket); }
    var x;
    x, now :- OpenProcess(trace, now, pid);
    ghost var from := now;
    if quiet { QuietPidStays(trace, uid, start, now, pid, socket); }
    var before, handle, live, again;
    before, now :- ProcessIdentity(trace, now, x);
    if quiet { QuietPidStays(trace, uid, start, now, pid, socket); }
    handle, now :- OpenPidfd(trace, now, pid);
    ghost var pinned := now;
    if quiet { QuietPidStays(trace, uid, start, now, pid, socket); }
    live, now := Live(trace, now, handle);
    if quiet { QuietPidStays(trace, uid, start, now, pid, socket); }
    if !live {
      NotLive(trace, pinned, now, handle);
      ExitReads(trace, uid, from, pinned, now, x, handle, socket);
      FullyReadStays(trace, uid, start, from, now, x, socket);
      return Done(x), now, seen, owners;
    }
    ghost var reading := now;
    again, now :- ProcessIdentity(trace, now, x);
    if before != again { return Raised(Refuse(ProcessChanged)), now, seen, owners; }
    if quiet { QuietPidStays(trace, uid, start, now, pid, socket); }
    ReadIdentityStays(trace, reading, now, pinned, now, x, before);
    var read, found;
    ghost var through;
    read, now, seen, found, through := ReadPinned(trace, uid, from, pinned, now, x, handle, before, socket, seen);
    NotedInOne(pid, seen0, seen, found);
    if read.Raised? { return Raised(read.error), now, seen, owners; }
    if found {
      BracketedStays(trace, from, now, start, now, x, before, socket);
      owners := owners[pid := Owner(x, before)];
    } else {
      FullyReadStays(trace, uid, start, from, now, x, socket);
    }
    r := Done(x);
  }

  lemma NotLive(trace: Trace, from: nat, to: nat, x: Instance)
    requires from <= to && !Alive(trace, to, x)
    ensures NotAlive(trace, from, to, x)
  {
  }

  lemma NothingWasKept(
    trace: Trace, uid: nat, from: nat, listing: nat, listed: nat, to: nat, x: Instance, tids: set<nat>, socket: nat)
    requires from <= listing <= listed <= to
    requires forall tid :: ThreadThroughout(trace, listing, listed, x, tid) ==> tid in tids
    requires ThreadsClear(trace, uid, from, to, x, tids, socket)
    ensures NoneHeld(trace, uid, from, to, x, socket)
  {
    forall tid, fd | HoldsThroughout(trace, from, to, x, tid, fd, socket)
      ensures tid in tids
    {
      HeldFdIsThere(trace, from, to, x, tid, fd, socket);
      assert ThreadThroughout(trace, listing, listed, x, tid);
    }
  }

  // ----- one attempt ------------------------------------------------------------------------

  /** How the attempt has dealt with an instance it once listed. */
  ghost predicate Accounted(
    trace: Trace, uid: nat, from: nat, to: nat, x: Instance, socket: nat, owners: map<nat, Owner>)
  {
    || Cleared(trace, uid, from, to, x, socket)
    || (x.pid in owners && owners[x.pid].instance == x)
  }

  ghost predicate OwnersHold(
    trace: Trace, from: nat, to: nat, socket: nat, seen: set<nat>, owners: map<nat, Owner>, read: map<nat, nat>)
  {
    && seen == owners.Keys && |seen| <= 1
    && forall pid :: pid in owners ==>
         && pid in read && owners[pid].instance == Instance(pid, read[pid])
         && Bracketed(trace, from, to, Instance(pid, read[pid]), owners[pid].identity, socket)
  }

  ghost predicate ReadsClear(
    trace: Trace, uid: nat, from: nat, to: nat, socket: nat, owners: map<nat, Owner>, read: map<nat, nat>)
  {
    forall pid :: pid in read && pid !in owners ==> Cleared(trace, uid, from, to, Instance(pid, read[pid]), socket)
  }

  ghost predicate NoneForgotten(
    trace: Trace, uid: nat, from: nat, to: nat, socket: nat, owners: map<nat, Owner>,
    unresolved: map<nat, nat>, listed: set<Instance>)
  {
    && AllSeen(trace, from, to, unresolved)
    && forall x :: x in listed ==>
         || Accounted(trace, uid, from, to, x, socket, owners)
         || (x.pid in unresolved && unresolved[x.pid] == x.inode)
  }

  /** What holds of an attempt between two reads. */
  ghost predicate AttemptState(
    trace: Trace, uid: nat, from: nat, to: nat, socket: nat, seen: set<nat>, owners: map<nat, Owner>,
    read: map<nat, nat>, unresolved: map<nat, nat>, ever: set<Instance>)
  {
    && OwnersHold(trace, from, to, socket, seen, owners, read)
    && ReadsClear(trace, uid, from, to, socket, owners, read)
    && NoneForgotten(trace, uid, from, to, socket, owners, unresolved, ever)
  }

  lemma OwnersHoldStays(
    trace: Trace, from: nat, a: nat, b: nat, socket: nat, seen: set<nat>, owners: map<nat, Owner>, read: map<nat, nat>)
    requires from <= a <= b && OwnersHold(trace, from, a, socket, seen, owners, read)
    ensures OwnersHold(trace, from, b, socket, seen, owners, read)
  {
    hide Bracketed;
    forall pid | pid in owners
      ensures Bracketed(trace, from, b, owners[pid].instance, owners[pid].identity, socket)
    {
      BracketedStays(trace, from, a, from, b, owners[pid].instance, owners[pid].identity, socket);
    }
  }

  lemma AttemptStateStays(
    trace: Trace, uid: nat, from: nat, a: nat, b: nat, socket: nat, seen: set<nat>, owners: map<nat, Owner>,
    read: map<nat, nat>, unresolved: map<nat, nat>, ever: set<Instance>)
    requires from <= a <= b
    requires AttemptState(trace, uid, from, a, socket, seen, owners, read, unresolved, ever)
    ensures AttemptState(trace, uid, from, b, socket, seen, owners, read, unresolved, ever)
  {
    OwnersHoldStays(trace, from, a, b, socket, seen, owners, read);
    hide OwnersHold;
    forall x: Instance | Cleared(trace, uid, from, a, x, socket)
      ensures Cleared(trace, uid, from, b, x, socket)
    {
      ClearedStays(trace, uid, from, from, a, b, x, socket);
    }
  }

  function Lookup(m: map<nat, nat>, pid: nat): Option<nat> {
    if pid in m then Some(m[pid]) else None
  }

  lemma ForgottenStays(
    trace: Trace, uid: nat, from: nat, a: nat, b: nat, socket: nat, owners: map<nat, Owner>,
    unresolved: map<nat, nat>, listed: set<Instance>)
    requires from <= a <= b && NoneForgotten(trace, uid, from, a, socket, owners, unresolved, listed)
    ensures NoneForgotten(trace, uid, from, b, socket, owners, unresolved, listed)
  {
    forall x: Instance | Cleared(trace, uid, from, a, x, socket)
      ensures Cleared(trace, uid, from, b, x, socket)
    {
      ClearedStays(trace, uid, from, from, a, b, x, socket);
    }
  }

  lemma DropSettled(
    trace: Trace, uid: nat, from: nat, to: nat, socket: nat, owners: map<nat, Owner>,
    unresolved: map<nat, nat>, ever: set<Instance>, pid: nat)
    requires NoneForgotten(trace, uid, from, to, socket, owners, unresolved, ever) && pid in unresolved
    requires Accounted(trace, uid, from, to, Instance(pid, unresolved[pid]), socket, owners)
    ensures NoneForgotten(trace, uid, from, to, socket, owners, unresolved - {pid}, ever)
  {
  }

  lemma DropDeparted(
    trace: Trace, uid: nat, from: nat, a: nat, b: nat, socket: nat, owners: map<nat, Owner>,
    unresolved: map<nat, nat>, ever: set<Instance>, pid: nat)
    requires from <= a <= b && NoneForgotten(trace, uid, from, a, socket, owners, unresolved, ever)
    requires pid in unresolved && NotAlive(trace, a, b, Instance(pid, unresolved[pid]))
    ensures NoneForgotten(trace, uid, from, b, socket, owners, unresolved - {pid}, ever)
  {
    ForgottenStays(trace, uid, from, a, b, socket, owners, unresolved, ever);
    SeenThenNotAlive(trace, from, a, b, Instance(pid, unresolved[pid]));
    DropSettled(trace, uid, from, b, socket, owners, unresolved, ever, pid);
  }

  lemma DropReplaced(
    trace: Trace, uid: nat, from: nat, a: nat, b: nat, socket: nat, owners: map<nat, Owner>,
    unresolved: map<nat, nat>, ever: set<Instance>, pid: nat, inode: nat)
    requires from <= a <= b && NoneForgotten(trace, uid, from, b, socket, owners, unresolved, ever)
    requires pid in unresolved && Seen(trace, from, a, Instance(pid, unresolved[pid]))
    requires inode != unresolved[pid] && Seen(trace, a, b, Instance(pid, inode))
    ensures NoneForgotten(trace, uid, from, b, socket, owners, unresolved - {pid}, ever)
  {
    ReusedPidMeansNotAlive(trace, a, b, Instance(pid, unresolved[pid]), Instance(pid, inode));
    SeenThenNotAlive(trace, from, a, b, Instance(pid, unresolved[pid]));
    DropSettled(trace, uid, from, b, socket, owners, unresolved, ever, pid);
  }

  /** An unresolved instance that the new listing does not show must have ended: either the PID
      names another process, or a direct look confirms the exit. */
  method ResolveOne(
    trace: Trace, uid: nat, ghost from: nat, ghost listing: nat, start: nat, socket: nat,
    listed: map<nat, nat>, unresolved0: map<nat, nat>, ghost owners: map<nat, Owner>, ghost ever: set<Instance>,
    pid: nat)
    returns (r: Outcome<()>, now: nat, unresolved: map<nat, nat>)
    requires from <= listing <= start && pid in unresolved0
    requires NoneForgotten(trace, uid, from, start, socket, owners, unresolved0, ever)
    requires Seen(trace, from, listing, Instance(pid, unresolved0[pid]))
    requires Lookup(listed, pid) != Some(unresolved0[pid])
    requires pid in listed ==> Seen(trace, listing, start, Instance(pid, listed[pid]))
    ensures now >= start
    ensures r.Raised? ==> r.error != Denied
    ensures r.Done? ==>
              && NoneForgotten(trace, uid, from, now, socket, owners, unresolved, ever)
              && unresolved == unresolved0 - {pid}
  {
    now, unresolved := start, unresolved0;
    if pid in listed {
      DropReplaced(trace, uid, from, listing, now, socket, owners, unresolved, ever, pid, listed[pid]);
    } else {
      var gone;
      gone, now :- Exited(trace, now, pid, None);
      if !gone { return Raised(Refuse(CensusChanged)), now, unresolved; }
      DropDeparted(trace, uid, from, start, now, socket, owners, unresolved, ever, pid);
    }
    unresolved := unresolved - {pid};
    r := Done(());
  }

  ghost predicate StillListed(unresolved: map<nat, nat>, listed: map<nat, nat>) {
    forall pid :: pid in unresolved ==> Lookup(listed, pid) == Some(unresolved[pid])
  }

  ghost predicate AllSeen(trace: Trace, from: nat, to: nat, instances: map<nat, nat>) {
    forall pid :: pid in instances ==> Seen(trace, from, to, Instance(pid, instances[pid]))
  }

  method Resolve(
    trace: Trace, uid: nat, ghost from: nat, ghost listing: nat, start: nat, socket: nat,
    listed: map<nat, nat>, unresolved0: map<nat, nat>, ghost owners: map<nat, Owner>, ghost ever: set<Instance>)
    returns (r: Outcome<()>, now: nat, unresolved: map<nat, nat>)
    requires from <= listing <= start
    requires NoneForgotten(trace, uid, from, start, socket, owners, unresolved0, ever)
    requires AllSeen(trace, from, listing, unresolved0) && AllSeen(trace, listing, start, listed)
    ensures now >= start
    ensures r.Raised? ==> r.error != Denied
    ensures r.Done? ==> NoneForgotten(trace, uid, from, now, socket, owners, unresolved, ever)
    ensures r.Done? ==> StillListed(unresolved, listed)
    ensures unresolved0 == map[] ==> r == Done(()) && unresolved == map[]
  {
    now, unresolved := start, unresolved0;
    var stale := set pid | pid in unresolved0 && Lookup(listed, pid) != Some(unresolved0[pid]);
    while stale != {}
      invariant start <= now
      invariant stale <= unresolved.Keys <= unresolved0.Keys
      invariant forall pid :: pid in unresolved ==> (pid in stale <==> Lookup(listed, pid) != Some(unresolved[pid]))
      invariant AllSeen(trace, from, listing, unresolved)
      invariant NoneForgotten(trace, uid, from, now, socket, owners, unresolved, ever)
    {
      var pid :| pid in stale;
      stale := stale - {pid};
      var one;
      one, now, unresolved := ResolveOne(trace, uid, from, listing, now, socket, listed, unresolved, owners, ever, pid);
      if one.Raised? { return one, now, unresolved; }
    }
    r := Done(());
  }

  lemma ReadsClearExtends(
    trace: Trace, uid: nat, from: nat, to: nat, socket: nat, seen: set<nat>, owners: map<nat, Owner>,
    read: map<nat, nat>, y: Instance)
    requires OwnersHold(trace, from, to, socket, seen, owners, read)
    requires ReadsClear(trace, uid, from, to, socket, owners, read)
    requires y.pid !in owners && Cleared(trace, uid, from, to, y, socket)
    ensures OwnersHold(trace, from, to, socket, seen, owners, read[y.pid := y.inode])
    ensures ReadsClear(trace, uid, from, to, socket, owners, read[y.pid := y.inode])
  {
    hide Bracketed, Cleared;
  }

  /** A read that completes settles the instance listed for the PID: either it is the one read, or
      the PID had already passed to another. */
  lemma ReadSettles(
    trace: Trace, uid: nat, from: nat, a: nat, b: nat, socket: nat, seen: set<nat>, owners: map<nat, Owner>,
    read: map<nat, nat>, unresolved: map<nat, nat>, ever: set<Instance>, x: Instance, y: Instance)
    requires from <= a <= b && x.pid == y.pid && x.pid in unresolved && unresolved[x.pid] == x.inode
    requires AttemptState(trace, uid, from, a, socket, seen, owners, read, unresolved, ever) && x.pid !in owners
    requires Seen(trace, a, b, y) && FullyRead(trace, uid, a, b, y, socket)
    ensures AttemptState(trace, uid, from, b, socket, seen, owners, read[x.pid := y.inode], unresolved - {x.pid}, ever)
  {
    AttemptStateStays(trace, uid, from, a, b, socket, seen, owners, read, unresolved, ever);
    ClearedStays(trace, uid, from, a, b, b, y, socket);
    ReadsClearExtends(trace, uid, from, b, socket, seen, owners, read, y);
    if x == y {
      DropSettled(trace, uid, from, b, socket, owners, unresolved, ever, x.pid);
    } else {
      DropReplaced(trace, uid, from, a, b, socket, owners, unresolved, ever, x.pid, y.inode);
    }
  }

  lemma OwnerSettles(
    trace: Trace, uid: nat, from: nat, a: nat, b: nat, socket: nat, owners: map<nat, Owner>,
    read: map<nat, nat>, unresolved: map<nat, nat>, ever: set<Instance>, x: Instance, y: Instance, owner: Owner)
    requires from <= a <= b && x.pid == y.pid && x.pid in unresolved && unresolved[x.pid] == x.inode
    requires AttemptState(trace, uid, from, a, socket, {}, owners, read, unresolved, ever)
    requires Seen(trace, a, b, y) && owner.instance == y && Bracketed(trace, a, b, y, owner.identity, socket)
    ensures AttemptState(
              trace, uid, from, b, socket, {x.pid}, owners[x.pid := owner], read[x.pid := y.inode],
              unresolved - {x.pid}, ever)
  {
    assert owners == map[];
    hide OwnersHold, ReadsClear, NoneForgotten, Bracketed;
    AttemptStateStays(trace, uid, from, a, b, socket, {}, owners, read, unresolved, ever);
    BracketedStays(trace, a, b, from, b, y, owner.identity, socket);
    assert Seen(trace, from, a, x) by {
      SeenSoFar(trace, from, a, a, unresolved, x.pid);
    }
    hide Seen;
    if x != y {
      DropReplaced(trace, uid, from, a, b, socket, owners, unresolved, ever, x.pid, y.inode);
    }
    OwnerHolds(trace, from, b, socket, read, y, owner);
    OwnerAccounts(trace, uid, from, b, socket, unresolved, ever, x, owner);
    OwnerClears(trace, uid, from, b, socket, read, y, owner);
    assert owners[x.pid := owner] == map[x.pid := owner];
  }

  lemma OwnerClears(
    trace: Trace, uid: nat, from: nat, to: nat, socket: nat, read: map<nat, nat>, y: Instance, owner: Owner)
    requires ReadsClear(trace, uid, from, to, socket, map[], read)
    ensures ReadsClear(trace, uid, from, to, socket, map[y.pid := owner], read[y.pid := y.inode])
  {
    hide Cleared;
  }

  lemma OwnerHolds(
    trace: Trace, from: nat, to: nat, socket: nat, read: map<nat, nat>, y: Instance, owner: Owner)
    requires owner.instance == y && Bracketed(trace, from, to, y, owner.identity, socket)
    ensures OwnersHold(trace, from, to, socket, {y.pid}, map[y.pid := owner], read[y.pid := y.inode])
  {
    hide Bracketed;
  }

  /** The listed instance is the owner, or had lost its PID to it. */
  lemma OwnerAccounts(
    trace: Trace, uid: nat, from: nat, to: nat, socket: nat, unresolved: map<nat, nat>, ever: set<Instance>,
    x: Instance, owner: Owner)
    requires NoneForgotten(trace, uid, from, to, socket, map[], unresolved, ever)
    requires x.pid in unresolved && unresolved[x.pid] == x.inode && owner.instance.pid == x.pid
    requires x == owner.instance || NoneForgotten(trace, uid, from, to, socket, map[], unresolved - {x.pid}, ever)
    ensures NoneForgotten(trace, uid, from, to, socket, map[x.pid := owner], unresolved - {x.pid}, ever)
  {
    hide Cleared, Seen;
  }

  lemma ExitSettles(
    trace: Trace, uid: nat, from: nat, a: nat, b: nat, socket: nat, seen: set<nat>, owners: map<nat, Owner>,
    read: map<nat, nat>, unresolved: map<nat, nat>, ever: set<Instance>, x: Instance)
    requires from <= a <= b && x.pid in unresolved && unresolved[x.pid] == x.inode
    requires AttemptState(trace, uid, from, a, socket, seen, owners, read, unresolved, ever) && x.pid !in owners
    requires NotAlive(trace, a, b, x)
    ensures AttemptState(trace, uid, from, b, socket, seen, owners, read[x.pid := x.inode], unresolved - {x.pid}, ever)
  {
    AttemptStateStays(trace, uid, from, a, b, socket, seen, owners, read, unresolved, ever);
    SeenThenNotAlive(trace, from, a, b, x);
    ReadsClearExtends(trace, uid, from, b, socket, seen, owners, read, x);
    DropSettled(trace, uid, from, b, socket, owners, unresolved, ever, x.pid);
  }

  ghost predicate FewDenials(denials: map<Instance, nat>) {
    forall x :: x in denials ==> denials[x] < MAX_DENIALS
  }

  /** How often the instance was denied before. */
  function Count(denials: map<Instance, nat>, x: Instance): nat {
    if x in denials then denials[x] else 0
  }

  /** What a failed read leads to: a third denial of one instance ends the attempt, as does every failure but
      churn. */
  ghost predicate Dealt(
    error: Error, x: Instance, r: Outcome<()>, denials0: map<Instance, nat>, denials: map<Instance, nat>)
  {
    match error
    case Refusal(FdListUnavailable, true) =>
      if Count(denials0, x) >= 2 then r == Raised(error)
      else r == Done(()) && denials == denials0[x := Count(denials0, x) + 1]
    case Refusal(reason, _) =>
      denials == denials0 && r == if reason in {CensusChanged, ProcessChanged} then Done(()) else Raised(error)
    case Gone => denials == denials0
    case _ => denials == denials0 && r == Raised(error)
  }

  /** A read that did not complete, of a process the socket was never seen in. Churn leaves the instance
      unresolved, to be read again; a table denied for the third time, or any other failure, ends the attempt. */
  method Unread(
    trace: Trace, uid: nat, ghost from: nat, start: nat, socket: nat, x: Instance, error: Error,
    ghost seen: set<nat>, owners: map<nat, Owner>, read0: map<nat, nat>, unresolved0: map<nat, nat>,
    denials0: map<Instance, nat>, ghost ever: set<Instance>)
    returns (r: Outcome<()>, now: nat, read: map<nat, nat>, unresolved: map<nat, nat>, denials: map<Instance, nat>)
    requires from <= start && x.pid in unresolved0 && unresolved0[x.pid] == x.inode && x.pid !in owners
    requires error != Denied
    requires AttemptState(trace, uid, from, start, socket, seen, owners, read0, unresolved0, ever)
    requires FewDenials(denials0)
    ensures now >= start
    ensures r.Raised? ==> r.error != Denied
    ensures r.Done? ==> AttemptState(trace, uid, from, now, socket, seen, owners, read, unresolved, ever)
    ensures r.Done? ==> FewDenials(denials)
    ensures (read == read0 && unresolved == unresolved0) ||
            (error == Gone && read == read0[x.pid := x.inode] && unresolved == unresolved0 - {x.pid})
    ensures error == Gone && r.Done? ==> x.pid !in unresolved || PidAlive(trace, start, now, x.pid)
    ensures Dealt(error, x, r, denials0, denials)
  {
    now, read, unresolved, denials, r := start, read0, unresolved0, denials0, Done(());
    if error == Fault {
      r := Raised(error);
    } else if error == Gone {
      var gone;
      gone, now :- Exited(trace, now, x.pid, None);
      if gone {
        ExitSettles(trace, uid, from, start, now, socket, seen, owners, read, unresolved, ever, x);
        read := read[x.pid := x.inode];
        unresolved := unresolved - {x.pid};
      } else {
        AttemptStateStays(trace, uid, from, start, now, socket, seen, owners, read, unresolved, ever);
      }
    } else if error == Refusal(FdListUnavailable, true) {
      var count := (if x in denials then denials[x] else 0) + 1;
      if count >= MAX_DENIALS { return Raised(error), now, read, unresolved, denials; }
      denials := denials[x := count];
    } else if error.reason != CensusChanged && error.reason != ProcessChanged {
      r := Raised(error);
    }
  }

  /** One pending PID. A read that completes settles the instance, and churn in a process the socket was seen
      in ends the attempt. `how` is how the read went. */
  method ReadOne(
    trace: Trace, uid: nat, ghost from: nat, start: nat, socket: nat, pid: nat, inode: nat,
    seen0: set<nat>, owners0: map<nat, Owner>, read0: map<nat, nat>, unresolved0: map<nat, nat>,
    denials0: map<Instance, nat>, ghost ever: set<Instance>)
    returns (r: Outcome<()>, now: nat, seen: set<nat>, owners: map<nat, Owner>, read: map<nat, nat>,
             unresolved: map<nat, nat>, denials: map<Instance, nat>, ghost how: Outcome<Instance>)
    requires from <= start && pid in unresolved0 && unresolved0[pid] == inode && pid !in owners0
    requires AttemptState(trace, uid, from, start, socket, seen0, owners0, read0, unresolved0, ever)
    requires FewDenials(denials0)
    ensures now >= start
    ensures r.Raised? ==> r.error != Denied
    ensures r.Done? ==> AttemptState(trace, uid, from, now, socket, seen, owners, read, unresolved, ever)
    ensures r.Done? ==> owners == owners0 || (owners.Keys == {pid} && owners0 == map[])
    ensures r.Done? ==> FewDenials(denials)
    ensures read == read0 || (pid in read && read == read0[pid := read[pid]])
    ensures unresolved == unresolved0 || unresolved == unresolved0 - {pid}
    ensures how.Done? ==>
              r == Done(()) && read == read0[pid := how.value.inode] && unresolved == unresolved0 - {pid}
    ensures how.Raised? && how.error != Gone ==> read == read0 && unresolved == unresolved0
    ensures how.Raised? ==>
              if pid in seen then r == Raised(how.error)
              else Dealt(how.error, Instance(pid, inode), r, denials0, denials)
    ensures QuietPid(trace, uid, start, pid, socket) ==>
              ScanTells(trace.table(start)[pid], socket, pid, how, seen0, seen, owners)
  {
    now, seen, owners, read, unresolved, denials := start, seen0, owners0, read0, unresolved0, denials0;
    hide AttemptState, QuietPid, ScanTells, Bracketed, Dealt;
    ghost var x := Instance(pid, inode);
    AttemptSeen(trace, uid, from, start, socket, seen0, owners0, read0, unresolved0, ever);
    var scan;
    scan, now, seen, owners := Scan(trace, uid, now, pid, socket, seen, owners);
    how := scan;
    if scan.Done? {
      if seen == seen0 {
        ReadSettles(trace, uid, from, start, now, socket, seen, owners, read, unresolved, ever, x, scan.value);
      } else {
        OwnerSettles(
          trace, uid, from, start, now, socket, owners0, read, unresolved, ever, x, scan.value, owners[pid]);
      }
      read := read[pid := scan.value.inode];
      unresolved := unresolved - {pid};
      r := Done(());
    } else if pid in seen {
      r := Raised(scan.error);
    } else {
      AttemptStateStays(trace, uid, from, start, now, socket, seen, owners, read, unresolved, ever);
      r, now, read, unresolved, denials :=
        Unread(
          trace, uid, from, now, socket, Instance(pid, inode), scan.error, seen, owners, read, unresolved, denials,
          ever);
    }
  }

  lemma AttemptSeen(
    trace: Trace, uid: nat, from: nat, to: nat, socket: nat, seen: set<nat>, owners: map<nat, Owner>,
    read: map<nat, nat>, unresolved: map<nat, nat>, ever: set<Instance>)
    requires AttemptState(trace, uid, from, to, socket, seen, owners, read, unresolved, ever)
    ensures seen == owners.Keys && (seen == {} ==> owners == map[])
    ensures forall pid :: pid in owners ==> pid in read && owners[pid].instance == Instance(pid, read[pid])
  {
  }

  ghost predicate AllIn(listed: map<nat, nat>, pids: set<nat>, ever: set<Instance>) {
    forall pid :: pid in pids && pid in listed ==> Instance(pid, listed[pid]) in ever
  }

  /** A table that stands still, with plain processes only. */
  ghost predicate Orderly(trace: Trace, uid: nat, at: nat, socket: nat) {
    && Still(trace, at) && |trace.table(at)| <= MAX_PIDS
    && forall pid :: pid in trace.table(at) ==> Plain(trace.table(at)[pid], uid, socket)
  }

  lemma StaysOrderly(trace: Trace, uid: nat, a: nat, b: nat, socket: nat)
    requires a <= b && Orderly(trace, uid, a, socket)
    ensures Orderly(trace, uid, b, socket) && trace.table(b) == trace.table(a) && Still(trace, b) && !trace.failing(b)
    ensures |trace.table(b)| <= MAX_PIDS
    ensures forall pid :: pid in trace.table(b) ==> QuietPid(trace, uid, b, pid, socket)
  {
    StillLater(trace, a, b);
    forall pid | pid in trace.table(b)
      ensures QuietPid(trace, uid, b, pid, socket)
    {
      assert Alive(trace, b, Instance(pid, trace.table(b)[pid].inode));
    }
  }

  /** The processes that show the socket. */
  ghost function Holders(table: Table, socket: nat): set<nat> {
    HoldersAmong(table, table.Keys, socket)
  }

  ghost function HoldersAmong(table: Table, pids: set<nat>, socket: nat): set<nat> {
    set pid | pid in pids && pid in table && HasSocket(table[pid], socket)
  }

  function OwnerOf(table: Table, pid: nat): Owner
    requires pid in table
  {
    Owner(Instance(pid, table[pid].inode), table[pid].identity)
  }

  /** The processes read so far are all settled, and the holders among them known. */
  ghost predicate PidsSoFar(
    table: Table, socket: nat, seen: set<nat>, owners: map<nat, Owner>, read: map<nat, nat>, unresolved: map<nat, nat>)
  {
    && read.Keys <= table.Keys && (forall pid :: pid in read ==> read[pid] == table[pid].inode)
    && unresolved == map[] && seen == HoldersAmong(table, read.Keys, socket) && owners.Keys == seen
    && forall pid :: pid in owners ==> owners[pid] == OwnerOf(table, pid)
  }

  ghost predicate Shared(table: Table, socket: nat) {
    exists pid, other :: pid != other && pid in Holders(table, socket) && other in Holders(table, socket)
  }

  lemma PidsShared(
    table: Table, socket: nat, pid: nat, seen0: set<nat>, owners0: map<nat, Owner>, read0: map<nat, nat>,
    unresolved0: map<nat, nat>, seen: set<nat>, owners: map<nat, Owner>, how: Outcome<Instance>)
    requires PidsSoFar(table, socket, seen0, owners0, read0, unresolved0) && pid in table && pid !in read0
    requires ScanTells(table[pid], socket, pid, how, seen0, seen, owners) && how.Raised?
    ensures how == Raised(Refuse(MultipleOwners)) && Shared(table, socket) && pid !in seen0
  {
    hide HasSocket;
    var other :| other in seen0;
    assert pid in Holders(table, socket) && other in Holders(table, socket);
  }

  lemma PidsMore(
    table: Table, socket: nat, pid: nat, seen0: set<nat>, owners0: map<nat, Owner>, read0: map<nat, nat>,
    unresolved0: map<nat, nat>, seen: set<nat>, owners: map<nat, Owner>, unresolved: map<nat, nat>,
    how: Outcome<Instance>)
    requires PidsSoFar(table, socket, seen0, owners0, read0, unresolved0) && pid in table && pid !in read0
    requires ScanTells(table[pid], socket, pid, how, seen0, seen, owners) && how.Done?
    requires owners.Keys == seen && (owners == owners0 || owners.Keys == {pid})
    requires pid in owners ==> owners[pid].instance == Instance(pid, how.value.inode)
    requires unresolved == unresolved0[pid := table[pid].inode] - {pid}
    ensures PidsSoFar(table, socket, seen, owners, read0[pid := how.value.inode], unresolved)
  {
    hide HasSocket;
    var p := table[pid];
    assert HoldersAmong(table, read0.Keys + {pid}, socket) ==
           HoldersAmong(table, read0.Keys, socket) + if HasSocket(p, socket) then {pid} else {};
    assert read0[pid := how.value.inode].Keys == read0.Keys + {pid};
    assert unresolved == map[];
  }

  /** The next pending PID of a listing, recorded as unresolved before it is read. */
  method ReadNext(
    trace: Trace, uid: nat, ghost from: nat, start: nat, socket: nat, pid: nat, inode: nat,
    seen0: set<nat>, owners0: map<nat, Owner>, read0: map<nat, nat>, unresolved0: map<nat, nat>,
    denials0: map<Instance, nat>, ghost ever0: set<Instance>)
    returns (r: Outcome<()>, now: nat, seen: set<nat>, owners: map<nat, Owner>, read: map<nat, nat>,
             unresolved: map<nat, nat>, denials: map<Instance, nat>, ghost ever: set<Instance>)
    requires from <= start && pid !in owners0 && (pid in unresolved0 ==> unresolved0[pid] == inode)
    requires Seen(trace, from, start, Instance(pid, inode))
    requires AttemptState(trace, uid, from, start, socket, seen0, owners0, read0, unresolved0, ever0)
    requires FewDenials(denials0)
    ensures now >= start
    ensures r.Raised? ==> r.error != Denied
    ensures r.Done? ==> AttemptState(trace, uid, from, now, socket, seen, owners, read, unresolved, ever)
    ensures r.Done? ==> ever == ever0 + {Instance(pid, inode)}
    ensures r.Done? ==> owners == owners0 || (owners.Keys == {pid} && owners0 == map[])
    ensures r.Done? ==> unresolved == unresolved0[pid := inode] || unresolved == unresolved0[pid := inode] - {pid}
    ensures r.Done? ==> FewDenials(denials)
    ensures NextReady(trace, uid, start, socket, pid, inode, seen0, owners0, read0, unresolved0) ==>
              NextTells(trace.table(start), socket, read0.Keys + {pid}, r, seen, owners, read, unresolved)
  {
    now, seen, owners, read, unresolved, denials := start, seen0, owners0, read0, unresolved0, denials0;
    ever := ever0;
    ghost var quiet := NextReady(trace, uid, start, socket, pid, inode, seen0, owners0, read0, unresolved0);
    if quiet { QuietPidStays(trace, uid, start, now, pid, socket); }
    hide AttemptState, NextReady, NextTells, QuietPid, ScanTells, Dealt, FewDenials, Seen;
    var _ :- Bound(trace, now);
    AddUnresolved(
      trace, uid, from, start, now, socket, seen, owners, read, unresolved, ever, Instance(pid, inode));
    ever := ever + {Instance(pid, inode)};
    ghost var how;
    r, now, seen, owners, read, unresolved, denials, how :=
      ReadOne(
        trace, uid, from, now, socket, pid, inode, seen, owners, read, unresolved[pid := inode], denials, ever);
    if quiet {
      if how.Done? { AttemptSeen(trace, uid, from, now, socket, seen, owners, read, unresolved, ever); }
      NextDone(
        trace, uid, start, socket, pid, inode, seen0, owners0, read0, unresolved0, denials0, how, r, seen, owners, read,
        unresolved, denials);
    }
  }

  /** Where nothing moves: a process not read yet, and what was read before it. */
  ghost predicate NextReady(
    trace: Trace, uid: nat, at: nat, socket: nat, pid: nat, inode: nat, seen: set<nat>, owners: map<nat, Owner>,
    read: map<nat, nat>, unresolved: map<nat, nat>)
  {
    && QuietPid(trace, uid, at, pid, socket) && inode == trace.table(at)[pid].inode && pid !in read
    && PidsSoFar(trace.table(at), socket, seen, owners, read, unresolved)
  }

  ghost predicate NextTells(
    table: Table, socket: nat, pids: set<nat>, r: Outcome<()>, seen: set<nat>, owners: map<nat, Owner>,
    read: map<nat, nat>, unresolved: map<nat, nat>)
  {
    if r.Done? then PidsSoFar(table, socket, seen, owners, read, unresolved) && read.Keys == pids
    else r == Raised(Refuse(MultipleOwners)) && Shared(table, socket)
  }

  lemma NextDone(
    trace: Trace, uid: nat, at: nat, socket: nat, pid: nat, inode: nat, seen0: set<nat>, owners0: map<nat, Owner>,
    read0: map<nat, nat>, unresolved0: map<nat, nat>, denials0: map<Instance, nat>, how: Outcome<Instance>,
    r: Outcome<()>, seen: set<nat>, owners: map<nat, Owner>, read: map<nat, nat>, unresolved: map<nat, nat>,
    denials: map<Instance, nat>)
    requires NextReady(trace, uid, at, socket, pid, inode, seen0, owners0, read0, unresolved0)
    requires ScanTells(trace.table(at)[pid], socket, pid, how, seen0, seen, owners)
    requires how.Raised? ==>
               if pid in seen then r == Raised(how.error)
               else Dealt(how.error, Instance(pid, inode), r, denials0, denials)
    requires how.Done? ==>
               && r == Done(()) && read == read0[pid := how.value.inode]
               && unresolved == unresolved0[pid := inode] - {pid}
               && owners.Keys == seen && (owners == owners0 || owners.Keys == {pid})
               && (pid in owners ==> owners[pid].instance == Instance(pid, how.value.inode))
    ensures NextTells(trace.table(at), socket, read0.Keys + {pid}, r, seen, owners, read, unresolved)
  {
    var table := trace.table(at);
    hide PidsSoFar, ScanTells, Shared, HasSocket, Quiet;
    if how.Raised? {
      PidsShared(table, socket, pid, seen0, owners0, read0, unresolved0, seen, owners, how);
    } else {
      PidsMore(table, socket, pid, seen0, owners0, read0, unresolved0, seen, owners, unresolved, how);
    }
  }

  /** The first round of an attempt over such a table. */
  ghost predicate FirstOrderly(
    trace: Trace, uid: nat, at: nat, socket: nat, listed: map<nat, nat>, pending: set<nat>, seen: set<nat>,
    owners: map<nat, Owner>, read: map<nat, nat>, unresolved: map<nat, nat>)
  {
    && Orderly(trace, uid, at, socket) && listed == Inodes(trace.table(at)) && pending == trace.table(at).Keys
    && seen == {} && owners == map[] && read == map[] && unresolved == map[]
  }

  /** Every pending PID of one listing. */
  method ReadPending(
    trace: Trace, uid: nat, ghost from: nat, start: nat, socket: nat, listed: map<nat, nat>, pending: set<nat>,
    seen0: set<nat>, owners0: map<nat, Owner>, read0: map<nat, nat>, unresolved0: map<nat, nat>,
    denials0: map<Instance, nat>, ghost ever0: set<Instance>)
    returns (r: Outcome<()>, now: nat, seen: set<nat>, owners: map<nat, Owner>, read: map<nat, nat>,
             unresolved: map<nat, nat>, denials: map<Instance, nat>, ghost ever: set<Instance>)
    requires from <= start && pending <= listed.Keys && pending !! owners0.Keys
    requires AllSeen(trace, from, start, listed)
    requires AttemptState(trace, uid, from, start, socket, seen0, owners0, read0, unresolved0, ever0)
    requires StillListed(unresolved0, listed)
    requires FewDenials(denials0)
    ensures now >= start
    ensures r.Raised? ==> r.error != Denied
    ensures r.Done? ==> AttemptState(trace, uid, from, now, socket, seen, owners, read, unresolved, ever)
    ensures r.Done? ==> ever0 <= ever && AllIn(listed, pending, ever)
    ensures r.Done? ==> FewDenials(denials)
    ensures FirstOrderly(trace, uid, start, socket, listed, pending, seen0, owners0, read0, unresolved0) ==>
              NextTells(trace.table(start), socket, pending, r, seen, owners, read, unresolved)
  {
    now, seen, owners, read, unresolved, denials := start, seen0, owners0, read0, unresolved0, denials0;
    ever := ever0;
    ghost var orderly := FirstOrderly(trace, uid, start, socket, listed, pending, seen0, owners0, read0, unresolved0);
    ghost var table := trace.table(start);
    if orderly { FirstSoFar(table, socket); }
    hide AttemptState, Orderly, NextReady, NextTells, Seen, FewDenials, StillListed, AllSeen;
    var todo := pending;
    assert pending - todo == {};
    while todo != {}
      invariant from <= start <= now
      invariant todo <= pending && todo !! owners.Keys
      invariant AttemptState(trace, uid, from, now, socket, seen, owners, read, unresolved, ever)
      invariant StillListed(unresolved, listed)
      invariant ever0 <= ever && AllIn(listed, pending - todo, ever)
      invariant FewDenials(denials)
      invariant orderly ==> NextTells(table, socket, pending - todo, Done(()), seen, owners, read, unresolved)
    {
      var pid :| pid in todo;
      if orderly {
        NextIsReady(trace, uid, start, now, socket, pending - todo, pid, seen, owners, read, unresolved);
        assert pending - todo + {pid} == pending - (todo - {pid});
      }
      SeenSoFar(trace, from, start, now, listed, pid);
      StillListedMore(unresolved, unresolved, listed, pid);
      ghost var unresolved1, more := unresolved, read.Keys + {pid};
      var one;
      one, now, seen, owners, read, unresolved, denials, ever :=
        ReadNext(trace, uid, from, now, socket, pid, listed[pid], seen, owners, read, unresolved, denials, ever);
      if one.Raised? {
        if orderly { NextFailed(table, socket, more, pending, one, seen, owners, read, unresolved); }
        return one, now, seen, owners, read, unresolved, denials, ever;
      }
      assert one.value == ();
      StillListedMore(unresolved1, unresolved, listed, pid);
      todo := todo - {pid};
    }
    assert pending - todo == pending;
    r := Done(());
  }

  lemma FirstSoFar(table: Table, socket: nat)
    ensures NextTells(table, socket, {}, Done(()), {}, map[], map[], map[])
  {
  }

  lemma NextIsReady(
    trace: Trace, uid: nat, start: nat, now: nat, socket: nat, done: set<nat>, pid: nat, seen: set<nat>,
    owners: map<nat, Owner>, read: map<nat, nat>, unresolved: map<nat, nat>)
    requires start <= now && Orderly(trace, uid, start, socket) && pid in trace.table(start) && pid !in done
    requires NextTells(trace.table(start), socket, done, Done(()), seen, owners, read, unresolved)
    ensures trace.table(now) == trace.table(start) && pid in Inodes(trace.table(start)) && read.Keys == done
    ensures NextReady(
              trace, uid, now, socket, pid, Inodes(trace.table(start))[pid], seen, owners, read, unresolved)
  {
    StaysOrderly(trace, uid, start, now, socket);
    hide Orderly, Still, QuietPid, PidsSoFar;
  }

  lemma NextFailed(
    table: Table, socket: nat, pids: set<nat>, all: set<nat>, r: Outcome<()>, seen: set<nat>, owners: map<nat, Owner>,
    read: map<nat, nat>, unresolved: map<nat, nat>)
    requires r.Raised? && NextTells(table, socket, pids, r, seen, owners, read, unresolved)
    ensures NextTells(table, socket, all, r, seen, owners, read, unresolved)
  {
  }

  lemma StillListedMore(unresolved0: map<nat, nat>, unresolved: map<nat, nat>, listed: map<nat, nat>, pid: nat)
    requires StillListed(unresolved0, listed) && pid in listed
    ensures pid in unresolved0 ==> unresolved0[pid] == listed[pid]
    ensures unresolved == unresolved0[pid := listed[pid]] || unresolved == unresolved0[pid := listed[pid]] - {pid} ==>
              StillListed(unresolved, listed)
  {
  }

  lemma SeenSoFar(trace: Trace, from: nat, a: nat, b: nat, listed: map<nat, nat>, pid: nat)
    requires from <= a <= b && AllSeen(trace, from, a, listed) && pid in listed
    ensures Seen(trace, from, b, Instance(pid, listed[pid]))
  {
  }

  lemma AddUnresolved(
    trace: Trace, uid: nat, from: nat, a: nat, b: nat, socket: nat, seen: set<nat>, owners: map<nat, Owner>,
    read: map<nat, nat>, unresolved: map<nat, nat>, ever: set<Instance>, x: Instance)
    requires from <= a <= b && Seen(trace, from, a, x)
    requires AttemptState(trace, uid, from, b, socket, seen, owners, read, unresolved, ever)
    requires x.pid in unresolved ==> unresolved[x.pid] == x.inode
    ensures AttemptState(trace, uid, from, b, socket, seen, owners, read, unresolved[x.pid := x.inode], ever + {x})
  {
  }

  /** After a listing, the instances it shows that were read before are accounted for already. */
  lemma Relisted(
    trace: Trace, uid: nat, from: nat, a: nat, b: nat, socket: nat, seen: set<nat>, owners: map<nat, Owner>,
    read: map<nat, nat>, unresolved0: map<nat, nat>, unresolved: map<nat, nat>, ever: set<Instance>,
    again: set<Instance>)
    requires from <= a <= b
    requires AttemptState(trace, uid, from, a, socket, seen, owners, read, unresolved0, ever)
    requires NoneForgotten(trace, uid, from, b, socket, owners, unresolved, ever)
    requires forall x :: x in again ==> x.pid in read && read[x.pid] == x.inode
    ensures AttemptState(trace, uid, from, b, socket, seen, owners, read, unresolved, ever + again)
  {
    AttemptStateStays(trace, uid, from, a, b, socket, seen, owners, read, unresolved0, ever);
  }

  /** Every instance the attempt ever listed was read completely, was confirmed gone, lost its PID to
      another process, or is the owner; nothing alive during the last listing was left out; and the owner's
      parent, birth and users are as the attempt read them. */
  ghost predicate Complete(
    trace: Trace, uid: nat, from: nat, settled: nat, to: nat, socket: nat, owner: Owner, ever: set<Instance>)
  {
    && (forall x :: x in ever ==> Cleared(trace, uid, from, to, x, socket) || x == owner.instance)
    && (forall x :: AliveThroughout(trace, settled, to, x) ==> x in ever)
    && Bracketed(trace, from, to, owner.instance, owner.identity, socket)
  }

  /** A complete account settles who the owner is. */
  lemma CompleteIsAVerdict(
    trace: Trace, uid: nat, from: nat, settled: nat, to: nat, socket: nat, owner: Owner, ever: set<Instance>)
    requires from <= settled <= to && Seen(trace, settled, to, owner.instance)
    requires Complete(trace, uid, from, settled, to, socket, owner, ever)
    ensures Verdict(trace, uid, from, settled, to, owner.instance, socket)
  {
    hide Cleared, ForeignTable, HoldsWhileAlive, Bracketed;
    BracketedIsHeld(trace, from, to, owner.instance, owner.identity, socket);
    forall x: Instance, tid, fd |
      && x != owner.instance && AliveThroughout(trace, settled, to, x)
      && HoldsWhileAlive(trace, from, to, x, tid, fd, socket)
      ensures ForeignTable(trace, from, to, x, tid, uid)
    {
      assert Alive(trace, to, x);
      ClearedHoldsNothing(trace, uid, from, to, x, tid, fd, socket);
    }
  }

  /** What the listing shows has all been read, and is on record. */
  ghost predicate AllRead(listed: map<nat, nat>, read: map<nat, nat>, ever: set<Instance>) {
    && (forall pid :: pid in listed ==> Lookup(read, pid) == Some(listed[pid]))
    && AllIn(listed, listed.Keys, ever)
  }

  /** No owner has left since it was read. */
  predicate NoneLeft(owners: map<nat, Owner>, listed: map<nat, nat>, read: map<nat, nat>) {
    forall pid :: pid in owners ==> Lookup(listed, pid) == Lookup(read, pid)
  }

  ghost predicate AliveListed(trace: Trace, from: nat, to: nat, listed: map<nat, nat>) {
    forall x: Instance :: AliveThroughout(trace, from, to, x) ==> Lookup(listed, x.pid) == Some(x.inode)
  }

  lemma VerdictHolds(
    trace: Trace, uid: nat, from: nat, settled: nat, to: nat, socket: nat, listed: map<nat, nat>,
    seen: set<nat>, owners: map<nat, Owner>, read: map<nat, nat>, unresolved: map<nat, nat>,
    ever: set<Instance>, pid: nat)
    requires from <= settled <= to
    requires AttemptState(trace, uid, from, to, socket, seen, owners, read, unresolved, ever)
    requires owners.Keys == {pid} && unresolved == map[]
    requires AllRead(listed, read, ever) && NoneLeft(owners, listed, read)
    requires AllSeen(trace, settled, to, listed) && AliveListed(trace, settled, to, listed)
    ensures Verdict(trace, uid, from, settled, to, owners[pid].instance, socket)
    ensures Complete(trace, uid, from, settled, to, socket, owners[pid], ever)
  {
    assert Complete(trace, uid, from, settled, to, socket, owners[pid], ever) by {
      hide Cleared, Bracketed, AliveThroughout, Seen;
    }
    assert Seen(trace, settled, to, owners[pid].instance) by {
      hide Cleared, Bracketed, AliveThroughout, Seen;
    }
    hide Complete, AttemptState, Bracketed, AliveListed;
    CompleteIsAVerdict(trace, uid, from, settled, to, socket, owners[pid], ever);
  }

  lemma AliveIsListed(trace: Trace, settled: nat, end: nat, to: nat, listed: map<nat, nat>)
    requires settled <= end <= to
    requires forall x: Instance :: (forall t: nat {:trigger Present(trace, t, x)} ::
                                      settled <= t <= end ==> Present(trace, t, x))
                                   ==> x.pid in listed && listed[x.pid] == x.inode
    ensures AliveListed(trace, settled, to, listed)
  {
    forall x: Instance | AliveThroughout(trace, settled, to, x)
      ensures Lookup(listed, x.pid) == Some(x.inode)
    {
      forall t: nat | settled <= t <= end
        ensures Present(trace, t, x)
      {
        assert Alive(trace, t, x);
      }
    }
  }

  lemma ListedIsSeen(trace: Trace, from: nat, to: nat, listed: map<nat, nat>)
    requires forall pid :: pid in listed ==> Seen(trace, from, to, Instance(pid, listed[pid]))
    ensures AllSeen(trace, from, to, listed)
  {
  }

  lemma SeenStays(trace: Trace, from: nat, a: nat, b: nat, listed: map<nat, nat>)
    requires a <= b && AllSeen(trace, from, a, listed)
    ensures AllSeen(trace, from, b, listed)
  {
  }

  lemma NoneIsForgotten(
    trace: Trace, uid: nat, from: nat, a: nat, b: nat, socket: nat, seen: set<nat>, owners: map<nat, Owner>,
    read: map<nat, nat>, unresolved: map<nat, nat>, ever: set<Instance>)
    requires from <= a <= b && AttemptState(trace, uid, from, a, socket, seen, owners, read, unresolved, ever)
    ensures NoneForgotten(trace, uid, from, b, socket, owners, unresolved, ever) && AllSeen(trace, from, a, unresolved)
  {
    ForgottenStays(trace, uid, from, a, b, socket, owners, unresolved, ever);
  }

  /** The start of a round: one listing, every owner still in it, and every unresolved instance it no
      longer shows confirmed ended. */
  method Relist(
    trace: Trace, uid: nat, ghost from: nat, start: nat, socket: nat, ghost seen: set<nat>,
    owners: map<nat, Owner>, read: map<nat, nat>, unresolved0: map<nat, nat>, ghost ever0: set<Instance>)
    returns (r: Outcome<map<nat, nat>>, now: nat, unresolved: map<nat, nat>, ghost ever: set<Instance>)
    requires from <= start
    requires AttemptState(trace, uid, from, start, socket, seen, owners, read, unresolved0, ever0)
    ensures now >= start
    ensures r.Raised? ==> r.error != Denied
    ensures r.Done? ==> AttemptState(trace, uid, from, now, socket, seen, owners, read, unresolved, ever)
    ensures r.Done? ==> AllSeen(trace, start, now, r.value)
    ensures r.Done? ==> NoneLeft(owners, r.value, read)
    ensures r.Done? ==> StillListed(unresolved, r.value)
    ensures r.Done? ==> AliveListed(trace, start, now, r.value)
    ensures r.Done? ==> ever0 <= ever
    ensures r.Done? ==>
              forall pid :: pid in r.value && Lookup(read, pid) == Some(r.value[pid]) ==>
                Instance(pid, r.value[pid]) in ever
    ensures
      && Orderly(trace, uid, start, socket) && unresolved0 == map[]
      && NoneLeft(owners, Inodes(trace.table(start)), read) ==>
        r == Done(Inodes(trace.table(start))) && unresolved == map[]
  {
    hide Orderly, Inodes, AttemptState, NoneForgotten, AllSeen, AliveListed, Seen;
    now, unresolved, ever := start, unresolved0, ever0;
    ghost var orderly := Orderly(trace, uid, start, socket);
    if orderly { StaysOrderly(trace, uid, start, start, socket); }
    var listed;
    listed, now :- Listing(trace, now, MAX_PIDS);
    ghost var end := now;
    if exists pid | pid in owners :: Lookup(listed, pid) != Lookup(read, pid) {
      return Raised(Refuse(CensusChanged)), now, unresolved, ever;
    }
    ListedIsSeen(trace, start, end, listed);
    NoneIsForgotten(trace, uid, from, start, now, socket, seen, owners, read, unresolved, ever);
    var resolved;
    resolved, now, unresolved := Resolve(trace, uid, from, start, now, socket, listed, unresolved, owners, ever);
    if resolved.Raised? { return Raised(resolved.error), now, unresolved, ever; }
    SeenStays(trace, start, end, now, listed);
    AliveIsListed(trace, start, end, now, listed);
    ghost var again := set pid | pid in listed && Lookup(read, pid) == Some(listed[pid]) :: Instance(pid, listed[pid]);
    Relisted(trace, uid, from, start, now, socket, seen, owners, read, unresolved0, unresolved, ever, again);
    ever := ever + again;
    r := Done(listed);
  }

  lemma AtMostOne(
    trace: Trace, uid: nat, from: nat, to: nat, socket: nat, seen: set<nat>, owners: map<nat, Owner>,
    read: map<nat, nat>, unresolved: map<nat, nat>, ever: set<Instance>)
    requires AttemptState(trace, uid, from, to, socket, seen, owners, read, unresolved, ever)
    ensures owners == map[] || |owners| == 1
  {
    hide ReadsClear, NoneForgotten, Bracketed;
    assert |owners| == |owners.Keys|;
    if |owners| == 0 {
      assert owners.Keys == {};
    }
  }

  /** Nothing is pending: the attempt answers with its one owner, or refuses. */
  method Settle(
    trace: Trace, uid: nat, ghost from: nat, ghost settled: nat, now: nat, socket: nat, listed: map<nat, nat>,
    ghost seen: set<nat>, owners: map<nat, Owner>, ghost read: map<nat, nat>, unresolved: map<nat, nat>,
    ghost ever: set<Instance>)
    returns (r: Outcome<Owner>)
    requires from <= settled <= now
    requires AttemptState(trace, uid, from, now, socket, seen, owners, read, unresolved, ever)
    requires AllRead(listed, read, ever) && NoneLeft(owners, listed, read)
    requires AllSeen(trace, settled, now, listed) && AliveListed(trace, settled, now, listed)
    ensures r.Raised? ==> r.error != Denied
    ensures r.Done? ==> Verdict(trace, uid, from, settled, now, r.value.instance, socket)
    ensures r.Done? ==> Complete(trace, uid, from, settled, now, socket, r.value, ever)
    ensures unresolved != map[] ==> r == Raised(Refuse(CensusChanged))
    ensures unresolved == map[] && owners == map[] ==> r == Raised(Refuse(OwnerNotFound))
    ensures unresolved == map[] ==> forall pid :: pid in owners ==> r == Done(owners[pid])
  {
    hide AttemptState, AliveListed, AllRead, NoneLeft, Verdict, Complete, AllSeen;
    AtMostOne(trace, uid, from, now, socket, seen, owners, read, unresolved, ever);
    if unresolved != map[] { return Raised(Refuse(CensusChanged)); }
    if |owners| != 1 { return Raised(Refuse(if owners != map[] then MultipleOwners else OwnerNotFound)); }
    var pid :| pid in owners;
    SoleOwner(owners, pid);
    VerdictHolds(trace, uid, from, settled, now, socket, listed, seen, owners, read, unresolved, ever, pid);
    r := Done(owners[pid]);
  }

  /** Listings taken one after the other between two instants, and a record of all they showed. */
  ghost predicate Recorded(trace: Trace, from: nat, to: nat, rounds: seq<map<nat, nat>>, ever: set<Instance>) {
    forall k :: 0 <= k < |rounds| ==> AllSeen(trace, from, to, rounds[k]) && AllIn(rounds[k], rounds[k].Keys, ever)
  }

  /** One more round: what it listed was read before or has been read now. */
  lemma RoundRecorded(
    trace: Trace, from: nat, start: nat, mid: nat, to: nat, rounds: seq<map<nat, nat>>, listed: map<nat, nat>,
    pending: set<nat>, ever0: set<Instance>, ever1: set<Instance>, ever: set<Instance>)
    requires from <= start <= mid <= to
    requires Recorded(trace, from, start, rounds, ever0) && AllSeen(trace, start, mid, listed)
    requires ever0 <= ever1 <= ever && AllIn(listed, listed.Keys - pending, ever1) && AllIn(listed, pending, ever)
    ensures Recorded(trace, from, to, rounds + [listed], ever)
  {
    forall k | 0 <= k < |rounds|
      ensures AllSeen(trace, from, to, rounds[k]) && AllIn(rounds[k], rounds[k].Keys, ever)
    {
      assert AllSeen(trace, from, start, rounds[k]) && AllIn(rounds[k], rounds[k].Keys, ever0);
    }
  }

  /** What an attempt answers on a table that stands still: the one process that shows the socket, or why there
      is none. */
  ghost predicate Answers(table: Table, socket: nat, r: Outcome<Owner>) {
    if Holders(table, socket) == {} then r == Raised(Refuse(OwnerNotFound))
    else if Shared(table, socket) then r == Raised(Refuse(MultipleOwners))
    else forall pid :: pid in Holders(table, socket) ==> pid in table && r == Done(OwnerOf(table, pid))
  }

  /** Nothing has been read, or all of it in one round. */
  ghost predicate RoundsSoFar(
    round: nat, table: Table, socket: nat, seen: set<nat>, owners: map<nat, Owner>, read: map<nat, nat>,
    unresolved: map<nat, nat>)
  {
    && round <= 1 && unresolved == map[]
    && if round == 0 then seen == {} && owners == map[] && read == map[]
       else PidsSoFar(table, socket, seen, owners, read, unresolved) && read.Keys == table.Keys
  }

  /** A round finds no owner gone, and reads everything if it is the first and nothing if it is the second. */
  lemma RoundStarts(
    round: nat, table: Table, socket: nat, seen: set<nat>, owners: map<nat, Owner>, read: map<nat, nat>,
    unresolved: map<nat, nat>)
    requires RoundsSoFar(round, table, socket, seen, owners, read, unresolved)
    ensures NoneLeft(owners, Inodes(table), read) && round <= 1 && unresolved == map[]
    ensures (set pid | pid in Inodes(table) && Lookup(read, pid) != Some(Inodes(table)[pid])) ==
            if round == 0 then table.Keys else {}
  {
    hide HasSocket;
    assert forall pid :: pid in HoldersAmong(table, read.Keys, socket) ==> pid in read;
    assert Inodes(table).Keys == table.Keys;
  }

  lemma RoundAnswers(
    round: nat, table: Table, socket: nat, seen: set<nat>, owners: map<nat, Owner>, read: map<nat, nat>,
    unresolved: map<nat, nat>, r: Outcome<Owner>)
    requires RoundsSoFar(round, table, socket, seen, owners, read, unresolved)
    requires round == 0 ==> table.Keys == {}
    requires owners == map[] ==> r == Raised(Refuse(OwnerNotFound))
    requires forall pid :: pid in owners ==> r == Done(owners[pid])
    ensures Answers(table, socket, r)
  {
    hide HasSocket;
    assert owners.Keys == Holders(table, socket);
    if owners.Keys == {} {
      assert owners == map[];
    }
  }

  lemma RoundGoesOn(
    table: Table, socket: nat, r: Outcome<()>, seen: set<nat>, owners: map<nat, Owner>, read: map<nat, nat>,
    unresolved: map<nat, nat>)
    requires NextTells(table, socket, table.Keys, r, seen, owners, read, unresolved)
    ensures r.Raised? ==> Answers(table, socket, Raised(r.error))
    ensures r.Done? ==> RoundsSoFar(1, table, socket, seen, owners, read, unresolved)
  {
    hide HasSocket;
    if r.Raised? {
      var pid :| pid in Holders(table, socket);
    }
  }

  /** One attempt. Reads build up over listings, and the attempt settles on the first listing in
      which every instance has been read. `rounds` are the listings, of which there are at most 1024. */
  method CompleteCensus(trace: Trace, uid: nat, start: nat, socket: nat)
    returns (
      r: Outcome<Owner>, now: nat, ghost settled: nat, ghost ever: set<Instance>, ghost rounds: seq<map<nat, nat>>)
    ensures now >= start
    ensures |rounds| <= MAX_ROUNDS && (r.Done? ==> rounds != [])
    ensures r.Done? ==> Recorded(trace, start, now, rounds, ever)
    ensures r.Raised? ==> r.error != Denied
    ensures r.Done? ==> Verdict(trace, uid, start, settled, now, r.value.instance, socket)
    ensures r.Done? ==> Complete(trace, uid, start, settled, now, socket, r.value, ever)
    ensures Orderly(trace, uid, start, socket) ==> Answers(trace.table(start), socket, r)
  {
    hide AttemptState, AllIn, AllSeen, Recorded, Complete, Verdict, AllRead, NoneLeft, AliveListed, StillListed;
    hide FewDenials, Orderly, Inodes, RoundsSoFar, NextTells, Answers;
    ghost var orderly, table := Orderly(trace, uid, start, socket), trace.table(start);
    now, settled, ever, rounds := start, start, {}, [];
    var seen: set<nat>, owners: map<nat, Owner>, read: map<nat, nat> := {}, map[], map[];
    var unresolved: map<nat, nat>, denials: map<Instance, nat> := map[], map[];
    AttemptBegins(trace, uid, start, table, socket);
    for round := 0 to MAX_ROUNDS
      invariant start <= now && |rounds| == round
      invariant AttemptState(trace, uid, start, now, socket, seen, owners, read, unresolved, ever)
      invariant Recorded(trace, start, now, rounds, ever)
      invariant FewDenials(denials)
      invariant orderly ==> RoundsSoFar(round, table, socket, seen, owners, read, unresolved)
    {
      settled := now;
      ghost var known := ever;
      if orderly {
        StaysOrderly(trace, uid, start, now, socket);
        RoundStarts(round, table, socket, seen, owners, read, unresolved);
      }
      var listing;
      listing, now, unresolved, ever := Relist(trace, uid, start, now, socket, seen, owners, read, unresolved, ever);
      if listing.Raised? { return Raised(listing.error), now, settled, ever, rounds; }
      var listed := listing.value;
      ghost var relisted, again := now, ever;
      var pending := set pid | pid in listed && Lookup(read, pid) != Some(listed[pid]);
      ReadBefore(listed, owners, read, pending, again);
      SeenSince(trace, start, settled, now, listed);
      if pending == {} {
        RoundRecorded(trace, start, settled, relisted, now, rounds, listed, pending, known, again, ever);
        rounds := rounds + [listed];
        r := Settle(trace, uid, start, settled, now, socket, listed, seen, owners, read, unresolved, ever);
        if orderly { RoundAnswers(round, table, socket, seen, owners, read, unresolved, r); }
        return;
      }
      if orderly {
        StaysOrderly(trace, uid, start, now, socket);
        FirstRound(trace, uid, round, now, socket, listed, pending, seen, owners, read, unresolved);
      }
      var pass;
      pass, now, seen, owners, read, unresolved, denials, ever :=
        ReadPending(trace, uid, start, now, socket, listed, pending, seen, owners, read, unresolved, denials, ever);
      if orderly { RoundGoesOn(table, socket, pass, seen, owners, read, unresolved); }
      if pass.Raised? { return Raised(pass.error), now, settled, ever, rounds; }
      RoundRecorded(trace, start, settled, relisted, now, rounds, listed, pending, known, again, ever);
      rounds := rounds + [listed];
    }
    if orderly { RoundStarts(MAX_ROUNDS, table, socket, seen, owners, read, unresolved); }
    r := Raised(Refuse(AttemptsExhausted));
  }

  lemma FirstRound(
    trace: Trace, uid: nat, round: nat, at: nat, socket: nat, listed: map<nat, nat>, pending: set<nat>, seen: set<nat>,
    owners: map<nat, Owner>, read: map<nat, nat>, unresolved: map<nat, nat>)
    requires Orderly(trace, uid, at, socket) && listed == Inodes(trace.table(at))
    requires RoundsSoFar(round, trace.table(at), socket, seen, owners, read, unresolved)
    requires pending == (if round == 0 then trace.table(at).Keys else {}) && pending != {}
    ensures round == 0 && pending == trace.table(at).Keys
    ensures FirstOrderly(trace, uid, at, socket, listed, pending, seen, owners, read, unresolved)
  {
    hide Orderly, Inodes, PidsSoFar;
  }

  lemma ReadBefore(
    listed: map<nat, nat>, owners: map<nat, Owner>, read: map<nat, nat>, pending: set<nat>, ever: set<Instance>)
    requires NoneLeft(owners, listed, read)
    requires pending == set pid | pid in listed && Lookup(read, pid) != Some(listed[pid])
    requires forall pid :: pid in listed && Lookup(read, pid) == Some(listed[pid]) ==>
               Instance(pid, listed[pid]) in ever
    ensures AllIn(listed, listed.Keys - pending, ever) && pending !! owners.Keys
    ensures pending == {} ==> AllIn(listed, pending, ever) && AllRead(listed, read, ever)
  {
    assert forall pid :: pid in listed && pid !in pending ==> Lookup(read, pid) == Some(listed[pid]);
  }

  lemma SeenSince(trace: Trace, from: nat, a: nat, to: nat, listed: map<nat, nat>)
    requires from <= a && AllSeen(trace, a, to, listed)
    ensures AllSeen(trace, from, to, listed)
  {
  }

  lemma AttemptBegins(trace: Trace, uid: nat, start: nat, table: Table, socket: nat)
    ensures RoundsSoFar(0, table, socket, {}, map[], map[], map[]) && FewDenials(map[])
    ensures AttemptState(trace, uid, start, start, socket, {}, map[], map[], map[], {})
    ensures forall ever :: Recorded(trace, start, start, [], ever)
  {
  }

  lemma SoleOwner(owners: map<nat, Owner>, pid: nat)
    requires |owners| == 1 && pid in owners
    ensures owners.Keys == {pid}
  {
    assert |owners.Keys - {pid}| == 0;
  }
}

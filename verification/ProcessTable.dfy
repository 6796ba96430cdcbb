/** The Linux process table as the census sees it: a table that changes while it is read.

    A `Trace` fixes, for every instant, the whole table. Births, exits, PID reuse, thread and
    descriptor churn and credential changes are all unconstrained; the single law is that a
    (PID, inode) pair names one process instance, which exists over one stretch of time and
    never comes back to life.

    The kernel calls below start at one instant, end at a later one chosen freely, and promise
    only what holds of a table that kept changing in between. Their callers rely on those
    promises alone, so what is proved of the callers covers every interleaving. */
module ProcessTable {
  import opened Base

  datatype Reason =
    | CensusChanged | ProcessChanged | ProcessUnavailable | FdListUnavailable | FdRecordInvalid
    | FdListBounds | MultipleOwners | OwnerNotFound | BudgetExhausted | AttemptsExhausted
    | AncestryCycle | AncestorExited | AncestryUnavailable | AncestryChanged | SocketMismatch

  /** `Gone` is FileNotFoundError or ProcessLookupError, `Denied` is PermissionError, and `Fault`
      any other operating-system error. */
  datatype Error = Gone | Denied | Fault | Refusal(reason: Reason, denied: bool)

  datatype Outcome<+T> = Done(value: T) | Raised(error: Error) {
    predicate IsFailure() { Raised? }

    function PropagateFailure<U>(): Outcome<U>
      requires Raised?
    {
      Raised(error)
    }

    function Extract(): T
      requires Done?
    {
      value
    }
  }

  function Refuse(reason: Reason): Error { Refusal(reason, false) }

  datatype Target = Socket(inode: nat) | File

  /** `state` is 'Z', 'X' or 'x' for a process that is ending, and 'L' otherwise. */
  datatype Identity = Identity(ppid: nat, ticks: nat, state: char, ruid: nat, euid: nat)
  datatype Thread = Thread(identity: Identity, readable: bool, fds: map<nat, Target>)
  datatype Process = Process(inode: nat, dead: bool, identity: Identity, threads: map<nat, Thread>)
  datatype Instance = Instance(pid: nat, inode: nat)

  type Table = map<nat, Process>
  /** The table at every instant, and the instants at which a call may fail for no reason in the table, or the
      deadline be found to have passed. */
  datatype History = History(table: nat -> Table, failing: nat -> bool)

  type Trace = trace: History | Lawful(trace) witness History((t: nat) => map[], (t: nat) => true)

  ghost predicate Present(trace: History, t: nat, x: Instance) {
    x.pid in trace.table(t) && trace.table(t)[x.pid].inode == x.inode
  }

  ghost predicate Alive(trace: History, t: nat, x: Instance) {
    Present(trace, t, x) && !trace.table(t)[x.pid].dead
  }

  /** Names the instants at which a law is used; it keeps the laws from being applied everywhere. */
  ghost predicate InOrder(t: nat, u: nat, v: nat) {
    t <= u <= v
  }

  ghost predicate Lawful(trace: History) {
    forall x, t, u, v {:trigger InOrder(t, u, v), Present(trace, u, x)} ::
      InOrder(t, u, v) && Present(trace, t, x) && Present(trace, v, x) ==>
        && Present(trace, u, x)
        && (Alive(trace, v, x) ==> Alive(trace, u, x))
  }

  /** An instance once present and later alive was alive all the time in between. */
  lemma AliveBetween(trace: Trace, t: nat, u: nat, v: nat, x: Instance)
    requires t <= u <= v && Present(trace, t, x) && Alive(trace, v, x)
    ensures Alive(trace, u, x)
  {
    assert InOrder(t, u, v);
  }

  /** `x` has, in thread `tid` and at descriptor `fd`, the socket. */
  ghost predicate Holds(trace: History, t: nat, x: Instance, tid: nat, fd: nat, socket: nat) {
    && Alive(trace, t, x)
    && tid in trace.table(t)[x.pid].threads
    && fd in trace.table(t)[x.pid].threads[tid].fds
    && trace.table(t)[x.pid].threads[tid].fds[fd] == Socket(socket)
  }

  ghost predicate HoldsThroughout(
    trace: History, from: nat, to: nat, x: Instance, tid: nat, fd: nat, socket: nat)
  {
    forall t: nat {:trigger Holds(trace, t, x, tid, fd, socket)} ::
      from <= t <= to ==> Holds(trace, t, x, tid, fd, socket)
  }

  ghost predicate Held(trace: History, from: nat, to: nat, x: Instance, socket: nat) {
    exists t: nat, tid, fd :: from <= t <= to && Holds(trace, t, x, tid, fd, socket)
  }

  /** What the kernel shows of one thread of `x`, at some instant of the window. */
  ghost predicate ThreadAt(trace: History, t: nat, x: Instance, tid: nat) {
    Present(trace, t, x) && tid in trace.table(t)[x.pid].threads
  }

  ghost predicate Foreign(identity: Identity, uid: nat) {
    identity.ruid != uid && identity.euid != uid
  }

  /** The process as a whole ran under other users at an instant of the window. */
  ghost predicate ForeignProcess(trace: History, from: nat, to: nat, x: Instance, uid: nat) {
    exists t: nat :: from <= t <= to && Present(trace, t, x) && Foreign(trace.table(t)[x.pid].identity, uid)
  }

  ghost predicate ForeignThread(trace: History, from: nat, to: nat, x: Instance, tid: nat, uid: nat) {
    exists t: nat ::
      from <= t <= to && ThreadAt(trace, t, x, tid) && Foreign(trace.table(t)[x.pid].threads[tid].identity, uid)
  }

  ghost predicate Unreadable(trace: History, from: nat, to: nat, x: Instance, tid: nat) {
    exists t: nat ::
      from <= t <= to && ThreadAt(trace, t, x, tid) && !trace.table(t)[x.pid].threads[tid].readable
  }

  /** The only table the census may leave unread: another user's, denied by the kernel. */
  ghost predicate ForeignTable(trace: History, from: nat, to: nat, x: Instance, tid: nat, uid: nat) {
    && ForeignProcess(trace, from, to, x, uid)
    && ForeignThread(trace, from, to, x, tid, uid)
    && Unreadable(trace, from, to, x, tid)
  }

  ghost predicate Seen(trace: History, from: nat, to: nat, x: Instance) {
    exists t: nat :: from <= t <= to && Present(trace, t, x)
  }

  /** At some instant of the window the instance was not alive. */
  ghost predicate NotAlive(trace: History, from: nat, to: nat, x: Instance) {
    exists t: nat :: from <= t <= to && !Alive(trace, t, x)
  }

  /** From that instant on nothing changes and no call fails of itself. */
  ghost predicate Still(trace: History, from: nat) {
    forall t: nat {:trigger trace.table(t)} {:trigger trace.failing(t)} ::
      from <= t ==> trace.table(t) == trace.table(from) && !trace.failing(t)
  }

  lemma StillLater(trace: History, from: nat, t: nat)
    requires from <= t && Still(trace, from)
    ensures Still(trace, t) && trace.table(t) == trace.table(from)
  {
  }

  function Inodes(table: Table): map<nat, nat> {
    map pid | pid in table :: table[pid].inode
  }

  // ----- kernel calls -----------------------------------------------------------------------

  /** The deadline may have passed at any check. */
  method Bound(trace: Trace, at: nat) returns (r: Outcome<()>)
    ensures r.Raised? ==> r.error == Refuse(BudgetExhausted) && trace.failing(at)
  {
    var late: bool := *;
    r := if late && trace.failing(at) then Raised(Refuse(BudgetExhausted)) else Done(());
  }

  /** Any failure a call may report in place of its result. */
  method Failure() returns (e: Error)
    ensures e != Denied
  {
    var choice: int := *;
    e := if choice == 0 then Gone else if choice == 1 then Fault else Refuse(ProcessUnavailable);
  }

  /** One directory scan of /proc: it misses no instance that was there all along, and invents none. */
  method Listing(trace: Trace, start: nat, maximum: nat) returns (r: Outcome<map<nat, nat>>, now: nat)
    ensures now >= start
    ensures r.Raised? ==> r.error in {Refuse(CensusChanged), Refuse(BudgetExhausted), Fault}
    ensures r.Done? ==> |r.value| <= maximum
    ensures r.Done? ==> forall pid :: pid in r.value ==> Seen(trace, start, now, Instance(pid, r.value[pid]))
    ensures r.Done? ==>
              forall x: Instance :: (forall t: nat {:trigger Present(trace, t, x)} ::
                                       start <= t <= now ==> Present(trace, t, x))
                                    ==> x.pid in r.value && r.value[x.pid] == x.inode
    ensures Still(trace, start) && |trace.table(start)| <= maximum ==> r == Done(Inodes(trace.table(start)))
  {
    now := Later(start);
    var late :- Bound(trace, now);
    var fault: bool := *;
    if fault && trace.failing(now) { return Raised(Fault), now; }
    var table := trace.table(now);
    var found := Inodes(table);
    assert found.Keys == table.Keys && |found| == |found.Keys| && |table| == |table.Keys|;
    if |found| > maximum { return Raised(Refuse(CensusChanged)), now; }
    forall x: Instance | forall t: nat {:trigger Present(trace, t, x)} ::
        start <= t <= now ==> Present(trace, t, x)
      ensures x.pid in found && found[x.pid] == x.inode
    {
      assert Present(trace, now, x);
    }
    forall pid | pid in found
      ensures Seen(trace, start, now, Instance(pid, found[pid]))
    {
      assert Present(trace, now, Instance(pid, found[pid]));
    }
    r := Done(found);
  }

  /** Opening /proc/PID pins the directory of whichever instance has the PID at that instant. */
  method OpenProcess(trace: Trace, start: nat, pid: nat) returns (r: Outcome<Instance>, now: nat)
    ensures now >= start
    ensures r.Raised? ==> r.error != Denied
    ensures r.Done? ==> r.value.pid == pid && Present(trace, now, r.value)
    ensures Still(trace, start) && pid in trace.table(start) ==> r == Done(Instance(pid, trace.table(start)[pid].inode))
  {
    now := Later(start);
    var fails: bool := *;
    if fails && trace.failing(now) { var e := Failure(); return Raised(e), now; }
    if pid !in trace.table(now) { return Raised(Gone), now; }
    r := Done(Instance(pid, trace.table(now)[pid].inode));
  }

  /** `stat` and `status` are read one after the other, so parent, birth and state are of one instant
      and the users of another. */
  ghost predicate ReadStat(trace: History, from: nat, to: nat, x: Instance, id: Identity) {
    exists t: nat ::
      && from <= t <= to && Present(trace, t, x)
      && trace.table(t)[x.pid].identity.ppid == id.ppid && trace.table(t)[x.pid].identity.ticks == id.ticks
      && trace.table(t)[x.pid].identity.state == id.state
  }

  ghost predicate ReadUsers(trace: History, from: nat, to: nat, x: Instance, id: Identity) {
    exists t: nat ::
      && from <= t <= to && Present(trace, t, x)
      && trace.table(t)[x.pid].identity.ruid == id.ruid && trace.table(t)[x.pid].identity.euid == id.euid
  }

  ghost predicate ReadIdentity(trace: History, from: nat, to: nat, x: Instance, id: Identity) {
    ReadStat(trace, from, to, x, id) && ReadUsers(trace, from, to, x, id)
  }

  lemma ReadIdentityStays(trace: History, a: nat, b: nat, from: nat, to: nat, x: Instance, id: Identity)
    requires from <= a && b <= to && ReadIdentity(trace, a, b, x, id)
    ensures ReadIdentity(trace, from, to, x, id)
  {
  }

  method ProcessIdentity(trace: Trace, start: nat, x: Instance) returns (r: Outcome<Identity>, now: nat)
    ensures now >= start
    ensures r.Raised? ==> r.error != Denied
    ensures r.Done? ==> ReadIdentity(trace, start, now, x, r.value)
    ensures Still(trace, start) && Present(trace, start, x) ==> r == Done(trace.table(start)[x.pid].identity)
  {
    var stat := Later(start);
    now := Later(stat);
    var fails: bool := *;
    if fails && trace.failing(now) { var e := Failure(); return Raised(e), now; }
    if x.pid !in trace.table(stat) || trace.table(stat)[x.pid].inode != x.inode
    { return Raised(Gone), now; }
    if x.pid !in trace.table(now) || trace.table(now)[x.pid].inode != x.inode
    { return Raised(Gone), now; }
    var first, second := trace.table(stat)[x.pid].identity, trace.table(now)[x.pid].identity;
    assert Present(trace, stat, x) && Present(trace, now, x);
    r := Done(Identity(first.ppid, first.ticks, first.state, second.ruid, second.euid));
  }

  ghost predicate ReadThreadIdentity(
    trace: History, from: nat, to: nat, x: Instance, tid: nat, id: Identity)
  {
    exists t: nat ::
      && from <= t <= to && ThreadAt(trace, t, x, tid)
      && trace.table(t)[x.pid].threads[tid].identity.ruid == id.ruid
      && trace.table(t)[x.pid].threads[tid].identity.euid == id.euid
  }

  method ThreadIdentity(trace: Trace, start: nat, x: Instance, tid: nat)
    returns (r: Outcome<Identity>, now: nat)
    ensures now >= start
    ensures r.Raised? ==> r.error != Denied
    ensures r.Done? ==> ReadThreadIdentity(trace, start, now, x, tid, r.value)
    ensures Still(trace, start) && ThreadAt(trace, start, x, tid) ==>
              r == Done(trace.table(start)[x.pid].threads[tid].identity)
  {
    now := Later(start);
    var fails: bool := *;
    if fails && trace.failing(now) { var e := Failure(); return Raised(e), now; }
    if x.pid !in trace.table(now) || trace.table(now)[x.pid].inode != x.inode || tid !in trace.table(now)[x.pid].threads
    { return Raised(Gone), now; }
    assert ThreadAt(trace, now, x, tid);
    r := Done(trace.table(now)[x.pid].threads[tid].identity);
  }

  /** pidfd_open: a handle on the instance that has the PID, or proof that no process has it. */
  method OpenPidfd(trace: Trace, start: nat, pid: nat) returns (r: Outcome<Instance>, now: nat)
    ensures now >= start
    ensures r.Raised? ==> r.error != Denied
    ensures r.Done? ==> r.value.pid == pid && Present(trace, now, r.value)
    ensures r == Raised(Gone) ==> pid !in trace.table(now)
    ensures Still(trace, start) && pid in trace.table(start) ==> r == Done(Instance(pid, trace.table(start)[pid].inode))
  {
    now := Later(start);
    var fails: bool := *;
    if fails && trace.failing(now) { return Raised(Fault), now; }
    if pid !in trace.table(now) { return Raised(Gone), now; }
    r := Done(Instance(pid, trace.table(now)[pid].inode));
  }

  /** A poll of a pidfd: not live means that the whole thread group has exited. */
  method Live(trace: Trace, start: nat, handle: Instance) returns (live: bool, now: nat)
    ensures now >= start
    ensures live <==> Alive(trace, now, handle)
  {
    now := Later(start);
    live := handle.pid in trace.table(now) && trace.table(now)[handle.pid].inode == handle.inode &&
            !trace.table(now)[handle.pid].dead;
  }

  ghost predicate ThreadThroughout(trace: History, from: nat, to: nat, x: Instance, tid: nat) {
    forall t: nat {:trigger ThreadAt(trace, t, x, tid)} :: from <= t <= to ==> ThreadAt(trace, t, x, tid)
  }

  /** A listing of `task`: no thread that was there all along is missed. */
  method Tasks(trace: Trace, start: nat, x: Instance) returns (r: Outcome<set<nat>>, now: nat)
    ensures now >= start
    ensures r.Raised? ==> r.error != Denied
    ensures r.Done? ==> forall tid :: ThreadThroughout(trace, start, now, x, tid) ==> tid in r.value
    ensures Still(trace, start) && Present(trace, start, x) ==> r == Done(trace.table(start)[x.pid].threads.Keys)
  {
    now := Later(start);
    var fails: bool := *;
    if fails && trace.failing(now) { var e := Failure(); return Raised(e), now; }
    if x.pid !in trace.table(now) || trace.table(now)[x.pid].inode != x.inode { return Raised(Gone), now; }
    forall tid | ThreadThroughout(trace, start, now, x, tid)
      ensures tid in trace.table(now)[x.pid].threads.Keys
    {
      assert ThreadAt(trace, now, x, tid);
    }
    r := Done(trace.table(now)[x.pid].threads.Keys);
  }

  ghost predicate FdThroughout(trace: History, from: nat, to: nat, x: Instance, tid: nat, fd: nat) {
    forall t: nat {:trigger ThreadAt(trace, t, x, tid)} ::
      from <= t <= to ==> ThreadAt(trace, t, x, tid) && fd in trace.table(t)[x.pid].threads[tid].fds
  }

  /** The next entry of an open descriptor table. The scan ends only when every descriptor that was
      open since the table was opened has been returned. */
  method NextFd(trace: Trace, ghost since: nat, start: nat, x: Instance, tid: nat, taken: set<nat>)
    returns (r: Outcome<Option<nat>>, now: nat)
    requires since <= start
    ensures now >= start
    ensures r == Raised(Denied) ==> Unreadable(trace, start, now, x, tid)
    ensures r == Done(None) ==> forall fd :: FdThroughout(trace, since, now, x, tid, fd) ==> fd in taken
    ensures Still(trace, start) && ThreadAt(trace, start, x, tid) ==>
              var thread := trace.table(start)[x.pid].threads[tid];
              if !thread.readable then r == Raised(Denied)
              else if thread.fds.Keys <= taken then r == Done(None)
              else r.Done? && r.value.Some? && r.value.value in thread.fds && r.value.value !in taken
  {
    now := Later(start);
    var fails: bool := *;
    if fails && trace.failing(now) { var e := Failure(); return Raised(e), now; }
    if x.pid !in trace.table(now) || trace.table(now)[x.pid].inode != x.inode || tid !in trace.table(now)[x.pid].threads
    { return Raised(Gone), now; }
    assert ThreadAt(trace, now, x, tid);
    var thread := trace.table(now)[x.pid].threads[tid];
    if !thread.readable { return Raised(Denied), now; }
    var left := thread.fds.Keys - taken;
    if left == {} {
      assert forall fd :: fd in thread.fds.Keys && fd !in taken ==> fd in left;
      forall fd | FdThroughout(trace, since, now, x, tid, fd)
        ensures fd in taken
      {
        assert ThreadAt(trace, now, x, tid);
        assert fd !in left;
      }
      return Done(None), now;
    }
    var fd :| fd in left;
    r := Done(Some(fd));
  }

  /** readlink of one descriptor. */
  method ReadLink(trace: Trace, start: nat, x: Instance, tid: nat, fd: nat)
    returns (r: Outcome<Target>, now: nat)
    ensures now >= start
    ensures r == Raised(Denied) ==> Unreadable(trace, start, now, x, tid)
    ensures r.Done? ==> ThreadAt(trace, now, x, tid) && fd in trace.table(now)[x.pid].threads[tid].fds
                        && trace.table(now)[x.pid].threads[tid].fds[fd] == r.value
                        && !trace.table(now)[x.pid].dead
    ensures Still(trace, start) && ThreadAt(trace, start, x, tid) && Alive(trace, start, x) ==>
              var thread := trace.table(start)[x.pid].threads[tid];
              thread.readable && fd in thread.fds ==> r == Done(thread.fds[fd])
  {
    now := Later(start);
    var fails: bool := *;
    if fails && trace.failing(now) { var e := Failure(); return Raised(e), now; }
    if x.pid !in trace.table(now) || trace.table(now)[x.pid].inode != x.inode || tid !in trace.table(now)[x.pid].threads
    { return Raised(Gone), now; }
    assert ThreadAt(trace, now, x, tid);
    var thread := trace.table(now)[x.pid].threads[tid];
    if !thread.readable { return Raised(Denied), now; }
    if fd !in thread.fds || trace.table(now)[x.pid].dead { return Raised(Gone), now; }
    r := Done(thread.fds[fd]);
  }
}

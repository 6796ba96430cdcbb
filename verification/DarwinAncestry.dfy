/** The ancestry a Darwin proof releases: walked up once, read again row by row, and walked anew at most
    once per job when an ancestor died meanwhile.

    The process table changes at every instant. A PID and birth name one process, which is there over
    one stretch of time, does not stop ending, and never gets back a parent it lost. */
module DarwinAncestry {
  import opened Base

  const MAX_CHAIN: nat := 64
  const MAX_ATTEMPTS: nat := 32

  type Socket = nat

  datatype Process = Process(birth: nat, ppid: int, uid: nat, ruid: nat, ending: bool, fds: map<int, Socket>)
  datatype Identity = Identity(pid: int, ppid: int, uid: nat, ruid: nat, birth: nat)
  datatype Owner = Owner(process: Identity, fd: int, socket: Socket)
  type Table = map<int, Process>
  /** The table at every instant, and the instants at which a call may fail for no reason in the table, or the
      time budget be found to have run out. */
  datatype Trace = Trace(table: nat -> Table, failing: nat -> bool)

  ghost predicate Present(trace: Trace, t: nat, pid: int, birth: nat) {
    pid in trace.table(t) && trace.table(t)[pid].birth == birth
  }

  ghost predicate Alive(trace: Trace, t: nat, pid: int, birth: nat) {
    Present(trace, t, pid, birth) && !trace.table(t)[pid].ending
  }

  ghost predicate InOrder(t: nat, u: nat, v: nat) {
    t <= u <= v
  }

  ghost predicate Lawful(trace: Trace) {
    forall pid, birth, t, u, v {:trigger InOrder(t, u, v), Present(trace, u, pid, birth)} ::
      InOrder(t, u, v) && Present(trace, t, pid, birth) && Present(trace, v, pid, birth) ==>
        && Present(trace, u, pid, birth)
        && (Alive(trace, v, pid, birth) ==> Alive(trace, u, pid, birth))
        && (trace.table(t)[pid].ppid == trace.table(v)[pid].ppid ==>
              trace.table(u)[pid].ppid == trace.table(t)[pid].ppid)
  }

  // ----- what a released chain means --------------------------------------------------------

  /** The process had this identity at this instant. */
  ghost predicate Shown(trace: Trace, t: nat, id: Identity) {
    && Alive(trace, t, id.pid, id.birth)
    && trace.table(t)[id.pid].ppid == id.ppid
    && trace.table(t)[id.pid].uid == id.uid && trace.table(t)[id.pid].ruid == id.ruid
  }

  ghost predicate ShownIn(trace: Trace, from: nat, to: nat, id: Identity) {
    exists t: nat :: from <= t <= to && Shown(trace, t, id)
  }

  /** At some instant of the window no process with this PID was alive. */
  ghost predicate DeadIn(trace: Trace, from: nat, to: nat, pid: int) {
    exists t: nat :: from <= t <= to && (pid in trace.table(t) ==> trace.table(t)[pid].ending)
  }

  ghost predicate AllShown(trace: Trace, from: nat, to: nat, chain: seq<Identity>) {
    forall i :: 0 <= i < |chain| ==> ShownIn(trace, from, to, chain[i])
  }

  /** At this one instant the row's process was alive and had this parent. */
  ghost predicate Stood(trace: Trace, t: nat, row: Identity) {
    Alive(trace, t, row.pid, row.birth) && trace.table(t)[row.pid].ppid == row.ppid
  }

  predicate Climbs(chain: seq<Identity>, first: int, current: int) {
    && (forall i :: 0 <= i < |chain| - 1 ==> chain[i].ppid == chain[i + 1].pid)
    && (forall i, j :: 0 <= i < j < |chain| ==> chain[i].pid != chain[j].pid)
    && (forall i :: 0 <= i < |chain| ==> chain[i].pid > 1)
    && if chain == [] then current == first else chain[0].pid == first && chain[|chain| - 1].ppid == current
  }

  ghost predicate Snapshot(trace: Trace, t: nat, chain: seq<Identity>, first: int) {
    && 0 < |chain| <= MAX_CHAIN && Climbs(chain, first, chain[|chain| - 1].ppid) && chain[|chain| - 1].ppid <= 1
    && forall i :: 0 <= i < |chain| ==> Stood(trace, t, chain[i])
  }

  ghost predicate Holds(trace: Trace, t: nat, owner: Owner) {
    && Present(trace, t, owner.process.pid, owner.process.birth) && owner.fd in trace.table(t)[owner.process.pid].fds
    && trace.table(t)[owner.process.pid].fds[owner.fd] == owner.socket
  }

  /** What is released: the whole chain as it stood at one instant, from the socket's owner up, and the
      owner with its socket at that instant or later. */
  ghost predicate Released(trace: Trace, from: nat, to: nat, owner: Owner, chain: seq<Identity>) {
    && 0 < |chain| && chain[0] == owner.process
    && exists t: nat, u: nat ::
         from <= t <= u <= to && Snapshot(trace, t, chain, owner.process.pid) && Holds(trace, u, owner)
  }

  /** Two equal readings, with an instant between them, are a reading at that instant. */
  lemma ReadTwiceStood(trace: Trace, a: nat, t: nat, b: nat, row: Identity)
    requires Lawful(trace) && ShownIn(trace, a, t, row) && ShownIn(trace, t, b, row)
    ensures Stood(trace, t, row)
  {
    var u: nat :| a <= u <= t && Shown(trace, u, row);
    var v: nat :| t <= v <= b && Shown(trace, v, row);
    assert InOrder(u, t, v) && (Present(trace, t, row.pid, row.birth) || !Present(trace, t, row.pid, row.birth));
  }

  /** A descriptor read by PID between two readings of one process is that process' own. */
  lemma SocketBelongs(trace: Trace, t: nat, u: nat, v: nat, owner: Owner)
    requires Lawful(trace) && t <= u <= v
    requires Present(trace, t, owner.process.pid, owner.process.birth)
    requires Present(trace, v, owner.process.pid, owner.process.birth)
    requires owner.process.pid in trace.table(u) && owner.fd in trace.table(u)[owner.process.pid].fds
    requires trace.table(u)[owner.process.pid].fds[owner.fd] == owner.socket
    ensures Holds(trace, u, owner)
  {
    var pid, birth := owner.process.pid, owner.process.birth;
    assert InOrder(t, u, v) && (Present(trace, u, pid, birth) || !Present(trace, u, pid, birth));
  }

  lemma ClimbBegins(first: int)
    ensures Climbs([], first, first)
  {
  }

  lemma ClimbsOn(chain: seq<Identity>, first: int, current: int, row: Identity)
    requires Climbs(chain, first, current) && row.pid == current && current > 1
    requires forall i :: 0 <= i < |chain| ==> chain[i].pid != current
    ensures Climbs(chain + [row], first, row.ppid)
  {
  }

  lemma AllShownMore(trace: Trace, from: nat, a: nat, b: nat, chain: seq<Identity>, row: Identity)
    requires AllShown(trace, from, a, chain) && from <= a <= b && Shown(trace, b, row)
    ensures AllShown(trace, from, b, chain + [row])
  {
    forall i | 0 <= i < |chain|
      ensures ShownIn(trace, from, b, chain[i])
    {
      assert ShownIn(trace, from, a, chain[i]);
    }
  }

  lemma ReleasedWithin(trace: Trace, a: nat, b: nat, c: nat, owner: Owner, chain: seq<Identity>)
    requires a <= b && Released(trace, b, c, owner, chain)
    ensures Released(trace, a, c, owner, chain)
  {
    var t: nat, u: nat :| b <= t <= u <= c && Snapshot(trace, t, chain, owner.process.pid) && Holds(trace, u, owner);
    assert a <= t <= u <= c;
  }

  lemma ReleasedUntil(trace: Trace, a: nat, b: nat, c: nat, owner: Owner, chain: seq<Identity>)
    requires b <= c && Released(trace, a, b, owner, chain)
    ensures Released(trace, a, c, owner, chain)
  {
    var t: nat, u: nat :| a <= t <= u <= b && Snapshot(trace, t, chain, owner.process.pid) && Holds(trace, u, owner);
    assert a <= t <= u <= c;
  }

  /** A walk, a second reading of each of its rows, and the socket read before the owner's last one. */
  lemma TwoReadingsRelease(
    trace: Trace, from: nat, top: nat, again: nat, reading: nat, to: nat, owner: Owner, chain: seq<Identity>)
    requires Lawful(trace) && from <= top <= again <= reading <= to && 0 < |chain| <= MAX_CHAIN
    requires chain[0] == owner.process && chain[|chain| - 1].ppid <= 1
    requires Climbs(chain, owner.process.pid, chain[|chain| - 1].ppid)
    requires AllShown(trace, from, top, chain) && AllShown(trace, top, again, chain)
    requires owner.process.pid in trace.table(reading) && owner.fd in trace.table(reading)[owner.process.pid].fds
    requires trace.table(reading)[owner.process.pid].fds[owner.fd] == owner.socket
    requires Shown(trace, to, owner.process)
    ensures Released(trace, from, to, owner, chain)
  {
    forall i | 0 <= i < |chain|
      ensures Stood(trace, top, chain[i])
    {
      assert ShownIn(trace, from, top, chain[i]) && ShownIn(trace, top, again, chain[i]);
      ReadTwiceStood(trace, from, top, again, chain[i]);
    }
    assert Stood(trace, top, chain[0]);
    SocketBelongs(trace, top, reading, to, owner);
    assert Snapshot(trace, top, chain, owner.process.pid) && Holds(trace, reading, owner);
  }

  // ----- a table that stands still ----------------------------------------------------------

  /** From that instant on nothing changes and no call fails of itself. */
  ghost predicate Still(trace: Trace, from: nat) {
    forall t: nat {:trigger trace.table(t)} {:trigger trace.failing(t)} ::
      from <= t ==> trace.table(t) == trace.table(from) && !trace.failing(t)
  }

  lemma StillLater(trace: Trace, from: nat, t: nat)
    requires from <= t && Still(trace, from)
    ensures Still(trace, t) && trace.table(t) == trace.table(from) && !trace.failing(t)
  {
  }

  function IdentityOf(table: Table, pid: int): Identity
    requires pid in table
  {
    Identity(pid, table[pid].ppid, table[pid].uid, table[pid].ruid, table[pid].birth)
  }

  predicate RowStands(table: Table, row: Identity) {
    row.pid in table && !table[row.pid].ending && row == IdentityOf(table, row.pid)
  }

  /** The table shows this ancestry, all of it alive. */
  ghost predicate Stands(table: Table, chain: seq<Identity>, first: int) {
    && 0 < |chain| <= MAX_CHAIN && Climbs(chain, first, chain[|chain| - 1].ppid) && chain[|chain| - 1].ppid <= 1
    && forall i :: 0 <= i < |chain| ==> RowStands(table, chain[i])
  }

  function CurrentAt(chain: seq<Identity>, first: int, n: nat): int
    requires n <= |chain|
  {
    if n == 0 then first else chain[n - 1].ppid
  }

  lemma NextStands(table: Table, whole: seq<Identity>, first: int, n: nat)
    requires Stands(table, whole, first) && n <= |whole|
    ensures n == |whole| ==> CurrentAt(whole, first, n) <= 1
    ensures n < |whole| ==>
              && n < MAX_CHAIN && whole[n].pid == CurrentAt(whole, first, n) > 1 && RowStands(table, whole[n])
              && forall i :: 0 <= i < n ==> whole[i].pid != CurrentAt(whole, first, n)
  {
  }

  /** There is one such ancestry. */
  lemma {:induction false} StandsOnce(
    table: Table, chain: seq<Identity>, other: seq<Identity>, first: int, n: nat)
    requires Stands(table, chain, first) && Stands(table, other, first) && n <= |chain| && n <= |other|
    ensures chain[..n] == other[..n]
    ensures n == |chain| || n == |other| ==> chain == other
  {
    if n == 0 {
    } else {
      StandsOnce(table, chain, other, first, n - 1);
      NextStands(table, chain, first, n - 1);
      NextStands(table, other, first, n - 1);
      NextStands(table, chain, first, n);
      NextStands(table, other, first, n);
      assert n > 1 ==> chain[n - 2] == chain[..n - 1][n - 2] == other[..n - 1][n - 2] == other[n - 2];
      assert chain[n - 1] == other[n - 1];
      assert chain[..n] == chain[..n - 1] + [chain[n - 1]] && other[..n] == other[..n - 1] + [other[n - 1]];
      assert chain == chain[..|chain|] && other == other[..|other|];
    }
  }

  /** Where nothing moves, a process with an ancestry. */
  ghost predicate Standing(trace: Trace, at: nat, owner: Identity) {
    && Still(trace, at) && RowStands(trace.table(at), owner)
    && exists whole :: Stands(trace.table(at), whole, owner.pid)
  }

  lemma StaysStanding(trace: Trace, a: nat, b: nat, owner: Identity)
    requires a <= b && Standing(trace, a, owner)
    ensures Standing(trace, b, owner) && Still(trace, b) && trace.table(b) == trace.table(a) && !trace.failing(b)
    ensures RowStands(trace.table(b), owner)
  {
    hide Stands;
    StillLater(trace, a, b);
  }

  lemma WholeAncestry(trace: Trace, at: nat, owner: Identity) returns (whole: seq<Identity>)
    requires Standing(trace, at, owner)
    ensures Stands(trace.table(at), whole, owner.pid)
  {
    whole :| Stands(trace.table(at), whole, owner.pid);
  }

  lemma RowsStand(table: Table, chain: seq<Identity>, first: int)
    requires Stands(table, chain, first)
    ensures AllStand(table, chain)
  {
  }

  ghost predicate AllStand(table: Table, chain: seq<Identity>) {
    forall i :: 0 <= i < |chain| ==> chain[i].pid > 1 && RowStands(table, chain[i])
  }

  lemma NothingShown(trace: Trace, now: nat)
    ensures AllShown(trace, now, now, [])
  {
  }

  /** Where nothing moves: the process, of the same lifetime though perhaps with a new parent, has the socket. */
  ghost predicate HeldStill(trace: Trace, at: nat, owner: Owner) {
    var pid := owner.process.pid;
    && Still(trace, at) && pid > 1 && pid in trace.table(at) && !trace.table(at)[pid].ending
    && owner.process == IdentityOf(trace.table(at), pid).(ppid := owner.process.ppid)
    && owner.fd in trace.table(at)[pid].fds && trace.table(at)[pid].fds[owner.fd] == owner.socket
  }

  /** Where nothing moves, the owner of the socket, with an ancestry. */
  ghost predicate Provable(trace: Trace, at: nat, owner: Owner) {
    && Standing(trace, at, owner.process)
    && owner.fd in trace.table(at)[owner.process.pid].fds
    && trace.table(at)[owner.process.pid].fds[owner.fd] == owner.socket
  }

  lemma StaysProvable(trace: Trace, a: nat, b: nat, owner: Owner)
    requires a <= b && Provable(trace, a, owner)
    ensures Provable(trace, b, owner) && Standing(trace, b, owner.process) && Still(trace, b)
    ensures trace.table(b) == trace.table(a) && !trace.failing(b) && RowStands(trace.table(b), owner.process)
    ensures owner.fd in trace.table(b)[owner.process.pid].fds
    ensures trace.table(b)[owner.process.pid].fds[owner.fd] == owner.socket
  {
    StaysStanding(trace, a, b, owner.process);
  }

  // ----- the walk ---------------------------------------------------------------------------

  /** `lost` is a reading that the kernel answered with no such process. */
  datatype Observation = Observed(id: Identity) | Exited | Failed(lost: bool)

  /** How an operation ends; a refusal is a retry when the attempt's time ran out. */
  datatype Status = Ok | Refused | Retry | Rewalk

  predicate SameLifetime(a: Identity, b: Identity) {
    a.pid == b.pid && a.uid == b.uid && a.ruid == b.ruid && a.birth == b.birth
  }

  class Job {
    const trace: Trace
    var now: nat
    var budgetExpired: bool
    var rewalkUsed: bool
    /** How often the chain was given up for a new walk in this job, and how many attempts it made. */
    ghost var rewalks: nat
    ghost var attempts: nat

    ghost predicate Valid()
      reads this
    {
      Lawful(trace) && rewalks == if rewalkUsed then 1 else 0
    }

    constructor (trace: Trace)
      requires Lawful(trace)
      ensures Valid() && this.trace == trace && rewalks == 0 && attempts == 0
    {
      this.trace := trace;
      now, budgetExpired, rewalkUsed, rewalks, attempts := 0, false, false, 0, 0;
    }

    method WithinBudget() returns (within: bool)
      modifies `now, `budgetExpired
      ensures now >= old(now)
      ensures budgetExpired == (old(budgetExpired) || !within) && (!within ==> trace.failing(now))
    {
      now := Later(now);
      within := *;
      within := within || !trace.failing(now);
      if !within { budgetExpired := true; }
    }

    method Refuse() returns (status: Status)
      ensures status == if budgetExpired then Retry else Refused
    {
      status := if budgetExpired then Retry else Refused;
    }

    /** One kernel reading of a process. */
    method Observe(pid: int) returns (r: Observation)
      modifies `now, `budgetExpired
      ensures now >= old(now)
      ensures r.Observed? ==> r.id.pid == pid && Shown(trace, now, r.id)
      ensures r.Exited? ==> DeadIn(trace, old(now), now, pid)
      ensures old(budgetExpired) ==> budgetExpired
      ensures Still(trace, old(now)) && pid > 1 ==>
                && budgetExpired == old(budgetExpired)
                && var table := trace.table(old(now));
                   r == if pid in table && !table[pid].ending then Observed(IdentityOf(table, pid)) else Exited
    {
      if pid <= 1 { return Failed(false); }
      var within := WithinBudget();
      if !within { return Failed(false); }
      now := Later(now);
      var fails: bool, lost: bool := *, *;
      if fails && trace.failing(now) { return Failed(lost); }
      if pid !in trace.table(now) || trace.table(now)[pid].ending { return Exited; }
      var p := trace.table(now)[pid];
      r := Observed(Identity(pid, p.ppid, p.uid, p.ruid, p.birth));
    }

    /** The socket at a descriptor of whatever process has the PID. */
    method SocketInfo(pid: int, fd: int) returns (r: Option<Socket>)
      modifies `now
      ensures now >= old(now)
      ensures r.Some? ==>
                && pid in trace.table(now) && fd in trace.table(now)[pid].fds
                && trace.table(now)[pid].fds[fd] == r.value
      ensures Still(trace, old(now)) && pid in trace.table(old(now)) && fd in trace.table(old(now))[pid].fds ==>
                r == Some(trace.table(old(now))[pid].fds[fd])
    {
      now := Later(now);
      var fails: bool := *;
      if (fails && trace.failing(now)) || pid !in trace.table(now) || fd !in trace.table(now)[pid].fds { return None; }
      r := Some(trace.table(now)[pid].fds[fd]);
    }

    /** A PID that could not be read is looked up once more. */
    method ConfirmExited(pid: int) returns (gone: bool)
      modifies `now
      ensures now >= old(now) && (gone ==> DeadIn(trace, old(now), now, pid))
      ensures !gone ==> exists t: nat :: old(now) <= t <= now && pid in trace.table(t) && !trace.table(t)[pid].ending
    {
      now := Later(now);
      gone := pid !in trace.table(now) || trace.table(now)[pid].ending;
    }

    /** A new walk is warranted: the ancestor was dead at some instant, and the claimant, of the same
        lifetime, was alive at another. */
    ghost predicate Warranted(from: nat, to: nat, owner: Identity, ancestor: int) {
      && DeadIn(trace, from, to, ancestor)
      && exists parent :: ShownIn(trace, from, to, owner.(ppid := parent))
    }

    /** An ancestry that broke at the row `index`, whose PID `failed` has been observed since `since`. A
        new walk is asked for exactly when it was not used yet, time remains, an ancestor died and the claimant
        is still the same. An attempt whose claimant died is not repeated, any other only when its time ran out. */
    method AncestryFailure(owner: Identity, failed: int, index: nat, observed: Observation, ghost since: nat)
      returns (status: Status, ghost claimant: Observation, ghost dead: bool)
      requires Valid() && since <= now && (observed.Exited? ==> DeadIn(trace, since, now, failed))
      modifies `now, `budgetExpired
      ensures Valid() && now >= old(now) && (old(budgetExpired) ==> budgetExpired)
      ensures dead ==> index > 0 && !observed.Observed? && DeadIn(trace, since, now, failed)
      ensures index > 0 && (observed.Exited? || observed == Failed(true)) ==>
                || dead
                || exists t: nat :: old(now) <= t <= now && failed in trace.table(t) && !trace.table(t)[failed].ending
      ensures index > 0 && observed.Exited? ==> dead
      ensures claimant.Observed? ==> claimant.id.pid == owner.pid && ShownIn(trace, since, now, claimant.id)
      ensures claimant.Exited? ==> status == Refused
      ensures !claimant.Exited? ==>
                status == if claimant.Observed? && owner == claimant.id.(ppid := owner.ppid) && dead && !rewalkUsed
                             && !budgetExpired then Rewalk
                          else if budgetExpired then Retry else Refused
      ensures status == Rewalk ==> Warranted(since, now, owner, failed)
    {
      var live := Observe(owner.pid);
      claimant := live;
      ghost var seen := now;
      assert live.Observed? ==> Shown(trace, seen, live.id);
      var confirmed := false;
      if observed.Failed? && observed.lost { confirmed := ConfirmExited(failed); }
      var died := index > 0 && (observed.Exited? || confirmed);
      dead := died;
      if live.Exited? {
        status := Refused;
      } else if live.Observed? && SameLifetime(owner, live.id) && died && !rewalkUsed && !budgetExpired {
        status := Rewalk;
      } else {
        status := Refuse();
      }
    }

    /** From the owner up to the top. */
    method Walk(owner: Identity, chain: array<Identity>) returns (status: Status, count: nat)
      requires Valid() && chain.Length == MAX_CHAIN && owner.pid > 1
      modifies `now, `budgetExpired, chain
      ensures Valid() && now >= old(now) && (status == Rewalk ==> !rewalkUsed)
      ensures status == Ok ==>
                && 0 < count <= MAX_CHAIN && chain[0] == owner && chain[count - 1].ppid <= 1
                && Climbs(chain[..count], owner.pid, chain[count - 1].ppid)
                && AllShown(trace, old(now), now, chain[..count])
      ensures Standing(trace, old(now), owner) ==>
                && status == Ok && budgetExpired == old(budgetExpired)
                && Stands(trace.table(old(now)), chain[..count], owner.pid)
    {
      hide Climbs, AllShown, ShownIn, Still, Shown, Standing, Stands, DeadIn;
      count := 0;
      var current := owner.pid;
      ghost var claimant, dead;
      ghost var start, standing := now, Standing(trace, now, owner);
      ghost var table, whole := trace.table(now), [];
      if standing { whole := WholeAncestry(trace, now, owner); }
      assert chain[..0] == [];
      ClimbBegins(owner.pid);
      NothingShown(trace, now);
      while current > 1
        invariant Valid() && now >= old(now) && count <= MAX_CHAIN
        invariant Climbs(chain[..count], owner.pid, current) && AllShown(trace, old(now), now, chain[..count])
        invariant if count == 0 then current == owner.pid else chain[0] == owner && chain[count - 1].ppid == current
        invariant standing ==>
                    && budgetExpired == old(budgetExpired) && Stands(table, whole, owner.pid)
                    && chain[..count] <= whole && current == CurrentAt(whole, owner.pid, count)
        decreases MAX_CHAIN - count
      {
        if standing {
          NextStands(table, whole, owner.pid, count);
          StaysStanding(trace, start, now, owner);
        }
        if count >= MAX_CHAIN { status := Refuse(); return; }
        if exists i | 0 <= i < count :: chain[i].pid == current { status := Refuse(); return; }
        ghost var before := now;
        var observed := Observe(current);
        if !observed.Observed? {
          status, claimant, dead := AncestryFailure(owner, current, count, observed, before);
          return;
        }
        if count == 0 && observed.id != owner {
          status, claimant, dead := AncestryFailure(owner, current, 0, observed, before);
          return;
        }
        ClimbsOn(chain[..count], owner.pid, current, observed.id);
        AllShownMore(trace, old(now), before, now, chain[..count], observed.id);
        ghost var rows := chain[..count];
        chain[count] := observed.id;
        assert chain[..count + 1] == rows + [observed.id];
        count := count + 1;
        current := observed.id.ppid;
      }
      if standing {
        NextStands(table, whole, owner.pid, count);
        assert chain[..count] == whole;
      }
      status := Ok;
    }

    /** Every row once more, exactly as it was. */
    method Recheck(owner: Identity, chain: array<Identity>, count: nat) returns (status: Status)
      requires Valid() && 0 < count <= chain.Length
      modifies `now, `budgetExpired
      ensures Valid() && now >= old(now) && (status == Rewalk ==> !rewalkUsed)
      ensures status == Ok ==> AllShown(trace, old(now), now, chain[..count])
      ensures Still(trace, old(now)) && AllStand(trace.table(old(now)), chain[..count]) ==>
                status == Ok && budgetExpired == old(budgetExpired)
    {
      hide AllShown, ShownIn, Still, Shown, DeadIn;
      ghost var start, standing := now, Still(trace, now) && AllStand(trace.table(now), chain[..count]);
      ghost var claimant, dead;
      NothingShown(trace, now);
      assert chain[..0] == [];
      for i := 0 to count
        invariant Valid() && now >= old(now) && AllShown(trace, old(now), now, chain[..i])
        invariant standing ==> budgetExpired == old(budgetExpired)
      {
        if standing {
          StillLater(trace, start, now);
          assert chain[..count][i] == chain[i];
        }
        ghost var before := now;
        var after := Observe(chain[i].pid);
        if !after.Observed? || after.id != chain[i] {
          status, claimant, dead := AncestryFailure(owner, chain[i].pid, i, after, before);
          return;
        }
        AllShownMore(trace, old(now), before, now, chain[..i], chain[i]);
        assert chain[..i + 1] == chain[..i] + [chain[i]];
      }
      status := Ok;
    }

    /** The new walk's first step: the same process with the same socket, read between two observations. */
    method BracketOwner(owner: Owner) returns (status: Status, again: Owner)
      requires Valid() && !rewalkUsed
      modifies `now, `budgetExpired, `rewalkUsed, `rewalks
      ensures Valid() && now >= old(now) && rewalkUsed && status != Rewalk
      ensures status == Ok ==>
                && again == owner.(process := owner.process.(ppid := again.process.ppid))
                && exists t: nat :: old(now) <= t <= now && Holds(trace, t, again)
      ensures HeldStill(trace, old(now), owner) ==>
                status == Ok && again == owner.(process := IdentityOf(trace.table(old(now)), owner.process.pid))
    {
      rewalkUsed, rewalks, again := true, rewalks + 1, owner;
      ghost var start, still := now, HeldStill(trace, now, owner);
      ghost var claimant, dead;
      if still { StillLater(trace, start, now); }
      var before := Observe(owner.process.pid);
      if still { StillLater(trace, start, now); }
      if !before.Observed? || !SameLifetime(owner.process, before.id) {
        status, claimant, dead := AncestryFailure(owner.process, owner.process.pid, 0, before, start);
        return;
      }
      ghost var opening := now;
      var socket := SocketInfo(owner.process.pid, owner.fd);
      ghost var reading := now;
      if still { StillLater(trace, start, now); }
      if socket != Some(owner.socket) { status := Refuse(); return; }
      var after := Observe(owner.process.pid);
      if !after.Observed? || after.id != before.id {
        status, claimant, dead := AncestryFailure(owner.process, owner.process.pid, 0, after, reading);
        return;
      }
      again := owner.(process := after.id);
      SocketBelongs(trace, opening, reading, now, again);
      status := Ok;
    }

    /** The walk, the second reading and the socket once more; and all of it anew, at most once. */
    method ProveAncestry(found: Owner, chain: array<Identity>) returns (status: Status, count: nat, owner: Owner)
      requires Valid() && chain.Length == MAX_CHAIN && found.process.pid > 1
      modifies this, chain
      ensures Valid() && now >= old(now) && status != Rewalk && attempts == old(attempts)
      ensures status == Ok ==>
                && count <= MAX_CHAIN && Released(trace, old(now), now, owner, chain[..count])
                && owner == found.(process := found.process.(ppid := owner.process.ppid))
      ensures Provable(trace, old(now), found) && !old(budgetExpired) ==>
                status == Ok && owner == found && Stands(trace.table(old(now)), chain[..count], found.process.pid)
    {
      hide Provable, Released, Stands;
      owner := found;
      ghost var start := now;
      status, count := WalkTwice(owner, chain);
      while status == Rewalk
        invariant Valid() && now >= start && attempts == old(attempts) && (status == Rewalk ==> !rewalkUsed)
        invariant owner == found.(process := found.process.(ppid := owner.process.ppid))
        invariant status == Ok ==> count <= MAX_CHAIN && Released(trace, start, now, owner, chain[..count])
        invariant Provable(trace, old(now), found) && !old(budgetExpired) ==>
                    && status == Ok && owner == found
                    && Stands(trace.table(old(now)), chain[..count], found.process.pid)
        decreases !rewalkUsed
      {
        status, owner := BracketOwner(owner);
        if status != Ok { return; }
        ghost var begun := now;
        status, count := WalkTwice(owner, chain);
        if status == Ok {
          ReleasedWithin(trace, start, begun, now, owner, chain[..count]);
        }
      }
    }

    method WalkTwice(owner: Owner, chain: array<Identity>) returns (status: Status, count: nat)
      requires Valid() && chain.Length == MAX_CHAIN && owner.process.pid > 1
      modifies `now, `budgetExpired, chain
      ensures Valid() && now >= old(now) && (status == Rewalk ==> !rewalkUsed)
      ensures status == Ok ==> count <= MAX_CHAIN && Released(trace, old(now), now, owner, chain[..count])
      ensures Provable(trace, old(now), owner) ==>
                && status == Ok && budgetExpired == old(budgetExpired)
                && Stands(trace.table(old(now)), chain[..count], owner.process.pid)
    {
      hide Provable, Standing, Stands, Still, Climbs, AllShown, Released, Shown, AllStand;
      ghost var start, provable := now, Provable(trace, now, owner);
      if provable { StaysProvable(trace, start, now, owner); }
      status, count := Walk(owner.process, chain);
      if status != Ok { return; }
      ghost var top := now;
      if provable {
        StaysProvable(trace, start, now, owner);
        RowsStand(trace.table(now), chain[..count], owner.process.pid);
      }
      status := Recheck(owner.process, chain, count);
      if status != Ok { return; }
      ghost var again := now;
      if provable { StaysProvable(trace, start, now, owner); }
      var socket := SocketInfo(owner.process.pid, owner.fd);
      ghost var reading := now;
      if socket != Some(owner.socket) { status := Refuse(); return; }
      if provable { StaysProvable(trace, start, now, owner); }
      var last := Observe(owner.process.pid);
      if !last.Observed? || last.id != owner.process { status := Refuse(); return; }
      TwoReadingsRelease(trace, old(now), top, again, reading, now, owner, chain[..count]);
      ghost var end := now;
      var within := WithinBudget();
      if provable { StaysProvable(trace, start, now, owner); }
      if !within { status := Refuse(); return; }
      ReleasedUntil(trace, old(now), end, now, owner, chain[..count]);
    }

    /** The job's own time, which no attempt gives back. */
    method WithinJob() returns (within: bool)
      modifies `now
      ensures now >= old(now) && (!within ==> trace.failing(now))
    {
      now := Later(now);
      within := *;
      within := within || !trace.failing(now);
    }

    /** A whole job: up to 32 attempts, each from what its own census finds, and one new walk among all of
        them. Where nothing moves, the first attempt releases the ancestry of the owner it finds. */
    method Execute(claims: nat -> Owner)
      returns (ok: bool, owner: Owner, chain: seq<Identity>, ghost verdicts: seq<Status>)
      requires Valid() && rewalks == 0 && attempts == 0
      modifies this
      ensures Valid() && attempts <= MAX_ATTEMPTS && rewalks <= 1
      ensures ok ==> Released(trace, old(now), now, owner, chain)
      ensures |verdicts| <= attempts <= |verdicts| + 1 && (ok <==> verdicts != [] && verdicts[|verdicts| - 1] == Ok)
      ensures forall k :: 0 <= k < |verdicts| - 1 ==> verdicts[k] == Retry
      ensures attempts > |verdicts| && verdicts != [] ==> verdicts[|verdicts| - 1] == Retry
      ensures Provable(trace, old(now), claims(0)) && claims(0).process.pid > 1 ==>
                ok && owner == claims(0) && Stands(trace.table(old(now)), chain, owner.process.pid) && attempts == 1
    {
      hide Provable, Released, Stands, Still;
      ghost var start, provable := now, Provable(trace, now, claims(0)) && claims(0).process.pid > 1;
      var rows := new Identity[MAX_CHAIN](_ => Identity(0, 0, 0, 0, 0));
      ok, owner, chain, verdicts := false, Owner(Identity(0, 0, 0, 0, 0), 0, 0), [], [];
      var attempt := 0;
      while attempt < MAX_ATTEMPTS
        invariant Valid() && attempt <= MAX_ATTEMPTS && attempts == attempt && now >= start
        invariant provable ==> attempt == 0
        invariant |verdicts| == attempt && !ok && forall k :: 0 <= k < |verdicts| ==> verdicts[k] == Retry
      {
        var within := WithinJob();
        if provable { StaysProvable(trace, start, now, claims(0)); }
        if !within { return; }
        budgetExpired := false;
        var found := claims(attempt);
        attempts, attempt := attempts + 1, attempt + 1;
        now := Later(now);
        if provable { StaysProvable(trace, start, now, claims(0)); }
        if found.process.pid <= 1 { return; }
        ghost var begun := now;
        var status, count;
        status, count, owner := ProveAncestry(found, rows);
        verdicts := verdicts + [status];
        if status == Ok {
          ReleasedWithin(trace, start, begun, now, owner, rows[..count]);
          return true, owner, rows[..count], verdicts;
        }
        if status == Refused { return; }
        within := WithinJob();
        if attempt < MAX_ATTEMPTS && !within { return; }
      }
    }
  }
}

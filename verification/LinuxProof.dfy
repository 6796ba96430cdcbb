/** One proof job: censuses under a shared attempt budget, pinned processes, and the ancestry that is
    released together with the owner. */
module LinuxProof {
  import opened Base
  import opened ProcessTable
  import opened LinuxCensus

  const MAX_CHAIN := 64
  const MAX_PID := 0x7fff_ffff

  datatype Pin = Pin(instance: Instance, handle: Instance, original: Identity)

  /** What is released of one ancestor. */
  datatype Row = Row(instance: Instance, ppid: nat, ticks: nat)

  function RowOf(x: Instance, id: Identity): Row { Row(x, id.ppid, id.ticks) }

  /** The only failures after which a census is tried again. */
  predicate IsChurn(error: Error) {
    error == Gone || (error.Refusal? && error.reason == CensusChanged)
  }

  predicate Exiting(state: char) { state in {'Z', 'X', 'x'} }

  // ----- what a released chain is -----------------------------------------------------------

  predicate Linked(chain: seq<Row>) {
    forall i :: 0 <= i < |chain| - 1 ==> chain[i].ppid == chain[i + 1].instance.pid
  }

  predicate DistinctPids(chain: seq<Row>) {
    forall i, j :: 0 <= i < j < |chain| ==> chain[i].instance.pid != chain[j].instance.pid
  }

  /** From `pid` to the top: each row names the next one's process as its parent, none twice. */
  predicate Ancestry(chain: seq<Row>, pid: nat) {
    && 0 < |chain| <= MAX_CHAIN
    && chain[0].instance.pid == pid
    && Linked(chain) && DistinctPids(chain)
    && (forall i :: 0 <= i < |chain| ==> chain[i].instance.pid > 1)
    && chain[|chain| - 1].ppid <= 1
  }

  /** A chain on its way up from `pid`, with `current` the next process to look at. */
  predicate Climbs(chain: seq<Row>, pid: nat, current: nat) {
    && Linked(chain) && DistinctPids(chain) && (forall i :: 0 <= i < |chain| ==> chain[i].instance.pid > 1)
    && if chain == [] then current == pid else chain[0].instance.pid == pid && chain[|chain| - 1].ppid == current
  }

  lemma ClimbsOn(chain: seq<Row>, pid: nat, current: nat, row: Row)
    requires Climbs(chain, pid, current) && row.instance.pid == current && current > 1
    requires forall i :: 0 <= i < |chain| ==> chain[i].instance.pid != current
    ensures Climbs(chain + [row], pid, row.ppid)
  {
  }

  lemma Arrived(chain: seq<Row>, pid: nat, current: nat)
    requires Climbs(chain, pid, current) && 0 < |chain| <= MAX_CHAIN && current <= 1
    ensures Ancestry(chain, pid)
  {
  }

  /** The kernel showed exactly this row at an instant of the window. */
  ghost predicate RowShown(trace: Trace, from: nat, to: nat, row: Row) {
    exists t: nat ::
      && from <= t <= to && Present(trace, t, row.instance)
      && trace.table(t)[row.instance.pid].identity.ppid == row.ppid
      && trace.table(t)[row.instance.pid].identity.ticks == row.ticks
  }

  ghost predicate Shown(trace: Trace, from: nat, to: nat, chain: seq<Row>) {
    forall i :: 0 <= i < |chain| ==> RowShown(trace, from, to, chain[i])
  }

  /** A chain shown in two windows was there, row for row, at every instant between them. */
  lemma ShownTwiceIsUnbroken(trace: Trace, a: nat, b: nat, c: nat, d: nat, chain: seq<Row>, i: nat, t: nat)
    requires b <= t <= c && Shown(trace, a, b, chain) && Shown(trace, c, d, chain) && i < |chain|
    ensures Present(trace, t, chain[i].instance)
  {
    var row := chain[i];
    assert RowShown(trace, a, b, row) && RowShown(trace, c, d, row);
    var u: nat :| a <= u <= b && Present(trace, u, row.instance)
      && trace.table(u)[row.instance.pid].identity.ppid == row.ppid
      && trace.table(u)[row.instance.pid].identity.ticks == row.ticks;
    var v: nat :| c <= v <= d && Present(trace, v, row.instance)
      && trace.table(v)[row.instance.pid].identity.ppid == row.ppid
      && trace.table(v)[row.instance.pid].identity.ticks == row.ticks;
    assert InOrder(u, t, v);
  }

  /** A process that lost a parent never gets that parent back: it is reparented upwards. */
  ghost predicate ParentsNeverReturn(trace: Trace) {
    forall x, t, u, v {:trigger InOrder(t, u, v), Present(trace, u, x)} ::
      InOrder(t, u, v) && Present(trace, t, x) && Present(trace, u, x) && Present(trace, v, x)
      && trace.table(t)[x.pid].identity.ppid == trace.table(v)[x.pid].identity.ppid ==>
        trace.table(u)[x.pid].identity.ppid == trace.table(t)[x.pid].identity.ppid
  }

  /** A chain shown in two windows was the true ancestry, all of it at once, at every instant between
      them: each process was there with the next one as its parent. */
  lemma ShownTwiceStoodAtOnce(trace: Trace, a: nat, b: nat, c: nat, d: nat, chain: seq<Row>, pid: nat, t: nat)
    requires ParentsNeverReturn(trace) && b <= t <= c && Ancestry(chain, pid)
    requires Shown(trace, a, b, chain) && Shown(trace, c, d, chain)
    ensures forall i :: 0 <= i < |chain| ==>
              && Present(trace, t, chain[i].instance)
              && (i < |chain| - 1 ==> trace.table(t)[chain[i].instance.pid].identity.ppid == chain[i + 1].instance.pid)
  {
    forall i | 0 <= i < |chain|
      ensures Present(trace, t, chain[i].instance)
      ensures trace.table(t)[chain[i].instance.pid].identity.ppid == chain[i].ppid
    {
      var row := chain[i];
      ShownTwiceIsUnbroken(trace, a, b, c, d, chain, i, t);
      assert RowShown(trace, a, b, row) && RowShown(trace, c, d, row);
      var u: nat :| a <= u <= b && Present(trace, u, row.instance)
        && trace.table(u)[row.instance.pid].identity.ppid == row.ppid
        && trace.table(u)[row.instance.pid].identity.ticks == row.ticks;
      var v: nat :| c <= v <= d && Present(trace, v, row.instance)
        && trace.table(v)[row.instance.pid].identity.ppid == row.ppid
        && trace.table(v)[row.instance.pid].identity.ticks == row.ticks;
      assert InOrder(u, t, v);
    }
  }

  lemma OnlyTheLastHasNoParent(chain: seq<Row>, pid: nat, i: nat)
    requires Ancestry(chain, pid) && i < |chain|
    ensures chain[i].ppid <= 1 <==> i == |chain| - 1
  {
    if i < |chain| - 1 {
      assert chain[i].ppid == chain[i + 1].instance.pid;
    }
  }

  /** The rows alone fix the chain: two ancestries of one process that show every process the same
      way have the same first `n` rows, and so are equal. */
  lemma {:induction false} AncestryIsUnique(chain: seq<Row>, other: seq<Row>, pid: nat, rows: map<nat, Row>, n: nat)
    requires Ancestry(chain, pid) && Ancestry(other, pid)
    requires forall row :: row in chain || row in other ==> row.instance.pid in rows && rows[row.instance.pid] == row
    requires n <= |chain| && n <= |other|
    ensures chain[..n] == other[..n]
    ensures n == |chain| || n == |other| ==> chain == other
  {
    if n > 0 {
      AncestryIsUnique(chain, other, pid, rows, n - 1);
      var i := n - 1;
      if i > 0 {
        assert chain[i - 1] == chain[..i][i - 1] == other[..i][i - 1] == other[i - 1];
        assert chain[i - 1].ppid == chain[i].instance.pid && other[i - 1].ppid == other[i].instance.pid;
      }
      assert chain[i] in chain && other[i] in other;
      assert chain[..n] == chain[..i] + [chain[i]] && other[..n] == other[..i] + [other[i]];
      OnlyTheLastHasNoParent(chain, pid, i);
      OnlyTheLastHasNoParent(other, pid, i);
      assert chain == chain[..|chain|] && other == other[..|other|];
    }
  }

  /** The two windows in which an owner was established. */
  datatype Window = Window(from: nat, settled: nat, to: nat)

  /** In those windows the process was found to be the owner, by an attempt that accounts for every process it
      listed, and as having this parent, birth and effective user. */
  ghost predicate VerdictIn(trace: Trace, uid: nat, w: Window, owner: Owner, socket: nat) {
    && Verdict(trace, uid, w.from, w.settled, w.to, owner.instance, socket)
    && exists id: Identity, ever ::
         && Complete(trace, uid, w.from, w.settled, w.to, socket, Owner(owner.instance, id), ever)
         && id.ppid == owner.identity.ppid && id.ticks == owner.identity.ticks && id.euid == owner.identity.euid
  }

  lemma SameProcessIsOwner(trace: Trace, uid: nat, w: Window, owner: Owner, pin: Pin, socket: nat)
    requires VerdictIn(trace, uid, w, owner, socket) && SameProcess(owner, pin)
    ensures VerdictIn(trace, uid, w, Owner(pin.instance, pin.original), socket)
  {
    hide Verdict, Complete;
  }

  /** What the kernel's socket diagnostics say of the connection in question at every instant: the
      socket's inode and the cookie of its lifetime. */
  type Connection = nat -> Option<(nat, nat)>

  ghost predicate Joins(connection: Connection, from: nat, to: nat, target: (nat, nat)) {
    exists t: nat :: from <= t <= to && connection(t) == Some(target)
  }

  lemma JoinsStays(connection: Connection, a: nat, b: nat, from: nat, to: nat, target: (nat, nat))
    requires from <= a && b <= to && Joins(connection, a, b, target)
    ensures Joins(connection, from, to, target)
  {
  }

  /** From that instant on the connection is the same one. */
  ghost predicate Steady(connection: Connection, from: nat, target: (nat, nat)) {
    forall t: nat {:trigger connection(t)} :: from <= t ==> connection(t) == Some(target)
  }

  lemma SteadyLater(connection: Connection, from: nat, t: nat, target: (nat, nat))
    requires from <= t && Steady(connection, from, target)
    ensures Steady(connection, t, target)
  {
  }

  datatype Released = Released(owner: Owner, socket: nat, cookie: nat, ancestors: seq<Row>)

  /** Every process is pinned under its own PID, and its handle is a handle on it. */
  ghost predicate Pinned(pins: map<nat, Pin>) {
    forall pid :: pid in pins ==> pins[pid].instance.pid == pid && pins[pid].handle == pins[pid].instance
  }

  /** The pin was opened between two equal readings of a process that was then alive. */
  ghost predicate OpenedIn(trace: Trace, from: nat, to: nat, pin: Pin) {
    && pin.handle == pin.instance && Alive(trace, to, pin.instance)
    && exists a: nat ::
         && from <= a <= to && ReadIdentity(trace, from, a, pin.instance, pin.original)
         && ReadIdentity(trace, a, to, pin.instance, pin.original)
  }

  lemma OpenedBetween(trace: Trace, from: nat, a: nat, b: nat, to: nat, pin: Pin)
    requires from <= a <= b <= to && pin.handle == pin.instance && Alive(trace, to, pin.instance)
    requires ReadIdentity(trace, from, a, pin.instance, pin.original)
    requires ReadIdentity(trace, a, b, pin.instance, pin.original)
    ensures OpenedIn(trace, from, to, pin)
  {
    ReadIdentityStays(trace, a, b, a, to, pin.instance, pin.original);
    hide ReadIdentity;
  }

  lemma OpenedLater(trace: Trace, from: nat, start: nat, to: nat, pin: Pin)
    requires from <= start && OpenedIn(trace, start, to, pin)
    ensures OpenedIn(trace, from, to, pin)
  {
    hide ReadIdentity;
    var a: nat :| start <= a <= to && ReadIdentity(trace, start, a, pin.instance, pin.original)
      && ReadIdentity(trace, a, to, pin.instance, pin.original);
    ReadIdentityStays(trace, start, a, from, a, pin.instance, pin.original);
  }

  /** Pins are only ever added. */
  ghost predicate PinsGrow(pins: map<nat, Pin>, more: map<nat, Pin>) {
    forall pid :: pid in pins ==> pid in more && more[pid] == pins[pid]
  }

  lemma PinsGrowOn(a: map<nat, Pin>, b: map<nat, Pin>, c: map<nat, Pin>)
    requires PinsGrow(a, b) && PinsGrow(b, c)
    ensures PinsGrow(a, c)
  {
  }

  // ----- a table that stands still ----------------------------------------------------------

  ghost predicate SeenAlive(trace: Trace, from: nat, to: nat, x: Instance) {
    exists t: nat :: from <= t <= to && Alive(trace, t, x)
  }

  lemma SeenAliveAt(trace: Trace, from: nat, t: nat, x: Instance)
    requires from <= t && Alive(trace, t, x)
    ensures SeenAlive(trace, from, t, x)
  {
  }

  lemma SeenAliveLater(trace: Trace, from: nat, a: nat, b: nat, x: Instance)
    requires from <= a && SeenAlive(trace, a, b, x)
    ensures SeenAlive(trace, from, b, x)
  {
  }

  lemma SeenAliveStays(trace: Trace, from: nat, a: nat, b: nat, x: Instance)
    requires a <= b && SeenAlive(trace, from, a, x)
    ensures SeenAlive(trace, from, b, x)
  {
  }

  function PinOf(table: Table, pid: nat): Pin
    requires pid in table
  {
    Pin(Instance(pid, table[pid].inode), Instance(pid, table[pid].inode), table[pid].identity)
  }

  /** A live process where nothing moves. */
  ghost predicate StandsAlone(trace: Trace, at: nat, pid: nat) {
    && Still(trace, at) && pid in trace.table(at) && !trace.table(at)[pid].dead && 1 <= pid <= MAX_PID
  }

  lemma StaysAlone(trace: Trace, a: nat, b: nat, pid: nat)
    requires a <= b && StandsAlone(trace, a, pid)
    ensures StandsAlone(trace, b, pid) && Still(trace, b) && !trace.failing(b) && trace.table(b) == trace.table(a)
    ensures pid in trace.table(b) && !trace.table(b)[pid].dead && 1 <= pid <= MAX_PID
    ensures var x := Instance(pid, trace.table(b)[pid].inode);
            Present(trace, b, x) && Alive(trace, b, x)
  {
    StillLater(trace, a, b);
  }

  /** The pins are those of the table. */
  ghost predicate PinsFit(pins: map<nat, Pin>, table: Table) {
    forall pid :: pid in pins && pid in table ==> pins[pid] == PinOf(table, pid)
  }

  lemma PinsFitMore(a: map<nat, Pin>, b: map<nat, Pin>, table: Table, pid: nat)
    requires PinsFit(a, table) && PinsGrow(a, b) && b.Keys <= a.Keys + {pid} && pid in table
    requires pid in b && b[pid] == PinOf(table, pid)
    ensures PinsFit(b, table)
  {
  }

  /** The table shows this ancestry, all of it alive. */
  ghost predicate Stands(table: Table, chain: seq<Row>, pid: nat) {
    Ancestry(chain, pid) && forall i :: 0 <= i < |chain| ==> RowStands(table, chain[i])
  }

  ghost predicate RowStands(table: Table, row: Row) {
    var pid := row.instance.pid;
    && pid in table && pid <= MAX_PID && !table[pid].dead && !Exiting(table[pid].identity.state)
    && row == RowOf(Instance(pid, table[pid].inode), table[pid].identity)
  }

  /** Where nothing moves, a process with an ancestry. */
  ghost predicate Standing(trace: Trace, at: nat, pins: map<nat, Pin>, pid: nat) {
    Still(trace, at) && PinsFit(pins, trace.table(at)) && exists chain :: Stands(trace.table(at), chain, pid)
  }

  lemma WholeAncestry(trace: Trace, at: nat, pins: map<nat, Pin>, pid: nat) returns (whole: seq<Row>)
    requires Standing(trace, at, pins, pid)
    ensures Stands(trace.table(at), whole, pid) && PinsFit(pins, trace.table(at)) && Still(trace, at)
  {
    whole :| Stands(trace.table(at), whole, pid);
  }

  function CurrentAt(chain: seq<Row>, pid: nat, n: nat): nat
    requires n <= |chain|
  {
    if n == 0 then pid else chain[n - 1].ppid
  }

  lemma NextStands(
    trace: Trace, start: nat, now: nat, table: Table, whole: seq<Row>, pid: nat, n: nat, pins: map<nat, Pin>)
    requires start <= now && Still(trace, start) && trace.table(start) == table && PinsFit(pins, table)
    requires Stands(table, whole, pid) && n <= |whole| && CurrentAt(whole, pid, n) > 1
    ensures n < |whole| && n < MAX_CHAIN && whole[n].instance.pid == CurrentAt(whole, pid, n)
    ensures forall i :: 0 <= i < n ==> whole[i].instance.pid != CurrentAt(whole, pid, n)
    ensures RowStands(table, whole[n]) && StandsAlone(trace, now, whole[n].instance.pid) && trace.table(now) == table
    ensures whole[n].instance.pid in pins ==> pins[whole[n].instance.pid] == PinOf(table, whole[n].instance.pid)
  {
    StillLater(trace, start, now);
    if n > 0 {
      OnlyTheLastHasNoParent(whole, pid, n - 1);
      assert whole[n - 1].ppid == whole[n].instance.pid;
    }
    assert RowStands(table, whole[n]);
    assert DistinctPids(whole);
  }

  lemma StandsToTheTop(table: Table, whole: seq<Row>, pid: nat, n: nat)
    requires Stands(table, whole, pid) && n <= |whole| && CurrentAt(whole, pid, n) <= 1
    ensures n == |whole| && n > 0
  {
    if n > 0 {
      OnlyTheLastHasNoParent(whole, pid, n - 1);
    }
  }

  /** There is one such ancestry. */
  lemma StandsOnce(table: Table, chain: seq<Row>, other: seq<Row>, pid: nat)
    requires Stands(table, chain, pid) && Stands(table, other, pid)
    ensures chain == other
  {
    var rows := map p | p in table :: RowOf(Instance(p, table[p].inode), table[p].identity);
    forall row | row in chain || row in other
      ensures row.instance.pid in rows && rows[row.instance.pid] == row
    {
      assert RowStands(table, row);
    }
    AncestryIsUnique(chain, other, pid, rows, if |chain| <= |other| then |chain| else |other|);
  }

  /** Where nothing moves: one process shows the socket, it is the caller's, and it has an ancestry. */
  ghost predicate Provable(trace: Trace, uid: nat, at: nat, pins: map<nat, Pin>, socket: nat, pid: nat) {
    && Orderly(trace, uid, at, socket) && Holders(trace.table(at), socket) == {pid}
    && Standing(trace, at, pins, pid)
    && pid in trace.table(at)
    && trace.table(at)[pid].identity.ruid == uid && trace.table(at)[pid].identity.euid == uid
  }

  /** The one holder, pinned, and its ancestry. */
  ghost predicate Proves(table: Table, socket: nat, pin: Pin, chain: seq<Row>) {
    var pid := pin.instance.pid;
    Holders(table, socket) == {pid} && pid in table && pin == PinOf(table, pid) && Stands(table, chain, pid)
  }

  lemma StaysProvable(
    trace: Trace, uid: nat, a: nat, b: nat, pins0: map<nat, Pin>, pins: map<nat, Pin>, socket: nat, pid: nat)
    requires a <= b && Provable(trace, uid, a, pins0, socket, pid) && PinsFit(pins, trace.table(a))
    ensures Provable(trace, uid, b, pins, socket, pid) && trace.table(b) == trace.table(a)
    ensures Still(trace, b) && !trace.failing(b)
    ensures Orderly(trace, uid, b, socket) && Standing(trace, b, pins, pid) && StandsAlone(trace, b, pid)
    ensures pid in pins ==> pins[pid] == PinOf(trace.table(b), pid)
    ensures Answers(trace.table(b), socket, Done(OwnerOf(trace.table(b), pid)))
    ensures forall r :: Answers(trace.table(b), socket, r) ==> r == Done(OwnerOf(trace.table(b), pid))
    ensures !Exiting(trace.table(b)[pid].identity.state) && Holders(trace.table(b), socket) == {pid}
    ensures trace.table(b)[pid].identity.ruid == uid && trace.table(b)[pid].identity.euid == uid
  {
    hide HasSocket, Plain;
    StaysOrderly(trace, uid, a, b, socket);
    StillLater(trace, a, b);
    assert pid in Holders(trace.table(a), socket);
    assert !Shared(trace.table(a), socket);
    var whole := WholeAncestry(trace, a, pins0, pid);
    assert RowStands(trace.table(a), whole[0]);
  }

  lemma ProvableFits(trace: Trace, uid: nat, at: nat, pins: map<nat, Pin>, socket: nat, pid: nat)
    requires Provable(trace, uid, at, pins, socket, pid)
    ensures PinsFit(pins, trace.table(at)) && Still(trace, at) && Orderly(trace, uid, at, socket) && !trace.failing(at)
    ensures forall other :: Provable(trace, uid, at, pins, socket, other) ==> other == pid
  {
    hide HasSocket, Plain;
    assert pid in Holders(trace.table(at), socket);
  }

  lemma ProvesIs(table: Table, socket: nat, pin: Pin, chain: seq<Row>, pid: nat)
    requires Proves(table, socket, pin, chain) && Holders(table, socket) == {pid}
    ensures pin.instance.pid == pid && pid in table && pin == PinOf(table, pid) && Stands(table, chain, pid)
  {
    assert pin.instance.pid in Holders(table, socket);
  }

  lemma ProvableOnce(
    trace: Trace, uid: nat, at: nat, pins: map<nat, Pin>, socket: nat, pid: nat, pin: Pin, chain: seq<Row>)
    requires Provable(trace, uid, at, pins, socket, pid)
    requires pin == PinOf(trace.table(at), pid) && Stands(trace.table(at), chain, pid)
    ensures Proves(trace.table(at), socket, pin, chain)
    ensures forall other :: Provable(trace, uid, at, pins, socket, other) ==> other == pid
  {
    ProvableFits(trace, uid, at, pins, socket, pid);
  }

  /** The connection does not change, and the owner of its socket can be proved. */
  ghost predicate CanProve(trace: Trace, connection: Connection, uid: nat, at: nat, pins: map<nat, Pin>) {
    exists socket, cookie, pid ::
      Steady(connection, at, (socket, cookie)) && Provable(trace, uid, at, pins, socket, pid)
  }

  lemma ToProve(trace: Trace, connection: Connection, uid: nat, at: nat, pins: map<nat, Pin>)
    returns (socket: nat, cookie: nat, pid: nat)
    requires CanProve(trace, connection, uid, at, pins)
    ensures Steady(connection, at, (socket, cookie)) && Provable(trace, uid, at, pins, socket, pid)
    ensures PinsFit(pins, trace.table(at)) && Still(trace, at) && !trace.failing(at)
  {
    hide Steady, Provable;
    socket, cookie, pid :| Steady(connection, at, (socket, cookie)) && Provable(trace, uid, at, pins, socket, pid);
    ProvableFits(trace, uid, at, pins, socket, pid);
  }

  /** What is released is the connection's socket, its one holder and the holder's ancestry, as the table has
      them. */
  ghost predicate IsProof(
    trace: Trace, connection: Connection, uid: nat, at: nat, pins: map<nat, Pin>, proof: Released)
  {
    var pid := proof.owner.instance.pid;
    && Steady(connection, at, (proof.socket, proof.cookie)) && Provable(trace, uid, at, pins, proof.socket, pid)
    && pid in trace.table(at) && proof.owner == OwnerOf(trace.table(at), pid)
    && Stands(trace.table(at), proof.ancestors, pid)
  }

  lemma HasProof(
    trace: Trace, connection: Connection, uid: nat, at: nat, pins: map<nat, Pin>, socket: nat, cookie: nat, pid: nat,
    pin: Pin, chain: seq<Row>)
    requires Steady(connection, at, (socket, cookie)) && Provable(trace, uid, at, pins, socket, pid)
    requires pid in trace.table(at) && pin == PinOf(trace.table(at), pid) && Stands(trace.table(at), chain, pid)
    ensures IsProof(
              trace, connection, uid, at, pins, Released(Owner(pin.instance, pin.original), socket, cookie, chain))
  {
    hide Steady, Provable, Stands;
  }

  lemma AnswersIsFinal(table: Table, socket: nat, r: Outcome<Owner>)
    requires Answers(table, socket, r)
    ensures r.Raised? ==> !IsChurn(r.error)
  {
    hide HasSocket;
  }

  class Proof {
    const trace: Trace
    const connection: Connection
    const uid: nat
    var now: nat
    var attempts: nat
    var refusals: seq<Error>
    var pins: map<nat, Pin>

    ghost predicate Valid()
      reads this
    {
      && attempts <= MAX_CENSUSES
      && Pinned(pins)
    }

    constructor (trace: Trace, connection: Connection, uid: nat, start: nat)
      ensures Valid() && attempts == 0 && refusals == [] && pins == map[]
      ensures this.trace == trace && this.connection == connection && this.uid == uid && now == start
    {
      this.trace, this.connection, this.uid, now := trace, connection, uid, start;
      attempts, refusals, pins := 0, [], map[];
    }

    /** Attempts until one settles. Only churn is tried again, each time from nothing, and the attempts
        of the whole job are counted together. */
    method Census(socket: nat)
      returns (r: Outcome<Owner>, ghost w: Window, ghost ever: set<Instance>, ghost rounds: seq<map<nat, nat>>)
      requires Valid()
      modifies this`now, this`attempts, this`refusals
      ensures Valid() && now >= old(now) && attempts >= old(attempts)
      ensures r.Raised? ==> r.error !in {Gone, Denied, Refuse(CensusChanged)}
      ensures r.Done? ==>
                && old(now) <= w.from && w.to == now
                && VerdictIn(trace, uid, w, r.value, socket)
                && Complete(trace, uid, w.from, w.settled, w.to, socket, r.value, ever)
                && 0 < |rounds| <= MAX_ROUNDS && Recorded(trace, w.from, w.to, rounds, ever)
      ensures r.Done? ==> |refusals| - |old(refusals)| == attempts - old(attempts) - 1
      ensures old(refusals) <= refusals
      ensures forall i :: |old(refusals)| <= i < |refusals| ==> IsChurn(refusals[i])
      ensures Orderly(trace, uid, old(now), socket) && old(attempts) < MAX_CENSUSES ==>
                Answers(trace.table(old(now)), socket, r) && attempts == old(attempts) + 1
    {
      hide Orderly, Answers, Verdict, Complete, Recorded;
      ghost var orderly := Orderly(trace, uid, now, socket) && attempts < MAX_CENSUSES;
      if orderly { StaysOrderly(trace, uid, now, now, socket); }
      w, ever, rounds := Window(now, now, now), {}, [];
      while true
        invariant Valid() && now >= old(now) && attempts >= old(attempts)
        invariant |refusals| - |old(refusals)| == attempts - old(attempts)
        invariant old(refusals) <= refusals
        invariant forall i :: |old(refusals)| <= i < |refusals| ==> IsChurn(refusals[i])
        invariant orderly ==> now == old(now) && attempts == old(attempts)
        decreases MAX_CENSUSES - attempts
      {
        var _ :- Bound(trace, now);
        if attempts >= MAX_CENSUSES { return Raised(Refuse(AttemptsExhausted)), w, ever, rounds; }
        attempts := attempts + 1;
        ghost var from := now;
        ghost var settled;
        var attempt, end;
        attempt, end, settled, ever, rounds := CompleteCensus(trace, uid, now, socket);
        now := end;
        if orderly { AnswersIsFinal(trace.table(from), socket, attempt); }
        if attempt.Done? {
          assert VerdictIn(trace, uid, Window(from, settled, end), attempt.value, socket);
          return attempt, Window(from, settled, end), ever, rounds;
        }
        if attempt.error == Gone || (attempt.error.Refusal? && attempt.error.reason == CensusChanged) {
          refusals := refusals + [attempt.error];
        } else {
          return attempt, w, ever, rounds;
        }
      }
    }

    /** Opening a process for good: the process and a handle, between two equal observations. */
    method OpenPin(pid: nat) returns (r: Outcome<Pin>)
      requires Valid()
      modifies this`now
      ensures now >= old(now)
      ensures r.Done? ==> r.value.instance.pid == pid && OpenedIn(trace, old(now), now, r.value)
      ensures StandsAlone(trace, old(now), pid) ==> r == Done(PinOf(trace.table(old(now)), pid))
    {
      ghost var start, stands := now, StandsAlone(trace, now, pid);
      if stands { StaysAlone(trace, start, now, pid); }
      hide StandsAlone, Still, ReadIdentity;
      if pid < 1 || pid > MAX_PID { return Raised(Refuse(ProcessUnavailable)); }
      var x, before, handle, after, live;
      x, now :- OpenProcess(trace, now, pid);
      ghost var opened' := now;
      if stands { StaysAlone(trace, start, now, pid); }
      before, now :- ProcessIdentity(trace, now, x);
      ghost var known := now;
      if stands { StaysAlone(trace, start, now, pid); }
      handle, now :- OpenPidfd(trace, now, pid);
      ghost var held := now;
      if stands { StaysAlone(trace, start, now, pid); }
      after, now :- ProcessIdentity(trace, now, x);
      SameHandle(trace, opened', held, now, x, handle, after);
      ghost var again := now;
      if stands { StaysAlone(trace, start, now, pid); }
      live, now := Live(trace, now, handle);
      if stands { StaysAlone(trace, start, now, pid); }
      if before != after || !live { return Raised(Refuse(ProcessChanged)); }
      ReadIdentityStays(trace, opened', known, start, known, x, before);
      ReadIdentityStays(trace, held, again, known, again, x, after);
      OpenedBetween(trace, start, known, again, now, Pin(x, handle, before));
      r := Done(Pin(x, handle, before));
    }

    /** A pinned process, observed again: alive and the very same. */
    method Recheck(pin: Pin) returns (r: Outcome<()>)
      requires pin.handle == pin.instance
      modifies this`now
      ensures now >= old(now)
      ensures r.Done? ==> ReadIdentity(trace, old(now), now, pin.instance, pin.original)
      ensures r.Done? ==> SeenAlive(trace, old(now), now, pin.instance)
      ensures StandsAlone(trace, old(now), pin.instance.pid)
              && pin == PinOf(trace.table(old(now)), pin.instance.pid) ==>
                r == Done(())
    {
      hide StandsAlone, Still, ReadIdentity, SeenAlive;
      ghost var start := now;
      ghost var pid, stands := pin.instance.pid, StandsAlone(trace, now, pin.instance.pid);
      if stands { StaysAlone(trace, start, now, pid); }
      var live, identity;
      live, now := Live(trace, now, pin.handle);
      if stands { StaysAlone(trace, start, now, pid); }
      if !live { return Raised(Refuse(ProcessChanged)); }
      ghost var reading := now;
      SeenAliveAt(trace, start, now, pin.handle);
      identity, now :- ProcessIdentity(trace, now, pin.instance);
      if identity != pin.original { return Raised(Refuse(ProcessChanged)); }
      ReadIdentityStays(trace, reading, now, start, now, pin.instance, identity);
      SeenAliveStays(trace, start, reading, now, pin.handle);
      r := Done(());
    }

    /** A process is opened once; every later use observes it again. */
    method PinProcess(pid: nat) returns (r: Outcome<Pin>)
      requires Valid()
      modifies this`now, this`pins
      ensures Valid() && now >= old(now)
      ensures PinsGrow(old(pins), pins) && pins.Keys <= old(pins).Keys + {pid}
      ensures r.Done? ==> pid in pins && pins[pid] == r.value
      ensures pid in pins && pid !in old(pins) ==>
                exists t: nat :: old(now) <= t <= now && OpenedIn(trace, old(now), t, pins[pid])
      ensures r.Done? ==> ReadIdentity(trace, old(now), now, r.value.instance, r.value.original)
      ensures r.Done? ==> SeenAlive(trace, old(now), now, r.value.instance)
      ensures StandsAlone(trace, old(now), pid)
              && (pid in old(pins) ==> old(pins)[pid] == PinOf(trace.table(old(now)), pid)) ==>
                r == Done(PinOf(trace.table(old(now)), pid))
    {
      ghost var start := now;
      ghost var stands := StandsAlone(trace, now, pid) && (pid in pins ==> pins[pid] == PinOf(trace.table(now), pid));
      if stands { StaysAlone(trace, start, now, pid); }
      hide StandsAlone, Still, ReadIdentity, SeenAlive, OpenedIn;
      var _ :- Bound(trace, now);
      if pid !in pins {
        var pin :- OpenPin(pid);
        pins := pins[pid := pin];
      }
      var pin := pins[pid];
      ghost var opened' := now;
      if stands { StaysAlone(trace, start, now, pid); }
      var _ :- Recheck(pin);
      ReadIdentityStays(trace, opened', now, start, now, pin.instance, pin.original);
      SeenAliveLater(trace, start, opened', now, pin.instance);
      r := Done(pin);
    }

    /** From a process up to the top, each one pinned. */
    method Ancestors(pid: nat) returns (r: Outcome<seq<Row>>)
      requires Valid()
      modifies this`now, this`pins
      ensures Valid() && now >= old(now)
      ensures PinsGrow(old(pins), pins)
      ensures r.Done? ==> Ancestry(r.value, pid) && Shown(trace, old(now), now, r.value)
      ensures r.Done? ==> RowsPinned(r.value, pins)
      ensures Standing(trace, old(now), old(pins), pid) ==>
                && PinsFit(pins, trace.table(old(now)))
                && r.Done? && Stands(trace.table(old(now)), r.value, pid)
    {
      hide Climbs, Shown, Linked, DistinctPids, Ancestry, Stands, Standing, StandsAlone, Still, PinsFit, RowsPinned;
      hide PinsGrow, Pinned, ReadIdentity, SeenAlive;
      ghost var start, standing := now, Standing(trace, now, pins, pid);
      ghost var table, whole := trace.table(now), [];
      if standing { whole := WholeAncestry(trace, now, pins, pid); }
      var chain: seq<Row> := [];
      var current := pid;
      ClimbBegins(trace, now, pid, pins);
      while current > 1
        invariant Valid() && now >= old(now)
        invariant PinsGrow(old(pins), pins)
        invariant |chain| <= MAX_CHAIN && Climbs(chain, pid, current)
        invariant Shown(trace, old(now), now, chain) && RowsPinned(chain, pins)
        invariant standing ==>
                    && Stands(table, whole, pid) && PinsFit(pins, table)
                    && chain <= whole && current == CurrentAt(whole, pid, |chain|)
        decreases MAX_CHAIN - |chain|
      {
        ghost var before, pins1 := now, pins;
        if standing { NextStands(trace, start, now, table, whole, pid, |chain|, pins); }
        if |chain| >= MAX_CHAIN || exists i | 0 <= i < |chain| :: chain[i].instance.pid == current {
          return Raised(Refuse(AncestryCycle));
        }
        var pin, one;
        one := PinProcess(current);
        PinsGrowOn(old(pins), pins1, pins);
        pin :- (one);
        if Exiting(pin.original.state) { return Raised(Refuse(AncestorExited)); }
        ghost var row := RowOf(pin.instance, pin.original);
        PinnedPid(pins, current);
        ClimbsOn(chain, pid, current, row);
        ShownMore(trace, old(now), before, now, chain, row, pin.original);
        RowsPinnedMore(chain, pins1, pins, row);
        if standing { PinsFitMore(pins1, pins, table, current); }
        chain := chain + [RowOf(pin.instance, pin.original)];
        current := pin.original.ppid;
      }
      if standing {
        StandsToTheTop(table, whole, pid, |chain|);
        assert chain == whole;
      }
      if chain == [] { return Raised(Refuse(AncestryUnavailable)); }
      Arrived(chain, pid, current);
      r := Done(chain);
    }

    /** The socket behind the connection, as the kernel names it at one instant of the call. */
    method Tcp() returns (r: Outcome<(nat, nat)>)
      modifies this`now
      ensures now >= old(now)
      ensures r.Done? ==> Joins(connection, old(now), now, r.value)
      ensures forall target :: Steady(connection, old(now), target) && Still(trace, old(now)) ==> r == Done(target)
    {
      now := Later(now);
      var found, fails: bool := connection(now), *;
      now := Later(now);
      if (fails && trace.failing(now)) || found.None? { return Raised(Refuse(SocketMismatch)); }
      r := Done(found.value);
    }

    /** The owner, pinned, and its ancestry. */
    method FirstPass(socket: nat) returns (r: Outcome<(Pin, seq<Row>)>, ghost w: Window)
      requires Valid()
      modifies this
      ensures Valid() && now >= old(now)
      ensures r.Done? ==>
                var pin := r.value.0;
                && old(now) <= w.from && w.to <= now
                && VerdictIn(trace, uid, w, Owner(pin.instance, pin.original), socket)
                && pin.original.ruid == uid && pin.original.euid == uid && pin.original.state !in {'Z', 'X', 'x'}
                && pin.instance.pid in pins && pins[pin.instance.pid] == pin
                && Ancestry(r.value.1, pin.instance.pid)
                && r.value.1[0] == RowOf(pin.instance, pin.original)
                && Shown(trace, w.to, now, r.value.1)
      ensures r.Done? ==> attempts >= old(attempts) + 1
      ensures forall pid :: Provable(trace, uid, old(now), old(pins), socket, pid) && old(attempts) < MAX_CENSUSES ==>
                            && r.Done? && r.value.0.instance.pid == pid
                            && Proves(trace.table(old(now)), socket, r.value.0, r.value.1)
                            && PinsFit(pins, trace.table(old(now))) && attempts == old(attempts) + 1
    {
      hide Provable, Proves, VerdictIn, Verdict, Complete, Recorded, Answers, Orderly, Standing, Stands, StandsAlone;
      hide PinsFit, Shown, Pinned, PinsGrow, ReadIdentity, SeenAlive, Ancestry, RowsPinned, Still;
      ghost var start, pins0, table := now, pins, trace.table(now);
      ghost var sure := attempts < MAX_CENSUSES && exists pid :: Provable(trace, uid, now, pins, socket, pid);
      ghost var holder :| sure ==> Provable(trace, uid, now, pins, socket, holder);
      w := Window(now, now, now);
      if sure { ProvableFits(trace, uid, start, pins, socket, holder); }
      ghost var ever, rounds;
      var census;
      census, w, ever, rounds := Census(socket);
      if sure { StaysProvable(trace, uid, start, now, pins0, pins, socket, holder); }
      var owner :- (census);
      var pin :- PinProcess(owner.instance.pid);
      PinnedPid(pins, owner.instance.pid);
      var foreign := pin.original.ruid != uid || pin.original.euid != uid;
      if !SameProcess(owner, pin) || Exiting(pin.original.state) || foreign {
        return Raised(Refuse(ProcessChanged)), w;
      }
      SameProcessIsOwner(trace, uid, w, owner, pin, socket);
      if sure {
        PinsFitMore(pins0, pins, table, holder);
        StaysProvable(trace, uid, start, now, pins0, pins, socket, holder);
      }
      ghost var pinning, pins1 := now, pins;
      var chain :- Ancestors(owner.instance.pid);
      FirstRow(chain, pins1, pins, pin);
      ShownSince(trace, w.to, pinning, now, chain);
      if sure { ProvableOnce(trace, uid, start, pins0, socket, holder, pin, chain); }
      r := Done((pin, chain));
    }

    /** The owner and its ancestry once more, which must both be what they were. */
    method SecondPass(socket: nat, pin: Pin, chain: seq<Row>) returns (r: Outcome<()>, ghost w: Window)
      requires Valid()
      modifies this
      ensures Valid() && now >= old(now)
      ensures r.Done? ==>
                && old(now) <= w.from && w.to <= now
                && VerdictIn(trace, uid, w, Owner(pin.instance, pin.original), socket)
                && Shown(trace, w.to, now, chain)
      ensures r.Done? ==> attempts >= old(attempts) + 1
      ensures
        forall pid :: Provable(trace, uid, old(now), old(pins), socket, pid) && old(attempts) < MAX_CENSUSES
                      && Proves(trace.table(old(now)), socket, pin, chain) ==>
                        r == Done(()) && PinsFit(pins, trace.table(old(now)))
    {
      hide Provable, Proves, VerdictIn, Verdict, Complete, Recorded, Answers, Orderly, Standing, Stands, StandsAlone;
      hide PinsFit, Shown, Pinned, PinsGrow, Ancestry, Still;
      ghost var start, pins0, table := now, pins, trace.table(now);
      ghost var sure :=
        && attempts < MAX_CENSUSES && Proves(table, socket, pin, chain)
        && exists pid :: Provable(trace, uid, now, pins, socket, pid);
      ghost var holder :| sure ==> Provable(trace, uid, now, pins, socket, holder);
      w := Window(now, now, now);
      if sure { ProvableFits(trace, uid, start, pins, socket, holder); }
      ghost var ever, rounds;
      var census;
      census, w, ever, rounds := Census(socket);
      if sure {
        StaysProvable(trace, uid, start, now, pins0, pins, socket, holder);
        ProvesIs(table, socket, pin, chain, holder);
      }
      var owner :- (census);
      if !SameProcess(owner, pin) { return Raised(Refuse(ProcessChanged)), w; }
      SameProcessIsOwner(trace, uid, w, owner, pin, socket);
      var again :- Ancestors(pin.instance.pid);
      if sure { StandsOnce(table, again, chain, holder); }
      if again != chain { return Raised(Refuse(AncestryChanged)), w; }
      r := Done(());
    }

    /** Owner and ancestry, and both of them again. */
    method BothPasses(socket: nat)
      returns (r: Outcome<(Pin, seq<Row>)>, ghost first: Window, ghost second: Window, ghost middle: nat)
      requires Valid()
      modifies this
      ensures Valid() && now >= old(now)
      ensures r.Done? ==>
                var pin, chain := r.value.0, r.value.1;
                && old(now) <= first.from && first.to <= middle <= second.from && second.to <= now
                && VerdictIn(trace, uid, first, Owner(pin.instance, pin.original), socket)
                && VerdictIn(trace, uid, second, Owner(pin.instance, pin.original), socket)
                && pin.original.ruid == uid && pin.original.euid == uid && pin.original.state !in {'Z', 'X', 'x'}
                && Ancestry(chain, pin.instance.pid) && chain[0] == RowOf(pin.instance, pin.original)
                && Shown(trace, first.to, middle, chain) && Shown(trace, second.to, now, chain)
      ensures r.Done? ==> attempts >= old(attempts) + 2
      ensures forall pid :: Provable(trace, uid, old(now), old(pins), socket, pid) && old(attempts) <= 14 ==>
                            && r.Done? && Proves(trace.table(old(now)), socket, r.value.0, r.value.1)
                            && PinsFit(pins, trace.table(old(now)))
    {
      hide VerdictIn, Ancestry, Shown, Provable, Proves, Stands, PinsFit, Pinned, Still;
      ghost var start, pins0 := now, pins;
      ghost var sure := attempts <= 14 && exists pid :: Provable(trace, uid, now, pins, socket, pid);
      ghost var holder :| sure ==> Provable(trace, uid, start, pins0, socket, holder);
      if sure { ProvableFits(trace, uid, start, pins, socket, holder); }
      second, middle := Window(now, now, now), now;
      r, first := FirstPass(socket);
      if r.Raised? { return; }
      var pin, chain := r.value.0, r.value.1;
      middle := now;
      if sure { StaysProvable(trace, uid, start, now, pins0, pins, socket, holder); }
      var again;
      again, second := SecondPass(socket, pin, chain);
      if again.Raised? { return Raised(again.error), first, second, middle; }
    }

    /** The whole proof: owner, ancestry, owner again, ancestry again, connection again. It succeeds wherever
        nothing moves, one process of the caller shows the socket and its ancestry can be read. */
    method SocketProof() returns (r: Outcome<Released>, ghost first: Window, ghost second: Window, ghost middle: nat)
      requires Valid()
      modifies this
      ensures Valid() && now >= old(now)
      ensures r.Done? ==>
                var owner := r.value.owner.instance;
                && old(now) <= first.from && first.to <= middle <= second.from && second.to <= now
                && VerdictIn(trace, uid, first, r.value.owner, r.value.socket)
                && VerdictIn(trace, uid, second, r.value.owner, r.value.socket)
                && r.value.owner.identity.ruid == uid && r.value.owner.identity.euid == uid
                && r.value.owner.identity.state !in {'Z', 'X', 'x'}
                && Ancestry(r.value.ancestors, owner.pid)
                && r.value.ancestors[0] == RowOf(owner, r.value.owner.identity)
                && Shown(trace, first.to, middle, r.value.ancestors)
                && Shown(trace, second.to, now, r.value.ancestors)
                && Joins(connection, old(now), first.from, (r.value.socket, r.value.cookie))
                && Joins(connection, second.to, now, (r.value.socket, r.value.cookie))
      ensures r.Done? ==> attempts >= old(attempts) + 2
      ensures CanProve(trace, connection, uid, old(now), old(pins)) && old(attempts) <= 14 ==>
                r.Done? && IsProof(trace, connection, uid, old(now), old(pins), r.value)
    {
      hide Verdict, VerdictIn, Ancestry, Joins, Shown, Steady, Provable, Proves, Stands, StandsAlone, PinsFit, Pinned;
      hide Still, PinsGrow, ReadIdentity, SeenAlive, CanProve, IsProof, Orderly, Standing, Answers;
      ghost var start, pins0 := now, pins;
      first, second, middle := Window(now, now, now), Window(now, now, now), now;
      ghost var sure := CanProve(trace, connection, uid, now, pins) && attempts <= 14;
      ghost var socket, cookie, holder := 0, 0, 0;
      if sure { socket, cookie, holder := ToProve(trace, connection, uid, now, pins); }
      var target :- Tcp();
      ghost var joined := now;
      if sure { StaysProvable(trace, uid, start, now, pins0, pins, socket, holder); }
      var passes;
      passes, first, second, middle := BothPasses(target.0);
      if passes.Raised? { return Raised(passes.error), first, second, middle; }
      var pin, chain := passes.value.0, passes.value.1;
      ghost var read := now;
      if sure {
        StaysProvable(trace, uid, start, now, pins0, pins, socket, holder);
        SteadyLater(connection, start, now, (socket, cookie));
      }
      var retarget :- Tcp();
      ghost var rejoined := now;
      if retarget != target { return Raised(Refuse(SocketMismatch)), first, second, middle; }
      if sure {
        StaysProvable(trace, uid, start, now, pins0, pins, socket, holder);
        ProvesIs(trace.table(start), socket, pin, chain, holder);
      }
      var _ :- PinProcess(pin.instance.pid);
      if sure { StaysProvable(trace, uid, start, now, pins0, pins0, socket, holder); }
      var _ :- Bound(trace, now);
      if sure { HasProof(trace, connection, uid, start, pins0, socket, cookie, holder, pin, chain); }
      ShownStays(trace, second.to, read, now, chain);
      JoinsStays(connection, old(now), joined, old(now), first.from, target);
      JoinsStays(connection, read, rejoined, second.to, now, target);
      r := Done(Released(Owner(pin.instance, pin.original), target.0, target.1, chain));
    }
  }

  predicate SameProcess(owner: Owner, pin: Pin) {
    && owner.instance == pin.instance
    && owner.identity.ppid == pin.original.ppid && owner.identity.ticks == pin.original.ticks
    && owner.identity.euid == pin.original.euid
  }

  /** The rows are the pinned processes as they were pinned, none of them about to end. */
  ghost predicate RowsPinned(chain: seq<Row>, pins: map<nat, Pin>) {
    forall i :: 0 <= i < |chain| ==>
      && chain[i].instance.pid in pins && pins[chain[i].instance.pid].original.state !in {'Z', 'X', 'x'}
      && chain[i] == RowOf(pins[chain[i].instance.pid].instance, pins[chain[i].instance.pid].original)
  }

  lemma RowsPinnedMore(chain: seq<Row>, a: map<nat, Pin>, b: map<nat, Pin>, row: Row)
    requires RowsPinned(chain, a) && PinsGrow(a, b)
    requires row.instance.pid in b && row == RowOf(b[row.instance.pid].instance, b[row.instance.pid].original)
    requires b[row.instance.pid].original.state !in {'Z', 'X', 'x'}
    ensures RowsPinned(chain + [row], b)
  {
    forall i | 0 <= i < |chain|
      ensures (chain + [row])[i].instance.pid in b
    {
      assert chain[i].instance.pid in a;
    }
  }

  lemma PinnedPid(pins: map<nat, Pin>, pid: nat)
    requires Pinned(pins) && pid in pins
    ensures pins[pid].instance.pid == pid
  {
  }

  lemma ClimbBegins(trace: Trace, now: nat, pid: nat, pins: map<nat, Pin>)
    ensures Climbs([], pid, pid) && Shown(trace, now, now, []) && RowsPinned([], pins) && PinsGrow(pins, pins)
  {
  }

  lemma ShownMore(trace: Trace, from: nat, a: nat, b: nat, chain: seq<Row>, row: Row, id: Identity)
    requires from <= a <= b && Shown(trace, from, a, chain)
    requires ReadIdentity(trace, a, b, row.instance, id) && row == RowOf(row.instance, id)
    ensures Shown(trace, from, b, chain + [row])
  {
    ShownStays(trace, from, a, b, chain);
    assert RowShown(trace, from, b, row);
    forall i | 0 <= i < |chain|
      ensures RowShown(trace, from, b, (chain + [row])[i])
    {
      assert RowShown(trace, from, b, chain[i]);
    }
  }

  lemma FirstRow(chain: seq<Row>, before: map<nat, Pin>, after: map<nat, Pin>, pin: Pin)
    requires Ancestry(chain, pin.instance.pid) && RowsPinned(chain, after) && PinsGrow(before, after)
    requires pin.instance.pid in before && before[pin.instance.pid] == pin
    ensures pin.instance.pid in after && after[pin.instance.pid] == pin
    ensures |chain| > 0 && chain[0] == RowOf(pin.instance, pin.original)
  {
    assert chain[0].instance.pid in after;
  }

  lemma ShownSince(trace: Trace, from: nat, a: nat, b: nat, chain: seq<Row>)
    requires from <= a && Shown(trace, a, b, chain)
    ensures Shown(trace, from, b, chain)
  {
    forall i | 0 <= i < |chain|
      ensures RowShown(trace, from, b, chain[i])
    {
      assert RowShown(trace, a, b, chain[i]);
    }
  }

  lemma ShownStays(trace: Trace, a: nat, b: nat, c: nat, chain: seq<Row>)
    requires b <= c && Shown(trace, a, b, chain)
    ensures Shown(trace, a, c, chain)
  {
    forall i | 0 <= i < |chain|
      ensures RowShown(trace, a, c, chain[i])
    {
      assert RowShown(trace, a, b, chain[i]);
    }
  }
}

/** The working directory of every process of the account, complete or refused.

    As in the Linux census, a trace fixes the process table at every instant, and the kernel calls
    promise only what holds while that table keeps changing. Darwin names a process instance by PID
    and birth. */
module CwdCensus {
  import opened Base
  import opened PidLists

  /** A guarded process shows other users no more than that it is there. */
  datatype Process = Process(birth: nat, uid: nat, ruid: nat, zombie: bool, guarded: bool, cwd: string)
  datatype Life = Life(pid: int, birth: nat, uid: nat, ruid: nat)
  type Table = map<int, Process>
  /** The table at every instant, and the instants at which a call may fail for no reason in the table, or the
      time budget be found to have run out. */
  datatype Trace = Trace(table: nat -> Table, failing: nat -> bool)

  ghost predicate Present(trace: Trace, t: nat, pid: int, birth: nat) {
    pid in trace.table(t) && trace.table(t)[pid].birth == birth
  }

  ghost predicate Running(trace: Trace, t: nat, pid: int, birth: nat) {
    Present(trace, t, pid, birth) && !trace.table(t)[pid].zombie
  }

  ghost predicate InOrder(t: nat, u: nat, v: nat) {
    t <= u <= v
  }

  /** A PID and birth name one instance, which is there over one stretch of time. */
  ghost predicate Lawful(trace: Trace) {
    forall pid, birth, t, u, v {:trigger InOrder(t, u, v), Present(trace, u, pid, birth)} ::
      InOrder(t, u, v) && Present(trace, t, pid, birth) && Present(trace, v, pid, birth) ==>
        Present(trace, u, pid, birth)
  }

  /** A running process of the account. */
  ghost predicate Ours(trace: Trace, me: nat, t: nat, pid: int, birth: nat) {
    Running(trace, t, pid, birth) && trace.table(t)[pid].uid == me
  }

  ghost predicate OursThroughout(trace: Trace, me: nat, from: nat, to: nat, pid: int, birth: nat) {
    forall t: nat {:trigger Running(trace, t, pid, birth)} {:trigger Ours(trace, me, t, pid, birth)} ::
      from <= t <= to ==> Ours(trace, me, t, pid, birth)
  }

  /** The instance was running at that instant, with those users. */
  ghost predicate Lives(trace: Trace, t: nat, life: Life) {
    && Running(trace, t, life.pid, life.birth)
    && trace.table(t)[life.pid].uid == life.uid && trace.table(t)[life.pid].ruid == life.ruid
  }

  ghost predicate LivedIn(trace: Trace, from: nat, to: nat, life: Life) {
    exists t: nat :: from <= t <= to && Lives(trace, t, life)
  }

  ghost predicate NotRunning(trace: Trace, from: nat, to: nat, pid: int) {
    exists t: nat :: from <= t <= to && (pid in trace.table(t) ==> trace.table(t)[pid].zombie)
  }

  /** The path was the instance's working directory at an instant of the window. */
  ghost predicate WorkedIn(trace: Trace, from: nat, to: nat, pid: int, birth: nat, path: string) {
    exists t: nat :: from <= t <= to && Present(trace, t, pid, birth) && trace.table(t)[pid].cwd == path
  }

  ghost predicate Someones(trace: Trace, from: nat, to: nat, path: string) {
    exists pid, birth :: WorkedIn(trace, from, to, pid, birth, path)
  }

  /** What the released paths mean: of every account process that ran through the last listing, the
      working directory had been read before that listing began; and every path was, by then, some
      process' working directory. */
  ghost predicate Verdict(trace: Trace, me: nat, from: nat, settled: nat, to: nat, paths: seq<string>) {
    && from <= settled <= to
    && (forall pid, birth ::
          pid > 1 && OursThroughout(trace, me, settled, to, pid, birth) ==>
            exists k :: 0 <= k < |paths| && WorkedIn(trace, from, settled, pid, birth, paths[k]))
    && (forall k :: 0 <= k < |paths| ==> Someones(trace, from, settled, paths[k]))
  }

  // ----- a table that stands still ----------------------------------------------------------

  /** From that instant on nothing changes and no call fails of itself. */
  ghost predicate Still(trace: Trace, from: nat) {
    forall t: nat {:trigger trace.table(t)} {:trigger trace.failing(t)} ::
      from <= t ==> trace.table(t) == trace.table(from) && !trace.failing(t)
  }

  lemma StillLater(trace: Trace, from: nat, t: nat)
    requires from <= t && Still(trace, from)
    ensures Still(trace, t) && trace.table(t) == trace.table(from) && !trace.failing(t)
  {
  }

  function LifeOf(table: Table, pid: int): Life
    requires pid in table
  {
    Life(pid, table[pid].birth, table[pid].uid, table[pid].ruid)
  }

  /** A process whose identity and directory the caller can read. */
  predicate Visible(table: Table, pid: int) {
    pid in table && !table[pid].zombie && !table[pid].guarded
  }

  /** The running processes of the account. */
  function Account(table: Table, me: nat): set<int> {
    set pid | pid in table && !table[pid].zombie && table[pid].uid == me
  }

  /** The working directories of the readable processes among these, in this order. */
  function Directories(table: Table, pids: seq<int>): seq<string> {
    if pids == [] then [] else
    var last := pids[|pids| - 1];
    Directories(table, pids[..|pids| - 1]) + if Visible(table, last) then [table[last].cwd] else []
  }

  predicate Absolute(path: string) { path != "" && path[0] == '/' }

  /** Only other users' processes are guarded, every directory is an absolute path, and there are few enough
      processes. */
  ghost predicate Orderly(trace: Trace, me: nat, at: nat) {
    && Still(trace, at) && Account(trace.table(at), me) != {} && |trace.table(at)| < MAX_PIDS
    && (forall pid :: pid in Account(trace.table(at), me) ==> !trace.table(at)[pid].guarded)
    && forall pid :: Visible(trace.table(at), pid) ==> Absolute(trace.table(at)[pid].cwd)
  }

  lemma StaysOrderly(trace: Trace, me: nat, a: nat, b: nat)
    requires a <= b && Orderly(trace, me, a)
    ensures Orderly(trace, me, b) && Still(trace, b) && trace.table(b) == trace.table(a) && !trace.failing(b)
  {
    StillLater(trace, a, b);
  }

  /** The PID was seen running as another user. */
  ghost predicate AnothersOnce(trace: Trace, me: nat, from: nat, to: nat, pid: int) {
    exists t: nat ::
      from <= t <= to && pid in trace.table(t) && !trace.table(t)[pid].zombie && trace.table(t)[pid].uid != me
  }

  // ----- kernel calls -----------------------------------------------------------------------

  datatype Errno = ESRCH | ENOENT | EINTR | EAGAIN | EPERM | EACCES | OTHER
  datatype Observation = Observed(life: Life) | Exited | Unavailable(errno: Errno)

  /** A failed step: tried again from the start of the job, or refused for good. */
  datatype Status = Ok | Retry | Refused

  predicate Transient(e: Errno) { e in {ESRCH, ENOENT, EINTR, EAGAIN} }

  /** A refusal is final unless the time budget of this attempt is what ran out. */
  method Refuse() returns (status: Status)
    ensures status != Ok
  {
    var expired: bool := *;
    status := if expired then Retry else Refused;
  }

  method AnyErrno() returns (e: Errno)
  {
    var choice: int := *;
    e := if choice == 0 then ESRCH else if choice == 1 then ENOENT else if choice == 2 then EINTR
         else if choice == 3 then EAGAIN else if choice == 4 then EPERM else if choice == 5 then EACCES else OTHER;
  }

  method WithinBudget(trace: Trace, at: nat) returns (within: bool)
    ensures !within ==> trace.failing(at)
  {
    within := *;
    within := within || !trace.failing(at);
  }

  method Observe(trace: Trace, start: nat, pid: int) returns (r: Observation, now: nat)
    ensures now >= start
    ensures r.Observed? ==>
              r.life.pid == pid && Lives(trace, now, r.life)
    ensures r == Exited ==> NotRunning(trace, start, now, pid)
    ensures Still(trace, start) ==>
              var table := trace.table(start);
              if Visible(table, pid) then r == Observed(LifeOf(table, pid))
              else if pid in table && !table[pid].zombie then r.Unavailable? else r == Exited
  {
    now := Later(start);
    var fails: bool := *;
    if fails && trace.failing(now) { var e := AnyErrno(); return Unavailable(e), now; }
    if pid !in trace.table(now) || trace.table(now)[pid].zombie { return Exited, now; }
    if trace.table(now)[pid].guarded { return Unavailable(EPERM), now; }
    var p := trace.table(now)[pid];
    r := Observed(Life(pid, p.birth, p.uid, p.ruid));
  }

  /** A vanished PID counts as gone only when the kernel confirms it. */
  method ConfirmExited(trace: Trace, start: nat, pid: int) returns (gone: bool, now: nat)
    ensures now >= start
    ensures gone ==> NotRunning(trace, start, now, pid)
  {
    now := Later(start);
    gone := pid !in trace.table(now) || trace.table(now)[pid].zombie;
  }

  /** A process that runs under another real user, as far as the short snapshot shows. */
  method ProtectedOtherUser(trace: Trace, me: nat, start: nat, pid: int) returns (other: bool, now: nat)
    ensures now >= start
    ensures other <==> pid in trace.table(now) && !trace.table(now)[pid].zombie && trace.table(now)[pid].uid != me
  {
    now := Later(start);
    other := pid in trace.table(now) && !trace.table(now)[pid].zombie && trace.table(now)[pid].uid != me;
  }

  /** A denied process that has passed to another user since it was listed, or ended. */
  method LeftAccount(trace: Trace, me: nat, start: nat, pid: int, e: Errno) returns (left: bool, now: nat)
    ensures now >= start && (left ==> e in {EPERM, EACCES})
  {
    left, now := false, start;
    if e in {EPERM, EACCES} {
      left, now := ProtectedOtherUser(trace, me, now, pid);
      if !left { left, now := ConfirmExited(trace, now, pid); }
    }
  }

  method CwdPath(trace: Trace, start: nat, pid: int) returns (ok: bool, path: string, e: Errno, now: nat)
    ensures now >= start
    ensures ok ==> pid in trace.table(now) && trace.table(now)[pid].cwd == path && Absolute(path)
    ensures Still(trace, start) && Visible(trace.table(start), pid) && Absolute(trace.table(start)[pid].cwd) ==>
              ok && path == trace.table(start)[pid].cwd
  {
    now := Later(start);
    e := AnyErrno();
    var fails: bool := *;
    if (fails && trace.failing(now)) || !Visible(trace.table(now), pid) || !Absolute(trace.table(now)[pid].cwd) {
      return false, "", e, now;
    }
    ok, path := true, trace.table(now)[pid].cwd;
  }

  /** One listing of the account, sorted. It misses no process of the account that ran all along. */
  method ListAccount(trace: Trace, me: nat, start: nat) returns (ok: bool, pids: seq<int>, now: nat)
    ensures now >= start
    ensures ok ==> Sorted(pids) && 0 < |pids| < MAX_PIDS
    ensures ok ==> forall pid, birth :: OursThroughout(trace, me, start, now, pid, birth) ==> pid in pids
    ensures Still(trace, start) && 0 < |Account(trace.table(start), me)| < MAX_PIDS ==>
              ok && forall pid :: pid in pids <==> pid in Account(trace.table(start), me)
  {
    now := Later(start);
    pids := [];
    var fails: bool := *;
    var ours := Account(trace.table(now), me);
    if (fails && trace.failing(now)) || ours == {} || |ours| >= MAX_PIDS { return false, pids, now; }
    pids := InOrderList(ours);
    forall pid, birth | OursThroughout(trace, me, start, now, pid, birth)
      ensures pid in pids
    {
      assert Running(trace, now, pid, birth);
    }
    ok := true;
  }

  /** All processes. Nothing about this list matters but its order: the account's own is merged in. */
  method ListAll(trace: Trace, start: nat, all: array<int>) returns (ok: bool, count: nat, now: nat)
    requires all.Length == MAX_PIDS
    modifies all
    ensures now >= start && count <= all.Length && (ok ==> Sorted(all[..count]))
    ensures Still(trace, start) && 0 < |trace.table(start)| < MAX_PIDS ==>
              ok && forall pid :: pid in all[..count] <==> pid in trace.table(start)
  {
    now := Later(start);
    var fails: bool := *;
    if (fails && trace.failing(now)) || |trace.table(now)| == 0 || |trace.table(now)| >= MAX_PIDS {
      return false, 0, now;
    }
    var pids := InOrderList(trace.table(now).Keys);
    assert |trace.table(now).Keys| == |trace.table(now)|;
    forall k | 0 <= k < |pids| {
      all[k] := pids[k];
    }
    assert all[..|pids|] == pids;
    ok, count := true, |pids|;
  }

  function Insert(list: seq<int>, p: int): (more: seq<int>)
    requires Sorted(list)
    ensures Sorted(more) && |more| == |list| + 1
    ensures forall q :: q in more <==> q in list || q == p
  {
    if list == [] || p <= list[0] then [p] + list
    else
      var rest := Insert(list[1..], p);
      assert forall k :: 0 <= k < |rest| ==> rest[k] in rest;
      assert list == [list[0]] + list[1..];
      [list[0]] + rest
  }

  method Any<T>(s: set<T>) returns (p: T)
    requires s != {}
    ensures p in s
  {
    p :| p in s;
  }

  method InOrderList(s: set<int>) returns (list: seq<int>)
    ensures Sorted(list) && |list| == |s| && forall p :: p in list <==> p in s
  {
    list := [];
    var left := s;
    while left != {}
      invariant left <= s && |list| + |left| == |s|
      invariant forall p :: p in list <==> p in s && p !in left
      invariant Sorted(list)
    {
      var p := Any(left);
      list, left := Insert(list, p), left - {p};
    }
  }

  // ----- reading one directory --------------------------------------------------------------

  datatype Record = Record(life: Life, path: string)

  ghost predicate Sound(trace: Trace, from: nat, to: nat, r: Record) {
    WorkedIn(trace, from, to, r.life.pid, r.life.birth, r.path)
  }

  /** A path between two observations of one lifetime is that instance's own, even though it was read
      by PID alone. */
  lemma PathBelongs(trace: Trace, t: nat, u: nat, v: nat, pid: int, birth: nat, path: string)
    requires Lawful(trace) && t <= u <= v
    requires Present(trace, t, pid, birth) && Present(trace, v, pid, birth)
    requires pid in trace.table(u) && trace.table(u)[pid].cwd == path
    ensures WorkedIn(trace, t, v, pid, birth, path)
  {
    assert InOrder(t, u, v) && (Present(trace, u, pid, birth) || !Present(trace, u, pid, birth));
  }

  /** One bracketed read: a record, or nothing because the process is gone or is another user's. A
      process the caller requires yields nothing only when it is gone. */
  method ReadCwd(trace: Trace, me: nat, start: nat, pid: int, required0: bool)
    returns (status: Status, record: Option<Record>, now: nat)
    requires Lawful(trace)
    ensures now >= start
    ensures status == Ok && record.Some? ==> record.value.life.pid == pid && Sound(trace, start, now, record.value)
    ensures status == Ok && record.Some? ==>
              LivedIn(trace, start, now, record.value.life)
    ensures status == Ok && record.None? ==>
              NotRunning(trace, start, now, pid) || (!required0 && AnothersOnce(trace, me, start, now, pid))
    ensures Orderly(trace, me, start) && (required0 ==> pid in Account(trace.table(start), me)) ==>
              status == Ok && record == RecordOf(trace.table(start), pid)
  {
    record, now := None, start;
    ghost var orderly := Orderly(trace, me, start);
    if orderly { StaysOrderly(trace, me, start, now); }
    var within := WithinBudget(trace, now);
    if !within { status := Refuse(); return; }
    var first;
    first, now := Observe(trace, now, pid);
    if first.Exited? { return Ok, None, now; }
    if orderly { StaysOrderly(trace, me, start, now); }
    if first.Unavailable? {
      if !required0 {
        var other;
        other, now := ProtectedOtherUser(trace, me, now, pid);
        if orderly { StaysOrderly(trace, me, start, now); }
        if other { return Ok, None, now; }
      }
      status, now := Unreadable(trace, me, now, pid, first.errno);
      return;
    }
    ghost var opening := now;
    var required := required0 || first.life.uid == me;
    var ok, path, e;
    ok, path, e, now := CwdPath(trace, now, pid);
    ghost var reading := now;
    if !ok {
      var gone;
      gone, now := ConfirmExited(trace, now, pid);
      if gone || (!required && e in {EPERM, EACCES}) { return Ok, None, now; }
      status, now := Unreadable(trace, me, now, pid, e);
      return;
    }
    if orderly { StaysOrderly(trace, me, start, now); }
    var second;
    second, now := Observe(trace, now, pid);
    if second.Exited? { return Ok, None, now; }
    if second != Observed(first.life) {
      var exiting: bool := *;
      return if second.Unavailable? && exiting then Refused else Retry, None, now;
    }
    PathBelongs(trace, opening, reading, now, pid, first.life.birth, path);
    status, record := Ok, Some(Record(second.life, path));
  }

  function RecordOf(table: Table, pid: int): Option<Record> {
    if Visible(table, pid) then Some(Record(LifeOf(table, pid), table[pid].cwd)) else None
  }

  /** A process that cannot be read refuses the attempt: for good if it is on its way out, and to be tried
      again if it may have passed on meanwhile. */
  method Unreadable(trace: Trace, me: nat, start: nat, pid: int, e: Errno) returns (status: Status, now: nat)
    ensures now >= start && status != Ok && (status == Refused ==> e !in {ENOENT, EINTR, EAGAIN})
  {
    now := start;
    var exiting: bool := *;
    if e == ESRCH && exiting { return Refused, now; }
    var left;
    left, now := LeftAccount(trace, me, now, pid, e);
    if left || Transient(e) { return Retry, now; }
    status := Refuse();
  }

  // ----- the census -------------------------------------------------------------------------

  /** The records an attempt has gathered. */
  function Known(records: seq<Option<Record>>, born: seq<Record>): set<Record> {
    (set k | 0 <= k < |records| && records[k].Some? :: records[k].value) + (set r | r in born)
  }

  ghost predicate AllSound(trace: Trace, from: nat, to: nat, known: set<Record>) {
    forall r :: r in known ==> Sound(trace, from, to, r)
  }

  /** There is a record of the instance, by PID, birth and the users it had in the window. */
  ghost predicate KnowsLife(trace: Trace, from: nat, to: nat, known: set<Record>, pid: int, birth: nat) {
    exists r :: r in known && r.life.pid == pid && r.life.birth == birth && LivedIn(trace, from, to, r.life)
  }

  /** If this PID belonged to one account process throughout the window, that process is known. */
  ghost predicate Covered(trace: Trace, me: nat, from: nat, to: nat, pid: int, known: set<Record>) {
    forall birth :: OursThroughout(trace, me, from, to, pid, birth) ==> KnowsLife(trace, from, to, known, pid, birth)
  }

  /** The PID was seen to be gone, or to be an instance that is known with its very users. */
  ghost predicate PassedOver(trace: Trace, from: nat, to: nat, pid: int, known: set<Record>) {
    NotRunning(trace, from, to, pid) || exists r :: r in known && r.life.pid == pid && LivedIn(trace, from, to, r.life)
  }

  /** What a listed PID may be known as: an instance recorded since the first listing, or one of the account. */
  function Reusable(records: seq<Option<Record>>, born: seq<Record>, me: nat): set<Record> {
    set r | r in Known(records, born) && (r in born || r.life.uid == me)
  }

  /** A record, or the lack of one, for every process of the table. */
  ghost predicate Gathered(table: Table, pids: seq<int>, records: seq<Option<Record>>) {
    && |records| == |pids| && StrictlyIncreasing(pids) && (forall p :: p in pids <==> p in table && p > 1)
    && RecordsOf(table, pids, records)
  }

  ghost predicate RecordsOf(table: Table, pids: seq<int>, records: seq<Option<Record>>) {
    |records| <= |pids| && forall k :: 0 <= k < |records| ==> records[k] == RecordOf(table, pids[k])
  }

  lemma RecordsOfMore(table: Table, pids: seq<int>, records: seq<Option<Record>>, record: Option<Record>)
    requires RecordsOf(table, pids, records) && |records| < |pids| && record == RecordOf(table, pids[|records|])
    ensures RecordsOf(table, pids, records + [record])
  {
  }

  /** One listed PID: its instance is known already, is gone, or is read now. */
  method CheckListed(
    trace: Trace, me: nat, ghost settled: nat, start: nat, pid: int, all: array<int>, count: nat,
    records: seq<Option<Record>>, born: seq<Record>)
    returns (status: Status, read: Option<Record>, now: nat)
    requires Lawful(trace) && settled <= start
    requires count <= all.Length && StrictlyIncreasing(all[..count]) && |records| == count
    ensures now >= start
    ensures status == Ok && read.None? ==> PassedOver(trace, start, now, pid, Reusable(records, born, me))
    ensures status == Ok && read.None? ==> Covered(trace, me, settled, now, pid, Known(records, born))
    ensures status == Ok && read.Some? ==> |born| < MAX_PIDS && Sound(trace, start, now, read.value)
    ensures status == Ok && read.Some? ==> Covered(trace, me, settled, now, pid, {read.value})
    ensures Orderly(trace, me, start) && Gathered(trace.table(start), all[..count], records)
            && pid > 1 && pid in Account(trace.table(start), me) ==>
              status == Ok && read == None
  {
    read, now := None, start;
    var seen;
    seen, now := Observe(trace, now, pid);
    if seen.Exited? {
      GoneIsCovered(trace, me, settled, start, now, pid, Known(records, born));
      return Ok, None, now;
    }
    if seen.Unavailable? {
      status, now := Unreadable(trace, me, now, pid, seen.errno);
      return;
    }
    ghost var looked := now;
    var found, at := Find(all, count, pid);
    var known := found && records[at].Some? && records[at].value.life == seen.life && seen.life.uid == me;
    assert known ==> records[at].value in Known(records, born);
    var j := 0;
    ghost var atOnce := known;
    while !known && j < |born|
      invariant 0 <= j <= |born| && (atOnce ==> known)
      invariant known ==> exists r :: r in Reusable(records, born, me) && r.life == seen.life
    {
      known := born[j].life == seen.life;
      assert born[j] in Known(records, born);
      j := j + 1;
    }
    if known {
      assert LivedIn(trace, start, now, seen.life);
      OneBirthAtATime(trace, me, settled, looked, now, seen.life, Known(records, born));
      return Ok, None, now;
    }
    if |born| >= MAX_PIDS { status := Refuse(); return; }
    status, read, now := ReadCwd(trace, me, now, pid, true);
    if status == Ok && read.Some? {
      ghost var t: nat :| looked <= t <= now && Lives(trace, t, read.value.life);
      OneBirthAtATime(trace, me, settled, t, now, read.value.life, {read.value});
    } else if status == Ok {
      GoneIsCovered(trace, me, settled, looked, now, pid, Known(records, born));
    }
  }

  lemma GoneIsCovered(trace: Trace, me: nat, settled: nat, a: nat, now: nat, pid: int, known: set<Record>)
    requires settled <= a <= now && NotRunning(trace, a, now, pid)
    ensures Covered(trace, me, settled, now, pid, known)
  {
    var t: nat :| a <= t <= now && (pid in trace.table(t) ==> trace.table(t)[pid].zombie);
    forall birth
      ensures !OursThroughout(trace, me, settled, now, pid, birth)
    {
      assert !Running(trace, t, pid, birth);
    }
  }

  lemma OneBirthAtATime(trace: Trace, me: nat, settled: nat, t: nat, now: nat, life: Life, known: set<Record>)
    requires settled <= t <= now && Lives(trace, t, life)
    requires exists r :: r in known && r.life == life
    ensures Covered(trace, me, settled, now, life.pid, known)
  {
    var r :| r in known && r.life == life;
    forall birth | OursThroughout(trace, me, settled, now, life.pid, birth)
      ensures KnowsLife(trace, settled, now, known, life.pid, birth)
    {
      assert LivedIn(trace, settled, now, r.life);
      assert Running(trace, t, life.pid, birth) || !Running(trace, t, life.pid, birth);
    }
  }

  lemma CoveredStays(trace: Trace, me: nat, settled: nat, a: nat, b: nat, pid: int, known: set<Record>)
    requires settled <= a <= b && Covered(trace, me, settled, a, pid, known)
    ensures Covered(trace, me, settled, b, pid, known)
  {
    forall birth | OursThroughout(trace, me, settled, b, pid, birth)
      ensures KnowsLife(trace, settled, b, known, pid, birth)
    {
      assert OursThroughout(trace, me, settled, a, pid, birth);
      assert KnowsLife(trace, settled, a, known, pid, birth);
      var r :| r in known && r.life.pid == pid && r.life.birth == birth && LivedIn(trace, settled, a, r.life);
      assert LivedIn(trace, settled, b, r.life);
    }
  }

  /** Every listed PID up to `i` is covered by what is known. */
  ghost predicate CoveredUpTo(
    trace: Trace, me: nat, settled: nat, to: nat, listed: seq<int>, i: nat, known: set<Record>)
    requires i <= |listed|
  {
    forall k :: 0 <= k < i && listed[k] > 1 ==> Covered(trace, me, settled, to, listed[k], known)
  }

  lemma CoveredUpToStays(
    trace: Trace, me: nat, settled: nat, a: nat, b: nat, listed: seq<int>, i: nat, known: set<Record>)
    requires settled <= a <= b && i <= |listed| && CoveredUpTo(trace, me, settled, a, listed, i, known)
    ensures CoveredUpTo(trace, me, settled, b, listed, i, known)
  {
    forall k | 0 <= k < i && listed[k] > 1
      ensures Covered(trace, me, settled, b, listed[k], known)
    {
      CoveredStays(trace, me, settled, a, b, listed[k], known);
    }
  }

  lemma NoneCovered(trace: Trace, me: nat, settled: nat, now: nat, listed: seq<int>, known: set<Record>)
    ensures CoveredUpTo(trace, me, settled, now, listed, 0, known)
  {
  }

  lemma CoveredUpToMore(
    trace: Trace, me: nat, settled: nat, a: nat, b: nat, listed: seq<int>, i: nat, known: set<Record>)
    requires settled <= a <= b && i < |listed| && CoveredUpTo(trace, me, settled, a, listed, i, known)
    requires listed[i] > 1 ==> Covered(trace, me, settled, b, listed[i], known)
    ensures CoveredUpTo(trace, me, settled, b, listed, i + 1, known)
  {
    CoveredUpToStays(trace, me, settled, a, b, listed, i, known);
  }

  lemma SoundStays(trace: Trace, from: nat, a: nat, b: nat, to: nat, r: Record)
    requires from <= a <= b <= to && Sound(trace, a, b, r)
    ensures Sound(trace, from, to, r)
  {
    var t: nat :|
      && a <= t <= b && Present(trace, t, r.life.pid, r.life.birth) && trace.table(t)[r.life.pid].cwd == r.path;
    assert from <= t <= to;
  }

  lemma KnownGrows(records: seq<Option<Record>>, born: seq<Record>, r: Record)
    ensures Known(records, born + [r]) == Known(records, born) + {r}
    ensures Known(records + [Some(r)], born) == Known(records, born) + {r}
    ensures Known(records + [None], born) == Known(records, born)
  {
    var more := records + [Some(r)];
    assert more[|records|] == Some(r);
    assert forall k :: 0 <= k < |records| ==> more[k] == records[k] && (records + [None])[k] == records[k];
    assert forall q :: q in Known(records, born) ==> q in Known(more, born) && q in Known(records + [None], born);
  }

  lemma AllSoundStays(trace: Trace, from: nat, a: nat, b: nat, known: set<Record>)
    requires from <= a <= b && AllSound(trace, from, a, known)
    ensures AllSound(trace, from, b, known)
  {
    forall r | r in known
      ensures Sound(trace, from, b, r)
    {
      SoundStays(trace, from, from, a, b, r);
    }
  }

  lemma OneMoreSound(trace: Trace, from: nat, a: nat, b: nat, known: set<Record>, r: Record)
    requires from <= a <= b && AllSound(trace, from, b, known) && Sound(trace, a, b, r)
    ensures AllSound(trace, from, b, known + {r})
  {
    SoundStays(trace, from, a, b, b, r);
  }

  lemma HasAccount(trace: Trace, me: nat, at: nat)
    requires Orderly(trace, me, at)
    ensures Still(trace, at) && !trace.failing(at)
    ensures 0 < |Account(trace.table(at), me)| < MAX_PIDS && 0 < |trace.table(at)| < MAX_PIDS
  {
    var table := trace.table(at);
    SubsetSize(Account(table, me), table.Keys);
    assert |table.Keys| == |table|;
  }

  /** One listing of the account and a look at each of its processes. A pass that reads nothing new
      finds everything known from before it. */
  method Pass(
    trace: Trace, me: nat, ghost from: nat, start: nat, all: array<int>, count: nat,
    records: seq<Option<Record>>, born0: seq<Record>)
    returns (status: Status, born: seq<Record>, now: nat)
    requires Lawful(trace) && from <= start
    requires count <= all.Length && StrictlyIncreasing(all[..count]) && |records| == count
    requires AllSound(trace, from, start, Known(records, born0)) && |born0| <= MAX_PIDS
    ensures now >= start
    ensures status == Ok ==> born0 <= born && |born| <= MAX_PIDS && AllSound(trace, from, now, Known(records, born))
    ensures status == Ok && born == born0 ==>
              forall pid :: pid > 1 ==> Covered(trace, me, start, now, pid, Known(records, born))
    ensures Orderly(trace, me, start) && Gathered(trace.table(start), all[..count], records) ==>
              status == Ok && born == born0
  {
    hide AllSound, Covered, CoveredUpTo, Sound, Orderly, Gathered;
    born, now := born0, start;
    ghost var orderly := Orderly(trace, me, start) && Gathered(trace.table(start), all[..count], records);
    if orderly { HasAccount(trace, me, start); }
    var ok, listed;
    ok, listed, now := ListAccount(trace, me, now);
    if !ok { status := Refuse(); return; }
    ghost var end := now;
    AllSoundStays(trace, from, start, now, Known(records, born));
    NoneCovered(trace, me, start, now, listed, Known(records, born));
    var i := 0;
    while i < |listed|
      invariant from <= start <= end <= now && i <= |listed|
      invariant born0 <= born && |born| <= MAX_PIDS
      invariant AllSound(trace, from, now, Known(records, born))
      invariant born == born0 ==> CoveredUpTo(trace, me, start, now, listed, i, Known(records, born))
      invariant orderly ==> born == born0
    {
      if orderly { StaysOrderly(trace, me, start, now); }
      ghost var earlier := now;
      var read: Option<Record> := None;
      if listed[i] > 1 {
        status, read, now := CheckListed(trace, me, start, now, listed[i], all, count, records, born);
        if status != Ok { return; }
      }
      AllSoundStays(trace, from, earlier, now, Known(records, born));
      if read.Some? {
        KnownGrows(records, born, read.value);
        OneMoreSound(trace, from, earlier, now, Known(records, born), read.value);
        born := born + [read.value];
      } else if born == born0 {
        CoveredUpToMore(trace, me, start, earlier, now, listed, i, Known(records, born));
      }
      i := i + 1;
    }
    status := Ok;
    if born == born0 {
      forall pid | pid > 1
        ensures Covered(trace, me, start, now, pid, Known(records, born))
      {
        ListedOrNot(trace, me, start, end, now, listed, pid, Known(records, born));
      }
    }
  }

  lemma ListedOrNot(
    trace: Trace, me: nat, settled: nat, end: nat, now: nat, listed: seq<int>, pid: int, known: set<Record>)
    requires settled <= end <= now && pid > 1
    requires forall p, birth :: OursThroughout(trace, me, settled, end, p, birth) ==> p in listed
    requires CoveredUpTo(trace, me, settled, now, listed, |listed|, known)
    ensures Covered(trace, me, settled, now, pid, known)
  {
    if pid in listed {
      var k :| 0 <= k < |listed| && listed[k] == pid;
      assert Covered(trace, me, settled, now, listed[k], known);
    } else {
      forall birth
        ensures !OursThroughout(trace, me, settled, now, pid, birth)
      {
        assert OursThroughout(trace, me, settled, now, pid, birth) ==>
            OursThroughout(trace, me, settled, end, pid, birth);
      }
    }
  }

  /** The union of both kernel lists, and one read of each process on it. */
  method FirstPass(trace: Trace, me: nat, start: nat, all: array<int>)
    returns (status: Status, count: nat, records: seq<Option<Record>>, now: nat)
    requires Lawful(trace) && all.Length == MAX_PIDS
    modifies all
    ensures now >= start
    ensures status == Ok ==>
              && count <= all.Length && StrictlyIncreasing(all[..count]) && |records| == count
              && AllSound(trace, start, now, Known(records, []))
    ensures Orderly(trace, me, start) ==> status == Ok && Gathered(trace.table(start), all[..count], records)
  {
    hide AllSound, Sound, Orderly, RecordsOf;
    records, now := [], start;
    ghost var orderly, table := Orderly(trace, me, start), trace.table(start);
    if orderly { HasAccount(trace, me, start); }
    var ok, account;
    ok, count, now := ListAll(trace, now, all);
    if !ok { status := Refuse(); return; }
    if orderly { StaysOrderly(trace, me, start, now); }
    ghost var listed := all[..count];
    ok, account, now := ListAccount(trace, me, now);
    if !ok { status := Refuse(); return; }
    if orderly { Union(table, me, listed, account); }
    ok, count := MergePids(all, count, account);
    if !ok { status := Refuse(); return; }
    ghost var merged := all[..count];
    if orderly { MergedAll(table, merged); }
    NothingRead(trace, start, now, table, merged);
    while |records| < count
      invariant start <= now && |records| <= count <= all.Length && all[..count] == merged
      invariant AllSound(trace, start, now, Known(records, []))
      invariant orderly ==> RecordsOf(table, merged, records)
    {
      ghost var earlier := now;
      if orderly { StaysOrderly(trace, me, start, now); }
      assert all[|records|] == merged[|records|] && merged[|records|] in merged;
      var read;
      status, read, now := ReadCwd(trace, me, now, all[|records|], all[|records|] in account);
      if status != Ok { return; }
      AllSoundStays(trace, start, earlier, now, Known(records, []));
      if read.Some? {
        KnownGrows(records, [], read.value);
        OneMoreSound(trace, start, earlier, now, Known(records, []), read.value);
      } else {
        KnownGrows(records, [], Record(Life(0, 0, 0, 0), ""));
      }
      if orderly { RecordsOfMore(table, merged, records, read); }
      records := records + [read];
    }
    status := Ok;
  }

  lemma NothingRead(trace: Trace, from: nat, to: nat, table: Table, pids: seq<int>)
    ensures AllSound(trace, from, to, Known([], [])) && RecordsOf(table, pids, [])
  {
  }

  /** The account's processes are among all. */
  lemma Union(table: Table, me: nat, all: seq<int>, account: seq<int>)
    requires |table| < MAX_PIDS && (forall p :: p in all <==> p in table)
    requires forall p :: p in account <==> p in Account(table, me)
    ensures Pids(all) + Pids(account) == (set p | p in table && p > 1)
    ensures |Pids(all) + Pids(account)| < MAX_PIDS
  {
    var ordinary := set p | p in table && p > 1;
    SubsetSize(ordinary, table.Keys);
    assert |table.Keys| == |table|;
  }

  lemma MergedAll(table: Table, merged: seq<int>)
    requires Members(merged) == set p | p in table && p > 1
    ensures forall p :: p in merged <==> p in table && p > 1
  {
    assert forall p :: p in merged <==> p in Members(merged);
  }

  /** The paths of these records, in this order. */
  function Paths(records: seq<Option<Record>>): seq<string> {
    if records == [] then [] else
    var last := records[|records| - 1];
    Paths(records[..|records| - 1]) + if last.Some? then [last.value.path] else []
  }

  lemma {:induction false} PathsOfKnown(records: seq<Option<Record>>)
    ensures forall r :: Some(r) in records ==> r.path in Paths(records)
    ensures forall path :: path in Paths(records) ==> exists r :: Some(r) in records && r.path == path
  {
    if records == [] {
    } else {
      var fewer := records[..|records| - 1];
      PathsOfKnown(fewer);
      assert records == fewer + [records[|records| - 1]];
      forall path | path in Paths(records)
        ensures exists r :: Some(r) in records && r.path == path
      {
        if path in Paths(fewer) {
          var r :| Some(r) in fewer && r.path == path;
          assert Some(r) in records;
        }
      }
    }
  }

  /** Where every process has its record, the paths are the directories of the readable processes. */
  lemma {:induction false} PathsAreDirectories(table: Table, pids: seq<int>, records: seq<Option<Record>>)
    requires |records| == |pids| && RecordsOf(table, pids, records)
    ensures Paths(records) == Directories(table, pids)
  {
    if pids == [] {
    } else {
      PathsAreDirectories(table, pids[..|pids| - 1], records[..|records| - 1]);
    }
  }

  function AsRead(born: seq<Record>): (records: seq<Option<Record>>)
    ensures |records| == |born| && forall k :: 0 <= k < |born| ==> records[k] == Some(born[k])
  {
    seq(|born|, k requires 0 <= k < |born| => Some(born[k]))
  }

  /** The records in PID order, and then those read later. */
  method Emit(records: seq<Option<Record>>, born: seq<Record>) returns (paths: seq<string>)
    ensures paths == Paths(records) + Paths(AsRead(born))
  {
    paths := [];
    var i := 0;
    while i < |records|
      invariant i <= |records| && paths == Paths(records[..i])
    {
      assert records[..i + 1][..i] == records[..i];
      if records[i].Some? {
        paths := paths + [records[i].value.path];
      }
      i := i + 1;
    }
    assert records[..|records|] == records;
    ghost var late := AsRead(born);
    i := 0;
    while i < |born|
      invariant i <= |born| && paths == Paths(records) + Paths(late[..i])
    {
      assert late[..i + 1][..i] == late[..i];
      paths := paths + [born[i].path];
      i := i + 1;
    }
    assert late[..|born|] == late;
  }

  lemma EmittedIsKnown(records: seq<Option<Record>>, born: seq<Record>)
    ensures forall r :: r in Known(records, born) ==> r.path in Paths(records) + Paths(AsRead(born))
    ensures forall path :: path in Paths(records) + Paths(AsRead(born)) ==>
                             exists r :: r in Known(records, born) && r.path == path
  {
    PathsOfKnown(records);
    PathsOfKnown(AsRead(born));
    forall r | r in Known(records, born)
      ensures r.path in Paths(records) + Paths(AsRead(born))
    {
      if r in born {
        var k :| 0 <= k < |born| && born[k] == r;
        assert AsRead(born)[k] == Some(r);
      } else {
        var k :| 0 <= k < |records| && records[k] == Some(r);
      }
    }
  }

  /** The paths are the working directories of all readable processes, in the order of their PIDs. */
  ghost predicate ShowsAll(table: Table, paths: seq<string>) {
    exists pids :: StrictlyIncreasing(pids) && (forall p :: p in pids <==> p in table && p > 1)
                   && paths == Directories(table, pids)
  }

  lemma GatheredShowsAll(table: Table, pids: seq<int>, records: seq<Option<Record>>)
    requires Gathered(table, pids, records)
    ensures ShowsAll(table, Paths(records) + Paths(AsRead([])))
  {
    PathsAreDirectories(table, pids, records);
    assert Paths(AsRead([])) == [];
  }

  /** There is one such list of paths. */
  lemma ShowsAllOnce(table: Table, paths: seq<string>, others: seq<string>)
    requires ShowsAll(table, paths) && ShowsAll(table, others)
    ensures paths == others
  {
    var pids :| StrictlyIncreasing(pids) && (forall p :: p in pids <==> p in table && p > 1)
                && paths == Directories(table, pids);
    var more :| StrictlyIncreasing(more) && (forall p :: p in more <==> p in table && p > 1)
                && others == Directories(table, more);
    IncreasingIsCanonical(pids, more);
  }

  /** The census: passes until one reads nothing new. Every pass before that adds a record, so there
      are at most `MAX_PIDS` of them. What it releases was all read before the last listing began. */
  method ProveCwds(trace: Trace, me: nat, start: nat)
    returns (status: Status, paths: seq<string>, ghost settled: nat, now: nat)
    requires Lawful(trace)
    ensures now >= start
    ensures status == Ok ==> Verdict(trace, me, start, settled, now, paths)
    ensures Orderly(trace, me, start) ==> status == Ok && ShowsAll(trace.table(start), paths)
  {
    hide AllSound, Covered, Orderly, Gathered, Verdict;
    ghost var orderly, table := Orderly(trace, me, start), trace.table(start);
    var all := new int[MAX_PIDS];
    paths, settled := [], start;
    var count, records;
    status, count, records, now := FirstPass(trace, me, start, all);
    if status != Ok { return; }
    var born: seq<Record> := [];
    var unread := true;
    while unread
      invariant start <= now && |born| <= MAX_PIDS
      invariant count <= all.Length && StrictlyIncreasing(all[..count]) && |records| == count
      invariant !unread ==> start <= settled <= now
      invariant AllSound(trace, start, if unread then now else settled, Known(records, born))
      invariant !unread ==> forall pid :: pid > 1 ==> Covered(trace, me, settled, now, pid, Known(records, born))
      invariant orderly ==> born == [] && Gathered(table, all[..count], records)
      decreases MAX_PIDS - |born|, unread
    {
      settled := now;
      if orderly { StaysOrderly(trace, me, start, now); }
      var more;
      status, more, now := Pass(trace, me, start, now, all, count, records, born);
      if status != Ok { return; }
      unread, born := |more| > |born|, more;
    }
    if orderly { StaysOrderly(trace, me, start, now); }
    var within := WithinBudget(trace, now);
    if !within { status := Refuse(); return; }
    paths := Emit(records, born);
    status := Ok;
    if orderly { GatheredShowsAll(table, all[..count], records); }
    EmittedIsKnown(records, born);
    VerdictHolds(trace, me, start, settled, now, paths, Known(records, born));
  }

  lemma VerdictHolds(
    trace: Trace, me: nat, from: nat, settled: nat, to: nat, paths: seq<string>, known: set<Record>)
    requires from <= settled <= to && AllSound(trace, from, settled, known)
    requires forall pid :: pid > 1 ==> Covered(trace, me, settled, to, pid, known)
    requires forall r :: r in known ==> r.path in paths
    requires forall path :: path in paths ==> exists r :: r in known && r.path == path
    ensures Verdict(trace, me, from, settled, to, paths)
  {
    forall pid, birth | pid > 1 && OursThroughout(trace, me, settled, to, pid, birth)
      ensures exists k :: 0 <= k < |paths| && WorkedIn(trace, from, settled, pid, birth, paths[k])
    {
      assert Covered(trace, me, settled, to, pid, known) && KnowsLife(trace, settled, to, known, pid, birth);
      var r :| r in known && r.life.pid == pid && r.life.birth == birth;
      var k :| 0 <= k < |paths| && paths[k] == r.path;
      assert Sound(trace, from, settled, r);
    }
    forall k | 0 <= k < |paths|
      ensures Someones(trace, from, settled, paths[k])
    {
      assert paths[k] in paths;
      var r :| r in known && r.path == paths[k];
      assert Sound(trace, from, settled, r);
      assert WorkedIn(trace, from, settled, r.life.pid, r.life.birth, paths[k]);
    }
  }
}

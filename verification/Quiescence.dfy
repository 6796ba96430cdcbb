/** Deciding that a captain's whole job has gone quiet, from observations that are never taken at one
    instant.

    The service is a `Trace` of what the watcher can look at: the conversation log, the armed
    watches, and the workers with their status. Time is in milliseconds and passes freely between
    and during observations. */
module Quiescence {

  // ----- the service ------------------------------------------------------------------------

  /** A replayed event: a turn of a run, or anything the watcher skips. */
  datatype Event = Turn(runId: string, phase: string) | Skipped

  datatype World = World(log: seq<Event>, watches: set<nat>, workers: map<string, string>)

  type Trace = nat -> World

  const SETTLED: set<string> := {"idle", "done", "blocked"}
  const OBSERVATION_BUDGET_MS := 5000

  function Busy(workers: map<string, string>): set<string> {
    set pane | pane in workers && workers[pane] !in SETTLED
  }

  /** The runs of a log, each with its phases in order. */
  function Runs(log: seq<Event>): map<string, seq<string>> {
    if log == [] then map[] else Extend(Runs(log[..|log| - 1]), log[|log| - 1])
  }

  function Extend(runs: map<string, seq<string>>, event: Event): map<string, seq<string>> {
    match event
    case Skipped => runs
    case Turn(runId, phase) => runs[runId := (if runId in runs then runs[runId] else []) + [phase]]
  }

  predicate AcceptedOnly(phases: seq<string>) {
    forall i :: 0 <= i < |phases| ==> phases[i] == "accepted"
  }

  function InFlight(runs: map<string, seq<string>>): set<string> {
    set runId | runId in runs && AcceptedOnly(runs[runId])
  }

  ghost predicate Step(w: World, v: World) {
    && w.log <= v.log
    && (w.watches == {} ==> Runs(v.log).Keys <= Runs(w.log).Keys)
    && (InFlight(Runs(w.log)) == {} ==> v.watches <= w.watches && Busy(v.workers) <= Busy(w.workers))
  }

  /** How the service moves. The log only grows. A watch that fires admits its run while it is still
      armed and is cleared afterwards, and nothing else admits runs. Only a run in flight arms a
      watch or sets a worker to work. Everything else is free: watches vanish, workers come and go,
      runs settle at any time. */
  ghost predicate Lawful(trace: Trace) {
    forall t: nat :: Step(trace(t), trace(t + 1))
  }

  ghost predicate Quiet(w: World) {
    w.watches == {} && Busy(w.workers) == {} && InFlight(Runs(w.log)) == {}
  }

  // ----- the log ----------------------------------------------------------------------------

  /** A longer log knows every run of a shorter one, and a run that settled stays settled. */
  lemma {:induction false} RunsGrow(log: seq<Event>, more: seq<Event>)
    requires log <= more
    ensures Runs(log).Keys <= Runs(more).Keys
    ensures forall runId :: runId in Runs(log) ==> Runs(log)[runId] <= Runs(more)[runId]
    ensures InFlight(Runs(more)) <= InFlight(Runs(log)) + (Runs(more).Keys - Runs(log).Keys)
  {
    if |more| == |log| {
      assert more == log;
    } else {
      var shorter := more[..|more| - 1];
      assert log <= shorter;
      RunsGrow(log, shorter);
    }
    forall runId | runId in Runs(log) && runId in InFlight(Runs(more))
      ensures runId in InFlight(Runs(log))
    {
      assert forall i :: 0 <= i < |Runs(log)[runId]| ==> Runs(log)[runId][i] == Runs(more)[runId][i];
    }
  }

  lemma {:induction false} LogGrows(trace: Trace, a: nat, b: nat)
    requires Lawful(trace) && a <= b
    ensures trace(a).log <= trace(b).log
    decreases b - a
  {
    if a < b {
      LogGrows(trace, a, b - 1);
      assert Step(trace(b - 1), trace(b - 1 + 1));
    }
  }

  // ----- why a confirmed pass is enough -----------------------------------------------------

  /** Between two instants that know equally many runs, a service without runs in flight has none. */
  lemma NoneInFlight(trace: Trace, a: nat, t: nat, b: nat)
    requires Lawful(trace) && a <= t <= b
    requires InFlight(Runs(trace(a).log)) == {}
    requires |Runs(trace(a).log)| == |Runs(trace(b).log)|
    ensures InFlight(Runs(trace(t).log)) == {}
  {
    LogGrows(trace, a, t);
    LogGrows(trace, t, b);
    hide Runs, InFlight, Lawful;
    var first, here, last := trace(a).log, trace(t).log, trace(b).log;
    RunsGrow(first, here);
    RunsGrow(here, last);
    SameSizeSubset(Runs(first).Keys, Runs(last).Keys);
    assert Runs(here).Keys - Runs(first).Keys == {};
  }

  /** While no run is in flight and none is admitted, watches and busy workers can only disappear. */
  lemma {:induction false} Frozen(trace: Trace, a: nat, b: nat, from: nat, t: nat)
    requires Lawful(trace) && a <= from <= t <= b
    requires InFlight(Runs(trace(a).log)) == {}
    requires |Runs(trace(a).log)| == |Runs(trace(b).log)|
    ensures InFlight(Runs(trace(t).log)) == {}
    ensures trace(t).watches <= trace(from).watches
    ensures Busy(trace(t).workers) <= Busy(trace(from).workers)
    decreases t - from
  {
    NoneInFlight(trace, a, t, b);
    if from < t {
      hide Runs, InFlight, Busy;
      Frozen(trace, a, b, from, t - 1);
      assert Step(trace(t - 1), trace(t - 1 + 1));
    }
  }

  lemma SameSizeSubset(s: set<string>, u: set<string>)
    requires s <= u && |s| == |u|
    ensures s == u
  {
    assert |u - s| == |u| - |s|;
  }

  /** A quiet service stays quiet. */
  lemma {:induction false} QuietIsStable(trace: Trace, a: nat, t: nat)
    requires Lawful(trace) && a <= t && Quiet(trace(a))
    ensures Quiet(trace(t)) && Runs(trace(t).log).Keys == Runs(trace(a).log).Keys
    decreases t - a
  {
    if a < t {
      QuietIsStable(trace, a, t - 1);
      assert Step(trace(t - 1), trace(t - 1 + 1));
      hide Runs, InFlight, Busy;
      RunsGrow(trace(t - 1).log, trace(t).log);
    }
  }

  /** No worker was at work all through the window. */
  ghost predicate NoneBusyThroughout(trace: Trace, from: nat, to: nat) {
    forall pane :: IdleOnce(trace, from, to, pane)
  }

  ghost predicate IdleOnce(trace: Trace, from: nat, to: nat, pane: string) {
    exists t: nat :: from <= t <= to && pane !in Busy(trace(t).workers)
  }

  /** The whole argument. `first` is when the first pass read the end of the conversation; after it
      the second pass listed the workers from `listing` to `listed`, read the watches at `watched`,
      and read the end of the conversation at `second`. */
  lemma ConfirmedIsQuiet(trace: Trace, first: nat, listing: nat, listed: nat, watched: nat, second: nat)
    requires Lawful(trace) && first <= listing <= listed <= watched <= second
    requires InFlight(Runs(trace(first).log)) == {}
    requires NoneBusyThroughout(trace, listing, listed)
    requires trace(watched).watches == {}
    requires |Runs(trace(first).log)| == |Runs(trace(second).log)|
    ensures forall t: nat :: second <= t ==> Quiet(trace(t)) && |Runs(trace(t).log)| == |Runs(trace(second).log)|
  {
    forall pane
      ensures pane !in Busy(trace(listed).workers)
    {
      assert IdleOnce(trace, listing, listed, pane);
      var t: nat :| listing <= t <= listed && pane !in Busy(trace(t).workers);
      Frozen(trace, first, second, t, listed);
    }
    Frozen(trace, first, second, listed, second);
    Frozen(trace, first, second, watched, second);
    assert Quiet(trace(second));
    forall t: nat | second <= t
      ensures Quiet(trace(t)) && |Runs(trace(t).log)| == |Runs(trace(second).log)|
    {
      QuietIsStable(trace, second, t);
    }
  }

  // ----- why less is not --------------------------------------------------------------------

  const FIRST_RUNS := [Turn("first", "accepted"), Turn("first", "settled")]
  const BOTH_RUNS := FIRST_RUNS + [Turn("second", "accepted"), Turn("second", "settled")]

  /** Twice, a run arms a watch after the watches were read, and settles before the conversation is. */
  function Race(t: nat): World {
    if t <= 1 then World(BOTH_RUNS[..1], {}, map[])
    else if t == 2 then World(BOTH_RUNS[..1], {7}, map[])
    else if t == 3 then World(BOTH_RUNS[..2], {7}, map[])
    else if t == 4 then World(BOTH_RUNS[..3], {7}, map[])
    else if t <= 6 then World(BOTH_RUNS[..3], {}, map[])
    else if t == 7 then World(BOTH_RUNS[..3], {8}, map[])
    else World(BOTH_RUNS, {8}, map[])
  }

  lemma RaceRuns()
    ensures Runs(BOTH_RUNS[..1]) == map["first" := ["accepted"]]
    ensures Runs(BOTH_RUNS[..2]) == map["first" := ["accepted", "settled"]]
    ensures Runs(BOTH_RUNS[..3]) == map["first" := ["accepted", "settled"], "second" := ["accepted"]]
    ensures Runs(BOTH_RUNS) == map["first" := ["accepted", "settled"], "second" := ["accepted", "settled"]]
  {
    var none: seq<string> := [];
    assert none + ["accepted"] == ["accepted"] && ["accepted"] + ["settled"] == ["accepted", "settled"];
    assert BOTH_RUNS[..1][..0] == [];
    assert Runs(BOTH_RUNS[..1]) == Extend(map[], BOTH_RUNS[0]);
    assert BOTH_RUNS[..2][..1] == BOTH_RUNS[..1];
    assert Runs(BOTH_RUNS[..2]) == Extend(Runs(BOTH_RUNS[..1]), BOTH_RUNS[1]);
    assert BOTH_RUNS[..3][..2] == BOTH_RUNS[..2];
    assert Runs(BOTH_RUNS[..3]) == Extend(Runs(BOTH_RUNS[..2]), BOTH_RUNS[2]);
    assert Runs(BOTH_RUNS) == Extend(Runs(BOTH_RUNS[..3]), BOTH_RUNS[3]);
  }

  /** What one pass in the watcher's order has to see: workers at `w`, watches at `v`, and the end of
      the conversation at `c`. */
  ghost predicate PassLooksQuiet(trace: Trace, w: nat, v: nat, c: nat) {
    && w <= v <= c && NoneBusyThroughout(trace, w, w) && trace(v).watches == {}
    && InFlight(Runs(trace(c).log)) == {} && Runs(trace(c).log) != map[]
  }

  /** Two passes in a row can each look quiet while a watch stays armed. What tells them apart from a
      quiet service is that the second knows one run more. */
  lemma LookingQuietTwiceIsNotEnough()
    ensures Lawful(Race)
    ensures PassLooksQuiet(Race, 0, 1, 3) && PassLooksQuiet(Race, 5, 6, 8)
    ensures forall t: nat :: t >= 8 ==> !Quiet(Race(t))
    ensures |Runs(Race(3).log)| < |Runs(Race(8).log)|
  {
    RaceRuns();
    assert "first" in InFlight(Runs(BOTH_RUNS[..1])) && "second" in InFlight(Runs(BOTH_RUNS[..3]));
    assert Runs(BOTH_RUNS)["first"][1] != "accepted" && Runs(BOTH_RUNS)["second"][1] != "accepted";
    assert Runs(BOTH_RUNS[..2])["first"][1] != "accepted";
    forall t: nat
      ensures Step(Race(t), Race(t + 1))
    {
    }
    forall w: nat, pane
      ensures IdleOnce(Race, w, w, pane)
    {
      assert pane !in Busy(Race(w).workers);
    }
    assert 8 in Race(8).watches;
  }

  // ----- the watcher ------------------------------------------------------------------------

  datatype Observed<+T> = Known(value: T) | Unknown

  /** A counted observation; `None` stands for one that could not be made. */
  datatype Sample = Sample(watches: Observed<nat>, workers: Observed<seq<string>>, runsSeen: nat, runsInFlight: nat)
  {
    predicate Complete() { watches.Known? && workers.Known? }

    /** Nothing armed, nobody busy, no run in flight, and at least one run ever. */
    predicate Candidate() {
      && watches == Known(0)
      && workers.Known? && AllSettled(workers.value)
      && runsInFlight == 0 && runsSeen > 0
    }
  }

  datatype Page = Page(events: seq<Event>, nextCursor: nat, hasMore: bool)

  datatype Ending = Quiescent | FailedClosed | DeadlineReached

  /** When one pass took each of its observations. */
  datatype Pass = Pass(listing: nat, listed: nat, watched: nat, drained: nat)

  ghost predicate InPassOrder(start: nat, p: Pass) {
    start <= p.listing <= p.listed <= p.watched <= p.drained
  }

  predicate AllSettled(statuses: seq<string>) {
    forall i :: 0 <= i < |statuses| ==> statuses[i] in SETTLED
  }

  /** The statuses are those of the workers. */
  ghost predicate Lists(workers: map<string, string>, statuses: seq<string>) {
    && (forall pane :: pane in workers ==> workers[pane] in statuses)
    && (forall i :: 0 <= i < |statuses| ==> statuses[i] in workers.Values)
  }

  /** A sample is what the service was like when the pass looked. */
  ghost predicate Reflects(trace: Trace, p: Pass, sample: Sample) {
    && (sample.workers.Known? ==> Lists(trace(p.listed).workers, sample.workers.value))
    && (sample.workers.Known? && AllSettled(sample.workers.value) ==> NoneBusyThroughout(trace, p.listing, p.listed))
    && (sample.watches.Known? ==> sample.watches.value == |trace(p.watched).watches|)
    && sample.runsSeen == |Runs(trace(p.drained).log)|
    && sample.runsInFlight == |InFlight(Runs(trace(p.drained).log))|
  }

  /** Every sample was taken by a pass of its own, one after the other. */
  ghost predicate Sampled(trace: Trace, passes: seq<Pass>, samples: seq<Sample>)
    requires |passes| == |samples|
  {
    && (forall k :: 0 <= k < |samples| ==> Reflects(trace, passes[k], samples[k]) && InPassOrder(0, passes[k]))
    && forall k :: 0 < k < |passes| ==> passes[k - 1].drained <= passes[k].listing
  }

  // Which samples belong together.

  /** Of the samples from `from` on, the one at `k` opens a turn of the loop: it does not confirm another. */
  predicate Opens(samples: seq<Sample>, from: nat, k: nat)
    requires from <= k <= |samples|
  {
    k == from || !(Opens(samples, from, k - 1) && samples[k - 1].Candidate())
  }

  /** Every turn began with the time of an observation left, five seconds. */
  ghost predicate InBudget(samples: seq<Sample>, passes: seq<Pass>, from: nat, deadlineAt: nat) {
    from <= |samples| <= |passes| &&
    forall k :: from <= k < |samples| && Opens(samples, from, k) ==> passes[k].listing + 5000 <= deadlineAt
  }

  lemma TurnInBudget(
    before: seq<Sample>, passes0: seq<Pass>, samples: seq<Sample>, passes: seq<Pass>, from: nat, deadlineAt: nat)
    requires InBudget(before, passes0, from, deadlineAt) && Opens(before, from, |before|)
    requires before <= samples && passes0 <= passes && |samples| <= |passes| && |samples| <= |before| + 2
    requires |samples| == |before| + 2 ==> samples[|before|].Candidate()
    requires |samples| > |before| ==> passes[|before|].listing + 5000 <= deadlineAt
    ensures InBudget(samples, passes, from, deadlineAt)
  {
    OpensMore(before, samples, from, |before|);
    forall k | from <= k < |samples| && Opens(samples, from, k)
      ensures passes[k].listing + 5000 <= deadlineAt
    {
      if k < |before| { OpensMore(before, samples, from, k); }
    }
  }

  /** A candidate, and the pass that was to confirm it, agree. */
  predicate Agree(samples: seq<Sample>, from: nat, k: nat)
    requires from <= k < |samples| - 1
  {
    && Opens(samples, from, k) && samples[k].Candidate() && samples[k + 1].Candidate()
    && samples[k].runsSeen == samples[k + 1].runsSeen
  }

  ghost predicate SomeAgree(samples: seq<Sample>, from: nat) {
    exists k :: from <= k < |samples| - 1 && Agree(samples, from, k)
  }

  lemma {:induction false} OpensMore(samples: seq<Sample>, more: seq<Sample>, from: nat, k: nat)
    requires from <= k <= |samples| && samples <= more
    ensures Opens(more, from, k) == Opens(samples, from, k)
  {
    if k > from { OpensMore(samples, more, from, k - 1); }
  }

  /** One more sample agrees with none but the one before it. */
  lemma SomeAgreeMore(samples: seq<Sample>, sample: Sample, from: nat)
    requires from <= |samples|
    ensures var more := samples + [sample];
            SomeAgree(more, from) <==>
              SomeAgree(samples, from) || (|samples| > from && Agree(more, from, |samples| - 1))
  {
    var more := samples + [sample];
    forall k | from <= k < |samples| - 1
      ensures Agree(more, from, k) == Agree(samples, from, k)
    {
      OpensMore(samples, more, from, k);
    }
    if SomeAgree(more, from) {
      var k :| from <= k < |more| - 1 && Agree(more, from, k);
      assert k < |samples| - 1 || k == |samples| - 1;
    }
    if SomeAgree(samples, from) {
      var k :| from <= k < |samples| - 1 && Agree(samples, from, k);
      assert Agree(more, from, k);
    }
  }

  /** While the service is quiet, a complete pass finds a candidate, and knows the runs there are. */
  lemma QuietIsCandidate(trace: Trace, at: nat, p: Pass, sample: Sample)
    requires Lawful(trace) && Quiet(trace(at)) && Runs(trace(at).log) != map[]
    requires InPassOrder(at, p) && Reflects(trace, p, sample) && sample.Complete()
    ensures sample.Candidate() && sample.runsSeen == |Runs(trace(at).log)|
  {
    QuietIsStable(trace, at, p.listed);
    QuietIsStable(trace, at, p.watched);
    QuietIsStable(trace, at, p.drained);
    var workers, statuses := trace(p.listed).workers, sample.workers.value;
    forall i | 0 <= i < |statuses|
      ensures statuses[i] in SETTLED
    {
      var pane :| pane in workers && workers[pane] == statuses[i];
      assert pane !in Busy(workers);
    }
    assert |Runs(trace(at).log).Keys| == |Runs(trace(at).log)|;
    assert |Runs(trace(p.drained).log).Keys| == |Runs(trace(p.drained).log)|;
  }

  /** Had the service been quiet all along, the very first candidate and its second pass would have agreed. */
  lemma QuietServiceIsNoticed(trace: Trace, at: nat, passes: seq<Pass>, samples: seq<Sample>, from: nat)
    requires Lawful(trace) && Quiet(trace(at)) && Runs(trace(at).log) != map[]
    requires |passes| == |samples| && Sampled(trace, passes, samples) && from < |samples| && at <= passes[from].listing
    requires forall k :: from <= k < |samples| ==> samples[k].Complete()
    ensures SomeAgree(samples, from) || !Opens(samples, from, |samples|)
  {
    QuietIsCandidate(trace, at, passes[from], samples[from]);
    if |samples| > from + 1 {
      QuietIsCandidate(trace, at, passes[from + 1], samples[from + 1]);
      assert Agree(samples, from, from);
    }
  }

  class Watcher {
    const trace: Trace
    ghost const horizon: nat
    const deadlineAt: nat
    const pollMs: nat
    const reconfirmMs: nat
    var now: nat
    var cursor: nat
    var runs: map<string, seq<string>>
    var samples: seq<Sample>
    /** How many pages were refused, and how many readings of workers or watches failed. */
    ghost var refused: nat
    ghost var unread: nat
    /** When each sample was taken. */
    ghost var passes: seq<Pass>

    /** The replayed log of one job is finite. */
    ghost predicate Valid()
      reads this
    {
      && Lawful(trace) && (forall t: nat :: |trace(t).log| <= horizon) && pollMs > 0
      && cursor <= |trace(now).log| && runs == Runs(trace(now).log[..cursor])
      && |passes| == |samples| && Sampled(trace, passes, samples)
      && (passes != [] ==> passes[|passes| - 1].drained <= now)
    }

    constructor (trace: Trace, ghost horizon: nat, start: nat, deadlineAt: nat, pollMs: nat, reconfirmMs: nat)
      requires Lawful(trace) && (forall t: nat :: |trace(t).log| <= horizon) && pollMs > 0
      ensures Valid() && now == start && samples == [] && refused == 0 && unread == 0 && this.trace == trace
      ensures this.deadlineAt == deadlineAt && this.pollMs == pollMs && this.reconfirmMs == reconfirmMs
    {
      this.trace, this.horizon, now := trace, horizon, start;
      this.deadlineAt, this.pollMs, this.reconfirmMs := deadlineAt, pollMs, reconfirmMs;
      cursor, runs, samples, passes, refused, unread := 0, map[], [], [], 0, 0;
    }

    /** Time passes, at least the given milliseconds. */
    method Sleep(least: nat)
      requires Valid()
      modifies this`now
      ensures Valid() && now >= old(now) + least
    {
      var extra: nat :| 0 <= extra;
      LogGrows(trace, now, now + least + extra);
      assert trace(now + least + extra).log[..cursor] == trace(now).log[..cursor];
      now := now + least + extra;
    }

    /** The listing of workers misses none that was at work all along. It runs a program, which takes
        time. */
    method ReadWorkers() returns (observed: Observed<seq<string>>, ghost from: nat)
      requires Valid()
      modifies this`now, this`unread
      ensures Valid() && now > old(now) && from == old(now)
      ensures unread == old(unread) + if observed.Known? then 0 else 1
      ensures observed.Known? ==> Lists(trace(now).workers, observed.value)
      ensures observed.Known? && AllSettled(observed.value) ==> NoneBusyThroughout(trace, from, now)
    {
      from := now;
      Sleep(1);
      var fails: bool := *;
      if fails { unread := unread + 1; return Unknown, from; }
      var left := trace(now).workers.Keys;
      var statuses: seq<string> := [];
      while left != {}
        invariant left <= trace(now).workers.Keys
        invariant forall pane :: pane in trace(now).workers && pane !in left ==> trace(now).workers[pane] in statuses
        invariant forall i :: 0 <= i < |statuses| ==> statuses[i] in trace(now).workers.Values
      {
        var pane :| pane in left;
        statuses := statuses + [trace(now).workers[pane]];
        left := left - {pane};
      }
      if AllSettled(statuses) {
        forall pane
          ensures IdleOnce(trace, from, now, pane)
        {
          assert pane !in Busy(trace(now).workers);
        }
      }
      observed := Known(statuses);
    }

    /** A watch file that never existed means that no watch was armed; one that cannot be read or
        parsed means nothing. */
    method ReadWatches() returns (observed: Observed<nat>)
      requires Valid()
      modifies this`now, this`unread
      ensures Valid() && now >= old(now)
      ensures unread == old(unread) + if observed.Known? then 0 else 1
      ensures observed.Known? ==> observed.value == |trace(now).watches|
    {
      Sleep(0);
      var fails: bool := *;
      if fails { unread := unread + 1; return Unknown; }
      observed := Known(|trace(now).watches|);
    }

    /** The next events of the log. There are more exactly when the page stops short of the end. */
    method Replay() returns (page: Observed<Page>)
      requires Valid()
      modifies this`now, this`refused
      ensures Valid() && now >= old(now)
      ensures refused == old(refused) + if page.Known? then 0 else 1
      ensures page.Known? ==>
                && cursor <= page.value.nextCursor <= |trace(now).log|
                && page.value.events == trace(now).log[cursor..page.value.nextCursor]
                && (page.value.hasMore <==> page.value.nextCursor < |trace(now).log|)
                && (page.value.hasMore ==> page.value.events != [])
    {
      Sleep(0);
      var fails: bool := *;
      if fails { refused := refused + 1; return Unknown; }
      var end: nat :| cursor <= end <= |trace(now).log| && (end == cursor ==> end == |trace(now).log|);
      page := Known(Page(trace(now).log[cursor..end], end, end < |trace(now).log|));
    }

    /** The runs after the events of one page. */
    method Record(events: seq<Event>, ghost log: seq<Event>, ghost from: nat)
      requires from + |events| <= |log| && events == log[from..from + |events|]
      requires runs == Runs(log[..from])
      modifies this`runs
      ensures runs == Runs(log[..from + |events|])
    {
      var k := 0;
      while k < |events|
        invariant 0 <= k <= |events|
        invariant runs == Runs(log[..from + k])
      {
        assert log[..from + k + 1][..from + k] == log[..from + k];
        runs := Extend(runs, events[k]);
        k := k + 1;
      }
    }

    /** Pages until the log has no more. False when a page was refused. */
    method DrainConversation() returns (complete: bool)
      requires Valid()
      modifies this`now, this`cursor, this`runs, this`refused
      ensures Valid() && now >= old(now)
      ensures refused == old(refused) + if complete then 0 else 1
      ensures complete ==> runs == Runs(trace(now).log)
    {
      hide Sampled, Lawful;
      while true
        invariant Valid() && now >= old(now) && refused == old(refused)
        decreases horizon - cursor
      {
        var page := Replay();
        if page.Unknown? { return false; }
        Record(page.value.events, trace(now).log, cursor);
        cursor := page.value.nextCursor;
        if !page.value.hasMore {
          assert trace(now).log[..cursor] == trace(now).log;
          return true;
        }
      }
    }

    /** One pass: workers, watches, and the conversation last. */
    method Observe() returns (sample: Observed<Sample>, ghost p: Pass)
      requires Valid()
      modifies this`now, this`cursor, this`runs, this`refused, this`unread
      ensures Valid() && now > old(now)
      ensures refused == old(refused) + if sample.Known? then 0 else 1
      ensures unread >= old(unread) && (sample.Known? ==> (sample.value.Complete() <==> unread == old(unread)))
      ensures sample.Known? ==> InPassOrder(old(now), p) && p.drained == now && Reflects(trace, p, sample.value)
      ensures p.listing == old(now)
    {
      p := Pass(now, now, now, now);
      var workers, from := ReadWorkers();
      ghost var listed := now;
      var watches := ReadWatches();
      ghost var watched := now;
      var complete := DrainConversation();
      p := Pass(from, listed, watched, now);
      if !complete { return Unknown, p; }
      sample := Known(Sample(watches, workers, |runs|, |InFlight(runs)|));
    }

    /** Two passes in a row: the first at `c`, the second all after it. */
    lemma CandidateConfirmed(first: Pass, sample: Sample, second: Pass, confirm: Sample)
      requires Lawful(trace) && InPassOrder(first.drained, second)
      requires Reflects(trace, first, sample) && Reflects(trace, second, confirm)
      requires sample.Candidate() && confirm.Candidate() && sample.runsSeen == confirm.runsSeen
      ensures forall t: nat :: second.drained <= t ==>
                Quiet(trace(t)) && |Runs(trace(t).log)| == |Runs(trace(second.drained).log)|
    {
      assert InFlight(Runs(trace(first.drained).log)) == {};
      assert trace(second.watched).watches == {};
      ConfirmedIsQuiet(trace, first.drained, second.listing, second.listed, second.watched, second.drained);
    }

    function Nap(ms: nat): nat
      reads this
    {
      if deadlineAt <= now then 0 else if deadlineAt - now < ms then deadlineAt - now else ms
    }

    ghost predicate QuietFrom(at: nat) {
      forall t: nat :: at <= t ==> Quiet(trace(t)) && |Runs(trace(t).log)| == |Runs(trace(at).log)|
    }

    lemma QuietNow(first: Pass, sample: Sample, second: Pass, confirm: Sample)
      requires Lawful(trace) && InPassOrder(first.drained, second)
      requires Reflects(trace, first, sample) && Reflects(trace, second, confirm)
      requires sample.Candidate() && confirm.Candidate() && sample.runsSeen == confirm.runsSeen
      ensures QuietFrom(second.drained) && |Runs(trace(second.drained).log)| > 0
    {
      CandidateConfirmed(first, sample, second, confirm);
    }

    /** No sample from that one on has an observation that could not be made. */
    predicate AllComplete(from: nat)
      reads `samples
    {
      forall k :: from <= k < |samples| ==> samples[k].Complete()
    }

    /** What the passes since then came to: an observation that could not be made, or not. */
    twostate predicate FailsClosedIf(unknown: bool)
      reads `samples, `passes, `refused, `unread
    {
      && old(samples) <= samples && old(passes) <= passes && refused >= old(refused) && unread >= old(unread)
      && (unknown <==> refused > old(refused) || !AllComplete(|old(samples)|))
      && (unknown <==> refused > old(refused) || unread > old(unread))
    }

    /** The samples from that one on were taken after the given instant. */
    ghost predicate Since(from: nat, at: nat)
      reads `passes
    {
      from < |passes| ==> at <= passes[from].listing
    }

    /** A pass, and the sample it leaves behind. */
    method TakeSample() returns (sample: Observed<Sample>)
      requires Valid()
      modifies this
      ensures Valid() && now > old(now) && FailsClosedIf(sample.Unknown? || !sample.value.Complete())
      ensures samples == if sample.Known? then old(samples) + [sample.value] else old(samples)
      ensures sample.Known? ==>
                && |passes| == |old(passes)| + 1
                && InPassOrder(old(now), passes[|old(passes)|]) && passes[|old(passes)|].drained == now
                && passes[|old(passes)|].listing == old(now)
                && Reflects(trace, passes[|old(passes)|], sample.value)
      ensures Since(|old(samples)|, old(now))
    {
      hide Reflects, Lawful, Runs;
      ghost var p;
      sample, p := Observe();
      if sample.Known? {
        Keep(sample.value, p);
        assert samples[|old(samples)|] == sample.value;
      }
    }

    method Keep(sample: Sample, ghost p: Pass)
      requires Valid() && Reflects(trace, p, sample) && InPassOrder(0, p) && p.drained <= now
      requires passes == [] || passes[|passes| - 1].drained <= p.listing
      modifies this`samples, this`passes
      ensures Valid() && samples == old(samples) + [sample] && passes == old(passes) + [p]
    {
      hide Reflects, Lawful, Runs, InPassOrder;
      samples, passes := samples + [sample], passes + [p];
    }

    /** The second pass over a candidate. `Known(true)` ends the wait, exactly when the two agree. */
    method Reconfirm(sample: Sample) returns (verdict: Observed<bool>)
      requires Valid() && sample.Candidate() && samples != [] && samples[|samples| - 1] == sample
      modifies this
      ensures Valid() && now > old(now) && FailsClosedIf(verdict.Unknown?)
      ensures |samples| <= |old(samples)| + 1 && (verdict.Known? ==> |samples| == |old(samples)| + 1)
      ensures verdict == Known(true) <==>
                && |samples| == |old(samples)| + 1 && samples[|samples| - 1].Candidate()
                && samples[|samples| - 1].runsSeen == sample.runsSeen
      ensures verdict == Known(true) ==> QuietFrom(now) && |Runs(trace(now).log)| > 0
      ensures verdict.Known? ==>
                && |passes| == |old(passes)| + 1
                && passes[|passes| - 1].listing >=
                   old(if now + reconfirmMs <= deadlineAt then now + reconfirmMs else deadlineAt)
    {
      ghost var first := passes[|passes| - 1];
      assert Reflects(trace, first, sample);
      hide Lawful, Quiet, Reflects, Runs, InFlight, Sampled, QuietFrom, AllComplete;
      Sleep(Nap(reconfirmMs));
      label slept:
      var confirm := TakeSample();
      assert FailsClosedIf@slept(confirm.Unknown? || !confirm.value.Complete());
      hide FailsClosedIf;
      verdict := if confirm.Unknown? || !confirm.value.Complete() then Unknown
                 else Known(confirm.value.Candidate() && confirm.value.runsSeen == sample.runsSeen);
      if verdict == Known(true) {
        QuietNow(first, sample, passes[|old(passes)|], confirm.value);
      }
    }

    /** One turn of the loop, with one new sample or, after a candidate, two. */
    method Look() returns (verdict: Observed<bool>)
      requires Valid() && now < deadlineAt
      modifies this
      ensures Valid() && now > old(now) && FailsClosedIf(verdict.Unknown?)
      ensures |samples| <= |old(samples)| + 2 && Since(|old(samples)|, old(now))
      ensures |samples| == |old(samples)| + 2 ==> samples[|old(samples)|].Candidate()
      ensures |samples| > |old(samples)| ==> passes[|old(samples)|].listing == old(now)
      ensures verdict.Known? ==>
                |samples| > |old(samples)| && (|samples| == |old(samples)| + 2 <==> samples[|old(samples)|].Candidate())
      ensures verdict == Known(true) <==>
                |samples| == |old(samples)| + 2 && Agree(samples, |old(samples)|, |old(samples)|)
      ensures verdict == Known(true) ==> QuietFrom(now) && |Runs(trace(now).log)| > 0
    {
      hide Lawful, Quiet, Reflects, Runs, InFlight, Sampled, QuietFrom;
      var sample := TakeSample();
      if sample.Unknown? || !sample.value.Complete() { return Unknown; }
      verdict := Known(false);
      if sample.value.Candidate() {
        label seen:
        verdict := Reconfirm(sample.value);
        assert FailsClosedIf@seen(verdict.Unknown?);
      } else {
        Sleep(Nap(pollMs));
      }
    }

    /** Where the loop stands between two turns: no pair agreed yet, and the next sample opens a turn. */
    ghost predicate GoesOn(from: nat)
      reads `samples
    {
      from <= |samples| && !SomeAgree(samples, from) && Opens(samples, from, |samples|)
    }

    /** What a turn adds to that. */
    lemma TurnEnds(before: seq<Sample>, from: nat, agreed: bool, known: bool)
      requires from <= |before| && !SomeAgree(before, from) && Opens(before, from, |before|)
      requires before <= samples && |samples| <= |before| + 2
      requires |samples| == |before| + 2 ==> samples[|before|].Candidate()
      requires known ==> |samples| > |before| && (|samples| == |before| + 2 <==> samples[|before|].Candidate())
      requires agreed <==> |samples| == |before| + 2 && Agree(samples, |before|, |before|)
      ensures SomeAgree(samples, from) <==> agreed
      ensures agreed ==> Agree(samples, from, |samples| - 2)
      ensures known ==> Opens(samples, from, |samples|)
    {
      var n := |before|;
      OpensMore(before, samples, from, n);
      hide SomeAgree;
      if |samples| == n {
        assert samples == before;
      } else {
        var one := before + [samples[n]];
        SomeAgreeMore(before, samples[n], from);
        if n > from {
          OpensMore(before, one, from, n - 1);
          assert Opens(before, from, n - 1) ==> !before[n - 1].Candidate();
        }
        assert !SomeAgree(one, from);
        if |samples| == n + 1 {
          assert samples == one;
        } else {
          assert samples == one + [samples[n + 1]];
          SomeAgreeMore(one, samples[n + 1], from);
        }
      }
    }

    /** The loop to quiescence, a refusal to guess, or the deadline. It ends quiescent exactly when some
        candidate and the pass that was to confirm it agreed, and then the service is quiet for good from that
        pass's last look at the conversation on. It fails closed exactly when some observation of some pass
        could not be made. At the deadline no candidate is left without its second pass. */
    method AwaitQuiescence() returns (ending: Ending)
      requires Valid()
      modifies this
      ensures Valid() && old(now) <= now
      ensures ending == Quiescent <==> SomeAgree(samples, |old(samples)|)
      ensures ending == Quiescent ==>
                && QuietFrom(now) && |Runs(trace(now).log)| > 0
                && |samples| >= |old(samples)| + 2 && Agree(samples, |old(samples)|, |samples| - 2)
      ensures FailsClosedIf(ending == FailedClosed)
      ensures ending == DeadlineReached ==>
                deadlineAt < now + OBSERVATION_BUDGET_MS && Opens(samples, |old(samples)|, |samples|)
      ensures InBudget(samples, passes, |old(samples)|, deadlineAt)
      ensures Quiet(trace(old(now))) && Runs(trace(old(now)).log) != map[] && ending != FailedClosed ==>
                ending == Quiescent || samples == old(samples)
    {
      hide Quiet, QuietFrom, Agree, SomeAgree, Opens, Sampled, Lawful, Runs, InBudget;
      ghost var from := |samples|;
      NothingYet();
      while now < deadlineAt
        invariant Valid() && old(now) <= now && FailsClosedIf(false) && GoesOn(from) && Since(from, old(now))
        invariant InBudget(samples, passes, from, deadlineAt)
        decreases if now < deadlineAt then deadlineAt - now else 0
      {
        if deadlineAt - now < OBSERVATION_BUDGET_MS { break; }
        ghost var before, passed := samples, passes;
        label turn:
        var verdict := Look();
        SampledEach();
        TurnInBudget(before, passed, samples, passes, from, deadlineAt);
        assert FailsClosedIf@turn(verdict.Unknown?);
        TurnEnds(before, from, verdict == Known(true), verdict.Known?);
        if verdict.Unknown? { return FailedClosed; }
        if verdict.value { return Quiescent; }
      }
      ending := DeadlineReached;
      if Quiet(trace(old(now))) && Runs(trace(old(now)).log) != map[] && |samples| > from {
        QuietServiceIsNoticed(trace, old(now), passes, samples, from);
      }
    }

    lemma NothingYet()
      requires Valid()
      ensures GoesOn(|samples|) && InBudget(samples, passes, |samples|, deadlineAt)
    {
    }

    lemma SampledEach()
      requires Valid()
      ensures |passes| == |samples|
    {
    }
  }

  // ----- the receipt ------------------------------------------------------------------------

  datatype Receipt = Receipt(settledUnblocked: bool, producedNoWork: bool, quiescent: bool, blocked: nat)

  function CountBlocked(statuses: seq<string>): (n: nat)
    ensures n == multiset(statuses)["blocked"]
  {
    if statuses == [] then 0
    else
      assert statuses == [statuses[0]] + statuses[1..];
      (if statuses[0] == "blocked" then 1 else 0) + CountBlocked(statuses[1..])
  }

  function ReceiptOf(quiescent: bool, samples: seq<Sample>, runs: nat): Receipt {
    var workers := if samples != [] && samples[|samples| - 1].workers.Known?
                   then samples[|samples| - 1].workers.value else [];
    var blocked := CountBlocked(workers);
    Receipt(quiescent && blocked == 0, runs <= 1 && |workers| == 0, quiescent, blocked)
  }

  /** A receipt reads settled only when the last listing, taken by a candidate pass, shows every worker idle
      or done. It says that nothing ran only when that listing shows no worker at all. */
  lemma SettledMeansNobodyBlocked(quiescent: bool, samples: seq<Sample>, last: Sample, runs: nat)
    requires samples != [] && samples[|samples| - 1] == last && (quiescent ==> last.Candidate())
    ensures ReceiptOf(quiescent, samples, runs).settledUnblocked <==>
              quiescent && forall i :: 0 <= i < |last.workers.value| ==> last.workers.value[i] in {"idle", "done"}
    ensures last.workers.Known? ==>
              (ReceiptOf(quiescent, samples, runs).producedNoWork <==> runs <= 1 && last.workers.value == [])
  {
    if quiescent {
      var workers := last.workers.value;
      assert forall i :: 0 <= i < |workers| ==> workers[i] in SETTLED;
      assert "blocked" in workers <==> exists i :: 0 <= i < |workers| && workers[i] == "blocked";
    }
  }
}

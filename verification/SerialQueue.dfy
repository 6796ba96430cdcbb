/** The promise chain that runs the operations of one key one after another.

    Each operation waits for the one that was last in the map when it was submitted. The map's entry may
    be dropped once the operation it names has settled and no other has been queued behind it. Between
    two events any other may come, so a run of events is any interleaving. */
module SerialQueue {
  import opened Base

  datatype Status = Waiting | Running | Settled

  /** Operations in the order of submission, whom each waits for, and the map's entry. */
  datatype Queue = Queue(ops: seq<Status>, waitsFor: seq<Option<nat>>, tail: Option<nat>)

  datatype Event = Submit | Begin(op: nat) | Settle(op: nat) | Forget(op: nat)

  const EMPTY := Queue([], [], None)

  predicate IsSettled(q: Queue, op: Option<nat>) {
    op.Some? ==> op.value < |q.ops| && q.ops[op.value] == Settled
  }

  predicate Enabled(q: Queue, e: Event)
    requires |q.waitsFor| == |q.ops|
  {
    match e
    case Submit => true
    case Begin(op) => op < |q.ops| && q.ops[op] == Waiting && IsSettled(q, q.waitsFor[op])
    case Settle(op) => op < |q.ops| && q.ops[op] == Running
    case Forget(op) => op < |q.ops| && q.ops[op] == Settled
  }

  function Apply(q: Queue, e: Event): (r: Queue)
    requires |q.waitsFor| == |q.ops| && Enabled(q, e)
    ensures |r.waitsFor| == |r.ops|
  {
    match e
    case Submit => Queue(q.ops + [Waiting], q.waitsFor + [q.tail], Some(|q.ops|))
    case Begin(op) => q.(ops := q.ops[op := Running])
    case Settle(op) => q.(ops := q.ops[op := Settled])
    case Forget(op) => if q.tail == Some(op) then q.(tail := None) else q
  }

  predicate Possible(q: Queue, events: seq<Event>)
    requires |q.waitsFor| == |q.ops|
    decreases |events|
  {
    events != [] ==> Enabled(q, events[0]) && Possible(Apply(q, events[0]), events[1..])
  }

  function After(q: Queue, events: seq<Event>): (r: Queue)
    requires |q.waitsFor| == |q.ops| && Possible(q, events)
    ensures |r.waitsFor| == |r.ops|
    decreases |events|
  {
    if events == [] then q else After(Apply(q, events[0]), events[1..])
  }

  /** First come, first served: whatever has begun, all that were submitted before it have settled. */
  ghost predicate InTurn(q: Queue) {
    forall i, j :: 0 <= i < j < |q.ops| && q.ops[j] != Waiting ==> q.ops[i] == Settled
  }

  ghost predicate AllSettled(q: Queue, upTo: nat)
    requires upTo <= |q.ops|
  {
    forall i :: 0 <= i < upTo ==> q.ops[i] == Settled
  }

  /** Each operation waits for the one before it, unless everything before it has settled. */
  ghost predicate Chained(q: Queue) {
    && |q.waitsFor| == |q.ops|
    && (forall i :: 0 <= i < |q.ops| ==> if q.waitsFor[i].Some? then q.waitsFor[i].value == i - 1 else AllSettled(q, i))
    && (if q.tail.Some? then q.tail.value == |q.ops| - 1 else AllSettled(q, |q.ops|))
  }

  lemma StepKeeps(q: Queue, e: Event)
    requires Chained(q) && InTurn(q) && Enabled(q, e)
    ensures Chained(Apply(q, e)) && InTurn(Apply(q, e))
  {
    var r := Apply(q, e);
    if e.Forget? && q.tail == Some(e.op) {
      forall i | 0 <= i < |q.ops|
        ensures q.ops[i] == Settled
      {
        assert i < e.op ==> q.ops[e.op] != Waiting;
      }
    }
    if e.Begin? && q.waitsFor[e.op].Some? && e.op > 0 {
      assert q.ops[e.op - 1] != Waiting;
    }
  }

  /** In every run, operations begin in the order of submission and no two overlap. */
  lemma {:induction false} EveryRunIsInTurn(q: Queue, events: seq<Event>)
    requires Chained(q) && InTurn(q) && Possible(q, events)
    ensures Chained(After(q, events)) && InTurn(After(q, events))
    decreases |events|
  {
    if events != [] {
      StepKeeps(q, events[0]);
      EveryRunIsInTurn(Apply(q, events[0]), events[1..]);
    }
  }

  lemma OneAtATime(events: seq<Event>, i: nat, j: nat)
    requires Possible(EMPTY, events)
    ensures var q := After(EMPTY, events);
            i < |q.ops| && j < |q.ops| && q.ops[i] == Running && q.ops[j] == Running ==> i == j
  {
    EveryRunIsInTurn(EMPTY, events);
  }

  function Submits(events: seq<Event>): nat {
    if events == [] then 0 else (if events[0].Submit? then 1 else 0) + Submits(events[1..])
  }

  ghost predicate Is(q: Queue, op: nat, status: Status) {
    op < |q.ops| && q.ops[op] == status
  }

  /** Where one operation has got to, by the events of a run. */
  ghost predicate Ran(q: Queue, r: Queue, events: seq<Event>, op: nat) {
    && (Is(r, op, Settled) <==> Is(q, op, Settled) || Settle(op) in events)
    && (Is(r, op, Waiting) <==> op < |r.ops| && (op >= |q.ops| || q.ops[op] == Waiting) && Begin(op) !in events)
  }

  lemma RanStep(q: Queue, e: Event, op: nat)
    requires |q.waitsFor| == |q.ops| && Enabled(q, e)
    ensures Ran(q, Apply(q, e), [e], op) && |Apply(q, e).ops| == |q.ops| + Submits([e])
  {
    assert [e][1..] == [];
  }

  lemma {:induction false} RanSince(q: Queue, events: seq<Event>, op: nat)
    requires |q.waitsFor| == |q.ops| && Possible(q, events)
    ensures Ran(q, After(q, events), events, op) && |After(q, events).ops| == |q.ops| + Submits(events)
    decreases |events|
  {
    if events == [] {
    } else {
      var e, rest := events[0], events[1..];
      RanStep(q, e, op);
      RanSince(Apply(q, e), rest, op);
      assert Submits([e]) == if e.Submit? then 1 else 0;
      assert forall f :: f in events <==> f == e || f in rest;
      hide Apply, Enabled;
    }
  }

  /** No operation is dropped, and none is begun or settled but by its own turn: there are as many as were
      submitted, and where each has got to is what happened to it. */
  lemma NothingIsDropped(events: seq<Event>)
    requires Possible(EMPTY, events)
    ensures var q := After(EMPTY, events);
            && |q.ops| == Submits(events)
            && forall op :: 0 <= op < |q.ops| ==>
                 q.ops[op] == if Settle(op) in events then Settled else if Begin(op) in events then Running else Waiting
  {
    var q := After(EMPTY, events);
    RanSince(EMPTY, events, 0);
    forall op: nat | op < |q.ops|
      ensures q.ops[op] == if Settle(op) in events then Settled else if Begin(op) in events then Running else Waiting
    {
      RanSince(EMPTY, events, op);
    }
  }

  /** Nothing is stuck: while an operation has not settled, one can begin or is running. */
  lemma SomeoneMoves(events: seq<Event>, op: nat) returns (e: Event)
    requires Possible(EMPTY, events)
    requires op < |After(EMPTY, events).ops| && After(EMPTY, events).ops[op] != Settled
    ensures (e.Begin? || e.Settle?) && e.op <= op && Enabled(After(EMPTY, events), e)
  {
    EveryRunIsInTurn(EMPTY, events);
    var q := After(EMPTY, events);
    var first := 0;
    while q.ops[first] == Settled
      invariant first <= op && AllSettled(q, first)
      decreases op - first
    {
      first := first + 1;
    }
    e := if q.ops[first] == Waiting then Begin(first) else Settle(first);
  }
}

/** Activity launches and the shares they own, under every interleaving at an `await`.

    Admissions (`grant`) and stop cleanups are jobs on one queue. A job runs from one `await` to the
    next as one event; between its events anything else may happen: launches, stops, further jobs,
    caller timeouts, and answers of the sharing service in any form. */
module Launches {

  type Destination = nat

  /** A launch incarnation, and a share with the channel it was opened in. */
  datatype Launch = Launch(id: nat, home: Destination)
  datatype Share = Share(id: nat, scope: Destination)

  datatype Job = Grant(launch: Launch) | Cleanup(destination: Destination)
  datatype Result = Granted(share: Share) | Refused | Failed | Cleaned

  /** Where a job is waiting. `Choosing` and `Granting` are inside one grant request: the sharing
      service first picks a share and only later answers. */
  datatype Place =
    | Waiting
    | Choosing(only: set<Share>)
    | Granting(share: Share)
    | Opening
    | Sweeping
    | Listing
    | Stopping(left: set<Share>)
    | Done(result: Result)

  /** `taken` are the shares an admission opened or claimed, `visiting` the launch a cleanup is ending,
      `listed` and `stopped` what its latest sweep found and asked to stop. */
  datatype Operation = Operation(
    job: Job, abandoned: bool, place: Place, taken: set<Share>, visiting: Launch,
    listed: set<Share>, stopped: set<Share>)
  {
    predicate Running() { !place.Waiting? && !place.Done? }

    /** What a sweep of this job may end. */
    function Target(shares: map<Launch, set<Share>>): set<Share> {
      if job.Grant? then taken else if visiting in shares then shares[visiting] else {}
    }
  }

  datatype State = State(
    launched: map<Destination, Launch>,
    retired: map<Destination, set<Launch>>,
    shares: map<Launch, set<Share>>,
    queue: seq<Operation>)
  {
    predicate Current(launch: Launch) {
      launch.home in launched && launched[launch.home] == launch
    }

    predicate Uncleaned(launch: Launch) {
      launch.home in retired && launch in retired[launch.home]
    }

    predicate Live(launch: Launch) { Current(launch) || Uncleaned(launch) }

    /** Some current or uncleaned launch of the channel holds the share. */
    predicate Owned(destination: Destination, share: Share) {
      exists launch | launch in shares :: launch.home == destination && Live(launch) && share in shares[launch]
    }

    /** The admission is still wanted: its caller waits and its launch was neither stopped nor replaced. */
    predicate Wanted(op: Operation) {
      op.job.Grant? && !op.abandoned && Current(op.job.launch)
    }

    function With(i: nat, op: Operation): State
      requires i < |queue|
    {
      this.(queue := queue[i := op])
    }
  }

  datatype Event =
    | Launched(launch: Launch)
    | StopCalled(destination: Destination)
    | GrantCalled(destination: Destination)
    | TimedOut(i: nat)
    | Begun(i: nat)
    | Picked(i: nat, share: Share)
    | NothingToPick(i: nat)
    | Answered(i: nat)
    | Opened(i: nat, share: Share)
    | Visited(i: nat, launch: Launch)
    | Swept(i: nat)
    | Listed(i: nat, sessions: set<Share>)
    | StopSent(i: nat, share: Share)
    | SweepEnded(i: nat)
    | CallFailed(i: nat)

  const NOBODY := Launch(0, 0)

  function NewOperation(job: Job): Operation {
    Operation(job, false, Waiting, {}, NOBODY, {}, {})
  }

  /** Stop or relaunch retires the current launch at once, with the shares it holds. */
  function Retire(s: State, destination: Destination): State {
    if destination !in s.launched then s
    else
      var others := if destination in s.retired then s.retired[destination] else {};
      s.(launched := s.launched - {destination},
         retired := s.retired[destination := others + {s.launched[destination]}])
  }

  /** An admission that is no longer wanted ends what it took, and nothing else. */
  function Refuse(op: Operation): Operation {
    op.(place := if op.taken == {} then Done(Refused) else Listing)
  }

  function Take(s: State, i: nat, op: Operation, share: Share): State
    requires i < |s.queue| && op.job.Grant? && op.job.launch in s.shares
  {
    var launch := op.job.launch;
    s.(shares := s.shares[launch := s.shares[launch] + {share}]).With(i, op)
  }

  predicate Enabled(s: State, e: Event) {
    match e
    case Launched(launch) => launch !in s.shares
    case StopCalled(_) => true
    case GrantCalled(destination) => destination in s.launched
    case TimedOut(i) => i < |s.queue| && !s.queue[i].place.Done?
    case Begun(i) => i < |s.queue| && s.queue[i].place.Waiting? && (i == 0 || s.queue[i - 1].place.Done?)
    case Picked(i, share) =>
      && i < |s.queue| && s.queue[i].place.Choosing? && s.queue[i].job.Grant? && s.queue[i].job.launch in s.shares
      && share.scope == s.queue[i].job.launch.home
      && (if s.queue[i].place.only != {} then share in s.queue[i].place.only
          else share in s.shares[s.queue[i].job.launch] || !s.Owned(share.scope, share))
    case NothingToPick(i) => i < |s.queue| && s.queue[i].place.Choosing?
    case Answered(i) =>
      i < |s.queue| && s.queue[i].place.Granting? && s.queue[i].job.Grant? && s.queue[i].job.launch in s.shares
    case Opened(i, share) =>
      && i < |s.queue| && s.queue[i].place.Opening? && s.queue[i].job.Grant? && s.queue[i].job.launch in s.shares
      && share.scope == s.queue[i].job.launch.home
      && forall launch | launch in s.shares :: share !in s.shares[launch]
    case Visited(i, launch) =>
      && i < |s.queue| && s.queue[i].place.Sweeping? && s.queue[i].job.Cleanup?
      && launch.home == s.queue[i].job.destination && s.Uncleaned(launch) && launch in s.shares
    case Swept(i) =>
      && i < |s.queue| && s.queue[i].place.Sweeping? && s.queue[i].job.Cleanup?
      && (s.queue[i].job.destination in s.retired ==> s.retired[s.queue[i].job.destination] == {})
    case Listed(i, _) => i < |s.queue| && s.queue[i].place.Listing?
    case StopSent(i, share) => i < |s.queue| && s.queue[i].place.Stopping? && share in s.queue[i].place.left
    case SweepEnded(i) => i < |s.queue| && s.queue[i].place.Stopping? && s.queue[i].place.left == {}
    case CallFailed(i) =>
      && i < |s.queue|
      && var place := s.queue[i].place;
         (place.Choosing? || place.Granting? || place.Opening? || place.Listing?)
  }

  /** What happens up to the next `await`. */
  function Apply(s: State, e: Event): State
    requires Enabled(s, e)
  {
    match e
    case Launched(launch) =>
      var r := Retire(s, launch.home);
      r.(launched := r.launched[launch.home := launch], shares := r.shares[launch := {}])
    case StopCalled(destination) =>
      var r := Retire(s, destination);
      r.(queue := r.queue + [NewOperation(Cleanup(destination))])
    case GrantCalled(destination) =>
      s.(queue := s.queue + [NewOperation(Grant(s.launched[destination]))])
    case TimedOut(i) => s.With(i, s.queue[i].(abandoned := true))
    case Begun(i) =>
      var op := s.queue[i];
      s.With(i, if op.job.Cleanup? then op.(place := Sweeping)
                else if s.Wanted(op) then op.(place := Choosing({})) else Refuse(op))
    case Picked(i, share) => s.With(i, s.queue[i].(place := Granting(share)))
    case NothingToPick(i) =>
      var op := s.queue[i];
      s.With(i, if op.place.only != {} then op.(place := Done(Failed))
                else if s.Wanted(op) then op.(place := Opening) else Refuse(op))
    case Answered(i) =>
      var op := s.queue[i];
      var share := op.place.share;
      var unheld := share !in s.shares[op.job.launch];
      var took := if unheld then op.(taken := op.taken + {share}) else op;
      var next := if s.Wanted(op) then took.(place := Done(Granted(share))) else Refuse(took);
      if unheld then Take(s, i, next, share) else s.With(i, next)
    case Opened(i, share) =>
      var took := s.queue[i].(taken := s.queue[i].taken + {share});
      Take(s, i, if s.Wanted(took) then took.(place := Choosing({share})) else Refuse(took), share)
    case Visited(i, launch) =>
      var op := s.queue[i];
      if s.shares[launch] == {}
      then s.(retired := s.retired[launch.home := s.retired[launch.home] - {launch}])
      else s.With(i, op.(place := Listing, visiting := launch, listed := {}, stopped := {}))
    case Swept(i) => s.With(i, s.queue[i].(place := Done(Cleaned)))
    case Listed(i, sessions) =>
      var op := s.queue[i];
      s.With(i, op.(place := Stopping(op.Target(s.shares) * sessions), listed := sessions, stopped := {}))
    case StopSent(i, share) =>
      var op := s.queue[i];
      s.With(i, op.(place := Stopping(op.place.left - {share}), stopped := op.stopped + {share}))
    case SweepEnded(i) =>
      var op := s.queue[i];
      if op.job.Grant? then s.With(i, op.(place := Done(Refused)))
      else
        var home := op.job.destination;
        s.(retired := if home in s.retired then s.retired[home := s.retired[home] - {op.visiting}] else s.retired)
         .With(i, op.(place := Sweeping))
    case CallFailed(i) => s.With(i, s.queue[i].(place := Done(Failed)))
  }

  // ----- the invariant ----------------------------------------------------------------------

  /** A job leaves the start only when every earlier job has ended. */
  ghost predicate InTurn(queue: seq<Operation>) {
    forall i, j :: 0 <= i < j < |queue| && !queue[j].place.Waiting? ==> queue[i].place.Done?
  }

  ghost predicate Registered(s: State) {
    && (forall d :: d in s.launched ==> s.launched[d].home == d && s.launched[d] in s.shares)
    && (forall d, launch :: d in s.retired && launch in s.retired[d] ==> launch.home == d && launch in s.shares)
    && (forall launch :: !(s.Current(launch) && s.Uncleaned(launch)))
  }

  /** No share has two live owners. */
  ghost predicate Disjoint(s: State) {
    forall launch, other ::
      launch in s.shares && other in s.shares && launch != other && s.Live(launch) && s.Live(other)
      ==> s.shares[launch] !! s.shares[other]
  }

  ghost predicate Scoped(s: State) {
    forall launch, share :: launch in s.shares && share in s.shares[launch] ==> share.scope == launch.home
  }

  /** A share about to be granted is the admission's own or still nobody's. */
  ghost predicate MayTake(s: State, launch: Launch, share: Share) {
    && launch in s.shares && share.scope == launch.home
    && forall other :: other in s.shares && other != launch && s.Live(other) ==> share !in s.shares[other]
  }

  ghost predicate GrantFits(s: State, op: Operation) {
    && op.job.Grant? && op.job.launch in s.shares
    && op.taken <= s.shares[op.job.launch]
    && !op.place.Sweeping?
    && (op.Running() ==> s.Live(op.job.launch))
    && (op.place.Waiting? ==> op.taken == {})
    && (op.place.Listing? || op.place.Stopping? ==> !s.Wanted(op))
    && (op.place.Choosing? ==> op.place.only <= op.taken)
    && (op.place.Granting? ==> MayTake(s, op.job.launch, op.place.share))
  }

  ghost predicate CleanupFits(s: State, op: Operation) {
    && op.job.Cleanup? && op.taken == {}
    && !(op.place.Choosing? || op.place.Granting? || op.place.Opening?)
    && (op.place.Listing? || op.place.Stopping? ==>
          op.visiting.home == op.job.destination && s.Uncleaned(op.visiting) && op.visiting in s.shares)
  }

  /** Of what it may end, a sweep has asked to stop, or still will, exactly what the listing showed. */
  ghost predicate SweepFits(s: State, op: Operation) {
    && (op.place.Stopping? ==>
          && op.place.left !! op.stopped
          && op.place.left + op.stopped == op.Target(s.shares) * op.listed)
    && (op.job.Grant? && op.place == Done(Refused) ==> op.stopped == op.taken * op.listed)
    && (op.job.Grant? && !op.place.Stopping? && !op.place.Done? ==> op.stopped == {} && op.listed == {})
    && (op.job.Grant? && op.place.Done? && op.place.result != Refused ==> op.stopped == {})
  }

  ghost predicate Fits(s: State, op: Operation) {
    (if op.job.Grant? then GrantFits(s, op) else CleanupFits(s, op)) && SweepFits(s, op)
  }

  ghost predicate Inv(s: State) {
    && InTurn(s.queue) && Registered(s) && Disjoint(s) && Scoped(s)
    && forall i :: 0 <= i < |s.queue| ==> Fits(s, s.queue[i])
  }

  const INITIAL := State(map[], map[], map[], [])

  ghost predicate Steps(states: seq<State>, events: seq<Event>) {
    && |states| == |events| + 1
    && forall i {:trigger events[i]} ::
         0 <= i < |events| ==> Enabled(states[i], events[i]) && states[i + 1] == Apply(states[i], events[i])
  }

  // ----- every event keeps the invariant ----------------------------------------------------

  lemma RetireKeepsLive(s: State, destination: Destination)
    requires Registered(s)
    ensures Registered(Retire(s, destination))
    ensures forall launch :: Retire(s, destination).Live(launch) <==> s.Live(launch)
    ensures forall launch :: s.Uncleaned(launch) ==> Retire(s, destination).Uncleaned(launch)
    ensures forall launch :: Retire(s, destination).Current(launch) ==> s.Current(launch)
    ensures destination !in Retire(s, destination).launched
  {
    var r := Retire(s, destination);
    forall launch
      ensures r.Live(launch) <==> s.Live(launch)
      ensures s.Uncleaned(launch) ==> r.Uncleaned(launch)
      ensures r.Current(launch) ==> s.Current(launch)
      ensures !(r.Current(launch) && r.Uncleaned(launch))
    {
      if destination in s.launched && launch.home == destination {
        assert r.Uncleaned(launch) <==> s.Uncleaned(launch) || launch == s.launched[destination];
      } else {
        assert r.Current(launch) <==> s.Current(launch);
        assert r.Uncleaned(launch) <==> s.Uncleaned(launch);
      }
    }
  }

  /** What a job relies on survives when no live launch is lost and no new one holds anything. */
  lemma FitsStays(s: State, r: State, op: Operation)
    requires Fits(s, op)
    requires forall launch :: launch in s.shares ==> launch in r.shares && r.shares[launch] == s.shares[launch]
    requires forall launch :: launch in r.shares && launch !in s.shares ==> r.shares[launch] == {}
    requires forall launch :: launch in s.shares ==> (s.Live(launch) <==> r.Live(launch))
    requires forall launch :: s.Uncleaned(launch) ==> r.Uncleaned(launch)
    requires forall launch :: launch in s.shares && r.Current(launch) ==> s.Current(launch)
    ensures Fits(r, op)
  {
  }

  lemma LaunchedLives(s: State, launch: Launch, n: State)
    requires Registered(s) && launch !in s.shares && n == Apply(s, Launched(launch))
    ensures Registered(n) && n.Live(launch)
    ensures forall other :: other in s.shares ==> (n.Live(other) <==> s.Live(other))
    ensures forall other :: s.Uncleaned(other) ==> n.Uncleaned(other)
    ensures forall other :: other in s.shares && n.Current(other) ==> s.Current(other)
  {
    var r := Retire(s, launch.home);
    RetireKeepsLive(s, launch.home);
    assert forall other :: n.Uncleaned(other) <==> r.Uncleaned(other);
    assert forall other :: n.Current(other) <==> r.Current(other) || other == launch;
  }

  lemma LaunchedKeeps(s: State, launch: Launch)
    requires Inv(s) && launch !in s.shares
    ensures Inv(Apply(s, Launched(launch)))
  {
    var n := Apply(s, Launched(launch));
    LaunchedLives(s, launch, n);
    forall i | 0 <= i < |s.queue|
      ensures Fits(n, n.queue[i])
    {
      FitsStays(s, n, s.queue[i]);
    }
  }

  lemma StopCalledLives(s: State, destination: Destination, n: State)
    requires Registered(s) && n == Apply(s, StopCalled(destination))
    ensures Registered(n) && n.shares == s.shares && n.queue == s.queue + [NewOperation(Cleanup(destination))]
    ensures forall launch :: n.Live(launch) <==> s.Live(launch)
    ensures forall launch :: s.Uncleaned(launch) ==> n.Uncleaned(launch)
    ensures forall launch :: n.Current(launch) ==> s.Current(launch)
  {
    var r := Retire(s, destination);
    RetireKeepsLive(s, destination);
    assert forall launch :: n.Uncleaned(launch) <==> r.Uncleaned(launch);
    assert forall launch :: n.Current(launch) <==> r.Current(launch);
  }

  lemma StopKeeps(s: State, destination: Destination)
    requires Inv(s)
    ensures Inv(Apply(s, StopCalled(destination)))
  {
    var n := Apply(s, StopCalled(destination));
    StopCalledLives(s, destination, n);
    hide Apply, Retire;
    forall i | 0 <= i < |s.queue|
      ensures Fits(n, n.queue[i])
    {
      FitsStays(s, n, s.queue[i]);
    }
  }

  /** One job moves and nothing else changes. */
  lemma MoveKeeps(s: State, i: nat, op: Operation)
    requires Inv(s) && i < |s.queue| && Fits(s, op)
    requires op.place.Waiting? ==> s.queue[i].place.Waiting?
    requires s.queue[i].place.Done? ==> op.place.Done?
    requires s.queue[i].place.Waiting? && !op.place.Waiting? ==> i == 0 || s.queue[i - 1].place.Done?
    ensures Inv(s.With(i, op))
  {
    var n := s.With(i, op);
    assert forall launch :: (n.Live(launch) <==> s.Live(launch)) && (n.Uncleaned(launch) <==> s.Uncleaned(launch));
    forall j | 0 <= j < |s.queue|
      ensures Fits(n, n.queue[j])
    {
      if j == i { FitsStays(s, n, op); } else { FitsStays(s, n, s.queue[j]); }
    }
    TurnMoves(s.queue, i, op);
  }

  lemma TurnMoves(queue: seq<Operation>, i: nat, op: Operation)
    requires InTurn(queue) && i < |queue|
    requires op.place.Waiting? ==> queue[i].place.Waiting?
    requires queue[i].place.Done? ==> op.place.Done?
    requires queue[i].place.Waiting? && !op.place.Waiting? ==> i == 0 || queue[i - 1].place.Done?
    ensures InTurn(queue[i := op])
  {
    if i > 0 && queue[i].place.Waiting? && !op.place.Waiting? {
      assert queue[i - 1].place.Done?;
    }
  }

  /** Only one job runs: any other is still waiting or has ended. */
  lemma OthersRest(s: State, i: nat, j: nat)
    requires InTurn(s.queue) && i < |s.queue| && j < |s.queue| && i != j && s.queue[i].place != Waiting
    requires !s.queue[i].place.Done?
    ensures !s.queue[j].Running()
  {
  }

  lemma RestingFits(s: State, r: State, op: Operation)
    requires Fits(s, op) && !op.Running()
    requires forall launch :: launch in s.shares ==> launch in r.shares && s.shares[launch] <= r.shares[launch]
    ensures Fits(r, op)
  {
  }

  /** The running admission adds a share that no other live launch holds. */
  lemma TakeKeeps(s: State, i: nat, op: Operation, share: Share)
    requires Inv(s) && i < |s.queue| && s.queue[i].Running() && op.job.Grant? && op.job.launch in s.shares
    requires MayTake(s, op.job.launch, share) && Fits(Take(s, i, op, share), op) && !op.place.Waiting?
    ensures Inv(Take(s, i, op, share))
  {
    var n := Take(s, i, op, share);
    assert forall launch :: (n.Live(launch) <==> s.Live(launch)) && (n.Uncleaned(launch) <==> s.Uncleaned(launch));
    forall j | 0 <= j < |s.queue|
      ensures Fits(n, n.queue[j])
    {
      if j != i {
        OthersRest(s, i, j);
        RestingFits(s, n, s.queue[j]);
      }
    }
    TurnMoves(s.queue, i, op);
  }

  /** The running cleanup lets go of a launch it has ended. */
  lemma ForgetKeeps(s: State, i: nat, op: Operation, launch: Launch)
    requires Inv(s) && i < |s.queue| && s.queue[i].Running() && s.Uncleaned(launch)
    requires op.job.Cleanup? && op.taken == {} && op.place == Sweeping
    ensures Inv(s.(retired := s.retired[launch.home := s.retired[launch.home] - {launch}]).With(i, op))
  {
    var n := s.(retired := s.retired[launch.home := s.retired[launch.home] - {launch}]).With(i, op);
    assert forall other :: n.Uncleaned(other) <==> s.Uncleaned(other) && other != launch;
    assert forall other :: n.Current(other) <==> s.Current(other);
    forall j | 0 <= j < |s.queue|
      ensures Fits(n, n.queue[j])
    {
      if j != i {
        OthersRest(s, i, j);
        RestingFits(s, n, s.queue[j]);
      }
    }
    TurnMoves(s.queue, i, op);
  }

  lemma AnsweredKeeps(s: State, i: nat)
    requires Inv(s) && Enabled(s, Answered(i))
    ensures Inv(Apply(s, Answered(i)))
  {
    var op := s.queue[i];
    assert Fits(s, op);
    var share := op.place.share;
    var unheld := share !in s.shares[op.job.launch];
    var took := if unheld then op.(taken := op.taken + {share}) else op;
    var next := if s.Wanted(op) then took.(place := Done(Granted(share))) else Refuse(took);
    if unheld { TakeKeeps(s, i, next, share); } else { MoveKeeps(s, i, next); }
  }

  lemma OpenedKeeps(s: State, i: nat, share: Share)
    requires Inv(s) && Enabled(s, Opened(i, share))
    ensures Inv(Apply(s, Opened(i, share)))
  {
    var took := s.queue[i].(taken := s.queue[i].taken + {share});
    assert Fits(s, s.queue[i]);
    TakeKeeps(s, i, if s.Wanted(took) then took.(place := Choosing({share})) else Refuse(took), share);
  }

  lemma PickedKeeps(s: State, i: nat, share: Share)
    requires Inv(s) && Enabled(s, Picked(i, share))
    ensures Inv(Apply(s, Picked(i, share)))
  {
    var op := s.queue[i];
    var launch := op.job.launch;
    assert Fits(s, op);
    forall other | other in s.shares && other != launch && s.Live(other)
      ensures share !in s.shares[other]
    {
      if share in s.shares[other] {
        assert other.home == share.scope;
        assert s.Owned(share.scope, share);
      }
    }
    MoveKeeps(s, i, op.(place := Granting(share)));
  }

  lemma SweepKeeps(s: State, i: nat, e: Event)
    requires Inv(s) && Enabled(s, e)
    requires e == Listed(i, if e.Listed? then e.sessions else {}) || e == SweepEnded(i) || e == Swept(i)
             || (e.StopSent? && e.i == i)
    ensures Inv(Apply(s, e))
  {
    var op := s.queue[i];
    assert Fits(s, op);
    match e
    case Listed(_, sessions) =>
      MoveKeeps(s, i, op.(place := Stopping(op.Target(s.shares) * sessions), listed := sessions, stopped := {}));
    case StopSent(_, share) =>
      MoveKeeps(s, i, op.(place := Stopping(op.place.left - {share}), stopped := op.stopped + {share}));
    case Swept(_) => MoveKeeps(s, i, op.(place := Done(Cleaned)));
    case SweepEnded(_) =>
      if op.job.Grant? {
        MoveKeeps(s, i, op.(place := Done(Refused)));
      } else {
        ForgetKeeps(s, i, op.(place := Sweeping), op.visiting);
      }
  }

  lemma VisitedKeeps(s: State, i: nat, launch: Launch)
    requires Inv(s) && Enabled(s, Visited(i, launch))
    ensures Inv(Apply(s, Visited(i, launch)))
  {
    var op := s.queue[i];
    assert Fits(s, op);
    if s.shares[launch] == {} {
      ForgetKeeps(s, i, op, launch);
      var n := Apply(s, Visited(i, launch));
      assert n == n.With(i, op);
    } else {
      MoveKeeps(s, i, op.(place := Listing, visiting := launch, listed := {}, stopped := {}));
    }
  }

  lemma BegunKeeps(s: State, i: nat)
    requires Inv(s) && Enabled(s, Begun(i))
    ensures Inv(Apply(s, Begun(i)))
  {
    var op := s.queue[i];
    assert Fits(s, op);
    MoveKeeps(s, i, if op.job.Cleanup? then op.(place := Sweeping)
                    else if s.Wanted(op) then op.(place := Choosing({})) else Refuse(op));
  }

  lemma NothingToPickKeeps(s: State, i: nat)
    requires Inv(s) && Enabled(s, NothingToPick(i))
    ensures Inv(Apply(s, NothingToPick(i)))
  {
    var op := s.queue[i];
    assert Fits(s, op);
    MoveKeeps(s, i, if op.place.only != {} then op.(place := Done(Failed))
                    else if s.Wanted(op) then op.(place := Opening) else Refuse(op));
  }

  lemma GrantCalledKeeps(s: State, destination: Destination)
    requires Inv(s) && Enabled(s, GrantCalled(destination))
    ensures Inv(Apply(s, GrantCalled(destination)))
  {
    var n := Apply(s, GrantCalled(destination));
    assert forall launch :: (n.Live(launch) <==> s.Live(launch)) && (n.Uncleaned(launch) <==> s.Uncleaned(launch));
    forall i | 0 <= i < |s.queue|
      ensures Fits(n, n.queue[i])
    {
      FitsStays(s, n, s.queue[i]);
    }
    assert s.Current(s.launched[destination]);
  }

  lemma ApplyKeepsInv(s: State, e: Event)
    requires Inv(s) && Enabled(s, e)
    ensures Inv(Apply(s, e))
  {
    match e
    case Launched(launch) => LaunchedKeeps(s, launch);
    case StopCalled(destination) => StopKeeps(s, destination);
    case GrantCalled(destination) => GrantCalledKeeps(s, destination);
    case TimedOut(i) => assert Fits(s, s.queue[i]); MoveKeeps(s, i, s.queue[i].(abandoned := true));
    case Begun(i) => BegunKeeps(s, i);
    case Picked(i, share) => PickedKeeps(s, i, share);
    case NothingToPick(i) => NothingToPickKeeps(s, i);
    case Answered(i) => AnsweredKeeps(s, i);
    case Opened(i, share) => OpenedKeeps(s, i, share);
    case Visited(i, launch) => VisitedKeeps(s, i, launch);
    case Swept(i) => SweepKeeps(s, i, e);
    case Listed(i, _) => SweepKeeps(s, i, e);
    case StopSent(i, _) => SweepKeeps(s, i, e);
    case SweepEnded(i) => SweepKeeps(s, i, e);
    case CallFailed(i) => assert Fits(s, s.queue[i]); MoveKeeps(s, i, s.queue[i].(place := Done(Failed)));
  }

  // ----- what holds of every run ------------------------------------------------------------

  lemma {:induction false} EveryRunKeepsInv(states: seq<State>, events: seq<Event>, n: nat)
    requires Steps(states, events) && states[0] == INITIAL && n < |states|
    ensures Inv(states[n])
  {
    if n > 0 {
      EveryRunKeepsInv(states, events, n - 1);
      ApplyKeepsInv(states[n - 1], events[n - 1]);
    }
  }

  /** However late callers gave up, at most one admission or cleanup is ever inside its body, and the
      live launches of a channel never share a share. */
  lemma OneBodyAndDisjointShares(states: seq<State>, events: seq<Event>, n: nat)
    requires Steps(states, events) && states[0] == INITIAL && n < |states|
    ensures forall i, j ::
              (0 <= i < |states[n].queue| && 0 <= j < |states[n].queue|
               && states[n].queue[i].Running() && states[n].queue[j].Running()) ==> i == j
    ensures Disjoint(states[n]) && Scoped(states[n])
  {
    EveryRunKeepsInv(states, events, n);
  }

  /** The job an event moves, if it moves one. */
  function Mover(e: Event): int {
    match e
    case Launched(_) => -1
    case StopCalled(_) => -1
    case GrantCalled(_) => -1
    case TimedOut(i) => i
    case Begun(i) => i
    case Picked(i, _) => i
    case NothingToPick(i) => i
    case Answered(i) => i
    case Opened(i, _) => i
    case Visited(i, _) => i
    case Swept(i) => i
    case Listed(i, _) => i
    case StopSent(i, _) => i
    case SweepEnded(i) => i
    case CallFailed(i) => i
  }

  lemma OnlyTheMoverMoves(s: State, e: Event, i: nat)
    requires Enabled(s, e)
    ensures Mover(e) < |s.queue| <= |Apply(s, e).queue|
    ensures i < |s.queue| && Mover(e) != i ==> Apply(s, e).queue[i] == s.queue[i]
    ensures i < |s.queue| ==> Apply(s, e).queue[i].job == s.queue[i].job
    ensures |s.queue| <= i < |Apply(s, e).queue| ==> Apply(s, e).queue[i].stopped == {}
  {
  }

  /** Only an answer ends an admission with a grant. */
  lemma OnlyAnswersGrant(s: State, e: Event, i: nat)
    requires Enabled(s, e) && i < |s.queue| && !s.queue[i].place.Done? && Mover(e) == i && !e.Answered?
    ensures Apply(s, e).queue[i].place.Done? ==> !Apply(s, e).queue[i].place.result.Granted?
  {
    hide Retire;
  }

  lemma AnswerGrants(s: State, i: nat)
    requires Enabled(s, Answered(i))
    requires Apply(s, Answered(i)).queue[i].place.Done? && Apply(s, Answered(i)).queue[i].place.result.Granted?
    ensures s.Wanted(s.queue[i])
    ensures var r, op := Apply(s, Answered(i)), s.queue[i];
            && r.queue[i].place.result.share == op.place.share && op.job.launch in r.shares
            && op.place.share in r.shares[op.job.launch]
  {
  }

  lemma GrantStep(s: State, e: Event, i: nat)
    requires Enabled(s, e) && i < |s.queue| && !s.queue[i].place.Done?
    requires i < |Apply(s, e).queue|
    requires Apply(s, e).queue[i].place.Done? && Apply(s, e).queue[i].place.result.Granted?
    ensures e == Answered(i) && s.queue[i].job.Grant? && s.Wanted(s.queue[i])
    ensures Apply(s, e).queue[i].place.result.share == s.queue[i].place.share
    ensures s.queue[i].job.launch in Apply(s, e).shares
    ensures s.queue[i].place.share in Apply(s, e).shares[s.queue[i].job.launch]
  {
    hide Apply;
    OnlyTheMoverMoves(s, e, i);
    assert Mover(e) == i;
    if !e.Answered? { OnlyAnswersGrant(s, e, i); }
    AnswerGrants(s, i);
  }

  /** Step `n` ends the job `i`, with that result. */
  predicate Ends(states: seq<State>, n: nat, i: nat, result: Result)
    requires n + 1 < |states|
  {
    && i < |states[n].queue| && i < |states[n + 1].queue|
    && !states[n].queue[i].place.Done? && states[n + 1].queue[i].place == Done(result)
  }

  /** An admission that is answered with a grant was, at that very step, still wanted by its caller
      and its launch the channel's current one, and the granted share is that launch's. */
  lemma GrantWasCurrent(states: seq<State>, events: seq<Event>, n: nat, i: nat, share: Share)
    requires Steps(states, events) && states[0] == INITIAL && n < |events| && Ends(states, n, i, Granted(share))
    ensures events[n] == Answered(i)
    ensures states[n].queue[i].job.Grant? && !states[n].queue[i].abandoned
    ensures states[n].Current(states[n].queue[i].job.launch)
    ensures states[n].queue[i].job.launch in states[n + 1].shares
    ensures share in states[n + 1].shares[states[n].queue[i].job.launch]
  {
    hide Enabled, Apply;
    OnlyTheMoverMoves(states[n], events[n], i);
    GrantStep(states[n], events[n], i);
  }

  lemma OneLiveOwner(s: State, launch: Launch, other: Launch, share: Share)
    requires Inv(s) && launch in s.shares && other in s.shares
    requires s.Live(launch) && s.Live(other) && share in s.shares[launch] && share in s.shares[other]
    ensures launch == other
  {
  }

  /** A share of a channel's current launch is stopped only by an admission of that very launch that
      took it itself and whose caller had given up; cleanups never touch it. */
  lemma CurrentSharesAreSafe(states: seq<State>, events: seq<Event>, n: nat, i: nat, share: Share, launch: Launch)
    requires Steps(states, events) && states[0] == INITIAL && n < |events|
    requires events[n] == StopSent(i, share)
    requires states[n].Current(launch) && launch in states[n].shares && share in states[n].shares[launch]
    ensures states[n].queue[i].job == Grant(launch)
    ensures states[n].queue[i].abandoned && share in states[n].queue[i].taken
  {
    EveryRunKeepsInv(states, events, n);
    var s := states[n];
    var op := s.queue[i];
    assert Fits(s, op);
    assert share in op.Target(s.shares);
    OneLiveOwner(s, if op.job.Cleanup? then op.visiting else op.job.launch, launch, share);
  }

  /** The stops that job `i` sent in a run. */
  function StopsSent(events: seq<Event>, i: nat): set<Share> {
    if events == [] then {}
    else
      var last := events[|events| - 1];
      StopsSent(events[..|events| - 1], i) + (if last.StopSent? && last.i == i then {last.share} else {})
  }

  /** `more` has been added to the shares of the launch, which did not have any of it. */
  predicate Adds(s: State, r: State, launch: Launch, more: set<Share>) {
    launch in s.shares && launch in r.shares && r.shares[launch] == s.shares[launch] + more && more !! s.shares[launch]
  }

  lemma AnswerAdds(s: State, i: nat)
    requires Enabled(s, Answered(i))
    ensures var op, after := s.queue[i], Apply(s, Answered(i)).queue[i];
            || after.taken == op.taken
            || (op.taken <= after.taken && Adds(s, Apply(s, Answered(i)), op.job.launch, after.taken - op.taken))
  {
  }

  lemma OpenedAdds(s: State, i: nat, share: Share)
    requires Enabled(s, Opened(i, share)) && s.queue[i].taken <= s.shares[s.queue[i].job.launch]
    ensures var op, after := s.queue[i], Apply(s, Opened(i, share)).queue[i];
            op.taken <= after.taken && Adds(s, Apply(s, Opened(i, share)), op.job.launch, after.taken - op.taken)
  {
  }

  lemma OthersTakeNothing(s: State, e: Event, i: nat)
    requires Enabled(s, e) && i < |s.queue| && Mover(e) == i && !e.Answered? && !e.Opened?
    ensures Apply(s, e).queue[i].taken == s.queue[i].taken
  {
    hide Retire;
  }

  /** An admission's `taken` grows by exactly what it adds to its launch's shares. */
  lemma TakenIsWhatItAdds(s: State, e: Event, i: nat)
    requires Inv(s) && Enabled(s, e) && i < |s.queue| && s.queue[i].job.Grant?
    ensures i < |Apply(s, e).queue| && Apply(s, e).queue[i].job == s.queue[i].job
    ensures s.queue[i].taken <= Apply(s, e).queue[i].taken
    ensures var more := Apply(s, e).queue[i].taken - s.queue[i].taken;
            more != {} ==> Adds(s, Apply(s, e), s.queue[i].job.launch, more)
  {
    assert Fits(s, s.queue[i]);
    hide Inv, Fits, Apply, Adds;
    OnlyTheMoverMoves(s, e, i);
    if e == Answered(i) {
      AnswerAdds(s, i);
    } else if e.Opened? && e.i == i {
      OpenedAdds(s, i, e.share);
    } else if Mover(e) == i {
      OthersTakeNothing(s, e, i);
    }
  }

  lemma MoverStops(s: State, e: Event, i: nat)
    requires Enabled(s, e) && i < |s.queue| && Mover(e) == i && s.queue[i].job.Grant?
    requires SweepFits(s, s.queue[i])
    ensures Apply(s, e).queue[i].stopped == s.queue[i].stopped + (if e.StopSent? then {e.share} else {})
  {
  }

  lemma StopStep(states: seq<State>, events: seq<Event>, n: nat, i: nat)
    requires Steps(states, events) && states[0] == INITIAL && n < |events|
    ensures i >= |states[n].queue| ==> !(events[n].StopSent? && events[n].i == i)
    ensures |states[n].queue| <= i < |states[n + 1].queue| ==> states[n + 1].queue[i].stopped == {}
    ensures i < |states[n].queue| ==>
              i < |states[n + 1].queue| && states[n + 1].queue[i].job == states[n].queue[i].job
    ensures i < |states[n].queue| && states[n].queue[i].job.Grant? ==>
              states[n + 1].queue[i].stopped
              == states[n].queue[i].stopped
                 + (if events[n].StopSent? && events[n].i == i then {events[n].share} else {})
  {
    OnlyTheMoverMoves(states[n], events[n], i);
    if i < |states[n].queue| && states[n].queue[i].job.Grant? && Mover(events[n]) == i {
      assert SweepFits(states[n], states[n].queue[i]) by {
        EveryRunKeepsInv(states, events, n);
        assert Fits(states[n], states[n].queue[i]);
      }
      MoverStops(states[n], events[n], i);
    }
  }

  lemma {:induction false} StopsAreRecorded(states: seq<State>, events: seq<Event>, n: nat, i: nat)
    requires Steps(states, events) && states[0] == INITIAL && n < |states|
    ensures i >= |states[n].queue| ==> StopsSent(events[..n], i) == {}
    ensures i < |states[n].queue| && states[n].queue[i].job.Grant? ==>
              StopsSent(events[..n], i) == states[n].queue[i].stopped
  {
    if n > 0 {
      StopsAreRecorded(states, events, n - 1, i);
      assert events[..n][..n - 1] == events[..n - 1];
      StopStep(states, events, n - 1, i);
    }
  }

  /** What a sweep found is what the service listed to it, and a refused admission that took something did
      sweep. */
  lemma {:induction false} SweepWasListed(states: seq<State>, events: seq<Event>, n: nat, i: nat)
    requires Steps(states, events) && states[0] == INITIAL && n < |states|
    requires i < |states[n].queue| && states[n].queue[i].job.Grant?
    requires var op := states[n].queue[i];
             op.place.Stopping? || (op.place == Done(Refused) && op.taken != {})
    ensures exists m :: 0 <= m < n && events[m] == Listed(i, states[n].queue[i].listed)
  {
    assert n > 0;
    var s, e, r := states[n - 1], events[n - 1], states[n];
    OnlyTheMoverMoves(s, e, i);
    if i >= |s.queue| { NewWaits(s, e, i); }
    if Mover(e) == i { ListedBy(s, e, i); }
    hide Enabled, Apply;
    if e != Listed(i, r.queue[i].listed) {
      SweepWasListed(states, events, n - 1, i);
    }
  }

  lemma ListedBy(s: State, e: Event, i: nat)
    requires Enabled(s, e) && i < |s.queue| && Mover(e) == i && s.queue[i].job.Grant?
    ensures var op, after := s.queue[i], Apply(s, e).queue[i];
            after.place.Stopping? || (after.place == Done(Refused) && after.taken != {}) ==>
              || e == Listed(i, after.listed)
              || (after.listed == op.listed && (op.place.Stopping? || (op.place == Done(Refused) && op.taken != {})))
  {
    hide Retire;
  }

  /** A refused admission has asked to stop exactly the shares it took, as far as the service listed them when
      it looked. One that failed, also because that look failed, or that was granted has stopped nothing, and
      everything it took is among its launch's shares. */
  lemma RefusalEndsWhatItTook(states: seq<State>, events: seq<Event>, n: nat, i: nat)
    requires Steps(states, events) && states[0] == INITIAL && n < |states|
    requires i < |states[n].queue| && states[n].queue[i].job.Grant? && states[n].queue[i].place.Done?
    ensures var s := states[n];
            var op := s.queue[i];
            && op.job.launch in s.shares && op.taken <= s.shares[op.job.launch]
            && if op.place.result != Refused || op.taken == {} then StopsSent(events[..n], i) == {}
               else exists m, sessions ::
                 0 <= m < n && events[m] == Listed(i, sessions) && StopsSent(events[..n], i) == op.taken * sessions
  {
    EveryRunKeepsInv(states, events, n);
    StopsAreRecorded(states, events, n, i);
    assert Fits(states[n], states[n].queue[i]);
    if states[n].queue[i].place.result == Refused && states[n].queue[i].taken != {} {
      SweepWasListed(states, events, n, i);
    }
  }

  /** What an admission left with its launch, the cleanup that ends this launch asks to stop, as far as
      it still exists. */
  lemma CleanupEndsTheRest(states: seq<State>, events: seq<Event>, n: nat, k: nat, i: nat)
    requires Steps(states, events) && states[0] == INITIAL && n < |events| && events[n] == SweepEnded(k)
    requires states[n].queue[k].job.Cleanup? && i < |states[n].queue|
    requires states[n].queue[i].job == Grant(states[n].queue[k].visiting)
    ensures states[n].queue[i].taken * states[n].queue[k].listed <= states[n].queue[k].stopped
  {
    EveryRunKeepsInv(states, events, n);
    assert Fits(states[n], states[n].queue[k]) && Fits(states[n], states[n].queue[i]);
  }

  // ----- how an admission ends ----------------------------------------------------------------

  /** An answer that finds its caller waiting and its launch current is a grant of the very share picked,
      whoever held that share before. */
  lemma AnswerIsGranted(states: seq<State>, events: seq<Event>, n: nat, i: nat)
    requires Steps(states, events) && states[0] == INITIAL && n < |events| && events[n] == Answered(i)
    requires !states[n].queue[i].abandoned && states[n].Current(states[n].queue[i].job.launch)
    ensures exists share ::
              && (exists m :: 0 <= m < n && events[m] == Picked(i, share))
              && states[n + 1].queue[i].place == Done(Granted(share))
              && states[n].queue[i].job.launch in states[n + 1].shares
              && share in states[n + 1].shares[states[n].queue[i].job.launch]
  {
    GrantingWasPicked(states, events, n, i);
    AnswerOfWanted(states[n], i);
  }

  lemma AnswerOfWanted(s: State, i: nat)
    requires Enabled(s, Answered(i)) && s.Wanted(s.queue[i])
    ensures var r, op := Apply(s, Answered(i)), s.queue[i];
            && r.queue[i].place == Done(Granted(op.place.share))
            && op.job.launch in r.shares && op.place.share in r.shares[op.job.launch]
  {
  }

  /** The share an admission waits for an answer about is one it picked. */
  lemma {:induction false} GrantingWasPicked(states: seq<State>, events: seq<Event>, n: nat, i: nat)
    requires Steps(states, events) && states[0] == INITIAL && n < |states|
    requires i < |states[n].queue| && states[n].queue[i].place.Granting?
    ensures exists m :: 0 <= m < n && events[m] == Picked(i, states[n].queue[i].place.share)
  {
    assert n > 0;
    var s, e := states[n - 1], events[n - 1];
    PlaceStep(s, e, i);
    hide Enabled, Apply;
    if e != Picked(i, states[n].queue[i].place.share) {
      GrantingWasPicked(states, events, n - 1, i);
    }
  }

  /** The places that are entered by one event only. */
  lemma PlaceStep(s: State, e: Event, i: nat)
    requires Enabled(s, e) && i < |Apply(s, e).queue|
    ensures var place := Apply(s, e).queue[i].place;
            place.Granting? && !(i < |s.queue| && s.queue[i].place == place) ==> e == Picked(i, place.share)
  {
    OnlyTheMoverMoves(s, e, i);
    if Mover(e) == i { MoverPlace(s, e, i); }
    hide Apply, Enabled;
  }

  lemma MoverPlace(s: State, e: Event, i: nat)
    requires Enabled(s, e) && i < |s.queue| && Mover(e) == i
    ensures var place := Apply(s, e).queue[i].place;
            place.Granting? && s.queue[i].place != place ==> e == Picked(i, place.share)
  {
    hide Retire;
  }

  /** An admission that fails had a call fail, or the share it had just opened was gone. */
  lemma FailureHasACause(states: seq<State>, events: seq<Event>, n: nat, i: nat)
    requires Steps(states, events) && states[0] == INITIAL && n < |events| && Ends(states, n, i, Failed)
    requires states[n].queue[i].job.Grant?
    ensures events[n] == CallFailed(i)
            || (events[n] == NothingToPick(i) && states[n].queue[i].place.only != {}
                && exists share, m :: 0 <= m < n && events[m] == Opened(i, share))
  {
    var s, e := states[n], events[n];
    OnlyTheMoverMoves(s, e, i);
    FailedBy(s, e, i);
    hide Enabled, Apply;
    if e == NothingToPick(i) {
      NarrowedByOpening(states, events, n, i);
    }
  }

  lemma FailedBy(s: State, e: Event, i: nat)
    requires Enabled(s, e) && i < |s.queue| && Mover(e) == i && !s.queue[i].place.Done?
    requires Apply(s, e).queue[i].place == Done(Failed)
    ensures e == CallFailed(i) || (e == NothingToPick(i) && s.queue[i].place.only != {})
  {
    hide Retire;
  }

  /** An admission is held to one share only after it opened that share. */
  lemma {:induction false} NarrowedByOpening(states: seq<State>, events: seq<Event>, n: nat, i: nat)
    requires Steps(states, events) && states[0] == INITIAL && n < |states|
    requires i < |states[n].queue| && states[n].queue[i].place.Choosing? && states[n].queue[i].place.only != {}
    ensures exists share, m :: 0 <= m < n && events[m] == Opened(i, share)
  {
    assert n > 0;
    var s, e := states[n - 1], events[n - 1];
    OnlyTheMoverMoves(s, e, i);
    if Mover(e) == i && !e.Opened? { NarrowedBy(s, e, i); }
    hide Enabled, Apply;
    if Mover(e) != i || !e.Opened? {
      NarrowedByOpening(states, events, n - 1, i);
    }
  }

  lemma NarrowedBy(s: State, e: Event, i: nat)
    requires Enabled(s, e) && i < |s.queue| && Mover(e) == i && !e.Opened?
    requires Apply(s, e).queue[i].place.Choosing? && Apply(s, e).queue[i].place.only != {}
    ensures s.queue[i].place == Apply(s, e).queue[i].place
  {
    hide Retire;
  }

  /** The events at which an admission looks whether it is still wanted. */
  predicate Checks(e: Event, i: nat) {
    e == Begun(i) || e == NothingToPick(i) || e == Answered(i) || (e.Opened? && e.i == i)
  }

  predicate Refusing(op: Operation) {
    op.job.Grant? && (op.place.Listing? || op.place.Stopping? || op.place == Done(Refused))
  }

  /** Its caller has given up, or its launch was stopped or replaced. */
  predicate UnwantedAt(s: State, i: nat) {
    && i < |s.queue| && s.queue[i].job.Grant?
    && (s.queue[i].abandoned || !s.Current(s.queue[i].job.launch))
  }

  /** An admission that is refused was, at one of its checks, given up by its caller, or its launch was no
      longer the channel's current one. */
  lemma {:induction false} RefusedWasUnwanted(states: seq<State>, events: seq<Event>, n: nat, i: nat)
    requires Steps(states, events) && states[0] == INITIAL && n < |states|
    requires i < |states[n].queue| && Refusing(states[n].queue[i])
    ensures exists m :: 0 <= m < n && Checks(events[m], i) && UnwantedAt(states[m], i)
  {
    assert n > 0;
    var s, e := states[n - 1], events[n - 1];
    OnlyTheMoverMoves(s, e, i);
    if i >= |s.queue| { NewWaits(s, e, i); }
    if Mover(e) == i && !Refusing(s.queue[i]) { RefusingBy(s, e, i); }
    hide Enabled, Apply;
    if Refusing(s.queue[i]) {
      RefusedWasUnwanted(states, events, n - 1, i);
    }
  }

  lemma NewWaits(s: State, e: Event, i: nat)
    requires Enabled(s, e) && |s.queue| <= i < |Apply(s, e).queue|
    ensures Apply(s, e).queue[i].place.Waiting? && !Apply(s, e).queue[i].abandoned
  {
  }

  lemma RefusingBy(s: State, e: Event, i: nat)
    requires Enabled(s, e) && i < |s.queue| && Mover(e) == i && !Refusing(s.queue[i]) && Refusing(Apply(s, e).queue[i])
    ensures Checks(e, i) && UnwantedAt(s, i)
  {
    hide Retire;
  }

  /** An admission that opened a share is granted that one and no other. */
  lemma {:induction false} OpenedIsWhatIsGranted(
    states: seq<State>, events: seq<Event>, m: nat, n: nat, i: nat, own: Share)
    requires Steps(states, events) && m < n < |states| && events[m] == Opened(i, own)
    ensures i < |states[n].queue| && HeldTo(states[n].queue[i], own)
  {
    if n == m + 1 {
      OpeningHolds(states[m], i, own);
    } else {
      OpenedIsWhatIsGranted(states, events, m, n - 1, i, own);
      var s, e := states[n - 1], events[n - 1];
      OnlyTheMoverMoves(s, e, i);
      if Mover(e) == i { HeldOn(s, e, i, own); }
    }
  }

  /** The admission is choosing that share, being granted it, granted it, or not granted anything. */
  predicate HeldTo(op: Operation, own: Share) {
    && op.job.Grant?
    && match op.place {
         case Waiting => false
         case Choosing(only) => only == {own}
         case Granting(share) => share == own
         case Opening => false
         case Sweeping => false
         case Listing => true
         case Stopping(_) => true
         case Done(result) => result.Granted? ==> result.share == own
       }
  }

  lemma OpeningHolds(s: State, i: nat, own: Share)
    requires Enabled(s, Opened(i, own))
    ensures i < |s.queue| == |Apply(s, Opened(i, own)).queue|
    ensures HeldTo(Apply(s, Opened(i, own)).queue[i], own)
  {
  }

  lemma HeldOn(s: State, e: Event, i: nat, own: Share)
    requires Enabled(s, e) && i < |s.queue| && Mover(e) == i && HeldTo(s.queue[i], own)
    ensures HeldTo(Apply(s, e).queue[i], own)
  {
    hide Retire;
  }

  /** What an admission may pick: after opening a share only that one; otherwise one of its launch's, or one in
      its channel that no current or uncleaned launch of the channel holds. */
  lemma PicksExactly(s: State, i: nat, share: Share)
    requires i < |s.queue| && s.queue[i].place.Choosing? && s.queue[i].job.Grant? && s.queue[i].job.launch in s.shares
    ensures var op := s.queue[i];
            Enabled(s, Picked(i, share)) <==>
              && share.scope == op.job.launch.home
              && if op.place.only != {} then share in op.place.only
                 else share in s.shares[op.job.launch]
                      || forall launch ::
                           launch in s.shares && share in s.shares[launch] && launch.home == share.scope ==>
                             !s.Current(launch) && !s.Uncleaned(launch)
  {
  }

  // ----- stops and timeouts are final -----------------------------------------------------------

  /** A launch that is not, or no longer, its channel's current one never becomes it again. */
  lemma {:induction false} NeverCurrentAgain(states: seq<State>, events: seq<Event>, m: nat, n: nat, launch: Launch)
    requires Steps(states, events) && m <= n < |states|
    requires launch in states[m].shares && !states[m].Current(launch)
    ensures launch in states[n].shares && !states[n].Current(launch)
  {
    if m < n {
      NeverCurrentAgain(states, events, m, n - 1, launch);
      CurrentStep(states[n - 1], events[n - 1], launch);
    }
  }

  lemma CurrentStep(s: State, e: Event, launch: Launch)
    requires Enabled(s, e) && launch in s.shares
    ensures launch in Apply(s, e).shares && (Apply(s, e).Current(launch) ==> s.Current(launch))
    ensures (e.StopCalled? && e.destination == launch.home) || (e.Launched? && e.launch.home == launch.home) ==>
              !Apply(s, e).Current(launch)
  {
  }

  /** A stop or a relaunch of the channel ends every admission asked for before it: none is granted later. */
  lemma StopIsFinal(states: seq<State>, events: seq<Event>, m: nat, n: nat, i: nat)
    requires Steps(states, events) && states[0] == INITIAL && m < n < |events|
    requires i < |states[m].queue| && states[m].queue[i].job.Grant?
    requires var home := states[m].queue[i].job.launch.home;
             events[m] == StopCalled(home) || (events[m].Launched? && events[m].launch.home == home)
    ensures forall share :: !Ends(states, n, i, Granted(share))
  {
    var launch := states[m].queue[i].job.launch;
    EveryRunKeepsInv(states, events, m);
    assert Fits(states[m], states[m].queue[i]) && launch in states[m].shares;
    hide Inv, Fits;
    CurrentStep(states[m], events[m], launch);
    NeverCurrentAgain(states, events, m + 1, n, launch);
    JobStays(states, events, m, n, i);
    hide Enabled, Apply;
    OnlyTheMoverMoves(states[n], events[n], i);
    forall share
      ensures !Ends(states, n, i, Granted(share))
    {
      if Ends(states, n, i, Granted(share)) { GrantStep(states[n], events[n], i); }
    }
  }

  lemma JobStep(s: State, e: Event, i: nat)
    requires Enabled(s, e) && i < |s.queue|
    ensures i < |Apply(s, e).queue| && Apply(s, e).queue[i].job == s.queue[i].job
    ensures s.queue[i].abandoned ==> Apply(s, e).queue[i].abandoned
  {
    hide Apply, Enabled;
    OnlyTheMoverMoves(s, e, i);
    if Mover(e) == i { AbandonedStays(s, e, i); }
  }

  lemma {:induction false} JobStays(states: seq<State>, events: seq<Event>, m: nat, n: nat, i: nat)
    requires Steps(states, events) && m <= n < |states| && i < |states[m].queue|
    ensures i < |states[n].queue| && states[n].queue[i].job == states[m].queue[i].job
    ensures states[m].queue[i].abandoned ==> states[n].queue[i].abandoned
  {
    if m < n {
      JobStays(states, events, m, n - 1, i);
      var s, e, r := states[n - 1], events[n - 1], states[n];
      assert Enabled(s, e) && r == Apply(s, e);
      hide Apply, Enabled, Steps;
      JobStep(s, e, i);
    }
  }

  /** What a call asks for: an admission to the launch that is current then, or the cleanup of the channel. */
  predicate Asks(s: State, e: Event, job: Job) {
    match e
    case GrantCalled(destination) => destination in s.launched && job == Grant(s.launched[destination])
    case StopCalled(destination) => job == Cleanup(destination)
    case _ => false
  }

  lemma CallAdds(s: State, e: Event)
    requires Enabled(s, e) && (e.GrantCalled? || e.StopCalled?)
    ensures var r := Apply(s, e);
            |r.queue| == |s.queue| + 1 && Asks(s, e, r.queue[|s.queue|].job) && r.queue[|s.queue|].place.Waiting?
  {
  }

  lemma OthersAddNothing(s: State, e: Event)
    requires Enabled(s, e) && !e.GrantCalled? && !e.StopCalled?
    ensures |Apply(s, e).queue| == |s.queue|
  {
  }

  /** No call is lost: each adds one job, the one it asks for, at the end of the queue, where it stays; and
      nothing else adds any. */
  lemma EveryCallIsQueued(states: seq<State>, events: seq<Event>, m: nat, n: nat)
    requires Steps(states, events) && m < n <= |events|
    ensures var k := |states[m].queue|;
            if events[m].GrantCalled? || events[m].StopCalled?
            then
              && |states[m + 1].queue| == k + 1
              && k < |states[n].queue| && Asks(states[m], events[m], states[n].queue[k].job)
            else |states[m + 1].queue| == k
  {
    hide Apply, Enabled;
    if events[m].GrantCalled? || events[m].StopCalled? {
      CallAdds(states[m], events[m]);
      JobStays(states, events, m + 1, n, |states[m].queue|);
    } else {
      OthersAddNothing(states[m], events[m]);
    }
  }

  lemma AbandonedStays(s: State, e: Event, i: nat)
    requires Enabled(s, e) && i < |s.queue| && Mover(e) == i
    ensures s.queue[i].abandoned || e == TimedOut(i) ==> Apply(s, e).queue[i].abandoned
  {
    hide Retire;
  }

  /** Once its caller timed out, an admission is never granted. */
  lemma TimeoutIsFinal(states: seq<State>, events: seq<Event>, m: nat, n: nat, i: nat)
    requires Steps(states, events) && m < n < |events| && events[m] == TimedOut(i)
    ensures forall share :: !Ends(states, n, i, Granted(share))
  {
    AbandonedStays(states[m], events[m], i);
    JobStays(states, events, m + 1, n, i);
    hide Enabled, Apply;
    OnlyTheMoverMoves(states[n], events[n], i);
    forall share
      ensures !Ends(states, n, i, Granted(share))
    {
      if Ends(states, n, i, Granted(share)) { GrantStep(states[n], events[n], i); }
    }
  }

  // ----- no share is abandoned ------------------------------------------------------------------

  /** Step `m` is a cleanup letting go of the launch: it held nothing, or the sweep just ended has asked to
      stop every share of it that was still listed. */
  predicate LetsGo(s: State, e: Event, launch: Launch) {
    launch in s.shares &&
    match e
    case Visited(_, visited) => visited == launch && s.shares[launch] == {}
    case SweepEnded(k) =>
      && k < |s.queue| && s.queue[k].job.Cleanup? && s.queue[k].visiting == launch
      && s.queue[k].stopped == s.shares[launch] * s.queue[k].listed
    case _ => false
  }

  /** Every launch ever made is the channel's current one, waits for a cleanup, or was let go by one. What it
      held then is all it ever held. */
  lemma {:induction false} NoLaunchIsAbandoned(states: seq<State>, events: seq<Event>, n: nat, launch: Launch)
    requires Steps(states, events) && states[0] == INITIAL && n < |states| && launch in states[n].shares
    ensures states[n].Current(launch) || states[n].Uncleaned(launch)
            || exists m :: 0 <= m < n && LetsGo(states[m], events[m], launch)
                           && states[m].shares[launch] == states[n].shares[launch]
  {
    assert n > 0;
    var s, e := states[n - 1], events[n - 1];
    EveryRunKeepsInv(states, events, n - 1);
    LiveStep(s, e, launch);
    hide Enabled, Apply, Inv, LetsGo;
    if launch in s.shares && !s.Live(launch) {
      NoLaunchIsAbandoned(states, events, n - 1, launch);
    }
  }

  lemma LiveStep(s: State, e: Event, launch: Launch)
    requires Inv(s) && Enabled(s, e) && launch in Apply(s, e).shares
    ensures launch !in s.shares ==> Apply(s, e).Live(launch)
    ensures launch in s.shares && s.Live(launch) && !Apply(s, e).Live(launch) ==> LetsGo(s, e, launch)
    ensures launch in s.shares && !Apply(s, e).Live(launch) ==> Apply(s, e).shares[launch] == s.shares[launch]
  {
    hide Apply, LetsGo, Fits, InTurn, Disjoint, Scoped;
    match e
    case Launched(made) => MadeLives(s, made, launch);
    case StopCalled(destination) => StopCalledLives(s, destination, Apply(s, e));
    case Visited(i, visited) => VisitedLives(s, i, visited, launch);
    case SweepEnded(i) => SweepEndedLives(s, i, launch);
    case Answered(i) => TakerLives(s, i); TakingLives(s, e, i, launch);
    case Opened(i, _) => TakerLives(s, i); TakingLives(s, e, i, launch);
    case _ => OthersLive(s, e, launch);
  }

  lemma TakerLives(s: State, i: nat)
    requires Inv(s) && i < |s.queue| && s.queue[i].job.Grant? && s.queue[i].Running()
    ensures s.Live(s.queue[i].job.launch)
  {
    assert Fits(s, s.queue[i]);
  }

  lemma MadeLives(s: State, made: Launch, launch: Launch)
    requires Registered(s) && Enabled(s, Launched(made))
    ensures var r := Apply(s, Launched(made));
            && r.shares == s.shares[made := {}] && r.Live(made)
            && (launch in s.shares ==> (r.Live(launch) <==> s.Live(launch)))
  {
    LaunchedLives(s, made, Apply(s, Launched(made)));
  }

  lemma OthersLive(s: State, e: Event, launch: Launch)
    requires Enabled(s, e) && launch in Apply(s, e).shares
    requires e.GrantCalled? || e.TimedOut? || e.Begun? || e.Picked? || e.NothingToPick? || e.Swept? || e.Listed?
             || e.StopSent? || e.CallFailed?
    ensures Apply(s, e).shares == s.shares && (Apply(s, e).Live(launch) <==> s.Live(launch))
  {
  }

  lemma TakingLives(s: State, e: Event, i: nat, launch: Launch)
    requires Enabled(s, e) && (e == Answered(i) || (e.Opened? && e.i == i)) && s.Live(s.queue[i].job.launch)
    ensures Apply(s, e).shares.Keys == s.shares.Keys && (Apply(s, e).Live(launch) <==> s.Live(launch))
    ensures launch in s.shares && !s.Live(launch) ==> Apply(s, e).shares[launch] == s.shares[launch]
  {
  }

  lemma VisitedLives(s: State, i: nat, visited: Launch, launch: Launch)
    requires Enabled(s, Visited(i, visited))
    ensures var r := Apply(s, Visited(i, visited));
            && r.shares == s.shares
            && (launch in s.shares && s.Live(launch) && !r.Live(launch) ==> LetsGo(s, Visited(i, visited), launch))
  {
  }

  lemma SweepEndedLives(s: State, i: nat, launch: Launch)
    requires Inv(s) && Enabled(s, SweepEnded(i))
    ensures var r := Apply(s, SweepEnded(i));
            && r.shares == s.shares
            && (launch in s.shares && s.Live(launch) && !r.Live(launch) ==> LetsGo(s, SweepEnded(i), launch))
  {
    assert Fits(s, s.queue[i]);
    hide Inv;
  }

  /** A stop's cleanup that ends well has let go of every launch that was waiting for one when the stop came. */
  lemma {:induction false} CleanupIsComplete(
    states: seq<State>, events: seq<Event>, m: nat, n: nat, i: nat, launch: Launch)
    requires Steps(states, events) && states[0] == INITIAL && m <= n < |states|
    requires i < |states[m].queue| && states[m].queue[i].job == Cleanup(launch.home)
    requires !states[m].queue[i].place.Done? && states[m].Uncleaned(launch)
    ensures i < |states[n].queue|
    ensures launch in states[n].shares
    ensures states[n].queue[i].place == Done(Cleaned) ==> !states[n].Current(launch) && !states[n].Uncleaned(launch)
  {
    if m == n {
      EveryRunKeepsInv(states, events, m);
      UncleanedIsNotCurrent(states[m], launch);
    } else {
      CleanupIsComplete(states, events, m, n - 1, i, launch);
      JobStays(states, events, m, n - 1, i);
      EveryRunKeepsInv(states, events, m);
      UncleanedIsNotCurrent(states[m], launch);
      NeverCurrentAgain(states, events, m, n - 1, launch);
      var s, e, r := states[n - 1], events[n - 1], states[n];
      assert Enabled(s, e) && r == Apply(s, e);
      hide Inv, Apply, Enabled, Steps;
      CurrentStep(s, e, launch);
      CleanedStep(s, e, i, launch);
    }
  }

  lemma UncleanedIsNotCurrent(s: State, launch: Launch)
    requires Inv(s) && s.Uncleaned(launch)
    ensures launch in s.shares && !s.Current(launch)
  {
  }

  lemma CleanedStep(s: State, e: Event, i: nat, launch: Launch)
    requires Enabled(s, e) && i < |s.queue| && s.queue[i].job == Cleanup(launch.home) && launch in s.shares
    requires !Apply(s, e).Current(launch) && !s.Current(launch)
    requires s.queue[i].place == Done(Cleaned) ==> !s.Uncleaned(launch)
    ensures i < |Apply(s, e).queue|
    ensures Apply(s, e).queue[i].place == Done(Cleaned) ==> !Apply(s, e).Uncleaned(launch)
  {
    var r := Apply(s, e);
    OnlyTheMoverMoves(s, e, i);
    RetiredStep(s, e, launch);
    if Mover(e) == i && r.queue[i].place == Done(Cleaned) && s.queue[i].place != Done(Cleaned) {
      CleanedBy(s, e, i);
    }
    hide Apply;
  }

  lemma CleanedBy(s: State, e: Event, i: nat)
    requires Enabled(s, e) && i < |s.queue| && Mover(e) == i && s.queue[i].place != Done(Cleaned)
    requires Apply(s, e).queue[i].place == Done(Cleaned)
    ensures e == Swept(i)
  {
    hide Retire;
  }

  lemma RetiredStep(s: State, e: Event, launch: Launch)
    requires Enabled(s, e) && !s.Current(launch)
    ensures Apply(s, e).Uncleaned(launch) ==> s.Uncleaned(launch)
    ensures e.Swept? && s.queue[e.i].job.destination == launch.home ==> !Apply(s, e).Uncleaned(launch)
  {
  }

  /** While some job has not ended, the first such job can take its next step: a caller that gave up, a slow
      service and a cleanup with nothing to do hold nobody up for ever. */
  lemma QueueMoves(states: seq<State>, events: seq<Event>, n: nat, i: nat)
    requires Steps(states, events) && states[0] == INITIAL && n < |states|
    requires i < |states[n].queue| && !states[n].queue[i].place.Done?
    requires forall j :: 0 <= j < i ==> states[n].queue[j].place.Done?
    ensures exists e :: Enabled(states[n], e) && Mover(e) == i && !e.TimedOut?
  {
    EveryRunKeepsInv(states, events, n);
    var s := states[n];
    var op := s.queue[i];
    assert Fits(s, op);
    if op.place.Sweeping? {
      SweepMoves(s, i);
    } else {
      hide Inv, SweepFits, Apply, Disjoint, Scoped, Registered, InTurn, MayTake;
      var next := NextEvent(op, i);
      assert Enabled(s, next) && Mover(next) == i;
    }
  }

  /** A step that a job can take when it is its turn, where that does not depend on other jobs' launches. */
  ghost function NextEvent(op: Operation, i: nat): Event
    requires !op.place.Done? && !op.place.Sweeping?
  {
    match op.place
    case Waiting => Begun(i)
    case Choosing(_) => NothingToPick(i)
    case Granting(_) => Answered(i)
    case Opening => CallFailed(i)
    case Listing => Listed(i, {})
    case Stopping(left) => if left == {} then SweepEnded(i) else var share :| share in left; StopSent(i, share)
  }

  lemma SweepMoves(s: State, i: nat)
    requires Inv(s) && i < |s.queue| && s.queue[i].place.Sweeping? && s.queue[i].job.Cleanup?
    ensures exists e :: Enabled(s, e) && Mover(e) == i && !e.TimedOut?
  {
    var d := s.queue[i].job.destination;
    if d in s.retired && s.retired[d] != {} {
      var launch :| launch in s.retired[d];
      assert Enabled(s, Visited(i, launch)) && Mover(Visited(i, launch)) == i;
    } else {
      assert Enabled(s, Swept(i)) && Mover(Swept(i)) == i;
    }
  }
}

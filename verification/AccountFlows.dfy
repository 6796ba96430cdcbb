/** Pending sign-ins: GitHub's device flow (section 3.5 of RFC 8628) and Linear's code exchange.

    Operations on one provider run one after another (module SerialQueue), so each is one step here. The
    providers' answers, the clock and the guard that may call an operation off are parameters. The history
    records what was started, forwarded, exchanged, stored by a flow or as an app's own credential, and
    disconnected; `Valid` says what holds of it after any operations in any order. */
module AccountFlows {
  import opened Base

  const MAX_PENDING_FLOWS: nat := 16
  const LINEAR_FLOW_TTL_MS: nat := 600000

  type Id = string
  /** Intervals in answers are positive. */
  type Seconds = n: nat | n > 0 witness 1

  datatype Provider = Github | Linear

  datatype Flow<T> = Flow(id: Id, expiresAt: int, body: T)
  datatype DevicePolling = DevicePolling(interval: nat, nextPollAt: int)
  datatype Redirect = Redirect(clientId: string, redirectUri: string)

  datatype Event =
    | Started(provider: Provider, id: Id)
    | Forwarded(id: Id, at: int, interval: nat)
    | Exchanged(id: Id)
    | Stored(provider: Provider, id: Id)
    | AppStored
    | Disconnected(provider: Provider)

  datatype DeviceReply =
    | NoAnswer
    | AuthorizationPending
    | SlowDown(interval: Option<Seconds>)
    | ExpiredToken
    | AccessDenied
    | OtherError
    | Granted

  /** GitHub's answer to the start of a device flow. */
  datatype DeviceCode = Code(expiresIn: nat, interval: Option<Seconds>) | CodeRejected | CodeUnavailable

  datatype Result =
    | Ok | Pending(interval: nat) | Unconfigured | ProviderRejected | Unavailable | UnknownFlow | Expired | Denied
    | CalledOff

  // ----- pending flows, oldest first --------------------------------------------------------

  predicate Distinct<T>(flows: seq<Flow<T>>) {
    forall i, j :: 0 <= i < j < |flows| ==> flows[i].id != flows[j].id
  }

  predicate Has<T>(flows: seq<Flow<T>>, id: Id) {
    exists k :: 0 <= k < |flows| && flows[k].id == id
  }

  function Find<T>(flows: seq<Flow<T>>, id: Id): (r: Option<nat>)
    ensures r.Some? <==> Has(flows, id)
    ensures r.Some? ==> r.value < |flows| && flows[r.value].id == id
  {
    if flows == [] then None
    else if flows[0].id == id then Some(0)
    else
      var r := Find(flows[1..], id);
      assert forall k :: 0 < k < |flows| ==> flows[k] == flows[1..][k - 1];
      if r.Some? then Some(r.value + 1) else None
  }

  /** The flows that have not expired. */
  function Live<T(!new)>(flows: seq<Flow<T>>, now: int): (live: seq<Flow<T>>)
    ensures forall f :: f in live <==> f in flows && f.expiresAt > now
  {
    if flows == [] then []
    else if flows[0].expiresAt <= now then Live(flows[1..], now)
    else [flows[0]] + Live(flows[1..], now)
  }

  lemma {:induction false} LiveIsDistinct<T(!new)>(flows: seq<Flow<T>>, now: int)
    requires Distinct(flows)
    ensures Distinct(Live(flows, now))
  {
    if flows != [] {
      assert Distinct(flows[1..]) by {
        assert forall k :: 0 <= k < |flows| - 1 ==> flows[1..][k] == flows[k + 1];
      }
      LiveIsDistinct(flows[1..], now);
      var rest := Live(flows[1..], now);
      forall k | 0 <= k < |rest|
        ensures rest[k].id != flows[0].id
      {
        assert rest[k] in flows[1..];
        var m :| 0 <= m < |flows[1..]| && flows[1..][m] == rest[k];
        assert flows[m + 1].id != flows[0].id;
      }
    }
  }

  /** The newest live flows, with room for one more. */
  function Newest<T(!new)>(flows: seq<Flow<T>>, now: int): seq<Flow<T>> {
    var live := Live(flows, now);
    if |live| < MAX_PENDING_FLOWS then live else live[|live| - MAX_PENDING_FLOWS + 1..]
  }

  /** What is live stays in order. */
  lemma {:induction false} LiveInOrder<T(!new)>(flows: seq<Flow<T>>, more: seq<Flow<T>>, now: int)
    ensures Live(flows + more, now) == Live(flows, now) + Live(more, now)
  {
    if flows == [] {
      assert flows + more == more;
    } else {
      var rest := flows[1..];
      assert (flows + more)[0] == flows[0] && (flows + more)[1..] == rest + more;
      LiveInOrder(rest, more, now);
      assert [flows[0]] + Live(rest, now) + Live(more, now) == [flows[0]] + (Live(rest, now) + Live(more, now));
    }
  }

  /** `kept` are the flows that are live, without the oldest of them when they are too many: then just as many
      go as leave room for one more. */
  ghost predicate KeepsNewest<T(!new)>(flows: seq<Flow<T>>, now: int, kept: seq<Flow<T>>) {
    exists dropped ::
      && Live(flows, now) == dropped + kept && |kept| <= 15
      && (dropped != [] ==> |kept| == 15)
  }

  /** Expired flows go; then the oldest, until there is room for one more. */
  method Prune<T(!new)>(flows: seq<Flow<T>>, now: int) returns (kept: seq<Flow<T>>)
    ensures kept == Newest(flows, now) && KeepsNewest(flows, now, kept)
  {
    kept := Unexpired(flows, now);
    ghost var live := kept;
    while |kept| >= MAX_PENDING_FLOWS
      invariant |kept| <= |live| && kept == live[|live| - |kept|..]
      invariant |live| < MAX_PENDING_FLOWS ==> kept == live
      invariant |live| >= MAX_PENDING_FLOWS ==> |kept| >= MAX_PENDING_FLOWS - 1
    {
      kept := kept[1..];
    }
    assert live == live[..|live| - |kept|] + kept;
  }

  method Unexpired<T(!new)>(flows: seq<Flow<T>>, now: int) returns (kept: seq<Flow<T>>)
    ensures kept == Live(flows, now)
  {
    kept := [];
    assert flows[0..] == flows;
    for i := 0 to |flows|
      invariant Live(flows, now) == kept + Live(flows[i..], now)
    {
      assert flows[i..][1..] == flows[i + 1..];
      ghost var rest := Live(flows[i + 1..], now);
      if flows[i].expiresAt > now {
        assert kept + ([flows[i]] + rest) == kept + [flows[i]] + rest;
        kept := kept + [flows[i]];
      }
    }
  }

  function Without<T>(flows: seq<Flow<T>>, k: nat): seq<Flow<T>>
    requires k < |flows|
  {
    flows[..k] + flows[k + 1..]
  }

  // ----- the pace of polling ----------------------------------------------------------------

  function Clamp(interval: nat): (n: nat)
    ensures 1 <= n <= 600 && (1 <= interval <= 600 ==> n == interval)
    ensures interval == 0 ==> n == 1
    ensures interval > 600 ==> n == 600
  {
    if interval < 1 then 1 else if interval > 600 then 600 else interval
  }

  /** The interval after GitHub asked to slow down, as it named one or not. */
  function Slowed(interval: nat, named: Option<Seconds>): (n: nat)
    ensures 1 <= n <= 600
  {
    var asked := if named.Some? then named.value else interval + 5;
    if asked > 600 then 600 else asked
  }

  function NextInterval(interval: nat, reply: DeviceReply): nat {
    if reply.SlowDown? then Slowed(interval, reply.interval) else interval
  }

  function Rescheduled(flow: Flow<DevicePolling>, polled: int, interval: nat): Flow<DevicePolling> {
    Flow(flow.id, flow.expiresAt, DevicePolling(interval, polled + interval * 1000))
  }

  /** The answers after which a flow is over. */
  predicate Final(reply: DeviceReply) {
    reply.ExpiredToken? || reply.AccessDenied? || reply.OtherError? || reply.Granted?
  }

  /** After GitHub's answer the flow waits for its next poll, an interval after this one, or it is over. */
  ghost predicate Moves(
    before: seq<Flow<DevicePolling>>, after: seq<Flow<DevicePolling>>, k: nat, polled: int, interval: nat,
    reply: DeviceReply)
    requires k < |before|
  {
    if reply == NoAnswer || reply == AuthorizationPending || reply.SlowDown? then
      after == before[k := Flow(before[k].id, before[k].expiresAt, DevicePolling(interval, polled + 1000 * interval))]
    else after == before[..k] + before[k + 1..]
  }

  /** What the owner is told of GitHub's answer (section 3.5 of RFC 8628). */
  ghost predicate Tells(result: Result, reply: DeviceReply, interval: nat, guarded: bool) {
    && (reply == NoAnswer <==> result == Unavailable)
    && (reply == AuthorizationPending || reply.SlowDown? <==> result == Pending(interval))
    && (reply == ExpiredToken <==> result == Expired)
    && (reply == AccessDenied <==> result == Denied)
    && (reply == OtherError <==> result == ProviderRejected)
    && (reply == Granted && guarded <==> result == Ok)
    && (reply == Granted && !guarded <==> result == CalledOff)
  }

  /** RFC 8628 has every slow_down add five seconds. Here it does unless GitHub names an interval closer
      than that, or the limit of ten minutes is near. */
  lemma SlowsByFive(interval: nat, named: Option<Seconds>)
    requires interval <= 600
    ensures Slowed(interval, named) >= interval + 5 <==>
              interval <= 595 && (named.Some? ==> named.value >= interval + 5)
    ensures Slowed(interval, named) < interval <==> named.Some? && named.value < interval
    ensures named.None? ==> Slowed(interval, named) == if interval <= 595 then interval + 5 else 600
    ensures named.Some? ==> Slowed(interval, named) == if named.value <= 600 then named.value else 600
  {
  }

  // ----- the history ------------------------------------------------------------------------

  /** A flow was started at `j`, and the provider has not been disconnected since, up to `k`. */
  ghost predicate OpenSince(h: seq<Event>, p: Provider, id: Id, j: nat, k: nat) {
    && j < k <= |h| && h[j] == Started(p, id)
    && forall m :: j < m < k ==> h[m] != Disconnected(p)
  }

  ghost predicate Open(h: seq<Event>, p: Provider, id: Id, k: nat) {
    exists j :: OpenSince(h, p, id, j, k)
  }

  /** Every credential a flow stored belongs to a flow started since the last disconnect. */
  ghost predicate NoRevival(h: seq<Event>) {
    forall k {:trigger h[k]} :: 0 <= k < |h| && h[k].Stored? ==> Open(h, h[k].provider, h[k].id, k)
  }

  ghost predicate ExchangedOnce(h: seq<Event>) {
    forall i, j :: 0 <= i < j < |h| && h[i].Exchanged? ==> h[i] != h[j]
  }

  /** Polls of one flow reach GitHub at least the interval last set apart. */
  ghost predicate Paced(h: seq<Event>) {
    forall i, j :: 0 <= i < j < |h| && h[i].Forwarded? && h[j].Forwarded? && h[i].id == h[j].id ==>
      h[j].at >= h[i].at + h[i].interval * 1000
  }

  ghost predicate WellKept(h: seq<Event>) {
    NoRevival(h) && ExchangedOnce(h) && Paced(h)
  }

  /** What is stored after a disconnect comes from a flow that was started after it. */
  lemma StoredAfterDisconnect(h: seq<Event>, i: nat, k: nat) returns (j: nat)
    requires WellKept(h) && i < k < |h| && h[k].Stored? && h[i] == Disconnected(h[k].provider)
    ensures i < j < k && h[j] == Started(h[k].provider, h[k].id)
  {
    assert Open(h, h[k].provider, h[k].id, k);
    j :| OpenSince(h, h[k].provider, h[k].id, j, k);
    assert j != i;
  }

  lemma OpenStays(h: seq<Event>, e: Event, p: Provider, id: Id)
    requires Open(h, p, id, |h|) && e != Disconnected(p)
    ensures Open(h + [e], p, id, |h| + 1)
  {
    var j :| OpenSince(h, p, id, j, |h|);
    assert OpenSince(h + [e], p, id, j, |h| + 1);
  }

  lemma KeptMore(h: seq<Event>, e: Event)
    requires WellKept(h)
    requires e.Stored? ==> Open(h, e.provider, e.id, |h|)
    requires e.Exchanged? ==> e !in h
    requires e.Forwarded? ==> forall f :: f in h && f.Forwarded? && f.id == e.id ==> e.at >= f.at + f.interval * 1000
    ensures WellKept(h + [e])
  {
    var all := h + [e];
    forall k | 0 <= k < |all| && all[k].Stored?
      ensures Open(all, all[k].provider, all[k].id, k)
    {
      assert k < |h| ==> all[k] == h[k];
      var j :| OpenSince(h, all[k].provider, all[k].id, j, k);
      assert OpenSince(all, all[k].provider, all[k].id, j, k);
    }
    forall i, j | 0 <= i < j < |all|
      ensures all[i].Exchanged? ==> all[i] != all[j]
      ensures all[i].Forwarded? && all[j].Forwarded? && all[i].id == all[j].id ==>
                all[j].at >= all[i].at + all[i].interval * 1000
    {
      assert all[i] == h[i] && h[i] in h;
      assert j < |h| ==> all[j] == h[j];
    }
  }

  class Accounts {
    var githubFlows: seq<Flow<DevicePolling>>
    var linearFlows: seq<Flow<Redirect>>
    /** The providers with a credential that a flow stored. */
    var connected: set<Provider>
    /** A Linear app's own credential is stored. It has its own entry, and no flow. */
    var linearApp: bool
    ghost var history: seq<Event>
    /** Every flow id and state handed out. */
    ghost var issued: set<Id>

    /** The event names no flow. */
    predicate Flowless(e: Event) {
      e.Disconnected? || e.AppStored?
    }

    ghost predicate Valid()
      reads this
    {
      && Distinct(githubFlows) && Distinct(linearFlows)
      && |githubFlows| <= MAX_PENDING_FLOWS && |linearFlows| <= MAX_PENDING_FLOWS
      && WellKept(history)
      && (forall f :: f in githubFlows ==>
            f.id in issued && Open(history, Github, f.id, |history|) && OnPace(history, f))
      && (forall f :: f in linearFlows ==>
            f.id in issued && Open(history, Linear, f.id, |history|) && Exchanged(f.id) !in history)
      && (forall e :: e in history && !Flowless(e) ==> e.id in issued)
    }

    constructor ()
      ensures Valid()
    {
      githubFlows, linearFlows, connected, linearApp, history, issued := [], [], {}, false, [], {};
    }

    method Record(e: Event)
      requires Valid()
      requires e.Stored? ==> Open(history, e.provider, e.id, |history|)
      requires e.Exchanged? ==> e !in history && !Has(linearFlows, e.id)
      requires e.Forwarded? ==>
                 forall f :: f in history && f.Forwarded? && f.id == e.id ==> e.at >= f.at + f.interval * 1000
      requires e.Forwarded? ==>
                 forall f :: f in githubFlows && f.id == e.id ==> f.body.nextPollAt >= e.at + e.interval * 1000
      requires e == Disconnected(Github) ==> githubFlows == []
      requires e == Disconnected(Linear) ==> linearFlows == []
      requires !Flowless(e) ==> e.id in issued
      modifies `history
      ensures Valid() && history == old(history) + [e]
    {
      KeptMore(history, e);
      forall f | f in githubFlows
        ensures Open(history + [e], Github, f.id, |history| + 1) && OnPace(history + [e], f)
      {
        OpenStays(history, e, Github, f.id);
      }
      forall f | f in linearFlows
        ensures Open(history + [e], Linear, f.id, |history| + 1)
      {
        OpenStays(history, e, Linear, f.id);
      }
      history := history + [e];
    }

    /** A device sign-in begins. Its id is random, so it was never handed out before. */
    method StartGithub(clientId: Option<string>, reply: DeviceCode, now: int, id: Id)
      returns (result: Result)
      requires Valid() && id !in issued
      modifies `githubFlows, `history, `issued
      ensures Valid()
      ensures result == if clientId.None? then Unconfigured else if reply.CodeRejected? then ProviderRejected
                        else if reply.CodeUnavailable? then Unavailable else Ok
      ensures result != Ok ==> githubFlows == old(githubFlows) && history == old(history)
      ensures result == Ok ==>
                && history == old(history) + [Started(Github, id)]
                && var interval := Clamp(if reply.interval.Some? then reply.interval.value else 5);
                   exists kept ::
                     && KeepsNewest(old(githubFlows), now, kept)
                     && githubFlows == kept + [Flow(id, now + 1000 * reply.expiresIn, DevicePolling(interval, now))]
    {
      hide WellKept, Newest, KeepsNewest;
      if clientId.None? { return Unconfigured; }
      if reply.CodeRejected? { return ProviderRejected; }
      if reply.CodeUnavailable? { return Unavailable; }
      var kept := Prune(githubFlows, now);
      PruneKeeps(githubFlows, now, kept);
      githubFlows := kept;
      issued := issued + {id};
      Record(Started(Github, id));
      assert OpenSince(history, Github, id, |history| - 1, |history|);
      var interval := Clamp(if reply.interval.Some? then reply.interval.value else 5);
      Admit(Flow(id, now + reply.expiresIn * 1000, DevicePolling(interval, now)));
      result := Ok;
    }

    method Admit(flow: Flow<DevicePolling>)
      requires Valid() && |githubFlows| < MAX_PENDING_FLOWS && 1 <= flow.body.interval <= 600
      requires flow.id in issued && Open(history, Github, flow.id, |history|)
      requires forall f :: f in githubFlows ==> f.id != flow.id
      requires forall e :: e in history && e.Forwarded? ==> e.id != flow.id
      modifies `githubFlows
      ensures Valid() && githubFlows == old(githubFlows) + [flow]
    {
      githubFlows := githubFlows + [flow];
    }

    /** A poll. GitHub hears of it only when it is due; a grant is stored once, by a flow that is still
        pending. */
    method PollGithub(id: Id, polled: int, reply: DeviceReply, guarded: bool) returns (result: Result)
      requires Valid()
      modifies `githubFlows, `history, `connected
      ensures Valid()
      ensures !Has(old(githubFlows), id) ==>
                result == UnknownFlow && history == old(history) && githubFlows == old(githubFlows)
      ensures Has(old(githubFlows), id) ==>
                var k := Find(old(githubFlows), id).value;
                var flow := old(githubFlows)[k];
                var interval := NextInterval(flow.body.interval, reply);
                if flow.expiresAt <= polled then
                  && result == Expired && history == old(history)
                  && githubFlows == old(githubFlows)[..k] + old(githubFlows)[k + 1..]
                else if polled < flow.body.nextPollAt then
                  result == Pending(flow.body.interval) && history == old(history) && githubFlows == old(githubFlows)
                else
                  && Tells(result, reply, interval, guarded)
                  && (reply.SlowDown? || interval == flow.body.interval)
                  && Moves(old(githubFlows), githubFlows, k, polled, interval, reply)
                  && history == old(history) + [Forwarded(id, polled, interval)]
                                + (if result == Ok then [Stored(Github, id)] else [])
      ensures connected == if result == Ok then old(connected) + {Github} else old(connected)
    {
      hide WellKept, Open, Distinct;
      var found := Find(githubFlows, id);
      if found.None? { return UnknownFlow; }
      var k := found.value;
      var flow := githubFlows[k];
      assert OnPace(history, flow) && 1 <= flow.body.interval <= 600;
      hide OnPace;
      if flow.expiresAt <= polled {
        Drop(k);
        return Expired;
      }
      if polled < flow.body.nextPollAt { return Pending(flow.body.interval); }
      result := Forward(k, polled, reply, guarded);
    }

    /** A poll that is due goes out. */
    method Forward(k: nat, polled: int, reply: DeviceReply, guarded: bool) returns (result: Result)
      requires Valid() && k < |githubFlows| && polled >= githubFlows[k].body.nextPollAt
      requires 1 <= githubFlows[k].body.interval <= 600
      modifies `githubFlows, `history, `connected
      ensures Valid()
      ensures var flow := old(githubFlows)[k];
              var interval := NextInterval(flow.body.interval, reply);
              && Tells(result, reply, interval, guarded)
              && Moves(old(githubFlows), githubFlows, k, polled, interval, reply)
              && history == old(history) + [Forwarded(flow.id, polled, interval)]
                            + (if result == Ok then [Stored(Github, flow.id)] else [])
      ensures connected == if result == Ok then old(connected) + {Github} else old(connected)
    {
      hide WellKept, Open, Distinct, OnPace, Tells;
      var interval := NextInterval(githubFlows[k].body.interval, reply);
      Reschedule(k, polled, interval);
      ghost var again := githubFlows;
      result := Conclude(k, interval, reply, guarded);
      assert Without(again, k) == Without(old(githubFlows), k);
    }

    /** What GitHub said to a poll that went out. */
    method Conclude(k: nat, interval: nat, reply: DeviceReply, guarded: bool) returns (result: Result)
      requires Valid() && k < |githubFlows|
      modifies `githubFlows, `history, `connected
      ensures Valid()
      ensures Tells(result, reply, interval, guarded)
      ensures githubFlows == if Final(reply) then Without(old(githubFlows), k) else old(githubFlows)
      ensures history == old(history) + (if result == Ok then [Stored(Github, old(githubFlows)[k].id)] else [])
      ensures connected == if result == Ok then old(connected) + {Github} else old(connected)
    {
      hide WellKept, Open, Distinct, OnPace;
      var id := githubFlows[k].id;
      match reply {
        case NoAnswer => result := Unavailable;
        case AuthorizationPending => result := Pending(interval);
        case SlowDown(_) => result := Pending(interval);
        case ExpiredToken => Drop(k); result := Expired;
        case AccessDenied => Drop(k); result := Denied;
        case OtherError => Drop(k); result := ProviderRejected;
        case Granted =>
          Drop(k);
          if !guarded { return CalledOff; }
          Record(Stored(Github, id));
          connected := connected + {Github};
          result := Ok;
      }
    }

    /** A code exchange begins: the owner is sent to Linear with a state no one has seen before. */
    method StartLinear(configured: Option<Redirect>, now: int, state: Id) returns (result: Result)
      requires Valid() && state !in issued
      modifies `linearFlows, `history, `issued
      ensures Valid() && (result == Ok <==> configured.Some?)
      ensures result != Ok ==> linearFlows == old(linearFlows) && history == old(history)
      ensures result == Ok ==>
                && history == old(history) + [Started(Linear, state)]
                && exists kept ::
                     && KeepsNewest(old(linearFlows), now, kept)
                     && linearFlows == kept + [Flow(state, now + 600000, configured.value)]
    {
      hide WellKept, Newest, KeepsNewest, OnPace;
      if configured.None? { return Unconfigured; }
      var kept := Prune(linearFlows, now);
      PruneKeeps(linearFlows, now, kept);
      linearFlows := kept;
      issued := issued + {state};
      Record(Started(Linear, state));
      assert OpenSince(history, Linear, state, |history| - 1, |history|);
      AdmitLinear(Flow(state, now + LINEAR_FLOW_TTL_MS, configured.value));
      result := Ok;
    }

    method AdmitLinear(flow: Flow<Redirect>)
      requires Valid() && |linearFlows| < MAX_PENDING_FLOWS && Exchanged(flow.id) !in history
      requires flow.id in issued && Open(history, Linear, flow.id, |history|)
      requires forall f :: f in linearFlows ==> f.id != flow.id
      modifies `linearFlows
      ensures Valid() && linearFlows == old(linearFlows) + [flow]
    {
      linearFlows := linearFlows + [flow];
    }

    /** The redirect comes back. The state is used up before anything else, so a replay finds nothing. */
    method CompleteLinear(state: Id, now: int, configured: Option<Redirect>, accepted: bool, guarded: bool)
      returns (result: Result)
      requires Valid()
      modifies `linearFlows, `history, `connected
      ensures Valid() && !Has(linearFlows, state)
      ensures !Has(old(linearFlows), state) ==>
                result == UnknownFlow && history == old(history) && linearFlows == old(linearFlows)
      ensures Has(old(linearFlows), state) ==>
                var k := Find(old(linearFlows), state).value;
                var flow := old(linearFlows)[k];
                && linearFlows == old(linearFlows)[..k] + old(linearFlows)[k + 1..]
                && if flow.expiresAt <= now then result == Expired && history == old(history)
                   else if configured != Some(flow.body) then result == UnknownFlow && history == old(history)
                   else
                     && result == (if !accepted then ProviderRejected else if guarded then Ok else CalledOff)
                     && history == old(history) + [Exchanged(state)]
                                   + (if result == Ok then [Stored(Linear, state)] else [])
      ensures connected == if result == Ok then old(connected) + {Linear} else old(connected)
    {
      hide WellKept, Open, OnPace, Distinct;
      var found := Find(linearFlows, state);
      if found.None? { return UnknownFlow; }
      var flow := linearFlows[found.value];
      DropLinear(found.value);
      if flow.expiresAt <= now { return Expired; }
      if configured != Some(flow.body) { return UnknownFlow; }
      assert Open(history, Linear, state, |history|);
      OpenStays(history, Exchanged(state), Linear, state);
      Record(Exchanged(state));
      result := if !accepted then ProviderRejected else if guarded then Ok else CalledOff;
      if result == Ok {
        Record(Stored(Linear, state));
        connected := connected + {Linear};
      }
    }

    /** The owner's own Linear app: its credential is asked for and stored in one operation. */
    method ConnectLinearApp(accepted: bool, guarded: bool) returns (result: Result)
      requires Valid()
      modifies `linearApp, `history
      ensures Valid() && result == if !accepted then ProviderRejected else if guarded then Ok else CalledOff
      ensures history == old(history) + (if result == Ok then [AppStored] else [])
      ensures linearApp == (result == Ok || old(linearApp))
    {
      if !accepted { return ProviderRejected; }
      if !guarded { return CalledOff; }
      Record(AppStored);
      linearApp := true;
      result := Ok;
    }

    /** Every pending flow of the provider is forgotten, even when the guard then calls the rest off. */
    method Disconnect(p: Provider, guarded: bool) returns (result: Result)
      requires Valid()
      modifies `githubFlows, `linearFlows, `history, `connected, `linearApp
      ensures Valid() && history == old(history) + [Disconnected(p)]
      ensures p == Github ==> githubFlows == [] && linearFlows == old(linearFlows)
      ensures p == Linear ==> linearFlows == [] && githubFlows == old(githubFlows)
      ensures connected == if guarded then old(connected) - {p} else old(connected)
      ensures linearApp == if guarded && p == Linear then false else old(linearApp)
      ensures result == if guarded then Ok else CalledOff
    {
      if p == Github { githubFlows := []; } else { linearFlows := []; }
      Record(Disconnected(p));
      if !guarded { return CalledOff; }
      connected := connected - {p};
      if p == Linear { linearApp := false; }
      result := Ok;
    }

    method DropLinear(k: nat)
      requires Valid() && k < |linearFlows|
      modifies `linearFlows
      ensures Valid() && linearFlows == Without(old(linearFlows), k)
      ensures !Has(linearFlows, old(linearFlows)[k].id)
    {
      linearFlows := Without(linearFlows, k);
    }

    /** The flow's entry is removed. */
    method Drop(k: nat)
      requires Valid() && k < |githubFlows|
      modifies `githubFlows
      ensures Valid() && githubFlows == Without(old(githubFlows), k)
      ensures !Has(githubFlows, old(githubFlows)[k].id)
    {
      githubFlows := githubFlows[..k] + githubFlows[k + 1..];
    }

    /** The poll goes out, and the next is due after the interval as GitHub last set it. */
    method Reschedule(k: nat, polled: int, interval: nat)
      requires Valid() && k < |githubFlows| && polled >= githubFlows[k].body.nextPollAt && 1 <= interval <= 600
      modifies `githubFlows, `history
      ensures Valid() && history == old(history) + [Forwarded(old(githubFlows)[k].id, polled, interval)]
      ensures githubFlows == old(githubFlows)[k := Rescheduled(old(githubFlows)[k], polled, interval)]
    {
      var flow := githubFlows[k];
      githubFlows := githubFlows[k := Rescheduled(flow, polled, interval)];
      Record(Forwarded(flow.id, polled, interval));
    }
  }

  lemma PruneKeeps<T(!new)>(flows: seq<Flow<T>>, now: int, kept: seq<Flow<T>>)
    requires Distinct(flows)
    requires kept == Newest(flows, now)
    ensures Distinct(kept) && |kept| < MAX_PENDING_FLOWS
    ensures forall f :: f in kept ==> f in flows && f.expiresAt > now
  {
    LiveIsDistinct(flows, now);
    assert forall f :: f in kept ==> f in Live(flows, now);
  }

  /** The flow's next poll is due no earlier than the interval after its last one. */
  ghost predicate OnPace(h: seq<Event>, f: Flow<DevicePolling>) {
    && 1 <= f.body.interval <= 600
    && forall e :: e in h && e.Forwarded? && e.id == f.id ==> f.body.nextPollAt >= e.at + e.interval * 1000
  }
}

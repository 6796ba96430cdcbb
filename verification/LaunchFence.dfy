/** The room launch handshake: a stop that is confirmed is final, and a revoked launch that cleans up after
    itself never takes a newer launch's invite.

    A room launch is reserved, then written through the presence route, which may outlive the caller's
    timeout. A stop revokes every launch reserved in the channel, waits for those the route is still
    running, their cleanup included, and is confirmed only if they all ended. Each method of `Fence` but
    the stop itself runs without an `await`, so calling them in any order is every interleaving. */
module LaunchFence {
  import opened Base

  type CallId = string
  type Destination = nat
  type Ticket = nat
  type Code = nat

  /** An idempotency key: of a room launch's presence write, or of any other activity start. */
  datatype Key = RoomLaunch(call: CallId) | OtherStart(name: string)

  /** One handling of an activity start by the route. */
  datatype Run = Run(key: Key, home: Destination)

  /** A stop that waits: the revoked launches of its channel, the runs of them it waits for, and the
      ticket that the next run got when it began to wait. */
  datatype Wait = Wait(covered: set<CallId>, pending: set<Ticket>, begun: Ticket)

  datatype Invite = Invite(run: Ticket, home: Destination)

  /** A revoked run taking back invites: those it listed, and the one whose deletion is under way. */
  datatype Cleanup = Cleanup(listed: set<Code>, deleting: Option<Code>)

  datatype Outcome = Confirmed | Uncertain | Refused

  function Get<T>(m: map<Destination, set<T>>, d: Destination): set<T> {
    if d in m then m[d] else {}
  }

  /** The receipt of a stop: an invite taken back while an older launch may still run is uncertain. */
  function StopReceipt(watch: Outcome, settled: bool): Outcome {
    if watch == Confirmed && !settled then Uncertain else watch
  }

  class Fence {
    var reserved: map<Destination, set<CallId>>
    var revoked: set<CallId>
    var revokedAt: map<Destination, set<CallId>>
    /** The activity starts the route is handling, each under its own ticket. */
    var running: map<Ticket, Run>
    var tickets: Ticket
    var waits: map<nat, Wait>
    /** The run that registered the channel's current launch. */
    var current: map<Destination, Ticket>
    var invites: map<Code, Invite>
    var codes: Code
    /** Runs with a Discord effect under way: the guard let it through and it has not returned. */
    var effects: set<Ticket>
    var cleanups: map<Ticket, Cleanup>
    /** Launches that a settled stop covered, and the ticket from which on runs came too late for it. */
    ghost var finished: set<(CallId, Ticket)>

    ghost predicate Valid()
      reads this
    {
      Ticketed() && Coded() && Revocations() && Waiting() && Final() && Cleaning()
    }

    ghost predicate Ticketed()
      reads `running, `tickets, `effects, `cleanups, `current
    {
      && (forall t :: t in running ==> t < tickets)
      && (forall t, u :: t in running && u in running && running[t].key == running[u].key ==> t == u)
      && (forall t :: t in effects ==> t in running && t !in cleanups)
      && (forall d :: d in current ==> current[d] < tickets && current[d] !in running)
    }

    ghost predicate Coded()
      reads `invites, `codes, `tickets, `running
    {
      forall c :: c in invites ==>
        && c < codes && invites[c].run < tickets
        && (invites[c].run in running ==> running[invites[c].run].home == invites[c].home)
    }

    ghost predicate Revocations()
      reads `revokedAt, `revoked
    {
      forall d :: d in revokedAt ==> revokedAt[d] <= revoked
    }

    /** A wait misses no run that was there when it began, and no later one gets an effect through. */
    ghost predicate Waiting()
      reads `waits, `revoked, `tickets, `running, `effects
    {
      forall w :: w in waits ==>
        && waits[w].covered <= revoked && waits[w].begun <= tickets
        && forall t :: t in running && running[t].key.RoomLaunch? && running[t].key.call in waits[w].covered ==>
             if t < waits[w].begun then t in waits[w].pending else t !in effects
    }

    /** After a settled stop, whatever still runs of a launch it covered came later, and has no effect. */
    ghost predicate Final()
      reads `finished, `revoked, `tickets, `running, `effects
    {
      forall f :: f in finished ==>
        && f.0 in revoked && f.1 <= tickets
        && forall t :: t in running && running[t].key == RoomLaunch(f.0) ==> t >= f.1 && t !in effects
    }

    ghost predicate Cleaning()
      reads `cleanups, `running, `revoked, `codes, `invites, `current
    {
      forall t :: t in cleanups ==> CleanupFits(t, cleanups[t])
    }

    /** A cleanup is a revoked run's, and an invite whose deletion is under way is stale. */
    ghost predicate CleanupFits(t: Ticket, cleanup: Cleanup)
      reads `running, `revoked, `codes, `invites, `current
    {
      && t in running && !AllowsLaunch(running[t].key)
      && (forall c :: c in cleanup.listed ==> ListedFits(c, running[t].home))
      && (cleanup.deleting.Some? ==> cleanup.deleting.value < codes && !Holds(cleanup.deleting.value))
    }

    ghost predicate ListedFits(c: Code, home: Destination)
      reads `invites, `codes
    {
      c < codes && (c in invites ==> invites[c].home == home)
    }

    /** The invite is that of its channel's current launch, or of a start that may still become it. */
    predicate Holds(c: Code)
      reads `invites, `current, `running, `revoked
    {
      && c in invites
      && var i := invites[c];
         (i.home in current && current[i.home] == i.run) || (i.run in running && AllowsLaunch(running[i.run].key))
    }

    /** What every method keeps, whatever it does: a settled stop stays final, and a run that ended is over. */
    twostate predicate Onward()
      reads this
    {
      && old(finished) <= finished && old(revoked) <= revoked && old(tickets) <= tickets
      && (forall d :: d in old(revokedAt) ==> d in revokedAt && old(revokedAt[d]) <= revokedAt[d])
      && forall t :: t in running && t < old(tickets) ==> t in old(running) && running[t] == old(running)[t]
    }

    constructor ()
      ensures Valid() && revoked == {} && finished == {} && running == map[] && reserved == map[] && tickets == 0
      ensures current == map[] && invites == map[] && waits == map[] && cleanups == map[] && effects == {}
    {
      reserved, revoked, revokedAt := map[], {}, map[];
      running, tickets, waits, current := map[], 0, map[], map[];
      invites, codes, effects, cleanups, finished := map[], 0, {}, map[], {};
    }

    predicate AllowsLaunch(key: Key)
      reads `revoked
    {
      key.RoomLaunch? ==> key.call !in revoked
    }

    /** Something newer than the asking write holds the channel or is about to. */
    predicate HasNewerLaunch(d: Destination, except: Key)
      reads `current, `reserved, `running, `revoked
    {
      || d in current || Get(reserved, d) != {}
      || exists t | t in running ::
           running[t].home == d && running[t].key != except && AllowsLaunch(running[t].key)
    }

    /** The channel of the run has no current launch, no reserved one, and every other start that the route is
        handling there is a revoked room launch. */
    ghost predicate ChannelIsFree(t: Ticket)
      requires t in running
      reads `current, `reserved, `running, `revoked
    {
      && running[t].home !in current && (running[t].home in reserved ==> reserved[running[t].home] == {})
      && forall u :: u in running && running[u].home == running[t].home && running[u].key != running[t].key ==>
           running[u].key.RoomLaunch? && running[u].key.call in revoked
    }

    method ReserveLaunch(call: CallId, d: Destination)
      requires Valid()
      modifies `reserved
      ensures Valid() && Onward()
      ensures reserved == old(reserved)[d := Get(old(reserved), d) + {call}]
    {
      reserved := reserved[d := Get(reserved, d) + {call}];
    }

    /** Every launch reserved here before this is refused from now on. */
    method RevokeLaunches(d: Destination)
      requires Valid()
      modifies `reserved, `revoked, `revokedAt
      ensures Valid() && Onward()
      ensures revoked == old(revoked) + Get(old(reserved), d)
      ensures Get(revokedAt, d) == Get(old(revokedAt), d) + Get(old(reserved), d)
      ensures forall other :: other != d ==> Get(revokedAt, other) == Get(old(revokedAt), other)
      ensures reserved == old(reserved) - {d}
    {
      hide Ticketed, Coded, Revocations, Waiting, Final, Cleaning;
      Revoke(d, Get(reserved, d));
      reserved := reserved - {d};
    }

    method Revoke(d: Destination, stopped: set<CallId>)
      requires Valid()
      modifies `revoked, `revokedAt
      ensures Valid() && Onward() && revoked == old(revoked) + stopped
      ensures revokedAt == old(revokedAt)[d := Get(old(revokedAt), d) + stopped]
    {
      revoked := revoked + stopped;
      revokedAt := revokedAt[d := Get(revokedAt, d) + stopped];
      assert Revocations() by { hide Waiting, Final, Cleaning; }
      assert Waiting() && Final() by { hide Revocations, Cleaning, CleanupFits, Coded; }
      assert Cleaning() by { hide Revocations, Waiting, Final, Coded, ListedFits; }
      hide Revocations, Waiting, Final, Cleaning, CleanupFits;
    }

    /** The route begins to handle a start. Writes with one key are handled one after another. */
    method BeginLaunch(key: Key, d: Destination) returns (t: Ticket)
      requires Valid() && forall u :: u in running ==> running[u].key != key
      modifies `running, `tickets
      ensures Valid() && Onward()
      ensures t == old(tickets) && tickets == t + 1 && running == old(running)[t := Run(key, d)]
    {
      assert tickets !in running;
      t := tickets;
      running, tickets := running[t := Run(key, d)], t + 1;
      assert Ticketed() by { hide Coded, Waiting, Final, Cleaning, Revocations; }
      assert Coded() by { hide Ticketed, Waiting, Final, Cleaning, Revocations; }
      assert Waiting() && Final() by { hide Coded, Cleaning, Revocations; }
      assert Cleaning() by { hide Ticketed, Waiting, Final, Revocations, ListedFits; }
      hide Ticketed, Coded, Revocations, Waiting, Final, Cleaning;
    }

    /** The handling ends without a launch, after its last effect and its cleanup. */
    method EndLaunch(t: Ticket)
      requires Valid() && t in running && t !in effects && t !in cleanups
      modifies `running
      ensures Valid() && Onward() && running == old(running) - {t}
    {
      running := running - {t};
    }

    /** Every effect went through. Unless the launch was revoked meanwhile it is the channel's now, and its
        handling ends at once. */
    method Register(t: Ticket) returns (registered: bool)
      requires Valid() && t in running && t !in effects && t !in cleanups
      modifies `running, `current
      ensures Valid() && Onward()
      ensures registered <==> old(running)[t].key.OtherStart? || old(running)[t].key.call !in revoked
      ensures if registered then running == old(running) - {t} && current == old(current)[old(running)[t].home := t]
              else running == old(running) && current == old(current)
    {
      registered := AllowsLaunch(running[t].key);
      if registered {
        current := current[running[t].home := t];
        running := running - {t};
      }
    }

    /** A stop takes the channel from its current launch. */
    method Retire(d: Destination)
      requires Valid()
      modifies `current
      ensures Valid() && Onward() && current == old(current) - {d}
    {
      current := current - {d};
    }

    /** The guard before every Discord effect of a running start. An effect that it lets through is under
        way until it returns. */
    method GuardEffect(t: Ticket) returns (allowed: bool)
      requires Valid() && t in running && t !in cleanups
      modifies `effects
      ensures Valid() && Onward()
      ensures allowed <==> running[t].key.OtherStart? || running[t].key.call !in revoked
      ensures allowed && running[t].key.RoomLaunch? ==> forall f :: f in finished ==> f.0 != running[t].key.call
      ensures effects == if allowed then old(effects) + {t} else old(effects)
    {
      allowed := AllowsLaunch(running[t].key);
      if allowed { effects := effects + {t}; }
    }

    /** The effect returns; when it was the invite's post, there is a new invite. */
    method EffectReturned(t: Ticket, posted: bool)
      requires Valid() && t in effects
      modifies `effects, `invites, `codes
      ensures Valid() && Onward() && effects == old(effects) - {t}
      ensures invites == if posted then old(invites)[old(codes) := Invite(t, running[t].home)] else old(invites)
    {
      assert t in running;
      if posted { Post(t); }
      hide Coded, Cleaning, Revocations;
      effects := effects - {t};
    }

    method Post(t: Ticket)
      requires Valid() && t in running
      modifies `invites, `codes
      ensures Valid() && Onward() && invites == old(invites)[old(codes) := Invite(t, running[t].home)]
    {
      assert t < tickets;
      hide Ticketed, Waiting, Final, Revocations;
      invites, codes := invites[codes := Invite(t, running[t].home)], codes + 1;
    }

    /** An invite goes for another reason: a stop, a start that replaces it, or its age. */
    method InviteGone(c: Code)
      requires Valid()
      modifies `invites
      ensures Valid() && Onward() && invites == old(invites) - {c}
    {
      invites := invites - {c};
    }

    /** A revoked run undoes what landed, unless something newer is there. */
    method BeginCleanup(t: Ticket) returns (began: bool)
      requires Valid() && t in running && t !in effects && t !in cleanups && !AllowsLaunch(running[t].key)
      modifies `cleanups
      ensures Valid() && Onward()
      ensures began <==> ChannelIsFree(t)
      ensures cleanups == if began then old(cleanups)[t := Cleanup({}, None)] else old(cleanups)
    {
      began := !HasNewerLaunch(running[t].home, running[t].key);
      if began { cleanups := cleanups[t := Cleanup({}, None)]; }
    }

    function InvitesAt(d: Destination): set<Code>
      reads `invites
    {
      set c | c in invites && invites[c].home == d
    }

    /** It lists the invites of its channel. */
    method ListInvites(t: Ticket)
      requires Valid() && t in cleanups && cleanups[t].deleting.None?
      modifies `cleanups
      ensures Valid() && Onward()
      ensures t in cleanups && cleanups == old(cleanups)[t := Cleanup(cleanups[t].listed, None)]
      ensures forall c :: c in cleanups[t].listed <==> c in invites && invites[c].home == running[t].home
    {
      cleanups := cleanups[t := Cleanup(InvitesAt(running[t].home), None)];
    }

    /** While nothing newer holds the channel, none of its invites is one to keep. */
    lemma NothingNewer(t: Ticket, c: Code)
      requires Valid() && t in cleanups && c in cleanups[t].listed
      requires !HasNewerLaunch(running[t].home, running[t].key)
      ensures c < codes && !Holds(c)
    {
      assert CleanupFits(t, cleanups[t]) && ListedFits(c, running[t].home);
      if c in invites && invites[c].run in running && running[invites[c].run].key == running[t].key {
        assert invites[c].run == t;
      }
    }

    /** The guard before each deletion. Once something newer is there, the cleanup is given up. */
    method GuardDelete(t: Ticket, c: Code) returns (allowed: bool)
      requires Valid() && t in cleanups && cleanups[t].deleting.None? && c in cleanups[t].listed
      modifies `cleanups
      ensures Valid() && Onward()
      ensures allowed <==> ChannelIsFree(t)
      ensures cleanups == if allowed then old(cleanups)[t := old(cleanups)[t].(deleting := Some(c))]
                          else old(cleanups) - {t}
    {
      allowed := !HasNewerLaunch(running[t].home, running[t].key);
      if allowed { NothingNewer(t, c); }
      assert CleanupFits(t, cleanups[t]);
      ghost var next := cleanups[t].(deleting := Some(c));
      assert allowed ==> CleanupFits(t, next);
      hide CleanupFits, Holds, HasNewerLaunch;
      cleanups := if allowed then cleanups[t := cleanups[t].(deleting := Some(c))] else cleanups - {t};
    }

    /** The deletion is done, however late. Whatever was launched since the guard looked, no invite of a
        current launch goes, and none of a start that may still become one. */
    method DeleteReturned(t: Ticket)
      requires Valid() && t in cleanups && cleanups[t].deleting.Some?
      modifies `cleanups, `invites
      ensures Valid() && Onward()
      ensures invites == old(invites) - {old(cleanups)[t].deleting.value}
      ensures forall c :: old(Holds(c)) ==> Holds(c)
      ensures cleanups == old(cleanups)[t := old(cleanups)[t].(deleting := None)]
    {
      assert CleanupFits(t, cleanups[t]);
      InviteGone(cleanups[t].deleting.value);
      hide Ticketed, Coded, Cleaning, CleanupFits;
      StopDeleting(t);
    }

    /** No deletion is under way any more. */
    method StopDeleting(t: Ticket)
      requires Valid() && t in cleanups
      modifies `cleanups
      ensures Valid() && Onward() && cleanups == old(cleanups)[t := old(cleanups)[t].(deleting := None)]
    {
      assert CleanupFits(t, cleanups[t]) && CleanupFits(t, cleanups[t].(deleting := None));
      hide CleanupFits;
      cleanups := cleanups[t := cleanups[t].(deleting := None)];
    }

    method EndCleanup(t: Ticket)
      requires Valid() && t in cleanups && cleanups[t].deleting.None?
      modifies `cleanups
      ensures Valid() && Onward() && cleanups == old(cleanups) - {t}
    {
      cleanups := cleanups - {t};
    }

    /** A stop starts to wait for the revoked launches of its channel that the route is running. */
    method SettleRevoked(d: Destination, w: nat)
      requires Valid() && w !in waits
      modifies `waits
      ensures Valid() && Onward()
      ensures w in waits && waits[w].covered == Get(revokedAt, d) <= revoked && waits[w].begun == tickets
      ensures forall t :: t in waits[w].pending <==>
                t in running && running[t].key.RoomLaunch? && running[t].key.call in waits[w].covered
      ensures forall t :: t in waits[w].pending ==> t < tickets
      ensures waits == old(waits)[w := waits[w]]
    {
      var covered := Get(revokedAt, d);
      var pending := set t | t in running && running[t].key.RoomLaunch? && running[t].key.call in covered;
      waits := waits[w := Wait(covered, pending, tickets)];
    }

    /** Either everything waited for has ended, or the timeout came first. */
    method Settled(w: nat, timedOut: bool) returns (settled: bool)
      requires Valid() && w in waits && (timedOut || waits[w].pending !! running.Keys)
      modifies `waits, `finished
      ensures Valid() && Onward()
      ensures settled <==> !timedOut || old(waits)[w].pending == {}
      ensures waits == old(waits) - {w}
      ensures finished == if settled then old(finished) + Pairs(old(waits)[w]) else old(finished)
    {
      settled := !timedOut || waits[w].pending == {};
      if settled {
        finished := finished + Pairs(waits[w]);
      }
      waits := waits - {w};
    }

    static ghost function Pairs(wait: Wait): set<(CallId, Ticket)> {
      set call | call in wait.covered :: (call, wait.begun)
    }

    /** Any other call, except about the waits in `own`. */
    method Step(own: set<nat>)
      requires Valid()
      modifies this
      ensures Valid() && Onward()
      ensures forall w :: w in own && w in old(waits) ==> w in waits && waits[w] == old(waits)[w]
      ensures forall w :: w in own && w !in old(waits) ==> w !in waits
    {
      hide Ticketed, Coded, Revocations, Waiting, Final, Cleaning;
      var choice: int, call: CallId, key: Key, flag: bool := *, *, *, *;
      var d: nat, w: nat, t: nat, c: nat :| 0 <= d && 0 <= w && 0 <= t && 0 <= c;
      if choice == 0 { ReserveLaunch(call, d); }
      else if choice == 1 { RevokeLaunches(d); }
      else if choice == 2 && forall u | u in running :: running[u].key != key { var _ := BeginLaunch(key, d); }
      else if choice == 3 { Retire(d); }
      else if choice == 4 { InviteGone(c); }
      else if choice == 5 && w !in own && w !in waits { SettleRevoked(d, w); }
      else if choice == 6 && w !in own && w in waits && (flag || waits[w].pending !! running.Keys) {
        var _ := Settled(w, flag);
      }
      else if t in running { RunStep(choice, t, c, flag); }
    }

    /** A step of one run. */
    method RunStep(choice: int, t: Ticket, c: Code, flag: bool)
      requires Valid() && t in running
      modifies this
      ensures Valid() && Onward() && waits == old(waits)
    {
      hide Ticketed, Coded, Revocations, Waiting, Final, Cleaning;
      if t in cleanups {
        if cleanups[t].deleting.Some? { DeleteReturned(t); }
        else if choice == 7 { ListInvites(t); }
        else if choice == 8 && c in cleanups[t].listed { var _ := GuardDelete(t, c); }
        else { EndCleanup(t); }
      } else if t in effects { EffectReturned(t, flag); }
      else if choice == 7 { var _ := GuardEffect(t); }
      else if choice == 8 { var _ := Register(t); }
      else if choice == 9 && !AllowsLaunch(running[t].key) { var _ := BeginCleanup(t); }
      else { EndLaunch(t); }
    }

    /** Any other calls, in any number and order, none of them about the waits in `own`. */
    method Meanwhile(own: set<nat>)
      requires Valid()
      modifies this
      ensures Valid() && Onward()
      ensures forall w :: w in own && w in old(waits) ==> w in waits && waits[w] == old(waits)[w]
      ensures forall w :: w in own && w !in old(waits) ==> w !in waits
    {
      hide Ticketed, Coded, Revocations, Waiting, Final, Cleaning;
      var calls: nat :| 0 <= calls;
      while calls > 0
        invariant Valid() && Onward()
        invariant forall w :: w in own && w in old(waits) ==> w in waits && waits[w] == old(waits)[w]
        invariant forall w :: w in own && w !in old(waits) ==> w !in waits
      {
        Step(own);
        calls := calls - 1;
      }
    }

    /** A stop revokes the launches of its channel and starts to wait for them. */
    method BeginStop(d: Destination, w: nat)
      requires Valid() && w !in waits
      modifies this
      ensures Valid() && Onward() && w in waits && waits[w].begun == tickets
      ensures Get(old(reserved), d) <= waits[w].covered <= revoked
      ensures forall t :: t in waits[w].pending <==>
                t in running && running[t].key.RoomLaunch? && running[t].key.call in waits[w].covered
      ensures forall t :: t in waits[w].pending ==> t < tickets
    {
      hide Ticketed, Coded, Revocations, Waiting, Cleaning, Final;
      ghost var before := Get(reserved, d);
      RevokeLaunches(d);
      assert before <= Get(revokedAt, d);
      Meanwhile({w});
      SettleRevoked(d, w);
    }

    /** It waits until all has ended, or its timer fires. */
    method Await(w: nat, impatient: bool) returns (settled: bool, ghost left: set<Ticket>)
      requires Valid() && w in waits
      modifies this
      ensures Valid() && Onward()
      ensures var wait := old(waits)[w];
              && left <= wait.pending && (left == {} ==> wait.pending !! running.Keys)
              && (settled <==> wait.pending == {} || (!impatient && left == {}))
              && (settled ==> Pairs(wait) <= finished)
    {
      hide Ticketed, Coded, Revocations, Waiting, Cleaning, Final;
      Meanwhile({w});
      left := waits[w].pending * running.Keys;
      assert forall t :: t in waits[w].pending && t in running ==> t in left;
      settled := Settled(w, impatient || !(waits[w].pending !! running.Keys));
    }

    /** A room stop: revoke, wait, end the share, take the invite back. `watch` is what became of the invite,
        and `impatient` says that the timer fires before the runs waited for have ended.

        The stop has settled if and only if there was nothing to wait for, or all of it ended in time. A receipt
        is confirmed if and only if the invite was taken back and the stop had settled, and uncertain if it was
        taken back and it had not. Confirmed means of every launch reserved in the channel before the stop that
        none of its runs from before the wait is handled any more, by effect or cleanup, and that no run of it
        ever has an effect again. */
    method StopRoom(d: Destination, w: nat, watch: Outcome, impatient: bool)
      returns (receipt: Outcome, ghost settled: bool, ghost handled: map<Ticket, Run>, ghost wait: Wait,
               ghost left: set<Ticket>)
      requires Valid() && w !in waits
      modifies this
      ensures Valid() && Onward() && old(tickets) <= wait.begun
      ensures Get(old(reserved), d) <= wait.covered <= revoked
      ensures forall t :: t in wait.pending <==>
                t in handled && handled[t].key.RoomLaunch? && handled[t].key.call in wait.covered
      ensures forall t :: t in running && t < wait.begun ==> t in handled && running[t] == handled[t]
      ensures left <= wait.pending && (left == {} ==> wait.pending !! running.Keys)
      ensures settled <==> wait.pending == {} || (!impatient && left == {})
      ensures receipt == Confirmed <==> watch == Confirmed && settled
      ensures watch == Confirmed && !settled ==> receipt == Uncertain
      ensures watch != Confirmed ==> receipt == watch
      ensures settled ==> forall call :: call in Get(old(reserved), d) ==>
                (call, wait.begun) in finished && NothingLeft(call, wait.begun)
    {
      hide Ticketed, Coded, Revocations, Waiting, Cleaning, Final;
      ghost var before := Get(reserved, d);
      BeginStop(d, w);
      wait, handled := waits[w], running;
      assert before <= wait.covered;
      var inTime;
      inTime, left := Await(w, impatient);
      settled := inTime;
      assert settled ==> forall call :: call in before ==> (call, wait.begun) in Pairs(wait);
      assert forall t :: t in running && t < wait.begun ==> t in handled && running[t] == handled[t];
      Meanwhile({});
      receipt := StopReceipt(watch, inTime);
      forall call | settled && call in before
        ensures NothingLeft(call, wait.begun)
      {
        SettledForGood(call, wait.begun);
      }
    }

    /** Of the launch nothing runs that began before, and nothing has an effect under way. */
    ghost predicate NothingLeft(call: CallId, begun: Ticket)
      reads this
    {
      forall t :: t in running && running[t].key == RoomLaunch(call) ==> t >= begun && t !in effects
    }

    lemma SettledForGood(call: CallId, begun: Ticket)
      requires Valid() && (call, begun) in finished
      ensures NothingLeft(call, begun) && call in revoked
    {
    }
  }

  /** A launch is reserved, and a stop revokes it and settles at once. */
  method StoppedLaunch(call: CallId) returns (f: Fence)
    ensures fresh(f) && f.Valid() && (call, 0) in f.finished && call in f.revoked
    ensures f.running == map[] && f.effects == {} && f.cleanups == map[] && f.current == map[] && f.reserved == map[]
  {
    hide Fence.Ticketed, Fence.Coded, Fence.Revocations, Fence.Waiting, Fence.Final, Fence.Cleaning;
    f := new Fence();
    f.ReserveLaunch(call, 0);
    f.RevokeLaunches(0);
    f.SettleRevoked(0, 0);
    ghost var wait := f.waits[0];
    assert (call, 0) in Fence.Pairs(wait);
    var settled := f.Settled(0, false);
    assert f.reserved == map[];
  }

  /** A write that the route takes up only after a stop of its launch had settled still cleans up, if and only
      if nothing else holds its channel or is about to. Until then none of its launch's runs does
      (`Fence.SettledForGood`). */
  method LateCleanup(f: Fence, call: CallId, d: Destination) returns (t: Ticket, began: bool)
    requires f.Valid() && (exists begun :: (call, begun) in f.finished)
    requires forall u :: u in f.running ==> f.running[u].key != RoomLaunch(call)
    modifies f`running, f`tickets, f`cleanups
    ensures f.Valid() && t in f.running && f.running[t] == Run(RoomLaunch(call), d)
    ensures began <==> t in f.cleanups
    ensures began <==>
              && d !in old(f.current) && (d in old(f.reserved) ==> old(f.reserved)[d] == {})
              && forall u :: u in old(f.running) && old(f.running)[u].home == d ==>
                   old(f.running)[u].key.RoomLaunch? && old(f.running)[u].key.call in old(f.revoked)
  {
    ghost var begun :| (call, begun) in f.finished;
    f.SettledForGood(call, begun);
    assert f.tickets !in f.cleanups && f.tickets !in f.effects;
    hide Fence.Ticketed, Fence.Coded, Fence.Revocations, Fence.Waiting, Fence.Final, Fence.Cleaning;
    t := f.BeginLaunch(RoomLaunch(call), d);
    began := f.BeginCleanup(t);
  }

  /** Such a run exists. */
  method SomeLateCleanup(call: CallId) returns (f: Fence, t: Ticket)
    ensures fresh(f) && f.Valid() && t in f.cleanups && f.running[t].key == RoomLaunch(call)
    ensures (call, 0) in f.finished
  {
    hide Fence.Ticketed, Fence.Coded, Fence.Revocations, Fence.Waiting, Fence.Final, Fence.Cleaning;
    f := StoppedLaunch(call);
    var began;
    t, began := LateCleanup(f, call, 0);
  }
}

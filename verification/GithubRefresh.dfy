/** One rotating GitHub credential, shared by callers that refresh it as they use it.

    The store runs every change of the entry under one lock, so a change is one step; between two steps
    of a caller any number of other changes may come (`Meanwhile`). GitHub's answers, the clock and the
    outcome of a write are chosen freely. */
module GithubRefresh {
  import opened Base

  type Token = string

  const REFRESH_SKEW_MS: nat := 300000

  datatype Metadata = Metadata(
    clientId: Option<string>, connectionId: Option<string>, refreshExpiresAt: Option<nat>, refreshRejected: bool)

  datatype Credential =
    | Api(key: Token, metadata: Metadata)
    | Oauth(access: Token, refresh: Token, expires: nat, clientId: Option<string>, metadata: Metadata)
    | OtherKind

  /** GitHub's answer to an exchange. */
  datatype Reply =
    | Unavailable
    | Rejected
    | Renewed(access: Token, expiresIn: Option<nat>, refresh: Option<Token>, refreshExpiresIn: Option<nat>)

  datatype Connection =
    | Connected(token: Token, binding: Option<string>)
    | NotConnected
    | Failed

  // ----- credentials ------------------------------------------------------------------------

  predicate RefreshDead(c: Credential, at: nat)
    requires c.Oauth?
  {
    c.metadata.refreshRejected || (c.metadata.refreshExpiresAt.Some? && c.metadata.refreshExpiresAt.value <= at)
  }

  predicate NeedsRefresh(c: Credential, at: nat) {
    c.Oauth? && c.expires != 0 && c.expires <= at + REFRESH_SKEW_MS && !RefreshDead(c, at)
  }

  predicate Expired(c: Credential, at: nat) {
    c.Oauth? && c.expires != 0 && c.expires <= at
  }

  function TokenOf(c: Credential): Token
    requires !c.OtherKind?
  {
    if c.Api? then c.key else c.access
  }

  function BindingOf(c: Credential): Option<string> {
    if c.Oauth? then c.metadata.connectionId else None
  }

  /** An expiring pair is kept with its refresh token; a token that does not expire, alone. */
  function CredentialFrom(r: Reply, metadata: Metadata, clientId: string, at: nat): (c: Credential)
    requires r.Renewed?
  {
    if r.refresh.None? || r.expiresIn.None? then
      Api(r.access, metadata.(refreshExpiresAt := None, refreshRejected := false))
    else
      Oauth(
        r.access, r.refresh.value, at + r.expiresIn.value * 1000, Some(clientId),
        metadata.(
          refreshExpiresAt := if r.refreshExpiresIn.Some? then Some(at + r.refreshExpiresIn.value * 1000) else None,
          refreshRejected := false))
  }

  function ClientOf(c: Credential): Option<string>
    requires c.Oauth?
  {
    if c.clientId.Some? then c.clientId else c.metadata.clientId
  }

  function Refused(c: Credential): Credential
    requires c.Oauth?
  {
    c.(metadata := c.metadata.(refreshRejected := true))
  }

  // ----- the log ----------------------------------------------------------------------------

  /** What happened to refresh tokens: posted to GitHub, answered for good, and the answer not stored. */
  datatype Event = Sent(token: Token) | Answered(token: Token) | Lost(token: Token)

  /** An answer that was stored is followed by no other post of its token. An answer that was not is known
      as such at once. */
  ghost predicate NeverAgain(log: seq<Event>) {
    forall i, j :: 0 <= i < j < |log| && log[i].Answered? && log[j] == Sent(log[i].token) ==>
      log[i + 1] == Lost(log[i].token)
  }

  /** Some answer to the token was stored. */
  ghost predicate Spent(log: seq<Event>, token: Token) {
    exists i :: 0 <= i < |log| && log[i] == Answered(token) && !(i + 1 < |log| && log[i + 1] == Lost(token))
  }

  /** One post of a token, and what came of it. */
  function Posted(log: seq<Event>, token: Token, reply: Reply, written: bool): seq<Event> {
    log + if reply.Unavailable? then [Sent(token)]
          else if written then [Sent(token), Answered(token)] else [Sent(token), Answered(token), Lost(token)]
  }

  lemma LogMore(log: seq<Event>, e: Event)
    requires NeverAgain(log) && (e.Sent? ==> !Spent(log, e.token))
    ensures NeverAgain(log + [e])
  {
    var all := log + [e];
    forall i, j | 0 <= i < j < |all| && all[i].Answered? && all[j] == Sent(all[i].token)
      ensures all[i + 1] == Lost(all[i].token)
    {
      assert log[i] == all[i];
      if j < |log| {
        assert log[j] == all[j];
      }
    }
  }

  lemma SpentMore(log: seq<Event>, e: Event, token: Token)
    ensures Spent(log + [e], token) ==> Spent(log, token) || e == Answered(token)
  {
    var all := log + [e];
    if Spent(all, token) && e != Answered(token) {
      var i :| 0 <= i < |all| && all[i] == Answered(token) && !(i + 1 < |all| && all[i + 1] == Lost(token));
      assert log[i] == Answered(token);
    }
  }

  /** An answer that was not stored leaves what it found. */
  lemma LostRestores(log: seq<Event>, token: Token, other: Token)
    ensures Spent(log + [Answered(token)] + [Lost(token)], other) ==> Spent(log, other)
  {
    var all := log + [Answered(token)] + [Lost(token)];
    if Spent(all, other) {
      var i :| 0 <= i < |all| && all[i] == Answered(other) && !(i + 1 < |all| && all[i + 1] == Lost(other));
      assert i < |log|;
      assert log[i] == Answered(other);
    }
  }

  /** The token is what grants access: never the refresh token, and with the connection it belongs to. */
  ghost predicate HandsOut(c: Credential, r: Connection) {
    match c
    case Api(key, _) => r == Connected(key, None)
    case Oauth(access, _, _, _, metadata) => r == Connected(access, metadata.connectionId)
    case OtherKind => false
  }

  /** The access has not lapsed. */
  ghost predicate Fresh(c: Credential, at: nat) {
    c.Oauth? ==> c.expires == 0 || at < c.expires
  }

  /** A connection was read off one stored version, at an instant from `since` on. */
  ghost predicate FromOneVersion(versions: seq<Option<Credential>>, since: nat, r: Connection, at: nat) {
    exists v {:trigger versions[v]} ::
      since <= v < |versions| && versions[v].Some? && HandsOut(versions[v].value, r) && Fresh(versions[v].value, at)
  }

  /** The entry was missing, of another kind, or lapsed for good at an instant from `since` on. */
  ghost predicate WasUnusable(versions: seq<Option<Credential>>, since: nat, at: nat) {
    exists v {:trigger versions[v]} ::
      && since <= v < |versions|
      && (versions[v].Some? && !versions[v].value.OtherKind? ==> !Fresh(versions[v].value, at))
  }

  /** The pair is due: it lapses within five minutes, and its refresh token is not known to be dead. */
  ghost predicate Due(stored: Option<Credential>, at: nat) {
    && stored.Some? && stored.value.Oauth? && stored.value.expires != 0 && stored.value.expires <= at + 300000
    && !stored.value.metadata.refreshRejected
    && (stored.value.metadata.refreshExpiresAt.Some? ==> at < stored.value.metadata.refreshExpiresAt.value)
  }

  /** It is due, and there is what it takes to post its refresh token. */
  ghost predicate MustPost(stored: Option<Credential>, at: nat) {
    Due(stored, at) && stored.value.refresh != ""
    && (stored.value.clientId.Some? || stored.value.metadata.clientId.Some?)
  }

  /** The entry is the old one, known to be dead. */
  ghost predicate Rejects(stored: Option<Credential>, latest: Credential) {
    latest.Oauth? && stored == Some(latest.(metadata := latest.metadata.(refreshRejected := true)))
  }

  /** The entry is what GitHub answered at that instant, for the same connection. */
  ghost predicate Renews(stored: Option<Credential>, latest: Credential, reply: Reply, at: nat) {
    && latest.Oauth? && reply.Renewed? && stored.Some?
    && var c := stored.value;
       if reply.refresh.Some? && reply.expiresIn.Some? then
         && c.Oauth? && c.access == reply.access && c.refresh == reply.refresh.value
         && c.expires == at + 1000 * reply.expiresIn.value
         && c.clientId == (if latest.clientId.Some? then latest.clientId else latest.metadata.clientId)
         && c.metadata.clientId == latest.metadata.clientId
         && c.metadata.connectionId == latest.metadata.connectionId && !c.metadata.refreshRejected
         && match reply.refreshExpiresIn {
              case None => c.metadata.refreshExpiresAt == None
              case Some(seconds) => c.metadata.refreshExpiresAt == Some(at + 1000 * seconds)
            }
       else
         && c.Api? && c.key == reply.access && c.metadata.clientId == latest.metadata.clientId
         && c.metadata.connectionId == latest.metadata.connectionId && !c.metadata.refreshRejected
         && c.metadata.refreshExpiresAt == None
  }

  /** What a caller makes of the entry it read. */
  function ReadOff(current: Option<Credential>, at: nat): Connection {
    if current.None? || current.value.OtherKind? || Expired(current.value, at) then NotConnected
    else Connected(TokenOf(current.value), BindingOf(current.value))
  }

  lemma ReadOffFits(versions: seq<Option<Credential>>, since: nat, v: nat, at: nat)
    requires since <= v < |versions|
    ensures var r := ReadOff(versions[v], at);
            && (r.Connected? ==> FromOneVersion(versions, since, r, at))
            && (r.NotConnected? ==> WasUnusable(versions, since, at)) && !r.Failed?
  {
  }

  class Broker {
    var clock: nat
    var stored: Option<Credential>
    /** Every value the entry has had, and what became of refresh tokens. */
    ghost var versions: seq<Option<Credential>>
    ghost var log: seq<Event>
    /** Every refresh token GitHub ever issued; it issues none twice. */
    var issued: set<Token>

    ghost predicate Valid()
      reads this
    {
      Recorded() && Clean(stored)
    }

    ghost predicate Recorded()
      reads this
    {
      && |versions| > 0 && versions[|versions| - 1] == stored && NeverAgain(log)
      && forall e :: e in log ==> e.token in issued
    }

    /** The entry's refresh token was issued, and unless it is known to be dead no answer to it was stored. */
    ghost predicate Clean(c: Option<Credential>)
      reads this
    {
      c.Some? && c.value.Oauth? ==>
        && c.value.refresh in issued
        && (Spent(log, c.value.refresh) ==> c.value.metadata.refreshRejected)
    }

    /** Time goes on, and what has happened stays. */
    twostate predicate Onward()
      reads this
    {
      old(clock) <= clock && old(versions) <= versions && old(log) <= log && old(issued) <= issued
    }

    constructor ()
      ensures Valid() && log == [] && clock == 0 && issued == {}
    {
      clock, stored, versions, log, issued := 0, None, [None], [], {};
    }

    method Wait(pause: nat)
      requires Valid()
      modifies `clock
      ensures Valid() && Onward() && clock == old(clock) + pause
    {
      clock := clock + pause;
    }

    /** The entry gets a value, and that is a new version. */
    method Write(c: Option<Credential>)
      requires Recorded() && Clean(c)
      modifies `stored, `versions
      ensures Valid() && Onward() && stored == c && versions == old(versions) + [c]
    {
      stored, versions := c, versions + [c];
    }

    /** The owner connects: GitHub issues a pair it never issued before, or a token that does not expire. */
    method Connect(c: Credential)
      requires Valid() && (c.Oauth? ==> c.refresh !in issued)
      modifies this
      ensures Valid() && Onward() && stored == Some(c) && clock == old(clock) && log == old(log)
    {
      if c.Oauth? { issued := issued + {c.refresh}; }
      Write(Some(c));
    }

    method Disconnect()
      requires Valid()
      modifies `stored, `versions
      ensures Valid() && Onward() && stored == None
    {
      Write(None);
    }

    method Record(e: Event)
      requires NeverAgain(log) && (e.Sent? ==> !Spent(log, e.token))
      modifies `log
      ensures NeverAgain(log) && log == old(log) + [e]
      ensures forall t :: Spent(log, t) ==> Spent(old(log), t) || e == Answered(t)
    {
      LogMore(log, e);
      forall t
        ensures Spent(log + [e], t) ==> Spent(log, t) || e == Answered(t)
      {
        SpentMore(log, e, t);
      }
      log := log + [e];
    }

    /** The locked transformation. It takes the entry as it is now, posts its refresh token at most once,
        and keeps the lock until the answer is stored. `pause` is how long GitHub took; a write that
        fails leaves the entry as it was and the caller with an error. */
    method Update(reply: Reply, pause: nat, written: bool)
      returns (failed: bool, current: Option<Credential>, unavailable: bool)
      requires Valid() && (reply.Renewed? && reply.refresh.Some? ==> reply.refresh.value !in issued)
      modifies this
      ensures Valid() && Onward()
      ensures !failed ==> current == stored
      ensures !Due(old(stored), old(clock)) ==> stored == old(stored) && !failed && !unavailable
      ensures log == if !MustPost(old(stored), old(clock)) then old(log)
                     else Posted(old(log), old(stored).value.refresh, reply, written)
      ensures clock == if MustPost(old(stored), old(clock)) then old(clock) + pause else old(clock)
      ensures failed <==> MustPost(old(stored), old(clock)) && !reply.Unavailable? && !written
      ensures failed ==> stored == old(stored) && issued == old(issued)
      ensures unavailable <==> MustPost(old(stored), old(clock)) && reply.Unavailable?
      ensures unavailable ==> stored == old(stored)
      ensures Due(old(stored), old(clock)) && !failed && !unavailable ==>
                if MustPost(old(stored), old(clock)) && reply.Renewed?
                then Renews(stored, old(stored).value, reply, old(clock)) else Rejects(stored, old(stored).value)
    {
      failed, current, unavailable := false, stored, false;
      if stored.None? { return; }
      var latest, at := stored.value, clock;
      if !NeedsRefresh(latest, at) { return; }
      var clientId := ClientOf(latest);
      if clientId.None? || latest.refresh == "" {
        Write(Some(Refused(latest)));
        return false, stored, false;
      }
      Record(Sent(latest.refresh));
      clock := clock + pause;
      if reply.Unavailable? { return false, stored, true; }
      failed := Answer(latest, clientId.value, at, reply, written);
      current := if failed then None else stored;
    }

    /** A definitive answer, stored or lost. */
    method Answer(latest: Credential, clientId: string, at: nat, reply: Reply, written: bool) returns (failed: bool)
      requires Valid() && stored == Some(latest) && latest.Oauth? && ClientOf(latest) == Some(clientId)
      requires !reply.Unavailable?
      requires reply.Renewed? && reply.refresh.Some? ==> reply.refresh.value !in issued
      modifies `stored, `versions, `log, `issued
      ensures Valid() && Onward() && failed == !written
      ensures log == old(log) + (if written then [Answered(latest.refresh)]
                                 else [Answered(latest.refresh), Lost(latest.refresh)])
      ensures failed ==> stored == old(stored) && issued == old(issued)
      ensures !failed ==>
                if reply.Rejected? then Rejects(stored, latest) else Renews(stored, latest, reply, at)
    {
      Record(Answered(latest.refresh));
      if !written {
        Record(Lost(latest.refresh));
        LostRestores(old(log), latest.refresh, latest.refresh);
        return true;
      }
      failed := false;
      if reply.Rejected? {
        Write(Some(Refused(latest)));
      } else {
        var renewed := CredentialFrom(reply, latest.metadata, clientId, at);
        if renewed.Oauth? {
          issued := issued + {renewed.refresh};
        }
        Write(Some(renewed));
      }
    }

    /** Any number of changes by others: the owner, other callers' refreshes, and time. */
    method Meanwhile()
      requires Valid()
      modifies this
      ensures Valid() && Onward()
    {
      var steps: nat :| 0 <= steps;
      while steps > 0
        invariant Valid() && Onward()
      {
        var choice: int, c: Credential, reply: Reply, written: bool := *, *, *, *;
        var pause: nat :| 0 <= pause;
        if choice == 0 { Wait(pause); }
        else if choice == 1 && (c.Oauth? ==> c.refresh !in issued) { Connect(c); }
        else if choice == 2 { Disconnect(); }
        else if !(reply.Renewed? && reply.refresh.Some? && reply.refresh.value in issued) {
          var _, _, _ := Update(reply, pause, written);
        }
        steps := steps - 1;
      }
    }

    /** A caller's snapshot of the connection. Token and binding are one stored version's, which the entry
        held at some instant of the call and which has not lapsed; "not connected" and an error are
        warranted by such a version too, or by a write that failed. */
    method GithubConnection(reply: Reply, pause: nat, written: bool) returns (r: Connection, ghost lost: bool)
      requires Valid()
      modifies this
      ensures Valid() && Onward()
      ensures r.Connected? ==> FromOneVersion(versions, |old(versions)| - 1, r, clock)
      ensures r.NotConnected? ==> WasUnusable(versions, |old(versions)| - 1, clock)
      ensures r.Failed? ==> lost || WasUnusable(versions, |old(versions)| - 1, clock)
      ensures lost ==> exists t :: Lost(t) in log
      ensures MustPost(old(stored), old(clock)) && MustPost(old(stored), clock) ==>
                log != old(log) || versions != old(versions)
      ensures MustPost(old(stored), old(clock)) && MustPost(old(stored), clock) && versions == old(versions)
              && reply.Unavailable? && old(stored).value.expires <= old(clock) ==>
                r.Failed?
    {
      hide HandsOut, FromOneVersion, NeverAgain, Spent, Renews, Rejects;
      lost := false;
      ghost var since := |versions| - 1;
      var current := stored;
      ghost var v := |versions| - 1;
      Meanwhile();
      if current.Some? && NeedsRefresh(current.value, clock) {
        Meanwhile();
        var repeated := reply.Renewed? && reply.refresh.Some? && reply.refresh.value in issued;
        var answer := if repeated then Unavailable else reply;
        var failed, unavailable;
        failed, current, unavailable := Update(answer, pause, written);
        if failed {
          assert log[|log| - 1].Lost?;
          return Failed, true;
        }
        v := |versions| - 1;
        Meanwhile();
        if unavailable && current.Some? && current.value.Oauth? && current.value.expires <= clock {
          assert versions[v] == current && !Fresh(current.value, clock);
          assert WasUnusable(versions, since, clock);
          return Failed, false;
        }
      }
      assert versions[v] == current;
      ReadOffFits(versions, since, v, clock);
      r := ReadOff(current, clock);
    }
  }

  /** An answer that is not stored does not take the token out of use: however GitHub answered, the next
      caller posts it again if and only if it has not run out by then. */
  method LostWriteResends(b: Broker, reply: Reply, pause: nat, wait: nat, again: Reply, written: bool)
    requires b.Valid() && MustPost(b.stored, b.clock) && !reply.Unavailable?
    requires reply.Renewed? && reply.refresh.Some? ==> reply.refresh.value !in b.issued
    requires again.Renewed? && again.refresh.Some? ==> again.refresh.value !in b.issued
    modifies b
    ensures b.Valid()
    ensures var latest, at := old(b.stored).value, old(b.clock) + pause + wait;
            var t := latest.refresh;
            var lost := old(b.log) + [Sent(t), Answered(t), Lost(t)];
            if latest.metadata.refreshExpiresAt.Some? && latest.metadata.refreshExpiresAt.value <= at then b.log == lost
            else b.log == Posted(lost, t, again, written)
  {
    hide NeverAgain, Spent;
    ghost var t := b.stored.value.refresh;
    var _, _, _ := b.Update(reply, pause, false);
    assert b.log == old(b.log) + [Sent(t), Answered(t), Lost(t)];
    b.Wait(wait);
    var _, _, _ := b.Update(again, 0, written);
  }

  /** There are such runs: one credential is connected, due at once, and the write after it fails. */
  method SpentTokenPostedAgain() returns (b: Broker)
    ensures fresh(b) && b.Valid()
    ensures exists t, i, j :: 0 <= i < j < |b.log| && b.log[i] == Answered(t) && b.log[j] == Sent(t)
  {
    hide NeverAgain, Spent;
    b := new Broker();
    var t := "refresh";
    b.Connect(Oauth("access", t, 1, Some("app"), Metadata(None, None, None, false)));
    LostWriteResends(b, Rejected, 0, 0, Rejected, true);
    assert b.log[1] == Answered(t) && b.log[3] == Sent(t);
  }
}

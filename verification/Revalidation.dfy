/** The periodic recheck of admitted viewers, interleaved with admissions at every `await`.

    The nested maps are shared by reference: a pass keeps hold of the map it is walking while admissions
    add to it. References are numbers here, and `users` and `grants` the maps they denote. A walk ends
    once everything in the map has been visited, and may visit anything that is in it meanwhile. */
module Revalidation {
  type Room = nat
  type User = nat
  type Grant = nat
  type Ref = nat

  datatype Place =
    | NextRoom
    | Asking(room: Room, list: Ref)
    | NextUser(room: Room, list: Ref, present: set<User>, done: set<User>)
    | NextGrant(room: Room, list: Ref, present: set<User>, done: set<User>, user: User, own: Ref, tried: set<Grant>)
    | Calling(
        room: Room, list: Ref, present: set<User>, done: set<User>, user: User, own: Ref, tried: set<Grant>,
        grant: Grant)

  /** Between passes; reading the bot token; or under way. */
  datatype Pass = Idle | Starting | Running(visited: set<Room>, token: bool, at: Place)

  /** The maps, the timer and the pass; then, for the record, whose each map is and what became of every
      grant: revoked, run out, let go by closing, or forgotten. `due` are the grants the last definitive
      answer of the room being walked says to end, and `called` those it tried to. */
  datatype State = State(
    admitted: map<Room, Ref>, users: map<Ref, map<User, Ref>>, grants: map<Ref, map<Grant, nat>>,
    timer: bool, pass: Pass, clock: nat, roomOf: map<Ref, Room>, homeOf: map<Ref, (Ref, User)>,
    issued: map<Grant, Issue>, revoked: set<Grant>, lapsed: set<Grant>, released: set<Grant>,
    forgotten: set<Grant>, due: set<Grant>, called: set<Grant>)

  datatype Issue = Issue(room: Room, user: User, expiresAt: nat)

  const START := State(map[], map[], map[], false, Idle, 0, map[], map[], map[], {}, {}, {}, {}, {}, {})

  datatype Event =
    | Remember(grant: Grant, issue: Issue, list: Ref, own: Ref)
    | Check
    | TokenRead(found: bool)
    | TokenFailed
    | PickRoom(room: Room)
    | Transient
    | Answer(present: set<User>)
    | PickUser(user: User)
    | PickGrant(grant: Grant)
    | RevokeReturned(ok: bool)
    | UserDone
    | RoomDone
    | PassDone
    | Close
    | Tick(pause: nat)

  predicate At(s: State) {
    s.pass.Running?
  }

  /** The map of the room's users, or a new one. */
  predicate IsList(s: State, room: Room, list: Ref) {
    if room in s.admitted then list == s.admitted[room] else list !in s.users
  }

  predicate IsOwn(s: State, list: Ref, user: User, own: Ref) {
    if user in Users(s, list) then own == s.users[list][user] else own !in s.grants
  }

  function Users(s: State, list: Ref): map<User, Ref> {
    if list in s.users then s.users[list] else map[]
  }

  function Grants(s: State, own: Ref): map<Grant, nat> {
    if own in s.grants then s.grants[own] else map[]
  }

  /** The pass is in the middle of a room. */
  predicate Inside(s: State) {
    At(s) && !s.pass.at.NextRoom?
  }

  /** The room's map that the pass walks is no longer the room's: the service was closed meanwhile. */
  predicate Stray(s: State) {
    Inside(s) && !(s.pass.at.room in s.admitted && s.admitted[s.pass.at.room] == s.pass.at.list)
  }

  /** The grant is where an admission put it: a later pass will come to it. */
  predicate Tracked(s: State, g: Grant) {
    && g in s.issued && s.issued[g].room in s.admitted
    && s.issued[g].user in Users(s, s.admitted[s.issued[g].room])
    && var own := Users(s, s.admitted[s.issued[g].room])[s.issued[g].user];
       g in Grants(s, own) && s.grants[own][g] == s.issued[g].expiresAt
  }

  function TrackedIn(s: State, room: Room): set<Grant> {
    set g | g in s.issued && Tracked(s, g) && s.issued[g].room == room
  }

  // ----- steps ------------------------------------------------------------------------------

  function Unexpired(grants: map<Grant, nat>, clock: nat): (kept: map<Grant, nat>)
    ensures forall g :: g in kept <==> g in grants && grants[g] > clock
    ensures forall g :: g in kept ==> kept[g] == grants[g]
  {
    map g | g in grants && grants[g] > clock :: grants[g]
  }

  /** The grants of the room a walk finds when it comes to it, without those that have expired. */
  function Swept(s: State, list: Ref): map<Ref, map<Grant, nat>> {
    map own | own in s.grants ::
      if own in Users(s, list).Values then Unexpired(s.grants[own], s.clock) else s.grants[own]
  }

  function SweptUsers(s: State, list: Ref): map<User, Ref> {
    var grants := Swept(s, list);
    map user | user in Users(s, list) && Users(s, list)[user] in grants && grants[Users(s, list)[user]] != map[] ::
      Users(s, list)[user]
  }

  function WithAt(s: State, at: Place): State
    requires At(s)
  {
    s.(pass := Running(s.pass.visited, s.pass.token, at))
  }

  /** The rooms that are over, with the one being walked; a map put in its place is still to come. */
  function Seen(s: State): set<Room>
    requires Inside(s)
  {
    if Stray(s) then s.pass.visited else s.pass.visited + {s.pass.at.room}
  }

  /** The walk leaves a room. Whatever is admitted there goes when the map it walked has run empty. */
  function LeaveRoom(s: State): State
    requires Inside(s)
  {
    var room := s.pass.at.room;
    var empty := Users(s, s.pass.at.list) == map[];
    s.(
      pass := Running(if empty then s.pass.visited else Seen(s), s.pass.token, NextRoom),
      admitted := if empty then s.admitted - {room} else s.admitted,
      forgotten := if empty then s.forgotten + TrackedIn(s, room) else s.forgotten)
  }

  /** The walk comes to a room: what has expired goes, and the room with it when nobody is left. */
  function Reach(s: State, room: Room): State
    requires At(s) && room in s.admitted
  {
    var list := s.admitted[room];
    var kept := SweptUsers(s, list);
    s.(
      grants := Swept(s, list),
      users := s.users[list := kept],
      admitted := if kept == map[] then s.admitted - {room} else s.admitted,
      pass := if kept == map[] then Running(s.pass.visited, s.pass.token, NextRoom)
              else if s.pass.token then Running(s.pass.visited, s.pass.token, Asking(room, list))
              else Running(s.pass.visited + {room}, s.pass.token, NextRoom),
      lapsed := s.lapsed + Expiring(s, room))
  }

  function Expiring(s: State, room: Room): set<Grant> {
    set g | g in s.issued && Tracked(s, g) && s.issued[g].room == room && s.issued[g].expiresAt <= s.clock
  }

  function Begin(s: State, present: set<User>): State
    requires At(s) && s.pass.at.Asking?
  {
    var at := s.pass.at;
    var due := set g | g in s.issued && Tracked(s, g) && s.issued[g].room == at.room && s.issued[g].user !in present;
    WithAt(s, NextUser(at.room, at.list, present, {})).(due := due, called := {})
  }

  predicate MayRemember(s: State, grant: Grant, issue: Issue, list: Ref, own: Ref) {
    grant !in s.issued && IsList(s, issue.room, list) && IsOwn(s, list, issue.user, own)
  }

  function Remembered(s: State, grant: Grant, issue: Issue, list: Ref, own: Ref): State {
    s.(
      admitted := s.admitted[issue.room := list],
      users := s.users[list := Users(s, list)[issue.user := own]],
      grants := s.grants[own := Grants(s, own)[grant := issue.expiresAt]],
      timer := true,
      roomOf := s.roomOf[list := issue.room],
      homeOf := s.homeOf[own := (list, issue.user)],
      issued := s.issued[grant := issue])
  }

  predicate MayPickUser(s: State, user: User) {
    At(s) && s.pass.at.NextUser? && user in Users(s, s.pass.at.list) && user !in s.pass.at.done
  }

  /** A viewer who is still there is passed over; the grants of one who is gone are ended. */
  function Visit(s: State, user: User): State
    requires MayPickUser(s, user)
  {
    var at := s.pass.at;
    WithAt(s,
      if user in at.present then NextUser(at.room, at.list, at.present, at.done + {user})
      else NextGrant(at.room, at.list, at.present, at.done, user, s.users[at.list][user], {}))
  }

  function Pick(s: State, grant: Grant): State
    requires At(s) && s.pass.at.NextGrant?
  {
    var at := s.pass.at;
    WithAt(s, Calling(at.room, at.list, at.present, at.done, at.user, at.own, at.tried, grant))
  }

  /** A grant that could not be revoked stays where it is. */
  function Returned(s: State, ok: bool): State
    requires At(s) && s.pass.at.Calling?
  {
    var at := s.pass.at;
    WithAt(s, NextGrant(at.room, at.list, at.present, at.done, at.user, at.own, at.tried + {at.grant})).(
      grants := if ok then s.grants[at.own := Grants(s, at.own) - {at.grant}] else s.grants,
      revoked := if ok then s.revoked + {at.grant} else s.revoked,
      called := s.called + {at.grant})
  }

  predicate MayLeaveUser(s: State) {
    At(s) && s.pass.at.NextGrant? && Grants(s, s.pass.at.own).Keys <= s.pass.at.tried
  }

  /** A viewer without grants goes; one who comes back is a new entry of the map. */
  function LeaveUser(s: State): State
    requires MayLeaveUser(s)
  {
    var at := s.pass.at;
    var empty := Grants(s, at.own) == map[];
    WithAt(s, NextUser(at.room, at.list, at.present, if empty then at.done else at.done + {at.user})).(
      users := if empty then s.users[at.list := Users(s, at.list) - {at.user}] else s.users)
  }

  predicate MayLeaveRoom(s: State) {
    At(s) && s.pass.at.NextUser? && Users(s, s.pass.at.list).Keys <= s.pass.at.done
  }

  /** Everything is let go at once, except what a pass still holds. */
  function Closed(s: State): State {
    s.(
      admitted := map[], timer := false,
      pass := if At(s) then s.pass.(visited := {}) else s.pass,
      released := s.released + set g | g in s.issued && Tracked(s, g))
  }

  predicate Enabled(s: State, e: Event) {
    match e
    case Remember(grant, issue, list, own) => MayRemember(s, grant, issue, list, own)
    case Check => s.timer
    case TokenRead(_) => s.pass.Starting?
    case TokenFailed => s.pass.Starting?
    case PickRoom(room) => At(s) && s.pass.at.NextRoom? && room in s.admitted && room !in s.pass.visited
    case Transient => At(s) && s.pass.at.Asking?
    case Answer(_) => At(s) && s.pass.at.Asking?
    case PickUser(user) => MayPickUser(s, user)
    case PickGrant(grant) =>
      At(s) && s.pass.at.NextGrant? && grant in Grants(s, s.pass.at.own) && grant !in s.pass.at.tried
    case RevokeReturned(_) => At(s) && s.pass.at.Calling?
    case UserDone => MayLeaveUser(s)
    case RoomDone => MayLeaveRoom(s)
    case PassDone => At(s) && s.pass.at.NextRoom? && s.admitted.Keys <= s.pass.visited
    case Close => true
    case Tick(_) => true
  }

  function Apply(s: State, e: Event): State
    requires Enabled(s, e)
  {
    match e
    case Remember(grant, issue, list, own) => Remembered(s, grant, issue, list, own)
    case Check => if s.pass.Idle? then s.(pass := Starting) else s
    case TokenRead(found) => s.(pass := Running({}, found, NextRoom))
    case TokenFailed => s.(pass := Idle)
    case PickRoom(room) => Reach(s, room)
    case Transient => s.(pass := Running(Seen(s), s.pass.token, NextRoom))
    case Answer(present) => Begin(s, present)
    case PickUser(user) => Visit(s, user)
    case PickGrant(grant) => Pick(s, grant)
    case RevokeReturned(ok) => Returned(s, ok)
    case UserDone => LeaveUser(s)
    case RoomDone => LeaveRoom(s)
    case PassDone => s.(pass := Idle, timer := s.timer && s.admitted != map[])
    case Close => Closed(s)
    case Tick(pause) => s.(clock := s.clock + pause)
  }

  // ----- what every step keeps --------------------------------------------------------------

  /** What has become of a grant. */
  ghost predicate AccountedFor(s: State, g: Grant) {
    Tracked(s, g) || g in s.revoked || g in s.lapsed || g in s.released
  }

  ghost predicate Accounted(s: State) {
    && (forall g {:trigger g in s.issued} :: g in s.issued ==> AccountedFor(s, g) || g in s.forgotten)
    && (forall g :: g in s.lapsed ==> g in s.issued && s.issued[g].expiresAt <= s.clock)
    && s.revoked + s.released + s.forgotten <= s.issued.Keys
  }

  /** No map is shared by two rooms or two users, and no map holds a grant that was never given. */
  ghost predicate Apart(s: State) {
    && (forall r :: r in s.admitted ==>
          s.admitted[r] in s.users && s.admitted[r] in s.roomOf && s.roomOf[s.admitted[r]] == r)
    && (forall l, u {:trigger s.users[l][u]} ::
          l in s.users && u in s.users[l] ==>
            s.users[l][u] in s.grants && s.users[l][u] in s.homeOf && s.homeOf[s.users[l][u]] == (l, u))
  }

  ghost predicate Known(s: State) {
    forall own, g {:trigger g in s.grants[own]} :: own in s.grants && g in s.grants[own] ==> g in s.issued
  }

  /** What the pass holds of the room it is in. */
  ghost predicate Holding(s: State) {
    Inside(s) ==>
      var at := s.pass.at;
      && at.list in s.users
      && (at.NextGrant? || at.Calling? ==>
            && at.user in s.users[at.list] && s.users[at.list][at.user] == at.own
            && at.user !in at.present && at.user !in at.done)
      && (at.Calling? ==> at.grant !in at.tried && at.grant in Grants(s, at.own))
  }

  /** The walk has tried to end every grant that was due, of the users it is done with. */
  ghost predicate Diligent(s: State) {
    Inside(s) && !s.pass.at.Asking? && !Stray(s) ==>
      var at := s.pass.at;
      && (at.NextGrant? || at.Calling? ==> at.tried <= s.called)
      && forall g :: g in s.due ==>
           || g in s.called
           || (Tracked(s, g) && s.issued[g].room == at.room && s.issued[g].user !in at.done + at.present)
  }

  ghost predicate Inv(s: State) {
    && Accounted(s) && Apart(s) && Known(s) && Holding(s) && Diligent(s) && (s.admitted != map[] ==> s.timer)
  }

  /** The maps and the record are those of `s`; only the pass, the timer, the clock or the due moved on. */
  predicate SameMaps(s: State, r: State) {
    && r.admitted == s.admitted && r.users == s.users && r.grants == s.grants && r.issued == s.issued
    && r.roomOf == s.roomOf && r.homeOf == s.homeOf && r.revoked == s.revoked && r.lapsed == s.lapsed
    && r.released == s.released && r.forgotten == s.forgotten && r.clock >= s.clock
  }

  lemma SameMapsKeep(s: State, r: State)
    requires SameMaps(s, r) && Accounted(s) && Apart(s) && Known(s)
    ensures Accounted(r) && Apart(r) && Known(r)
    ensures forall g :: Tracked(r, g) <==> Tracked(s, g)
  {
  }

  /** The pass stands where it stood, or is between rooms. */
  lemma QuietKeeps(s: State, r: State)
    requires Inv(s) && SameMaps(s, r) && r.due == s.due && r.called == s.called
    requires r.pass == s.pass || !Inside(r)
    requires r.admitted != map[] ==> r.timer
    ensures Inv(r)
  {
    SameMapsKeep(s, r);
    hide Tracked, Apart, Accounted, Known;
  }

  predicate IsOther(e: Event) {
    e.Check? || e.TokenRead? || e.TokenFailed? || e.Transient? || e.PassDone? || e.Tick?
  }

  lemma OthersStandStill(s: State, e: Event)
    requires IsOther(e) && Enabled(s, e)
    ensures var r := Apply(s, e);
            && SameMaps(s, r) && r.due == s.due && r.called == s.called && (r.pass == s.pass || !Inside(r))
            && ((s.admitted != map[] ==> s.timer) ==> (r.admitted != map[] ==> r.timer))
  {
    hide Remembered, Reach, Begin, Visit, Pick, Returned, LeaveUser, LeaveRoom, Closed, Seen;
    if e.Transient? { assert !Inside(Apply(s, e)); }
    hide Inside;
  }

  lemma OthersKeep(s: State, e: Event)
    requires IsOther(e) && Enabled(s, e) && Inv(s)
    ensures Inv(Apply(s, e))
  {
    OthersStandStill(s, e);
    hide Apply, Enabled, Tracked, Accounted, Apart, Known, Holding, Diligent;
    assert s.admitted != map[] ==> s.timer;
    hide Inv;
    QuietKeeps(s, Apply(s, e));
  }

  lemma PickGrantKeeps(s: State, grant: Grant)
    requires Inv(s) && Enabled(s, PickGrant(grant))
    ensures Inv(Pick(s, grant))
  {
    SameMapsKeep(s, Pick(s, grant));
    hide Tracked, Apart, Accounted, Known;
  }

  lemma PickUserHolding(s: State, user: User)
    requires MayPickUser(s, user) && Holding(s)
    ensures Holding(Visit(s, user)) && Stray(Visit(s, user)) == Stray(s)
  {
  }

  lemma PickUserKeeps(s: State, user: User)
    requires MayPickUser(s, user) && Inv(s)
    ensures Inv(Visit(s, user))
  {
    SameMapsKeep(s, Visit(s, user));
    PickUserHolding(s, user);
    hide Tracked, Apart, Accounted, Known, Holding, Stray;
  }

  lemma AnswerKeeps(s: State, present: set<User>)
    requires At(s) && s.pass.at.Asking? && Inv(s)
    ensures Inv(Begin(s, present))
  {
    SameMapsKeep(s, Begin(s, present));
    hide Tracked, Apart, Accounted, Known;
  }

  // An admission.

  /** An admission takes nothing away, and what it adds is tracked. */
  lemma RememberTracks(s: State, grant: Grant, issue: Issue, list: Ref, own: Ref, g: Grant)
    requires MayRemember(s, grant, issue, list, own) && Apart(s) && (Tracked(s, g) || g == grant)
    ensures Tracked(Remembered(s, grant, issue, list, own), g)
  {
  }

  lemma RememberApart(s: State, grant: Grant, issue: Issue, list: Ref, own: Ref)
    requires MayRemember(s, grant, issue, list, own) && Apart(s)
    ensures Apart(Remembered(s, grant, issue, list, own))
  {
    var r := Remembered(s, grant, issue, list, own);
    forall l, u | l in r.users && u in r.users[l]
      ensures r.users[l][u] in r.grants && r.users[l][u] in r.homeOf && r.homeOf[r.users[l][u]] == (l, u)
    {
      if l != list || u != issue.user {
        assert l in s.users && u in s.users[l] && r.users[l][u] == s.users[l][u];
        assert s.users[l][u] != own;
      }
    }
  }

  lemma RememberAccounted(s: State, grant: Grant, issue: Issue, list: Ref, own: Ref)
    requires MayRemember(s, grant, issue, list, own) && Apart(s) && Accounted(s)
    ensures Accounted(Remembered(s, grant, issue, list, own))
  {
    var r := Remembered(s, grant, issue, list, own);
    forall g | g in r.issued
      ensures AccountedFor(r, g) || g in r.forgotten
    {
      if Tracked(s, g) || g == grant {
        RememberTracks(s, grant, issue, list, own, g);
      }
    }
  }

  lemma RememberHolding(s: State, grant: Grant, issue: Issue, list: Ref, own: Ref)
    requires MayRemember(s, grant, issue, list, own) && Apart(s) && Known(s) && Holding(s)
    ensures Holding(Remembered(s, grant, issue, list, own)) && Known(Remembered(s, grant, issue, list, own))
    ensures Stray(Remembered(s, grant, issue, list, own)) == Stray(s)
  {
  }

  lemma RememberDiligent(s: State, grant: Grant, issue: Issue, list: Ref, own: Ref)
    requires MayRemember(s, grant, issue, list, own) && Apart(s) && Known(s) && Holding(s) && Diligent(s)
    ensures Diligent(Remembered(s, grant, issue, list, own))
  {
    var r := Remembered(s, grant, issue, list, own);
    RememberHolding(s, grant, issue, list, own);
    forall g | Tracked(s, g)
      ensures g != grant && Tracked(r, g)
    {
      RememberTracks(s, grant, issue, list, own, g);
    }
    hide Tracked, Apart, Known, Holding, Stray;
  }

  lemma RememberKeeps(s: State, grant: Grant, issue: Issue, list: Ref, own: Ref)
    requires MayRemember(s, grant, issue, list, own) && Inv(s)
    ensures Inv(Remembered(s, grant, issue, list, own))
  {
    hide Accounted, Apart, Known, Holding, Diligent;
    RememberAccounted(s, grant, issue, list, own);
    RememberApart(s, grant, issue, list, own);
    RememberHolding(s, grant, issue, list, own);
    RememberDiligent(s, grant, issue, list, own);
  }

  // Coming to a room.

  lemma SweptOwn(s: State, list: Ref, l: Ref, u: User)
    requires Apart(s) && l in s.users && u in s.users[l]
    ensures var own := s.users[l][u];
            && own in Swept(s, list)
            && Swept(s, list)[own] == if l == list then Unexpired(s.grants[own], s.clock) else s.grants[own]
  {
    var own := s.users[l][u];
    assert s.homeOf[own] == (l, u);
    if own in Users(s, list).Values {
      var v :| v in Users(s, list) && Users(s, list)[v] == own;
      assert s.homeOf[s.users[list][v]] == (list, v);
    }
  }

  /** Coming to a room drops what has expired there and nothing else. */
  lemma ReachTracks(s: State, room: Room, g: Grant)
    requires At(s) && room in s.admitted && Apart(s) && Tracked(s, g)
    ensures var r := Reach(s, room); Tracked(r, g) || g in r.lapsed
  {
    var list, issue := s.admitted[room], s.issued[g];
    var l := s.admitted[issue.room];
    SweptOwn(s, list, l, issue.user);
    if issue.room == room {
      if issue.expiresAt <= s.clock {
        assert g in Reach(s, room).lapsed;
      } else {
        assert g in Swept(s, list)[s.users[l][issue.user]];
        assert issue.user in SweptUsers(s, list);
        hide Swept, SweptUsers, Apart;
      }
    } else {
      assert l != list by { assert s.roomOf[l] == issue.room && s.roomOf[list] == room; }
      hide Swept, SweptUsers, Apart;
    }
  }

  predicate Fewer(m: map<User, Ref>, n: map<User, Ref>) {
    forall u :: u in m ==> u in n && m[u] == n[u]
  }

  /** Maps stay apart when one loses users and rooms go. */
  lemma FewerApart(s: State, r: State, list: Ref, kept: map<User, Ref>)
    requires Apart(s) && list in s.users && Fewer(kept, s.users[list])
    requires r.users == s.users[list := kept] && r.grants.Keys == s.grants.Keys
    requires r.roomOf == s.roomOf && r.homeOf == s.homeOf
    requires forall room :: room in r.admitted ==> room in s.admitted && r.admitted[room] == s.admitted[room]
    ensures Apart(r)
  {
    forall l, u | l in r.users && u in r.users[l]
      ensures r.users[l][u] in r.grants && r.users[l][u] in r.homeOf && r.homeOf[r.users[l][u]] == (l, u)
    {
      assert l in s.users && u in s.users[l] && r.users[l][u] == s.users[l][u];
    }
  }

  lemma ReachApart(s: State, room: Room)
    requires At(s) && room in s.admitted && Apart(s)
    ensures Apart(Reach(s, room))
  {
    var r, list := Reach(s, room), s.admitted[room];
    assert Fewer(SweptUsers(s, list), s.users[list]) && Swept(s, list).Keys == s.grants.Keys;
    assert Apart(r) by {
      hide Apart, Swept, SweptUsers, Fewer;
      FewerApart(s, r, list, SweptUsers(s, list));
    }
  }

  lemma ReachKnown(s: State, room: Room)
    requires At(s) && room in s.admitted && Known(s)
    ensures Known(Reach(s, room))
  {
    assert Reach(s, room).grants == Swept(s, s.admitted[room]);
    hide SweptUsers;
  }

  lemma ReachAccounted(s: State, room: Room)
    requires At(s) && room in s.admitted && Apart(s) && Accounted(s)
    ensures Accounted(Reach(s, room))
  {
    var r := Reach(s, room);
    forall g | g in r.issued
      ensures AccountedFor(r, g) || g in r.forgotten
    {
      if Tracked(s, g) { ReachTracks(s, room, g); }
    }
    hide Tracked, AccountedFor, Apart, Swept, SweptUsers;
  }

  lemma ReachHolding(s: State, room: Room)
    requires At(s) && s.pass.at.NextRoom? && room in s.admitted
    ensures Holding(Reach(s, room)) && Diligent(Reach(s, room))
  {
    hide Swept, SweptUsers, Expiring, Tracked;
  }

  lemma PickRoomKeeps(s: State, room: Room)
    requires At(s) && s.pass.at.NextRoom? && room in s.admitted && Inv(s)
    ensures Inv(Reach(s, room))
  {
    ReachAccounted(s, room);
    ReachApart(s, room);
    ReachKnown(s, room);
    ReachHolding(s, room);
    hide Accounted, Apart, Known, Holding, Diligent, Swept, SweptUsers;
  }

  // Ending a grant, leaving a user, leaving a room, closing.

  lemma RevokeTracks(s: State, ok: bool, g: Grant)
    requires At(s) && s.pass.at.Calling? && Tracked(s, g)
    ensures Tracked(Returned(s, ok), g) || (ok && g == s.pass.at.grant)
  {
  }

  lemma RevokeHolds(s: State, ok: bool)
    requires At(s) && s.pass.at.Calling? && Apart(s) && Known(s) && Holding(s)
    ensures var r := Returned(s, ok); Apart(r) && Known(r) && Holding(r) && Stray(r) == Stray(s)
  {
    var at, r := s.pass.at, Returned(s, ok);
    assert r.pass.at == NextGrant(at.room, at.list, at.present, at.done, at.user, at.own, at.tried + {at.grant});
    assert r.users == s.users && r.admitted == s.admitted && r.roomOf == s.roomOf && r.homeOf == s.homeOf;
    assert r.grants == if ok then s.grants[at.own := Grants(s, at.own) - {at.grant}] else s.grants;
    hide Returned, Tracked;
  }

  lemma RevokeKeeps(s: State, ok: bool)
    requires At(s) && s.pass.at.Calling? && Inv(s)
    ensures Inv(Returned(s, ok))
  {
    var r := Returned(s, ok);
    forall g | Tracked(s, g)
      ensures Tracked(r, g) || (ok && g == s.pass.at.grant)
    {
      RevokeTracks(s, ok, g);
    }
    RevokeHolds(s, ok);
    assert Accounted(r) by { hide Apart, Holding, Diligent, Stray; }
    hide Tracked, Apart, Known, Holding, Stray, Accounted;
  }

  lemma LeaveUserTracks(s: State, g: Grant)
    requires MayLeaveUser(s) && Apart(s) && Holding(s) && Tracked(s, g)
    ensures Tracked(LeaveUser(s), g)
  {
  }

  lemma LeaveUserApart(s: State)
    requires MayLeaveUser(s) && Apart(s) && Holding(s)
    ensures Apart(LeaveUser(s))
  {
    var r, at := LeaveUser(s), s.pass.at;
    var kept := if Grants(s, at.own) == map[] then Users(s, at.list) - {at.user} else Users(s, at.list);
    assert r.users == s.users[at.list := kept];
    assert Fewer(kept, s.users[at.list]);
    hide Apart, Fewer, Grants, Users, Holding;
    FewerApart(s, r, at.list, kept);
  }

  /** What is due of the user just walked has been tried. */
  lemma LeaveUserDiligent(s: State, g: Grant)
    requires MayLeaveUser(s) && Holding(s) && !Stray(s) && Tracked(s, g)
    requires s.issued[g].room == s.pass.at.room && s.issued[g].user == s.pass.at.user
    ensures g in s.pass.at.tried
  {
  }

  lemma LeaveUserAccounted(s: State)
    requires MayLeaveUser(s) && Apart(s) && Holding(s) && Accounted(s)
    ensures Accounted(LeaveUser(s))
  {
    var r := LeaveUser(s);
    forall g | g in r.issued
      ensures AccountedFor(r, g) || g in r.forgotten
    {
      if Tracked(s, g) { LeaveUserTracks(s, g); }
    }
    hide Tracked, AccountedFor, Apart, Holding;
  }

  lemma LeaveUserHolding(s: State)
    requires MayLeaveUser(s) && Known(s) && Holding(s)
    ensures Known(LeaveUser(s)) && Holding(LeaveUser(s)) && Stray(LeaveUser(s)) == Stray(s)
  {
  }

  lemma LeaveUserKeepsDiligent(s: State)
    requires MayLeaveUser(s) && Apart(s) && Known(s) && Holding(s) && Diligent(s)
    ensures Diligent(LeaveUser(s))
  {
    var r := LeaveUser(s);
    LeaveUserHolding(s);
    if !Stray(s) {
      forall g | Tracked(s, g)
        ensures Tracked(r, g)
        ensures s.issued[g].room == s.pass.at.room && s.issued[g].user == s.pass.at.user ==> g in s.pass.at.tried
      {
        LeaveUserTracks(s, g);
        if s.issued[g].room == s.pass.at.room && s.issued[g].user == s.pass.at.user {
          LeaveUserDiligent(s, g);
        }
      }
    }
    hide Tracked, Apart, Known, Holding, Stray;
  }

  lemma LeaveUserKeeps(s: State)
    requires MayLeaveUser(s) && Inv(s)
    ensures Inv(LeaveUser(s))
  {
    hide Accounted, Apart, Known, Holding, Diligent;
    LeaveUserAccounted(s);
    LeaveUserApart(s);
    LeaveUserHolding(s);
    LeaveUserKeepsDiligent(s);
  }

  /** Leaving a room takes away only what is recorded as forgotten. */
  lemma LeaveRoomTracks(s: State, g: Grant)
    requires Inside(s) && Tracked(s, g)
    ensures Tracked(LeaveRoom(s), g) || g in LeaveRoom(s).forgotten
  {
  }

  lemma LeaveRoomRecord(s: State)
    requires Inside(s)
    ensures var r := LeaveRoom(s);
            && r.issued == s.issued && r.revoked == s.revoked && r.lapsed == s.lapsed && r.released == s.released
            && r.clock == s.clock && s.forgotten <= r.forgotten <= s.forgotten + s.issued.Keys
  {
    assert TrackedIn(s, s.pass.at.room) <= s.issued.Keys;
    hide TrackedIn, Seen, Users, Inside;
  }

  lemma LeaveRoomAccounted(s: State)
    requires Inside(s) && Accounted(s)
    ensures Accounted(LeaveRoom(s))
  {
    var r := LeaveRoom(s);
    forall g | Tracked(s, g)
      ensures Tracked(r, g) || g in r.forgotten
    {
      LeaveRoomTracks(s, g);
    }
    LeaveRoomRecord(s);
    hide Tracked, LeaveRoom;
  }

  lemma LeaveRoomApart(s: State)
    requires Inside(s) && Apart(s) && Known(s)
    ensures Apart(LeaveRoom(s)) && Known(LeaveRoom(s))
  {
    hide Tracked, Stray;
  }

  lemma LeaveRoomKeeps(s: State)
    requires Inside(s) && Inv(s)
    ensures Inv(LeaveRoom(s))
  {
    LeaveRoomAccounted(s);
    LeaveRoomApart(s);
    hide Accounted, Apart, Known, TrackedIn, Stray;
  }

  lemma CloseKeeps(s: State)
    requires Inv(s)
    ensures Inv(Closed(s))
  {
    var r := Closed(s);
    assert Apart(r) && Known(r) && Holding(r) && Diligent(r);
    hide Apart, Known, Holding, Diligent;
    assert Accounted(r);
  }

  lemma StepKeeps(s: State, e: Event)
    requires Enabled(s, e) && Inv(s)
    ensures Inv(Apply(s, e))
  {
    hide Inv, Remembered, Reach, Begin, Visit, Returned, LeaveUser, LeaveRoom, Closed;
    match e
    case Remember(grant, issue, list, own) => RememberKeeps(s, grant, issue, list, own);
    case PickRoom(room) => PickRoomKeeps(s, room);
    case Answer(present) => AnswerKeeps(s, present);
    case PickUser(user) => PickUserKeeps(s, user);
    case PickGrant(grant) => PickGrantKeeps(s, grant);
    case RevokeReturned(ok) => RevokeKeeps(s, ok);
    case UserDone => LeaveUserKeeps(s);
    case RoomDone => LeaveRoomKeeps(s);
    case Close => CloseKeeps(s);
    case _ => OthersKeep(s, e);
  }

  // ----- runs -------------------------------------------------------------------------------

  predicate Possible(s: State, events: seq<Event>)
    decreases |events|
  {
    events != [] ==> Enabled(s, events[0]) && Possible(Apply(s, events[0]), events[1..])
  }

  function After(s: State, events: seq<Event>): State
    requires Possible(s, events)
    decreases |events|
  {
    if events == [] then s else After(Apply(s, events[0]), events[1..])
  }

  lemma {:induction false} EveryRunKeeps(s: State, events: seq<Event>)
    requires Inv(s) && Possible(s, events)
    ensures Inv(After(s, events))
    decreases |events|
  {
    hide Inv, Apply, Enabled;
    if events != [] {
      StepKeeps(s, events[0]);
      EveryRunKeeps(Apply(s, events[0]), events[1..]);
    }
  }

  lemma {:induction false} OneMore(s: State, events: seq<Event>, e: Event)
    requires Possible(s, events) && Enabled(After(s, events), e)
    ensures Possible(s, events + [e]) && After(s, events + [e]) == Apply(After(s, events), e)
    decreases |events|
  {
    hide Enabled, Apply;
    if events == [] {
      assert [] + [e] == [e] && [e][1..] == [];
    } else {
      assert (events + [e])[1..] == events[1..] + [e];
      OneMore(Apply(s, events[0]), events[1..], e);
    }
  }

  lemma OneFirst(s: State, e: Event, events: seq<Event>)
    requires Enabled(s, e) && Possible(Apply(s, e), events)
    ensures Possible(s, [e] + events) && After(s, [e] + events) == After(Apply(s, e), events)
  {
    hide Enabled, Apply;
    assert ([e] + events)[1..] == events;
  }

  // ----- closing ----------------------------------------------------------------------------

  /** Nothing so far keeps the walk from emptying the map it is in: nobody in it was answered to be
      present or is done with, and no call to end a grant of the viewer in turn has failed. */
  predicate Emptiable(s: State) {
    Inside(s) &&
      var at := s.pass.at;
      at.Asking? ||
      (&& Users(s, at.list).Keys !! at.present + at.done
       && (at.NextUser? || Grants(s, at.own).Keys !! at.tried))
  }

  /** No close comes while the walk of a room can still empty the room's map. */
  predicate SafelyClosed(s: State, events: seq<Event>)
    requires Possible(s, events)
    decreases |events|
  {
    events != [] ==>
      && (events[0].Close? ==> !Emptiable(s))
      && SafelyClosed(Apply(s, events[0]), events[1..])
  }

  /** A walk of a room's former map will not empty it. */
  predicate Harmless(s: State) {
    Stray(s) ==> !Emptiable(s)
  }

  predicate NoHarm(s: State, r: State) {
    Harmless(r) && r.forgotten == s.forgotten
  }

  lemma RememberUnharmed(s: State, grant: Grant, issue: Issue, list: Ref, own: Ref)
    requires MayRemember(s, grant, issue, list, own) && Apart(s) && Known(s) && Holding(s) && Harmless(s)
    ensures NoHarm(s, Remembered(s, grant, issue, list, own))
  {
    RememberHolding(s, grant, issue, list, own);
    hide Stray, Apart, Known, Holding;
  }

  lemma VisitUnharmed(s: State, user: User)
    requires MayPickUser(s, user) && Harmless(s)
    ensures NoHarm(s, Visit(s, user))
  {
  }

  lemma ReturnedUnharmed(s: State, ok: bool)
    requires At(s) && s.pass.at.Calling? && Holding(s) && Harmless(s)
    ensures NoHarm(s, Returned(s, ok))
  {
  }

  lemma LeaveUserUnharmed(s: State)
    requires MayLeaveUser(s) && Holding(s) && Harmless(s)
    ensures NoHarm(s, LeaveUser(s))
  {
  }

  /** The map has run empty, so the walk is not stray, and nothing is admitted to the room. */
  lemma LeaveRoomUnharmed(s: State)
    requires MayLeaveRoom(s) && Harmless(s)
    ensures NoHarm(s, LeaveRoom(s))
  {
    if Users(s, s.pass.at.list) == map[] {
      assert !Stray(s);
      assert TrackedIn(s, s.pass.at.room) == {};
    }
  }

  lemma ReachUnharmed(s: State, room: Room)
    requires At(s) && s.pass.at.NextRoom? && room in s.admitted
    ensures NoHarm(s, Reach(s, room))
  {
    hide Swept, SweptUsers, Expiring, Emptiable;
  }

  lemma CloseUnharmed(s: State)
    requires !Emptiable(s)
    ensures NoHarm(s, Closed(s))
  {
  }

  lemma OthersUnharmed(s: State, e: Event)
    requires Enabled(s, e) && Harmless(s) && (IsOther(e) || e.Answer? || e.PickGrant?)
    ensures NoHarm(s, Apply(s, e))
  {
    hide Remembered, Reach, Visit, Returned, LeaveUser, LeaveRoom, Closed;
  }

  /** A stray walk that cannot empty its map any more never can again, and only such a walk goes stray. */
  lemma StepUnharmed(s: State, e: Event)
    requires Enabled(s, e) && Inv(s) && Harmless(s) && (e.Close? ==> !Emptiable(s))
    ensures NoHarm(s, Apply(s, e))
  {
    hide Harmless, NoHarm, Emptiable, Remembered, Reach, Begin, Visit, Returned, LeaveUser, LeaveRoom, Closed;
    hide Accounted, Apart, Known, Holding, Diligent;
    match e
    case Remember(grant, issue, list, own) => RememberUnharmed(s, grant, issue, list, own);
    case PickRoom(room) => ReachUnharmed(s, room);
    case PickUser(user) => VisitUnharmed(s, user);
    case RevokeReturned(ok) => ReturnedUnharmed(s, ok);
    case UserDone => LeaveUserUnharmed(s);
    case RoomDone => LeaveRoomUnharmed(s);
    case Close => CloseUnharmed(s);
    case _ => OthersUnharmed(s, e);
  }

  lemma {:induction false} RunUnharmed(s: State, events: seq<Event>)
    requires Inv(s) && Harmless(s) && Possible(s, events) && SafelyClosed(s, events)
    ensures Inv(After(s, events)) && Harmless(After(s, events)) && After(s, events).forgotten == s.forgotten
    decreases |events|
  {
    hide Inv, Harmless, Apply, Enabled, Emptiable;
    if events != [] {
      StepKeeps(s, events[0]);
      StepUnharmed(s, events[0]);
      RunUnharmed(Apply(s, events[0]), events[1..]);
    }
  }

  /** In every run that is closed only when no walk can still empty the map of the room it is in, and so
      whenever no walk is inside a room, a grant that was given, before closing or after, is tracked for the
      next pass, was revoked, has run out, or was let go by closing; and while any viewer is tracked
      the timer runs. */
  lemma NoGrantIsLost(events: seq<Event>, g: Grant)
    requires Possible(START, events) && SafelyClosed(START, events)
    ensures var s := After(START, events);
            && (g in s.issued ==>
                  || Tracked(s, g) || g in s.revoked || (g in s.lapsed && s.issued[g].expiresAt <= s.clock)
                  || g in s.released)
            && (s.admitted != map[] ==> s.timer)
  {
    assert Inv(START);
    RunUnharmed(START, events);
  }

  // The other way round: what closing in the middle of a room can cost.

  /** A grant of the room's new map, while the walk can still empty the former one. */
  ghost predicate Doomed(s: State, g: Grant) {
    && Stray(s) && Emptiable(s) && Holding(s)
    && g in s.issued && s.issued[g].room == s.pass.at.room
    && g !in s.revoked + s.lapsed + s.released
    && (forall u :: u in Users(s, s.pass.at.list) ==> g !in Grants(s, Users(s, s.pass.at.list)[u]))
  }

  function Stage(s: State): nat {
    if At(s) && s.pass.at.Asking? then 2 else if At(s) && s.pass.at.NextUser? then 1 else 0
  }

  function ToEnd(s: State): nat {
    if At(s) && s.pass.at.NextGrant? then 2 * |Grants(s, s.pass.at.own)| + 1
    else if At(s) && s.pass.at.Calling? then 2 * |Grants(s, s.pass.at.own)|
    else 0
  }

  /** One step nearer to an empty map. */
  predicate Nearer(s: State, r: State)
    requires Inside(s)
  {
    && Inside(r) && r.issued == s.issued && r.clock == s.clock
    && var m, n := |Users(r, r.pass.at.list)|, |Users(s, s.pass.at.list)|;
       m < n || (m == n && (Stage(r) < Stage(s) || (Stage(r) == Stage(s) && ToEnd(r) < ToEnd(s))))
  }

  lemma AskNobody(s: State, g: Grant)
    requires Doomed(s, g) && s.pass.at.Asking?
    ensures Enabled(s, Answer({})) && Doomed(Begin(s, {}), g) && Nearer(s, Begin(s, {}))
  {
    var r, list := Begin(s, {}), s.pass.at.list;
    assert Users(r, list) == Users(s, list);
    assert forall u :: u in Users(s, list) ==> Grants(r, Users(s, list)[u]) == Grants(s, Users(s, list)[u]);
  }

  lemma VisitNext(s: State, g: Grant, user: User)
    requires Doomed(s, g) && MayPickUser(s, user)
    ensures Doomed(Visit(s, user), g) && Nearer(s, Visit(s, user))
  {
  }

  lemma PickNext(s: State, g: Grant, grant: Grant)
    requires Doomed(s, g) && s.pass.at.NextGrant? && grant in Grants(s, s.pass.at.own)
    ensures Enabled(s, PickGrant(grant)) && Doomed(Pick(s, grant), g) && Nearer(s, Pick(s, grant))
  {
  }

  lemma RevokeNext(s: State, g: Grant)
    requires Doomed(s, g) && s.pass.at.Calling?
    ensures Doomed(Returned(s, true), g) && Nearer(s, Returned(s, true))
  {
    var at := s.pass.at;
    assert Grants(s, at.own) == (Grants(s, at.own) - {at.grant})[at.grant := Grants(s, at.own)[at.grant]];
  }

  lemma LeaveNext(s: State, g: Grant)
    requires Doomed(s, g) && s.pass.at.NextGrant? && Grants(s, s.pass.at.own) == map[]
    ensures MayLeaveUser(s) && Doomed(LeaveUser(s), g) && Nearer(s, LeaveUser(s))
  {
    var at := s.pass.at;
    assert Users(s, at.list) == (Users(s, at.list) - {at.user})[at.user := Users(s, at.list)[at.user]];
  }

  /** There is always a next step, until the map is empty. */
  lemma NextStep(s: State, g: Grant) returns (e: Event)
    requires Doomed(s, g) && !(s.pass.at.NextUser? && Users(s, s.pass.at.list) == map[])
    ensures Enabled(s, e) && !e.Close? && Doomed(Apply(s, e), g) && Nearer(s, Apply(s, e))
  {
    var at := s.pass.at;
    if at.Asking? {
      e := Answer({});
      AskNobody(s, g);
    } else if at.NextUser? {
      var user :| user in Users(s, at.list);
      e := PickUser(user);
      VisitNext(s, g, user);
    } else if at.Calling? {
      e := RevokeReturned(true);
      RevokeNext(s, g);
    } else if Grants(s, at.own) == map[] {
      e := UserDone;
      LeaveNext(s, g);
    } else {
      var grant :| grant in Grants(s, at.own);
      e := PickGrant(grant);
      PickNext(s, g, grant);
    }
  }

  /** A grant that nothing will come to again, though it was neither ended nor let go. */
  ghost predicate Lost(s: State, g: Grant) {
    g in s.issued && !AccountedFor(s, g)
  }

  lemma LeaveForgets(s: State, g: Grant)
    requires Doomed(s, g) && s.pass.at.NextUser? && Users(s, s.pass.at.list) == map[]
    ensures MayLeaveRoom(s) && Lost(LeaveRoom(s), g)
  {
  }

  /** Discord answers that nobody is left, every call succeeds, and the walk forgets the room. */
  lemma {:induction false} Drain(s: State, g: Grant) returns (events: seq<Event>)
    requires Doomed(s, g)
    ensures Possible(s, events) && Close !in events
    ensures Lost(After(s, events), g) && After(s, events).issued == s.issued && After(s, events).clock == s.clock
    decreases |Users(s, s.pass.at.list)|, Stage(s), ToEnd(s)
  {
    if s.pass.at.NextUser? && Users(s, s.pass.at.list) == map[] {
      LeaveForgets(s, g);
      events := [RoomDone];
      OneFirst(s, RoomDone, []);
    } else {
      hide Doomed, Lost, Enabled, Apply;
      var e := NextStep(s, g);
      var rest := Drain(Apply(s, e), g);
      OneFirst(s, e, rest);
      events := [e] + rest;
    }
  }

  /** Any admission to the room after such a close can be dropped. */
  lemma ClosingInsideLoses(s: State, grant: Grant, issue: Issue, list: Ref, own: Ref) returns (events: seq<Event>)
    requires Inv(s) && Emptiable(s) && issue.room == s.pass.at.room && MayRemember(Closed(s), grant, issue, list, own)
    ensures Close !in events && Possible(s, [Close] + events)
    ensures events != [] && events[0] == Remember(grant, issue, list, own)
    ensures var r := After(s, [Close] + events); Lost(r, grant) && r.issued[grant] == issue && r.clock == s.clock
  {
    var c, e := Closed(s), Remember(grant, issue, list, own);
    var r := Remembered(c, grant, issue, list, own);
    CloseKeeps(s);
    CloseStrays(s);
    NewlyDoomed(c, grant, issue, list, own);
    assert Enabled(s, Close) && Apply(s, Close) == c && Enabled(c, e) && Apply(c, e) == r;
    hide Inv, Emptiable, Stray, Doomed, Lost, Enabled, Apply, MayRemember, Remembered, Closed;
    var rest := Drain(r, grant);
    OneFirst(c, e, rest);
    events := [e] + rest;
    OneFirst(s, Close, events);
  }

  lemma CloseStrays(s: State)
    requires Emptiable(s)
    ensures Stray(Closed(s)) && Emptiable(Closed(s))
    ensures Closed(s).clock == s.clock && Closed(s).admitted == map[] && Closed(s).pass.at == s.pass.at
  {
  }

  lemma NewlyDoomed(c: State, grant: Grant, issue: Issue, list: Ref, own: Ref)
    requires Inv(c) && Stray(c) && Emptiable(c) && c.admitted == map[]
    requires issue.room == c.pass.at.room && MayRemember(c, grant, issue, list, own)
    ensures var r := Remembered(c, grant, issue, list, own);
            Doomed(r, grant) && r.issued[grant] == issue && r.clock == c.clock
  {
    RememberHolding(c, grant, issue, list, own);
    hide Diligent, Stray, Holding;
  }

  /** A grant that was given after the close at `s`, no other close following, is lost in the end. */
  ghost predicate Forgets(s: State, events: seq<Event>, g: Grant) {
    && g !in s.issued && Close !in events
    && Possible(s, [Close] + events) && Lost(After(s, [Close] + events), g)
  }

  lemma {:induction false} NoMoreClosing(s: State, events: seq<Event>)
    requires Possible(s, events) && Close !in events
    ensures SafelyClosed(s, events)
    decreases |events|
  {
    hide Apply, Enabled, Emptiable;
    if events != [] { NoMoreClosing(Apply(s, events[0]), events[1..]); }
  }

  lemma {:induction false} Fresh(taken: set<nat>) returns (n: nat)
    ensures forall k :: k in taken ==> k < n
  {
    if taken == {} {
      n := 0;
    } else {
      var k :| k in taken;
      var m := Fresh(taken - {k});
      n := if m <= k then k + 1 else m;
      forall j | j in taken
        ensures j < n
      {
        if j != k { assert j in taken - {k}; }
      }
    }
  }

  /** In any state, closing can cost a later viewer the grant if and only if the walk of a room is then
      under way and can still empty the room's map. */
  lemma ClosingForgetsExactly(s: State)
    requires Inv(s)
    ensures Emptiable(s) <==> exists events, g :: Forgets(s, events, g)
  {
    if Emptiable(s) {
      var grant := Fresh(s.issued.Keys);
      var list := Fresh(s.users.Keys);
      var own := Fresh(s.grants.Keys);
      assert grant !in s.issued.Keys && list !in s.users.Keys && own !in s.grants.Keys;
      var issue := Issue(s.pass.at.room, 0, s.clock + 1);
      var events := ClosingInsideLoses(s, grant, issue, list, own);
      assert Forgets(s, events, grant);
    } else {
      forall events, g | Forgets(s, events, g)
        ensures false
      {
        ClosingKeeps(s, events);
        hide Inv, Emptiable;
        assert Accounted(After(s, [Close] + events));
      }
    }
  }

  lemma ClosingKeeps(s: State, events: seq<Event>)
    requires Inv(s) && !Emptiable(s) && Close !in events && Possible(s, [Close] + events)
    ensures Inv(After(s, [Close] + events)) && After(s, [Close] + events).forgotten <= s.issued.Keys
  {
    var c := Closed(s);
    CloseKeeps(s);
    CloseUnharmed(s);
    assert s.forgotten <= s.issued.Keys && c.forgotten == s.forgotten;
    assert Enabled(s, Close) && Apply(s, Close) == c && ([Close] + events)[1..] == events;
    hide Inv, Apply, Enabled, Emptiable, Harmless, Closed;
    OneFirst(s, Close, events);
    NoMoreClosing(c, events);
    RunUnharmed(c, events);
  }

  /** Only closing lets a grant go: what is given afterwards is never let go. */
  lemma {:induction false} LetGoByClosing(s: State, events: seq<Event>)
    requires Possible(s, events) && Close !in events
    ensures After(s, events).released == s.released
    decreases |events|
  {
    if events != [] {
      KeepsReleased(s, events[0]);
      hide Apply, Enabled;
      LetGoByClosing(Apply(s, events[0]), events[1..]);
    }
  }

  lemma KeepsReleased(s: State, e: Event)
    requires Enabled(s, e) && !e.Close?
    ensures Apply(s, e).released == s.released
  {
    if e.PickUser? || e.RevokeReturned? || e.UserDone? || e.RoomDone? {
      WalkKeepsReleased(s, e);
    } else {
      hide Swept, SweptUsers, Expiring, Users, Grants, Seen, Visit, Returned, LeaveUser, LeaveRoom, Closed;
    }
  }

  lemma WalkKeepsReleased(s: State, e: Event)
    requires Enabled(s, e) && (e.PickUser? || e.RevokeReturned? || e.UserDone? || e.RoomDone?)
    ensures Apply(s, e).released == s.released
  {
    hide Visit, Returned, LeaveUser, LeaveRoom;
    match e
    case PickUser(user) => VisitKeepsReleased(s, user);
    case RevokeReturned(ok) => ReturnedKeepsReleased(s, ok);
    case UserDone => LeaveUserKeepsReleased(s);
    case _ => LeaveRoomKeepsReleased(s);
  }

  lemma VisitKeepsReleased(s: State, user: User)
    requires MayPickUser(s, user)
    ensures Visit(s, user).released == s.released
  {
  }

  lemma ReturnedKeepsReleased(s: State, ok: bool)
    requires At(s) && s.pass.at.Calling?
    ensures Returned(s, ok).released == s.released
  {
  }

  lemma LeaveUserKeepsReleased(s: State)
    requires MayLeaveUser(s)
    ensures LeaveUser(s).released == s.released
  {
  }

  lemma LeaveRoomKeepsReleased(s: State)
    requires Inside(s)
    ensures LeaveRoom(s).released == s.released
  {
    hide TrackedIn, Seen;
  }

  // ----- outages and answers ----------------------------------------------------------------

  /** Between passes, between rooms, or waiting for Discord. */
  predicate Waiting(s: State) {
    !Inside(s) || s.pass.at.Asking?
  }

  lemma OutageStep(s: State, e: Event, g: Grant)
    requires Enabled(s, e) && !e.Answer? && !e.Close? && Inv(s) && Waiting(s) && (Tracked(s, g) || g in s.lapsed)
    ensures var r := Apply(s, e); Waiting(r) && (Tracked(r, g) || g in r.lapsed)
  {
    hide Accounted, Known, Diligent;
    match e
    case Remember(grant, issue, list, own) =>
      if Tracked(s, g) { RememberTracks(s, grant, issue, list, own, g); }
      hide Tracked, Apart, Holding;
    case PickRoom(room) =>
      if Tracked(s, g) { ReachTracks(s, room, g); }
      hide Tracked, Apart, Holding, Swept, SweptUsers;
    case _ =>
      hide Tracked, Inv;
      OthersTrack(s, e, g);
  }

  lemma OthersTrack(s: State, e: Event, g: Grant)
    requires IsOther(e) && Enabled(s, e)
    ensures var r := Apply(s, e); (Tracked(r, g) <==> Tracked(s, g)) && r.lapsed == s.lapsed
    ensures Waiting(s) ==> Waiting(Apply(s, e))
  {
    OthersStandStill(s, e);
    hide Apply, Enabled, Waiting;
  }

  /** While Discord cannot answer, passes take away nothing but what had run out when they came to it. */
  lemma {:induction false} OutageKeepsGrants(s: State, events: seq<Event>, g: Grant)
    requires Inv(s) && Waiting(s) && (Tracked(s, g) || g in s.lapsed) && Possible(s, events)
    requires forall e :: e in events ==> !e.Answer? && !e.Close?
    ensures var r := After(s, events);
            Tracked(r, g) || (g in r.lapsed && g in r.issued && r.issued[g].expiresAt <= r.clock)
    decreases |events|
  {
    hide Apply, Enabled, Tracked, Waiting;
    if events != [] {
      StepKeeps(s, events[0]);
      OutageStep(s, events[0], g);
      hide Inv;
      OutageKeepsGrants(Apply(s, events[0]), events[1..], g);
    }
  }

  /** The walk of a room whose answer made the grant due. */
  ghost predicate Walked(s: State, g: Grant) {
    Inv(s) && Inside(s) && !s.pass.at.Asking? && !Stray(s) && g in s.due && (Tracked(s, g) || g in s.revoked)
  }

  /** One step keeps the walk where it is, and the grant in its place unless it ends it. */
  predicate Walks(s: State, r: State, g: Grant) {
    && Inside(r) && !r.pass.at.Asking? && !Stray(r) && r.due == s.due
    && (Tracked(s, g) || g in s.revoked ==> Tracked(r, g) || g in r.revoked)
  }

  lemma RememberWalks(s: State, grant: Grant, issue: Issue, list: Ref, own: Ref, g: Grant)
    requires MayRemember(s, grant, issue, list, own) && Walked(s, g)
    ensures Walks(s, Remembered(s, grant, issue, list, own), g)
  {
    if Tracked(s, g) { RememberTracks(s, grant, issue, list, own, g); }
    RememberHolding(s, grant, issue, list, own);
    hide Tracked, Accounted, Apart, Known, Holding, Diligent, Stray;
  }

  lemma RevokeWalks(s: State, ok: bool, g: Grant)
    requires At(s) && s.pass.at.Calling? && Walked(s, g)
    ensures Walks(s, Returned(s, ok), g)
  {
    if Tracked(s, g) { RevokeTracks(s, ok, g); }
    hide Tracked, Accounted, Apart, Known, Holding, Diligent;
  }

  lemma LeaveUserWalks(s: State, g: Grant)
    requires MayLeaveUser(s) && Walked(s, g)
    ensures Walks(s, LeaveUser(s), g)
  {
    if Tracked(s, g) { LeaveUserTracks(s, g); }
    LeaveUserHolding(s);
    hide Tracked, Accounted, Apart, Known, Holding, Diligent, Stray;
  }

  lemma VisitWalks(s: State, user: User, g: Grant)
    requires MayPickUser(s, user) && Walked(s, g)
    ensures Walks(s, Visit(s, user), g)
  {
    SameMapsKeep(s, Visit(s, user));
    PickUserHolding(s, user);
    hide Tracked, Accounted, Apart, Known, Holding, Diligent, Stray;
  }

  lemma OthersWalk(s: State, e: Event, g: Grant)
    requires e.Check? || e.Tick? || e.PickGrant?
    requires Enabled(s, e) && Walked(s, g)
    ensures Walks(s, Apply(s, e), g)
  {
    hide Tracked, Accounted, Apart, Known, Holding, Diligent, Remembered, Reach, Begin, Visit, Returned, LeaveUser;
    hide LeaveRoom, Closed;
    SameMapsKeep(s, Apply(s, e));
  }

  lemma WalkStep(s: State, e: Event, g: Grant)
    requires Enabled(s, e) && !e.RoomDone? && !e.Close? && Walked(s, g)
    ensures Walked(Apply(s, e), g)
  {
    StepKeeps(s, e);
    assert Inside(s) && !s.pass.at.Asking?;
    assert Walks(s, Apply(s, e), g) by {
      hide Walked, Walks, Inv, Remembered, Reach, Begin, Visit, Pick, Returned, LeaveUser, LeaveRoom, Closed;
      match e
      case Remember(grant, issue, list, own) => RememberWalks(s, grant, issue, list, own, g);
      case RevokeReturned(ok) => RevokeWalks(s, ok, g);
      case UserDone => LeaveUserWalks(s, g);
      case PickUser(user) => VisitWalks(s, user, g);
      case _ => OthersWalk(s, e, g);
    }
    hide Inv, Apply, Enabled, Tracked, Stray;
  }

  lemma {:induction false} WalkGoesOn(s: State, events: seq<Event>, g: Grant)
    requires Walked(s, g) && Possible(s, events)
    requires forall e :: e in events ==> !e.RoomDone? && !e.Close?
    ensures Walked(After(s, events), g)
    decreases |events|
  {
    hide Apply, Enabled, Walked;
    if events != [] {
      WalkStep(s, events[0], g);
      WalkGoesOn(Apply(s, events[0]), events[1..], g);
    }
  }

  /** Discord answers who is in a room; whatever is interleaved, when the walk of the room is over it has
      tried to end every grant that a viewer missing from the answer held when the answer came, and
      each of them was revoked or is tracked for the next pass. */
  lemma AnswerIsCarriedOut(s: State, present: set<User>, events: seq<Event>, g: Grant)
    requires Inv(s) && Enabled(s, Answer(present)) && !Stray(s)
    requires Tracked(s, g) && s.issued[g].room == s.pass.at.room && s.issued[g].user !in present
    requires Possible(Apply(s, Answer(present)), events)
    requires forall e :: e in events ==> !e.RoomDone? && !e.Close?
    ensures var r := After(Apply(s, Answer(present)), events);
            MayLeaveRoom(r) ==> g in r.called && (Tracked(r, g) || g in r.revoked)
  {
    var b := Begin(s, present);
    AnswerKeeps(s, present);
    SameMapsKeep(s, b);
    assert Apply(s, Answer(present)) == b;
    assert Walked(b, g) by { hide Inv; }
    hide Inv, Apply, Enabled, Begin, Walked, Tracked, Stray, MayLeaveRoom;
    WalkGoesOn(b, events, g);
    WalkIsOver(After(b, events), g);
  }

  lemma WalkIsOver(r: State, g: Grant)
    requires Walked(r, g)
    ensures MayLeaveRoom(r) ==> g in r.called && (Tracked(r, g) || g in r.revoked)
  {
  }

  // ----- who is ended, and what a pass does not skip ----------------------------------------

  /** Every grant is in the map of its own viewer, and the map the pass walks is that of the room. */
  ghost predicate Filed(s: State) {
    FiledMaps(s) && FiledWalk(s)
  }

  ghost predicate FiledMaps(s: State) {
    && (forall own {:trigger s.homeOf[own]} {:trigger own in s.grants} :: own in s.grants ==>
          own in s.homeOf && s.homeOf[own].0 in s.users && s.homeOf[own].0 in s.roomOf)
    && (forall own, g {:trigger g in s.grants[own]} :: own in s.grants && g in s.grants[own] ==>
          && g in s.issued && s.issued[g].user == s.homeOf[own].1
          && s.issued[g].room == s.roomOf[s.homeOf[own].0])
  }

  ghost predicate FiledWalk(s: State) {
    Inside(s) ==> s.pass.at.list in s.roomOf && s.roomOf[s.pass.at.list] == s.pass.at.room
  }

  lemma RememberFiled(s: State, grant: Grant, issue: Issue, list: Ref, own: Ref)
    requires MayRemember(s, grant, issue, list, own) && Apart(s) && Holding(s) && Filed(s)
    ensures Filed(Remembered(s, grant, issue, list, own))
  {
    hide Apart, Holding, FiledMaps, FiledWalk, Remembered;
    RememberFiledMaps(s, grant, issue, list, own);
    RememberFiledWalk(s, grant, issue, list, own);
  }

  lemma RememberFiledWalk(s: State, grant: Grant, issue: Issue, list: Ref, own: Ref)
    requires MayRemember(s, grant, issue, list, own) && Apart(s) && Holding(s) && FiledWalk(s)
    ensures FiledWalk(Remembered(s, grant, issue, list, own))
  {
    hide Apart, IsList, IsOwn;
    RoomsStay(s, issue.room, list);
  }

  lemma RememberFiledMaps(s: State, grant: Grant, issue: Issue, list: Ref, own: Ref)
    requires MayRemember(s, grant, issue, list, own) && Apart(s) && FiledMaps(s)
    ensures FiledMaps(Remembered(s, grant, issue, list, own))
  {
    hide Apart, IsList, IsOwn;
    RoomsStay(s, issue.room, list);
    OwnStays(s, list, issue.user, own);
    var r := Remembered(s, grant, issue, list, own);
    forall o, g | o in r.grants && g in r.grants[o]
      ensures g in r.issued && r.issued[g].user == r.homeOf[o].1 && r.issued[g].room == r.roomOf[r.homeOf[o].0]
    {
      if g != grant {
        assert o in s.grants && g in s.grants[o] && s.homeOf[o].0 in s.roomOf;
      }
    }
  }

  /** The map of a room is that room's, or new. */
  lemma RoomsStay(s: State, room: Room, list: Ref)
    requires IsList(s, room, list) && Apart(s)
    ensures forall l :: l in s.users && l in s.roomOf ==> s.roomOf[list := room][l] == s.roomOf[l]
    ensures list in s.users ==> list in s.roomOf && s.roomOf[list] == room
  {
  }

  lemma OwnStays(s: State, list: Ref, user: User, own: Ref)
    requires IsOwn(s, list, user, own) && Apart(s)
    ensures own in s.grants ==> own in s.homeOf && s.homeOf[own] == (list, user)
  {
  }

  lemma ReachFiled(s: State, room: Room)
    requires At(s) && s.pass.at.NextRoom? && room in s.admitted && Apart(s) && Filed(s)
    ensures Filed(Reach(s, room))
  {
    var r, list := Reach(s, room), s.admitted[room];
    assert list in s.roomOf && s.roomOf[list] == room;
    hide Apart;
    assert r.homeOf == s.homeOf && r.roomOf == s.roomOf && r.issued == s.issued && r.grants == Swept(s, list);
    assert r.users == s.users[list := SweptUsers(s, list)];
    assert FiledWalk(r) by { hide Swept, SweptUsers, Expiring, FiledMaps; }
    hide SweptUsers, Expiring, Reach, FiledMaps, FiledWalk;
    FewerMaps(s, r);
  }

  /** A step that only takes grants away, or leaves the maps alone. */
  lemma FewerMaps(s: State, r: State)
    requires FiledMaps(s) && r.homeOf == s.homeOf && r.roomOf == s.roomOf && r.issued == s.issued
    requires r.grants.Keys <= s.grants.Keys && s.users.Keys <= r.users.Keys
    requires forall own, g :: own in r.grants && g in r.grants[own] ==> g in s.grants[own]
    ensures FiledMaps(r)
  {
  }

  lemma FewerFiled(s: State, r: State)
    requires Filed(s) && r.homeOf == s.homeOf && r.roomOf == s.roomOf && r.issued == s.issued
    requires r.grants.Keys <= s.grants.Keys && s.users.Keys <= r.users.Keys
    requires forall own, g :: own in r.grants && g in r.grants[own] ==> g in s.grants[own]
    requires Inside(r) ==> Inside(s) && r.pass.at.list == s.pass.at.list && r.pass.at.room == s.pass.at.room
    ensures Filed(r)
  {
    hide Inside, FiledMaps;
    FewerMaps(s, r);
  }

  lemma ReturnedFiled(s: State, ok: bool)
    requires At(s) && s.pass.at.Calling? && Filed(s) && Holding(s)
    ensures Filed(Returned(s, ok))
  {
    hide Filed;
    FewerFiled(s, Returned(s, ok));
  }

  lemma LeaveUserFiled(s: State)
    requires MayLeaveUser(s) && Filed(s) && Holding(s)
    ensures Filed(LeaveUser(s))
  {
    hide Filed;
    FewerFiled(s, LeaveUser(s));
  }

  lemma LeaveRoomFiled(s: State)
    requires Inside(s) && Filed(s)
    ensures Filed(LeaveRoom(s))
  {
    hide Filed, TrackedIn, Seen;
    FewerFiled(s, LeaveRoom(s));
  }

  lemma OthersFiled(s: State, e: Event)
    requires Enabled(s, e) && Filed(s) && (IsOther(e) || e.Answer? || e.PickGrant? || e.Close?)
    ensures Filed(Apply(s, e))
  {
    hide Filed, Tracked, Seen, Remembered, Reach, Visit, Returned, LeaveUser, LeaveRoom;
    FewerFiled(s, Apply(s, e));
  }

  lemma VisitFiled(s: State, user: User)
    requires MayPickUser(s, user) && Filed(s)
    ensures Filed(Visit(s, user))
  {
    hide Filed;
    FewerFiled(s, Visit(s, user));
  }

  lemma StepFiled(s: State, e: Event)
    requires Enabled(s, e) && Inv(s) && Filed(s)
    ensures Filed(Apply(s, e))
  {
    hide Filed, Accounted, Apart, Known, Holding, Diligent, Remembered, Reach, Begin, Visit, Pick, Returned, LeaveUser;
    hide LeaveRoom, Closed;
    match e
    case Remember(grant, issue, list, own) => RememberFiled(s, grant, issue, list, own);
    case PickRoom(room) => ReachFiled(s, room);
    case PickUser(user) => VisitFiled(s, user);
    case RevokeReturned(ok) => ReturnedFiled(s, ok);
    case UserDone => LeaveUserFiled(s);
    case RoomDone => LeaveRoomFiled(s);
    case _ => OthersFiled(s, e);
  }

  /** The answer the walk of a room is acting on. */
  function Acting(s: State): set<(Room, set<User>)> {
    if Inside(s) && !s.pass.at.Asking? then {(s.pass.at.room, s.pass.at.present)} else {}
  }

  /** What Discord answered in the course of a run: for which room, and who is in it. */
  function Heard(s: State, events: seq<Event>): set<(Room, set<User>)>
    requires Possible(s, events)
    decreases |events|
  {
    if events == [] then {} else HeardAt(s, events[0]) + Heard(Apply(s, events[0]), events[1..])
  }

  function HeardAt(s: State, e: Event): set<(Room, set<User>)>
    requires Enabled(s, e)
  {
    if e.Answer? then {(s.pass.at.room, e.present)} else {}
  }

  /** An answer about the grant's room that leaves its viewer out. */
  ghost predicate Missed(answers: set<(Room, set<User>)>, issue: Issue) {
    exists answer :: answer in answers && answer.0 == issue.room && issue.user !in answer.1
  }

  lemma ActingWasHeard(s: State, e: Event)
    requires Enabled(s, e)
    ensures Acting(Apply(s, e)) <= Acting(s) + HeardAt(s, e)
  {
    hide Swept, SweptUsers, Expiring, Tracked, Seen, TrackedIn;
  }

  lemma RevokedNow(s: State, e: Event, g: Grant)
    requires Enabled(s, e) && Inv(s) && Filed(s) && g !in s.revoked && g in Apply(s, e).revoked
    ensures g in s.issued && Missed(Acting(s), s.issued[g])
  {
    hide Apply, Enabled;
    RevokesOnly(s, e, g);
    hide Accounted, Diligent;
    var at := s.pass.at;
    assert s.homeOf[at.own] == (at.list, at.user);
    assert (at.room, at.present) in Acting(s);
  }

  lemma RevokesOnly(s: State, e: Event, g: Grant)
    requires Enabled(s, e) && g !in s.revoked && g in Apply(s, e).revoked
    ensures At(s) && s.pass.at.Calling? && s.pass.at.grant == g
  {
    hide Swept, SweptUsers, Expiring, Tracked, Seen, TrackedIn;
  }

  lemma IssuedStays(s: State, e: Event, g: Grant)
    requires Enabled(s, e) && g in s.issued
    ensures g in Apply(s, e).issued && Apply(s, e).issued[g] == s.issued[g]
  {
    hide Swept, SweptUsers, Expiring, Tracked, Seen, TrackedIn;
  }

  lemma {:induction false} RevokedWasMissed(s: State, events: seq<Event>, g: Grant)
    requires Inv(s) && Filed(s) && Possible(s, events) && g !in s.revoked && g in After(s, events).revoked
    ensures var r := After(s, events); g in r.issued && Missed(Acting(s) + Heard(s, events), r.issued[g])
    decreases |events|
  {
    hide Inv, Filed, Apply, Enabled, Acting, HeardAt, Missed;
    if events != [] {
      var e, rest := events[0], events[1..];
      StepKeeps(s, e);
      StepFiled(s, e);
      if g in Apply(s, e).revoked {
        RevokedNow(s, e, g);
        IssuedStays(s, e, g);
        IssuedForGood(Apply(s, e), rest, g);
        MissedAmong(Acting(s), Acting(s) + Heard(s, events), s.issued[g]);
      } else {
        RevokedWasMissed(Apply(s, e), rest, g);
        ActingWasHeard(s, e);
        MissedAmong(
          Acting(Apply(s, e)) + Heard(Apply(s, e), rest), Acting(s) + Heard(s, events),
          After(s, events).issued[g]);
      }
    }
  }

  lemma MissedAmong(some: set<(Room, set<User>)>, more: set<(Room, set<User>)>, issue: Issue)
    requires some <= more && Missed(some, issue)
    ensures Missed(more, issue)
  {
  }

  lemma {:induction false} IssuedForGood(s: State, events: seq<Event>, g: Grant)
    requires Possible(s, events) && g in s.issued
    ensures g in After(s, events).issued && After(s, events).issued[g] == s.issued[g]
    decreases |events|
  {
    hide Apply, Enabled;
    if events != [] {
      IssuedStays(s, events[0], g);
      IssuedForGood(Apply(s, events[0]), events[1..], g);
    }
  }

  /** Nobody is thrown out who is there: in every run, a grant is revoked only when Discord has answered about
      its room and left its viewer out. */
  lemma OnlyTheMissingAreEnded(events: seq<Event>, g: Grant)
    requires Possible(START, events) && g in After(START, events).revoked
    ensures var r := After(START, events);
            g in r.issued && exists present :: (r.issued[g].room, present) in Heard(START, events)
                                               && r.issued[g].user !in present
  {
    assert Inv(START) && Filed(START) && Acting(START) == {};
    RevokedWasMissed(START, events, g);
    var issue := After(START, events).issued[g];
    var answer :| answer in Heard(START, events) && answer.0 == issue.room && issue.user !in answer.1;
    assert (issue.room, answer.1) in Heard(START, events);
  }

  /** The rooms a run is through with: Discord could not say, or nobody could be asked, or the walk is over. */
  function Through(s: State, events: seq<Event>): set<Room>
    requires Possible(s, events)
    decreases |events|
  {
    if events == [] then {} else ThroughAt(s, events[0]) + Through(Apply(s, events[0]), events[1..])
  }

  function ThroughAt(s: State, e: Event): set<Room>
    requires Enabled(s, e)
  {
    if e.PickRoom? && !s.pass.token then {e.room}
    else if e.Transient? || e.RoomDone? then {s.pass.at.room}
    else {}
  }

  lemma VisitedAfter(s: State, e: Event)
    requires At(s) && Enabled(s, e) && At(Apply(s, e))
    ensures Apply(s, e).pass.visited <= s.pass.visited + ThroughAt(s, e)
  {
    hide Swept, SweptUsers, Expiring, Tracked, TrackedIn, Stray;
  }

  lemma PassGoesOn(s: State, e: Event)
    requires At(s) && Enabled(s, e) && !e.PassDone?
    ensures At(Apply(s, e))
  {
    hide Swept, SweptUsers, Expiring, Tracked, TrackedIn, Seen;
  }

  lemma {:induction false} VisitedIsThrough(s: State, events: seq<Event>)
    requires At(s) && Possible(s, events) && PassDone !in events
    ensures At(After(s, events)) && After(s, events).pass.visited <= s.pass.visited + Through(s, events)
    decreases |events|
  {
    hide Apply, Enabled, ThroughAt;
    if events != [] {
      PassGoesOn(s, events[0]);
      VisitedAfter(s, events[0]);
      VisitedIsThrough(Apply(s, events[0]), events[1..]);
    }
  }

  /** No room is skipped: when a pass ends, it is through with every room that still has viewers, whatever was
      admitted meanwhile; and the timer runs on if and only if there is such a room. */
  lemma PassSkipsNoRoom(s: State, found: bool, events: seq<Event>)
    requires Inv(s) && Enabled(s, TokenRead(found)) && Possible(Apply(s, TokenRead(found)), events)
    requires PassDone !in events && Enabled(After(Apply(s, TokenRead(found)), events), PassDone)
    ensures var b := Apply(s, TokenRead(found));
            var r := Apply(After(b, events), PassDone);
            && r.pass.Idle? && r.admitted.Keys <= Through(b, events)
            && (r.timer <==> r.admitted != map[])
  {
    hide Through, Possible, After, Accounted, Apart, Known, Holding, Diligent, Remembered, Reach, Begin, Visit, Pick;
    hide Returned, LeaveUser, LeaveRoom, Closed;
    var b := Apply(s, TokenRead(found));
    StepKeeps(s, TokenRead(found));
    EveryRunKeeps(b, events);
    VisitedIsThrough(b, events);
  }

  /** A pass is never stuck: in every state that has one there is a step of the pass that can be taken, or the
      answer to a call that is out. */
  lemma PassMoves(s: State) returns (e: Event)
    requires !s.pass.Idle?
    ensures Enabled(s, e) && !e.Remember? && !e.Check? && !e.Close? && !e.Tick?
  {
    if s.pass.Starting? {
      e := TokenFailed;
    } else {
      match s.pass.at
      case NextRoom =>
        if room :| room in s.admitted && room !in s.pass.visited {
          e := PickRoom(room);
        } else {
          e := PassDone;
        }
      case Asking(_, _) => e := Transient;
      case NextUser(_, list, _, done) =>
        if user :| user in Users(s, list) && user !in done {
          e := PickUser(user);
        } else {
          e := RoomDone;
        }
      case NextGrant(_, _, _, _, _, own, tried) =>
        if grant :| grant in Grants(s, own) && grant !in tried {
          e := PickGrant(grant);
        } else {
          e := UserDone;
        }
      case Calling(_, _, _, _, _, _, _, _) => e := RevokeReturned(true);
    }
  }

  // A reachable state in which closing forgets.

  const FIRST := Remember(0, Issue(0, 0, 9), 0, 0)
  const S1 := State(
    map[0 := 0], map[0 := map[0 := 0]], map[0 := map[0 := 9]], true, Idle, 0,
    map[0 := 0], map[0 := (0, 0)], map[0 := Issue(0, 0, 9)], {}, {}, {}, {}, {}, {})
  const S2 := S1.(pass := Starting)
  const S3 := S2.(pass := Running({}, true, NextRoom))
  const S4 := S3.(pass := Running({}, true, Asking(0, 0)))

  lemma Step1()
    ensures Enabled(START, FIRST) && Apply(START, FIRST) == S1
  {
  }

  lemma Step2()
    ensures Enabled(S1, Check) && Apply(S1, Check) == S2
  {
  }

  lemma Step3()
    ensures Enabled(S2, TokenRead(true)) && Apply(S2, TokenRead(true)) == S3
  {
  }

  lemma Step4()
    ensures Enabled(S3, PickRoom(0)) && Apply(S3, PickRoom(0)) == S4
  {
    assert Unexpired(map[0 := 9], 0) == map[0 := 9];
    assert Swept(S3, 0) == S3.grants && 0 in SweptUsers(S3, 0);
    assert SweptUsers(S3, 0) == map[0 := 0];
    assert Expiring(S3, 0) == {};
  }

  /** The service can come to such a state: one viewer is admitted, and the next pass asks about the room. */
  lemma ClosingCanLose() returns (before: seq<Event>, after: seq<Event>, g: Grant)
    ensures Possible(START, before) && Forgets(After(START, before), after, g)
  {
    hide Enabled, Apply, Forgets, Emptiable;
    before := [];
    Step1(); OneMore(START, before, FIRST); before := before + [FIRST];
    Step2(); OneMore(START, before, Check); before := before + [Check];
    Step3(); OneMore(START, before, TokenRead(true)); before := before + [TokenRead(true)];
    Step4(); OneMore(START, before, PickRoom(0)); before := before + [PickRoom(0)];
    assert Inv(START);
    EveryRunKeeps(START, before);
    AskingIsEmptiable();
    ClosingForgetsExactly(S4);
    after, g :| Forgets(S4, after, g);
  }

  lemma AskingIsEmptiable()
    ensures Emptiable(S4)
  {
  }
}

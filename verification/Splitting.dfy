/** Cutting a byte stream into units, all at once and piece by piece.

    A `Form` says where the unit at the front of a stream ends and which units are admitted. When it
    looks no further than the unit itself, cutting what has arrived and carrying the rest over gives
    what cutting the whole stream gives, however it was delivered. */
module Splitting {

  import opened Base

  datatype Extent = Incomplete | Oversized | Complete(size: nat)

  datatype Form = Form(first: Bytes -> Extent, admits: Bytes -> bool)

  /** Units are not empty, and one that has ended, or is refused, stays so whatever follows. */
  ghost predicate Local(form: Form) {
    && (forall s :: form.first(s).Complete? ==> 0 < form.first(s).size <= |s|)
    && (forall s, t :: !form.first(s).Incomplete? ==> form.first(s + t) == form.first(s))
  }

  /** The unit that can be taken from the front, if there is one. */
  predicate Ready(form: Form, s: Bytes) {
    form.first(s).Complete? && 0 < form.first(s).size <= |s| && form.admits(s[..form.first(s).size])
  }

  function Front(form: Form, s: Bytes): (front: Bytes)
    requires Ready(form, s)
    ensures front != [] && front <= s
  {
    s[..form.first(s).size]
  }

  function Back(form: Form, s: Bytes): (back: Bytes)
    requires Ready(form, s)
    ensures |back| < |s| && Front(form, s) + back == s
  {
    s[form.first(s).size..]
  }

  /** The units at the front of a stream, at most `room`, then what is left, and whether that was
      refused rather than unfinished. */
  datatype Cut = Cut(units: seq<Bytes>, rest: Bytes, failed: bool)

  function Split(form: Form, s: Bytes, room: nat): (r: Cut)
    ensures |r.units| <= room
    decreases |s|
  {
    if room > 0 && Ready(form, s) then Behind(Front(form, s), Split(form, Back(form, s), room - 1))
    else Cut([], s, !form.first(s).Incomplete?)
  }

  function Behind(front: Bytes, r: Cut): Cut {
    Cut([front] + r.units, r.rest, r.failed)
  }

  function Concat(parts: seq<Bytes>): Bytes {
    if parts == [] then [] else parts[0] + Concat(parts[1..])
  }

  /** No byte is lost, repeated or moved. */
  lemma {:induction false} NothingLost(form: Form, s: Bytes, room: nat)
    ensures Concat(Split(form, s, room).units) + Split(form, s, room).rest == s
    decreases |s|
  {
    if room > 0 && Ready(form, s) {
      NothingLost(form, Back(form, s), room - 1);
      ConcatBehind(Front(form, s), Split(form, Back(form, s), room - 1));
    }
  }

  lemma ConcatBehind(front: Bytes, r: Cut)
    ensures Concat(Behind(front, r).units) + r.rest == front + (Concat(r.units) + r.rest)
  {
    assert ([front] + r.units)[1..] == r.units;
  }

  /** Every unit taken is admitted, and ends where the form says. */
  lemma {:induction false} UnitsAreAdmitted(form: Form, s: Bytes, room: nat, k: nat)
    requires k < |Split(form, s, room).units|
    ensures form.admits(Split(form, s, room).units[k])
    decreases |s|
  {
    if k > 0 {
      UnitsAreAdmitted(form, Back(form, s), room - 1, k - 1);
    }
  }

  lemma {:induction false} RestIsUnfinished(form: Form, s: Bytes, room: nat)
    ensures var r := Split(form, s, room); r.failed <==> !form.first(r.rest).Incomplete?
    decreases |s|
  {
    if room > 0 && Ready(form, s) {
      RestIsUnfinished(form, Back(form, s), room - 1);
    }
  }

  /** `first`, and then whatever the bytes left over and the bytes `t` hold together. */
  function Resume(form: Form, first: Cut, t: Bytes, room: nat): Cut
    requires |first.units| <= room
  {
    if first.failed then Cut(first.units, first.rest + t, true)
    else
      var more := Split(form, first.rest + t, room - |first.units|);
      Cut(first.units + more.units, more.rest, more.failed)
  }

  /** Bytes that come later are cut as if what was left over stood in front of them. */
  lemma {:induction false} SplitExtends(form: Form, s: Bytes, t: Bytes, room: nat)
    requires Local(form)
    ensures Split(form, s + t, room) == Resume(form, Split(form, s, room), t, room)
    decreases |s|
  {
    if room > 0 && Ready(form, s) {
      FrontStays(form, s, t);
      SplitExtends(form, Back(form, s), t, room - 1);
      ResumeBehind(form, Front(form, s), Split(form, Back(form, s), room - 1), t, room);
    } else {
      ExtendHere(form, s, t, room);
    }
  }

  /** Later bytes take no unit back. */
  lemma UnitsGrow(form: Form, s: Bytes, t: Bytes, room: nat)
    requires Local(form)
    ensures Split(form, s, room).units <= Split(form, s + t, room).units
  {
    SplitExtends(form, s, t, room);
  }

  ghost predicate Carries(form: Form, received: Bytes, piece: Bytes, units: seq<Bytes>, rest: Bytes, room: nat) {
    |units| <= room &&
    var r := Split(form, rest + piece, room - |units|);
    Split(form, received + piece, room) == Cut(units + r.units, r.rest, r.failed)
  }

  /** What a reader that carries the rest over has to do with the next piece. */
  lemma CarryOver(form: Form, received: Bytes, piece: Bytes, units: seq<Bytes>, rest: Bytes, room: nat)
    requires Local(form) && Split(form, received, room) == Cut(units, rest, false)
    ensures form.first(rest).Incomplete?
    ensures Carries(form, received, piece, units, rest, room)
  {
    SplitExtends(form, received, piece, room);
    RestIsUnfinished(form, received, room);
  }

  /** A reader that took `units` off the stream, and goes on with `rest` unless it ended, took what the
      whole stream holds. */
  ghost predicate Outcome(form: Form, stream: Bytes, room: nat, units: seq<Bytes>, rest: Bytes, ended: bool) {
    var all := Split(form, stream, room);
    units == all.units && ended == all.failed && (!ended ==> rest == all.rest)
  }

  lemma Concluded(
    form: Form, received: Bytes, piece: Bytes, units0: seq<Bytes>, rest0: Bytes,
    units: seq<Bytes>, rest: Bytes, ok: bool, room: nat)
    requires Carries(form, received, piece, units0, rest0, room)
    requires var r := Split(form, rest0 + piece, room - |units0|);
             units == units0 + r.units && ok == !r.failed && (ok ==> rest == r.rest)
    ensures Outcome(form, received + piece, room, units, rest, !ok)
    ensures ok ==> Split(form, received + piece, room) == Cut(units, rest, false)
  {
  }

  lemma ExtendHere(form: Form, s: Bytes, t: Bytes, room: nat)
    requires Local(form) && !(room > 0 && Ready(form, s))
    ensures Split(form, s + t, room) == Resume(form, Split(form, s, room), t, room)
  {
    var more := Split(form, s + t, room);
    assert [] + more.units == more.units;
    if !form.first(s).Incomplete? {
      StaysRefused(form, s, t);
    }
  }

  lemma FrontStays(form: Form, s: Bytes, t: Bytes)
    requires Local(form) && Ready(form, s)
    ensures Ready(form, s + t)
    ensures Front(form, s + t) == Front(form, s) && Back(form, s + t) == Back(form, s) + t
  {
    var n := form.first(s).size;
    assert (s + t)[..n] == s[..n] && (s + t)[n..] == s[n..] + t;
  }

  lemma StaysRefused(form: Form, s: Bytes, t: Bytes)
    requires Local(form) && !form.first(s).Incomplete?
    ensures !form.first(s + t).Incomplete? && (Ready(form, s + t) ==> Ready(form, s))
  {
    if form.first(s).Complete? {
      var n := form.first(s).size;
      assert (s + t)[..n] == s[..n];
    }
  }

  lemma ResumeBehind(form: Form, front: Bytes, r: Cut, t: Bytes, room: nat)
    requires |r.units| < room
    ensures Resume(form, Behind(front, r), t, room) == Behind(front, Resume(form, r, t, room - 1))
  {
    if !r.failed {
      var more := Split(form, r.rest + t, room - 1 - |r.units|);
      assert [front] + r.units + more.units == [front] + (r.units + more.units);
    }
  }

  /** What a loop has taken off a buffer and what the buffer still holds make up the whole. */
  ghost predicate Taken(form: Form, before: seq<Bytes>, whole: Cut, taken: seq<Bytes>, buffer: Bytes, room: nat) {
    |taken| <= room &&
    var left := Split(form, buffer, room - |taken|);
    before + whole.units == taken + left.units && whole.rest == left.rest && whole.failed == left.failed
  }

  lemma TakenStep(
    form: Form, before: seq<Bytes>, whole: Cut, taken: seq<Bytes>, buffer: Bytes, room: nat, n: nat)
    requires Taken(form, before, whole, taken, buffer, room) && |taken| < room
    requires form.first(buffer) == Complete(n) && 0 < n <= |buffer| && form.admits(buffer[..n])
    ensures Taken(form, before, whole, taken + [buffer[..n]], buffer[n..], room)
  {
    assert Ready(form, buffer) && Front(form, buffer) == buffer[..n] && Back(form, buffer) == buffer[n..];
    var after := Split(form, buffer[n..], room - |taken| - 1);
    assert taken + ([buffer[..n]] + after.units) == taken + [buffer[..n]] + after.units;
  }

  lemma TakenEnds(form: Form, before: seq<Bytes>, whole: Cut, taken: seq<Bytes>, buffer: Bytes, room: nat)
    requires Taken(form, before, whole, taken, buffer, room)
    requires |taken| == room || !Ready(form, buffer)
    ensures taken == before + whole.units && whole.rest == buffer
    ensures whole.failed <==> !form.first(buffer).Incomplete?
  {
    assert taken + [] == taken;
  }

  /** A byte string that is exactly one admitted unit. */
  predicate IsUnit(form: Form, u: Bytes) {
    u != [] && form.first(u) == Complete(|u|) && form.admits(u)
  }

  /** Units laid end to end are found again, and then whatever stands behind them. */
  lemma {:induction false} UnitsAreFound(form: Form, units: seq<Bytes>, tail: Bytes, room: nat)
    requires Local(form) && |units| <= room
    requires forall u :: u in units ==> IsUnit(form, u)
    ensures var more := Split(form, tail, room - |units|);
            Split(form, Concat(units) + tail, room) == Cut(units + more.units, more.rest, more.failed)
    decreases |units|
  {
    hide Split, Local, IsUnit, Behind;
    if units == [] {
      var more := Split(form, tail, room);
      assert [] + tail == tail && [] + more.units == more.units;
    } else {
      var u, others := units[0], units[1..];
      assert IsUnit(form, u);
      assert Concat(units) + tail == u + (Concat(others) + tail);
      UnitIsFirst(form, u, Concat(others) + tail, room);
      UnitsAreFound(form, others, tail, room - 1);
      BehindRegroups(u, units, Split(form, tail, room - |units|));
    }
  }

  lemma BehindRegroups(u: Bytes, units: seq<Bytes>, more: Cut)
    requires units != [] && u == units[0]
    ensures Behind(u, Cut(units[1..] + more.units, more.rest, more.failed))
            == Cut(units + more.units, more.rest, more.failed)
  {
    assert [u] + (units[1..] + more.units) == units + more.units;
  }

  lemma UnitIsFirst(form: Form, u: Bytes, t: Bytes, room: nat)
    requires Local(form) && IsUnit(form, u) && room > 0
    ensures Split(form, u + t, room) == Behind(u, Split(form, t, room - 1))
  {
    UnitLeads(form, u, t);
    hide Local, IsUnit, Ready, Front, Back;
  }

  lemma UnitLeads(form: Form, u: Bytes, t: Bytes)
    requires Local(form) && IsUnit(form, u)
    ensures Ready(form, u + t) && Front(form, u + t) == u && Back(form, u + t) == t
  {
    assert (u + t)[..|u|] == u && (u + t)[|u|..] == t;
  }

  /** What a reader holds after a run of pieces, cutting each as it comes behind the bytes left over. */
  function Fed(form: Form, pieces: seq<Bytes>, room: nat): (r: Cut)
    ensures |r.units| <= room
  {
    if pieces == [] then Split(form, [], room)
    else Resume(form, Fed(form, pieces[..|pieces| - 1], room), pieces[|pieces| - 1], room)
  }

  /** However a stream is cut into pieces, the reader ends up with what the whole stream holds. */
  lemma {:induction false} AnyDelivery(form: Form, pieces: seq<Bytes>, room: nat)
    requires Local(form)
    ensures Fed(form, pieces, room) == Split(form, Concat(pieces), room)
  {
    if pieces != [] {
      var before, last := pieces[..|pieces| - 1], pieces[|pieces| - 1];
      AnyDelivery(form, before, room);
      SplitExtends(form, Concat(before), last, room);
      ConcatLast(pieces);
    }
  }

  lemma {:induction false} ConcatLast(parts: seq<Bytes>)
    requires parts != []
    ensures Concat(parts) == Concat(parts[..|parts| - 1]) + parts[|parts| - 1]
  {
    var init, last := parts[..|parts| - 1], parts[|parts| - 1];
    if |parts| > 1 {
      ConcatLast(parts[1..]);
      assert parts[1..][..|parts| - 2] == init[1..];
      assert Concat(parts) == parts[0] + (Concat(init[1..]) + last);
    }
  }

  lemma {:induction false} ConcatIsPrefix(parts: seq<Bytes>, n: nat)
    requires n <= |parts|
    ensures Concat(parts[..n]) <= Concat(parts)
  {
    if n > 0 {
      ConcatIsPrefix(parts[1..], n - 1);
      assert parts[..n][1..] == parts[1..][..n - 1];
    }
  }
}

/** The kernel's dump of UNIX sockets: messages that hold attributes, each with its length in front and
    padded to four bytes. The parser and an encoder, and what the one makes of the other. */
module Netlink {
  import opened Base
  import Utf8

  const AF_UNIX: nat := 1
  const NLMSG_ERROR: nat := 2
  const NLMSG_DONE: nat := 3
  const SOCK_DIAG_BY_FAMILY: nat := 20
  const UNIX_DIAG_NAME: nat := 0
  const UNIX_DIAG_PEER: nat := 2

  datatype Record = Record(inode: nat, state: byte, kind: byte, path: Option<Bytes>, peer: Option<nat>)

  // ----- little-endian numbers --------------------------------------------------------------

  function U16(s: Bytes, at: nat): (n: nat)
    requires at + 2 <= |s|
    ensures n < 0x1_0000
  {
    s[at] as nat + s[at + 1] as nat * 0x100
  }

  function U32(s: Bytes, at: nat): (n: nat)
    requires at + 4 <= |s|
    ensures n < 0x1_0000_0000
  {
    U16(s, at) + U16(s, at + 2) * 0x1_0000
  }

  function Put16(n: nat): (s: Bytes)
    requires n < 0x1_0000
    ensures |s| == 2 && U16(s, 0) == n
  {
    [(n % 0x100) as byte, (n / 0x100) as byte]
  }

  function Put32(n: nat): (s: Bytes)
    requires n < 0x1_0000_0000
    ensures |s| == 4 && U32(s, 0) == n
  {
    var s := Put16(n % 0x1_0000) + Put16(n / 0x1_0000);
    assert s[0..2] == Put16(n % 0x1_0000) && s[2..4] == Put16(n / 0x1_0000);
    s
  }

  function Align4(n: nat): (m: nat)
    ensures n <= m < n + 4 && m % 4 == 0
  {
    (n + 3) / 4 * 4
  }

  // ----- what the parser reads --------------------------------------------------------------

  /** Without the NULs at the end. */
  function Trimmed(s: Bytes): (t: Bytes)
    ensures t <= s && (t != [] ==> t[|t| - 1] != 0)
  {
    if s == [] || s[|s| - 1] != 0 then s else Trimmed(s[..|s| - 1])
  }

  /** One attribute's effect on the record; none when it is malformed. */
  ghost function Take(r: Record, tag: nat, value: Bytes): Option<Record> {
    if tag == UNIX_DIAG_NAME then
      if Utf8.IsUtf8(Trimmed(value)) then Some(r.(path := Some(Trimmed(value)))) else None
    else if tag == UNIX_DIAG_PEER then
      if |value| == 4 then Some(r.(peer := Some(U32(value, 0)))) else None
    else Some(r)
  }

  ghost function Attributes(body: Bytes, at: nat, r: Record): Option<Record>
    decreases |body| - at
  {
    if at >= |body| then Some(r)
    else if |body| - at < 4 then None
    else
      var size, tag := U16(body, at), U16(body, at + 2);
      if size < 4 || at + size > |body| then None
      else
        match Take(r, tag, body[at + 4..at + size])
        case None => None
        case Some(more) => Attributes(body, at + Align4(size), more)
  }

  ghost function Diagnostic(body: Bytes): Option<Record> {
    if |body| < 16 || body[0] as nat != AF_UNIX then None
    else Attributes(body, 16, Record(U32(body, 4), body[2], body[1], None, None))
  }

  /** The records read so far, and what the rest reads as. */
  ghost function Joined(records: seq<Record>, later: Option<(seq<Record>, bool)>): Option<(seq<Record>, bool)> {
    if later.None? then None else Some((records + later.value.0, later.value.1))
  }

  /** The messages from `at` on; `ended` once the inventory was said to be complete. */
  ghost function Messages(data: Bytes, at: nat, ended: bool): Option<(seq<Record>, bool)>
    decreases |data| - at
  {
    if at >= |data| then Some(([], ended))
    else if |data| - at < 16 then None
    else
      var length, kind, flags := U32(data, at), U16(data, at + 4), U16(data, at + 6);
      if length < 16 || at + length > |data| || U32(data, at + 8) != 1 then None
      else if flags / 16 % 2 == 1 || ended then None
      else
        var body, next := data[at + 16..at + length], at + Align4(length);
        if kind == NLMSG_DONE then
          if |body| == 4 && U32(body, 0) == 0 then Messages(data, next, true) else None
        else if kind == SOCK_DIAG_BY_FAMILY then
          if Diagnostic(body).None? then None
          else Joined([Diagnostic(body).value], Messages(data, next, false))
        else None
  }

  // ----- the parser -------------------------------------------------------------------------

  method TrimNuls(s: Bytes) returns (t: Bytes)
    ensures t == Trimmed(s)
  {
    t := s;
    while t != [] && t[|t| - 1] == 0
      invariant Trimmed(t) == Trimmed(s)
      decreases |t|
    {
      t := t[..|t| - 1];
    }
  }

  method ParseAttribute(record: Record, tag: nat, value: Bytes) returns (r: Option<Record>)
    ensures r == Take(record, tag, value)
  {
    if tag == 0 {
      var path := TrimNuls(value);
      var text := Utf8.ValidUtf8(path);
      if !text { return None; }
      return Some(record.(path := Some(path)));
    }
    if tag == 2 {
      if |value| != 4 { return None; }
      return Some(record.(peer := Some(U32(value, 0))));
    }
    r := Some(record);
  }

  method ParseDiagnostic(body: Bytes) returns (r: Option<Record>)
    ensures r == Diagnostic(body)
  {
    hide Take, U16, U32;
    if |body| < 16 || body[0] as nat != AF_UNIX { return None; }
    var record := Record(U32(body, 4), body[2], body[1], None, None);
    var at := 16;
    while at < |body|
      invariant Diagnostic(body) == Attributes(body, at, record)
      decreases |body| - at
    {
      if |body| - at < 4 { return None; }
      var size, tag := U16(body, at), U16(body, at + 2);
      if size < 4 || at + size > |body| { return None; }
      var taken := ParseAttribute(record, tag, body[at + 4..at + size]);
      if taken.None? { return None; }
      record, at := taken.value, at + Align4(size);
    }
    r := Some(record);
  }

  /** The whole dump, or nothing. No index leaves the data, and each turn moves at least 16 bytes. */
  method ParseMessages(data: Bytes) returns (r: Option<(seq<Record>, bool)>)
    ensures r == Messages(data, 0, false)
  {
    hide Diagnostic, U16, U32;
    var records: seq<Record>, done, offset := [], false, 0;
    JoinNothing(Messages(data, 0, false));
    while offset < |data|
      invariant Messages(data, 0, false) == Joined(records, Messages(data, offset, done))
      decreases |data| - offset
    {
      if |data| - offset < 16 { return None; }
      var length, kind, flags := U32(data, offset), U16(data, offset + 4), U16(data, offset + 6);
      if length < 16 || offset + length > |data| || U32(data, offset + 8) != 1 { return None; }
      var body := data[offset + 16..offset + length];
      if flags / 16 % 2 == 1 { return None; }
      if done { return None; }
      if kind == 3 {
        if |body| != 4 || U32(body, 0) != 0 { return None; }
        done := true;
      } else if kind == 2 {
        return None;
      } else if kind == 20 {
        var record := ParseDiagnostic(body);
        if record.None? { return None; }
        JoinOne(records, record.value, Messages(data, offset + Align4(length), false));
        records := records + [record.value];
      } else {
        return None;
      }
      offset := offset + Align4(length);
    }
    assert records + [] == records;
    r := Some((records, done));
  }

  lemma JoinNothing(later: Option<(seq<Record>, bool)>)
    ensures Joined([], later) == later
  {
    if later.Some? {
      assert [] + later.value.0 == later.value.0;
    }
  }

  lemma JoinOne(records: seq<Record>, r: Record, later: Option<(seq<Record>, bool)>)
    ensures Joined(records, Joined([r], later)) == Joined(records + [r], later)
  {
    if later.Some? {
      assert records + ([r] + later.value.0) == records + [r] + later.value.0;
    }
  }

  // ----- the encoder ------------------------------------------------------------------------

  function Zeros(n: nat): (s: Bytes)
    ensures |s| == n
  {
    seq(n, i => 0)
  }

  function Padded(s: Bytes): (t: Bytes)
    ensures |t| == Align4(|s|) && s <= t
  {
    s + Zeros(Align4(|s|) - |s|)
  }

  datatype Attribute = Attribute(tag: nat, value: Bytes)

  predicate Encodable(a: Attribute) {
    a.tag < 0x1_0000 && |a.value| + 4 < 0x1_0000
  }

  function AttributeBytes(a: Attribute): Bytes
    requires Encodable(a)
  {
    Padded(Put16(4 + |a.value|) + Put16(a.tag) + a.value)
  }

  function AttributesBytes(list: seq<Attribute>): Bytes
    requires forall a :: a in list ==> Encodable(a)
  {
    if list == [] then [] else AttributeBytes(list[0]) + AttributesBytes(list[1..])
  }

  /** A socket as the kernel describes it, with what the parser skips: flags, sender and cookie. */
  datatype Socket = Socket(
    inode: nat, state: byte, kind: byte, attributes: seq<Attribute>, flags: nat, sender: nat, cookie: Bytes)

  predicate IsSocket(s: Socket) {
    && s.inode < 0x1_0000_0000 && s.flags < 0x1_0000 && s.flags / 16 % 2 == 0 && s.sender < 0x1_0000_0000
    && |s.cookie| == 8 && (forall a :: a in s.attributes ==> Encodable(a))
    && |AttributesBytes(s.attributes)| + 32 < 0x1_0000_0000
  }

  function SocketBody(s: Socket): (body: Bytes)
    requires IsSocket(s)
    ensures |body| == 16 + |AttributesBytes(s.attributes)|
  {
    [1, s.kind, s.state, 0] + Put32(s.inode) + s.cookie + AttributesBytes(s.attributes)
  }

  function Message(kind: nat, flags: nat, sender: nat, body: Bytes): Bytes
    requires kind < 0x1_0000 && flags < 0x1_0000 && sender < 0x1_0000_0000 && |body| + 16 < 0x1_0000_0000
  {
    Padded(Put32(16 + |body|) + Put16(kind) + Put16(flags) + Put32(1) + Put32(sender) + body)
  }

  function SocketMessage(s: Socket): Bytes
    requires IsSocket(s)
  {
    Message(SOCK_DIAG_BY_FAMILY, s.flags, s.sender, SocketBody(s))
  }

  function Dump(sockets: seq<Socket>, done: bool): Bytes
    requires forall s :: s in sockets ==> IsSocket(s)
  {
    if sockets == [] then if done then Message(NLMSG_DONE, 0, 0, Put32(0)) else []
    else
      SocketMessage(sockets[0]) + Dump(sockets[1..], done)
  }

  /** The record a list of attributes makes, if they are well formed. */
  ghost function TakeAll(r: Record, list: seq<Attribute>): Option<Record>
    decreases |list|
  {
    if list == [] then Some(r)
    else
      match Take(r, list[0].tag, list[0].value)
      case None => None
      case Some(more) => TakeAll(more, list[1..])
  }

  ghost function Reading(s: Socket): Option<Record> {
    TakeAll(Record(s.inode, s.state, s.kind, None, None), s.attributes)
  }

  // ----- the parser inverts the encoder -----------------------------------------------------

  /** A number inside a part of the data is read where the part stands. */
  lemma Shifted(pre: Bytes, m: Bytes, post: Bytes, k: nat)
    requires k + 2 <= |m|
    ensures U16(pre + m + post, |pre| + k) == U16(m, k)
    ensures k + 4 <= |m| ==> U32(pre + m + post, |pre| + k) == U32(m, k)
  {
    var s := pre + m + post;
    assert forall i :: 0 <= i < |m| ==> s[|pre| + i] == m[i];
  }

  lemma AttributeFields(a: Attribute)
    requires Encodable(a)
    ensures var m := AttributeBytes(a);
            && |m| == Align4(4 + |a.value|) && U16(m, 0) == 4 + |a.value| && U16(m, 2) == a.tag
            && m[4..4 + |a.value|] == a.value
  {
    var m, size, tag := AttributeBytes(a), Put16(4 + |a.value|), Put16(a.tag);
    assert m[0] == size[0] && m[1] == size[1] && m[2] == tag[0] && m[3] == tag[1];
  }

  /** The loop passes one attribute. */
  lemma AttributePasses(pre: Bytes, a: Attribute, post: Bytes, r: Record)
    requires Encodable(a)
    ensures var body := pre + AttributeBytes(a) + post;
            Attributes(body, |pre|, r) ==
              match Take(r, a.tag, a.value)
              case None => None
              case Some(more) => Attributes(body, |pre + AttributeBytes(a)|, more)
  {
    hide AttributeBytes, Take, U16;
    var m := AttributeBytes(a);
    var body := pre + m + post;
    AttributeFields(a);
    Shifted(pre, m, post, 0);
    Shifted(pre, m, post, 2);
    assert body[|pre| + 4..|pre| + 4 + |a.value|] == m[4..4 + |a.value|];
  }

  lemma {:induction false} AttributesAreRead(pre: Bytes, list: seq<Attribute>, r: Record)
    requires forall a :: a in list ==> Encodable(a)
    ensures Attributes(pre + AttributesBytes(list), |pre|, r) == TakeAll(r, list)
    decreases |list|
  {
    hide AttributeBytes, Take, Attributes;
    var body := pre + AttributesBytes(list);
    if list == [] {
      AttributesEnd(body, r);
      assert body == pre;
    } else {
      var a, others := list[0], list[1..];
      assert body == pre + AttributeBytes(a) + AttributesBytes(others);
      AttributePasses(pre, a, AttributesBytes(others), r);
      if Take(r, a.tag, a.value).Some? {
        AttributesAreRead(pre + AttributeBytes(a), others, Take(r, a.tag, a.value).value);
      }
    }
  }

  lemma AttributesEnd(body: Bytes, r: Record)
    ensures Attributes(body, |body|, r) == Some(r)
  {
  }

  lemma SocketIsRead(s: Socket)
    requires IsSocket(s)
    ensures Diagnostic(SocketBody(s)) == Reading(s)
  {
    hide Attributes, AttributesBytes, U32, Put32;
    var head: Bytes := [1, s.kind, s.state, 0];
    var inode, attributes := Put32(s.inode), AttributesBytes(s.attributes);
    var front := head + inode + s.cookie;
    var body := SocketBody(s);
    assert body == front + attributes && body == head + inode + (s.cookie + attributes);
    Shifted(head, inode, s.cookie + attributes, 0);
    AttributesAreRead(front, s.attributes, Record(s.inode, s.state, s.kind, None, None));
  }

  lemma MessageFields(kind: nat, flags: nat, sender: nat, body: Bytes)
    requires kind < 0x1_0000 && flags < 0x1_0000 && sender < 0x1_0000_0000 && |body| + 16 < 0x1_0000_0000
    ensures var m := Message(kind, flags, sender, body);
            && |m| == Align4(16 + |body|) && U32(m, 0) == 16 + |body| && U16(m, 4) == kind
            && U16(m, 6) == flags && U32(m, 8) == 1 && m[16..16 + |body|] == body
  {
    var m := Message(kind, flags, sender, body);
    var a, b, c, d, e := Put32(16 + |body|), Put16(kind), Put16(flags), Put32(1), Put32(sender);
    var header := a + b + c + d + e;
    assert |header| == 16 && header + body <= m;
    assert forall k :: 0 <= k < 16 ==> m[k] == header[k];
    assert header == [] + a + (b + c + d + e);
    Shifted([], a, b + c + d + e, 0);
    assert header == a + b + (c + d + e);
    Shifted(a, b, c + d + e, 0);
    assert header == (a + b) + c + (d + e);
    Shifted(a + b, c, d + e, 0);
    Shifted(a + b + c, d, e, 0);
  }

  /** The loop passes one message. */
  lemma MessagePasses(pre: Bytes, kind: nat, flags: nat, sender: nat, body: Bytes, post: Bytes)
    requires kind < 0x1_0000 && flags < 0x1_0000 && sender < 0x1_0000_0000 && |body| + 16 < 0x1_0000_0000
    requires flags / 16 % 2 == 0
    ensures var m := Message(kind, flags, sender, body);
            var data := pre + m + post;
            Messages(data, |pre|, false) ==
              if kind == NLMSG_DONE then
                if |body| == 4 && U32(body, 0) == 0 then Messages(data, |pre + m|, true) else None
              else if kind == SOCK_DIAG_BY_FAMILY then
                if Diagnostic(body).None? then None
                else Joined([Diagnostic(body).value], Messages(data, |pre + m|, false))
              else None
  {
    hide Message, Diagnostic, U16, U32;
    var m := Message(kind, flags, sender, body);
    var data := pre + m + post;
    MessageFields(kind, flags, sender, body);
    Shifted(pre, m, post, 0);
    Shifted(pre, m, post, 4);
    Shifted(pre, m, post, 6);
    Shifted(pre, m, post, 8);
    assert data[|pre| + 16..|pre| + 16 + |body|] == m[16..16 + |body|];
  }

  lemma {:induction false} DumpIsRead(pre: Bytes, sockets: seq<Socket>, done: bool, records: seq<Record>)
    requires forall s :: s in sockets ==> IsSocket(s)
    requires |records| == |sockets| && forall k :: 0 <= k < |sockets| ==> Reading(sockets[k]) == Some(records[k])
    ensures Messages(pre + Dump(sockets, done), |pre|, false) == Some((records, done))
    decreases |sockets|
  {
    hide SocketMessage, Messages, Reading, IsSocket;
    var data := pre + Dump(sockets, done);
    if sockets == [] {
      EmptyDumpIsRead(pre, sockets, done);
      assert records == [];
    } else {
      var s, rest := sockets[0], Dump(sockets[1..], done);
      assert IsSocket(s) && Reading(s) == Some(records[0]);
      var m := SocketMessage(s);
      assert data == pre + m + rest;
      SocketStep(pre, s, rest, records[0]);
      DumpIsRead(pre + m, sockets[1..], done, records[1..]);
      assert [records[0]] + records[1..] == records;
    }
  }

  lemma EmptyDumpIsRead(pre: Bytes, sockets: seq<Socket>, done: bool)
    requires sockets == []
    ensures Messages(pre + Dump(sockets, done), |pre|, false) == Some(([], done))
  {
    hide Message, Messages;
    if done {
      DoneIsRead(pre, 0, 0, Put32(0));
    } else {
      assert pre + Dump(sockets, done) == pre;
      MessagesEnd(pre, done);
    }
  }

  lemma SocketStep(pre: Bytes, s: Socket, rest: Bytes, r: Record)
    requires IsSocket(s) && Reading(s) == Some(r)
    ensures var m := SocketMessage(s);
            Messages(pre + m + rest, |pre|, false) == Joined([r], Messages(pre + m + rest, |pre + m|, false))
  {
    hide Message, Messages, Reading, SocketBody, Diagnostic, Joined;
    MessagePasses(pre, SOCK_DIAG_BY_FAMILY, s.flags, s.sender, SocketBody(s), rest);
    SocketIsRead(s);
  }

  lemma DoneIsRead(pre: Bytes, flags: nat, sender: nat, status: Bytes)
    requires flags == 0 && sender == 0 && |status| == 4 && U32(status, 0) == 0
    ensures Messages(pre + Message(NLMSG_DONE, flags, sender, status), |pre|, false) == Some(([], true))
  {
    hide Message, Messages, Diagnostic, U32;
    var m := Message(NLMSG_DONE, flags, sender, status);
    MessagePasses(pre, NLMSG_DONE, flags, sender, status, []);
    assert pre + m + [] == pre + m;
    MessagesEnd(pre + m, true);
  }

  lemma MessagesEnd(data: Bytes, done: bool)
    ensures Messages(data, |data|, done) == Some(([], done))
  {
  }

  /** Every dump of sockets whose attributes are well formed is read back, with its end marker or not. */
  lemma DumpRoundTrip(sockets: seq<Socket>, done: bool, records: seq<Record>)
    requires forall s :: s in sockets ==> IsSocket(s)
    requires |records| == |sockets| && forall k :: 0 <= k < |sockets| ==> Reading(sockets[k]) == Some(records[k])
    ensures Messages(Dump(sockets, done), 0, false) == Some((records, done))
  {
    DumpIsRead([], sockets, done, records);
    assert [] + Dump(sockets, done) == Dump(sockets, done);
  }

  /** The attributes of a record: its path, whatever NULs close it, and its peer. */
  function AttributesOf(r: Record, nuls: nat): seq<Attribute>
    requires r.peer.Some? ==> r.peer.value < 0x1_0000_0000
  {
    (if r.path.Some? then [Attribute(UNIX_DIAG_NAME, r.path.value + Zeros(nuls))] else [])
    + (if r.peer.Some? then [Attribute(UNIX_DIAG_PEER, Put32(r.peer.value))] else [])
  }

  lemma {:induction false} TrimmedPath(path: Bytes, nuls: nat)
    requires path != [] ==> path[|path| - 1] != 0
    ensures Trimmed(path + Zeros(nuls)) == path
  {
    var s := path + Zeros(nuls);
    if nuls == 0 {
      assert s == path;
    } else {
      assert s[|s| - 1] == 0 && s[..|s| - 1] == path + Zeros(nuls - 1);
      TrimmedPath(path, nuls - 1);
    }
  }

  /** A record with a UTF-8 path that has no NUL at its end comes back as it was. */
  lemma RecordIsRead(r: Record, nuls: nat)
    requires r.peer.Some? ==> r.peer.value < 0x1_0000_0000
    requires r.path.Some? ==>
               Utf8.IsUtf8(r.path.value) && (r.path.value != [] ==> r.path.value[|r.path.value| - 1] != 0)
    ensures TakeAll(Record(r.inode, r.state, r.kind, None, None), AttributesOf(r, nuls)) == Some(r)
  {
    var bare := Record(r.inode, r.state, r.kind, None, None);
    var list := AttributesOf(r, nuls);
    var named := bare.(path := r.path);
    var peer := if r.peer.Some? then [Attribute(UNIX_DIAG_PEER, Put32(r.peer.value))] else [];
    assert TakeAll(named, peer) == Some(r) by {
      if r.peer.Some? {
        assert Take(named, UNIX_DIAG_PEER, Put32(r.peer.value)) == Some(r);
        assert peer[1..] == [];
      }
    }
    if r.path.Some? {
      TrimmedPath(r.path.value, nuls);
      assert Take(bare, list[0].tag, list[0].value) == Some(named);
      assert list[1..] == peer;
    } else {
      assert list == peer;
    }
  }

  // ----- what is refused ----------------------------------------------------------------------

  /** A message with any header, body and padding. */
  datatype Raw = Raw(kind: nat, flags: nat, sequence: nat, sender: nat, body: Bytes, pad: Bytes)

  predicate IsRaw(m: Raw) {
    && m.kind < 0x1_0000 && m.flags < 0x1_0000 && m.sequence < 0x1_0000_0000 && m.sender < 0x1_0000_0000
    && |m.body| + 16 < 0x1_0000_0000 && |m.pad| == Align4(16 + |m.body|) - (16 + |m.body|)
  }

  function RawHeader(m: Raw): (header: Bytes)
    requires IsRaw(m)
    ensures |header| == 16
  {
    Put32(16 + |m.body|) + Put16(m.kind) + Put16(m.flags) + Put32(m.sequence) + Put32(m.sender)
  }

  function RawBytes(m: Raw): (s: Bytes)
    requires IsRaw(m)
    ensures |s| == Align4(16 + |m.body|)
  {
    RawHeader(m) + m.body + m.pad
  }

  function RawDump(list: seq<Raw>): Bytes
    requires forall m :: m in list ==> IsRaw(m)
  {
    if list == [] then [] else RawBytes(list[0]) + RawDump(list[1..])
  }

  /** The bit that says that the inventory changed while it was taken. */
  predicate Interrupted(flags: nat) {
    flags % 32 >= 16
  }

  /** A message the parser can use: of this dump, not interrupted, and a UNIX socket or an end without error. */
  ghost predicate Usable(m: Raw) {
    && m.sequence == 1 && !Interrupted(m.flags)
    && (m.kind == 3 || (m.kind == 20 && Diagnostic(m.body).Some?))
    && (m.kind == 3 ==> m.body == [0, 0, 0, 0])
  }

  lemma RawFields(m: Raw)
    requires IsRaw(m)
    ensures var s := RawBytes(m);
            && U32(s, 0) == 16 + |m.body| && U16(s, 4) == m.kind && U16(s, 6) == m.flags && U32(s, 8) == m.sequence
            && s[16..16 + |m.body|] == m.body
  {
    var s, header := RawBytes(m), RawHeader(m);
    var a, b, c, d, e := Put32(16 + |m.body|), Put16(m.kind), Put16(m.flags), Put32(m.sequence), Put32(m.sender);
    assert forall k :: 0 <= k < 16 ==> s[k] == header[k];
    assert header == [] + a + (b + c + d + e);
    Shifted([], a, b + c + d + e, 0);
    assert header == a + b + (c + d + e);
    Shifted(a, b, c + d + e, 0);
    assert header == (a + b) + c + (d + e);
    Shifted(a + b, c, d + e, 0);
    Shifted(a + b + c, d, e, 0);
  }

  lemma FourZeros(body: Bytes)
    ensures |body| == 4 && U32(body, 0) == 0 <==> body == [0, 0, 0, 0]
  {
  }

  lemma InterruptedBit(flags: nat)
    ensures flags / 16 % 2 == 1 <==> Interrupted(flags)
  {
  }

  /** One message decides: it is refused, or it ends the inventory, or it is one more socket. */
  lemma RawPasses(pre: Bytes, m: Raw, post: Bytes, ended: bool)
    requires IsRaw(m)
    ensures var data, next := pre + RawBytes(m) + post, |pre + RawBytes(m)|;
            Messages(data, |pre|, ended) ==
              if ended || !Usable(m) then None
              else if m.kind == 3 then Messages(data, next, true)
              else Joined([Diagnostic(m.body).value], Messages(data, next, false))
  {
    hide RawBytes, Diagnostic, U16, U32, Interrupted;
    var s := RawBytes(m);
    RawFields(m);
    Shifted(pre, s, post, 0);
    Shifted(pre, s, post, 4);
    Shifted(pre, s, post, 6);
    Shifted(pre, s, post, 8);
    FourZeros(m.body);
    InterruptedBit(m.flags);
    assert (pre + s + post)[|pre| + 16..|pre| + 16 + |m.body|] == s[16..16 + |m.body|];
  }

  /** The sockets of usable messages. */
  ghost function Sockets(list: seq<Raw>): seq<Record>
    requires forall m :: m in list ==> Usable(m)
  {
    if list == [] then []
    else
      assert Usable(list[0]);
      (if list[0].kind == 3 then [] else [Diagnostic(list[0].body).value]) + Sockets(list[1..])
  }

  /** All messages are usable, and nothing follows the end of the inventory. */
  ghost predicate Complete(list: seq<Raw>) {
    && (forall m :: m in list ==> Usable(m))
    && forall k :: 0 <= k < |list| - 1 ==> list[k].kind != 3
  }

  /** Whatever the messages, and whatever stands in their padding: the parser accepts them if and only if each
      is usable and none follows the end. Then it returns the sockets, in order, and whether there was an end. */
  lemma {:induction false} AcceptedExactly(pre: Bytes, list: seq<Raw>)
    requires forall m :: m in list ==> IsRaw(m)
    ensures Messages(pre + RawDump(list), |pre|, false) ==
              if Complete(list) then Some((Sockets(list), list != [] && list[|list| - 1].kind == 3)) else None
    decreases |list|
  {
    hide Messages, RawBytes, Usable, Diagnostic, IsRaw;
    var data := pre + RawDump(list);
    if list == [] {
      assert data == pre;
      MessagesEnd(pre, false);
    } else {
      var m, rest := list[0], RawDump(list[1..]);
      var next := pre + RawBytes(m);
      assert data == pre + RawBytes(m) + rest && data == next + rest;
      RawPasses(pre, m, rest, false);
      CompleteBehind(list);
      if Usable(m) && m.kind == 3 {
        if list[1..] == [] {
          assert rest == [] && data == next && |list| == 1;
          assert Complete(list[1..]) && Sockets(list) == [];
          MessagesEnd(next, true);
        } else {
          var n, later := list[1], RawDump(list[2..]);
          assert list[1..][0] == n && list[1..][1..] == list[2..];
          assert data == next + RawBytes(n) + later;
          RawPasses(next, n, later, true);
        }
      } else if Usable(m) {
        AcceptedExactly(next, list[1..]);
        assert list[1..] != [] ==> list[1..][|list| - 2] == list[|list| - 1];
      }
    }
  }

  lemma CompleteBehind(list: seq<Raw>)
    requires list != []
    ensures Complete(list) <==> Usable(list[0]) && Complete(list[1..]) && (list[1..] != [] ==> list[0].kind != 3)
  {
    assert list == [list[0]] + list[1..];
    assert forall k :: 0 < k < |list| ==> list[k] == list[1..][k - 1];
    hide Usable;
    if Usable(list[0]) && Complete(list[1..]) && (list[1..] != [] ==> list[0].kind != 3) {
      forall k | 0 <= k < |list| - 1
        ensures list[k].kind != 3
      {
        if k > 0 { assert list[1..][k - 1].kind != 3; }
      }
    }
  }

  ghost predicate WellFormed(a: Attribute) {
    (a.tag == 0 ==> Utf8.IsUtf8(Trimmed(a.value))) && (a.tag == 2 ==> |a.value| == 4)
  }

  /** The attributes of a socket are refused if and only if a name is not UTF-8 or a peer is not four bytes. */
  lemma {:induction false} ReadingExactly(r: Record, list: seq<Attribute>)
    ensures TakeAll(r, list).Some? <==> forall a :: a in list ==> WellFormed(a)
    decreases |list|
  {
    if list != [] {
      assert list == [list[0]] + list[1..];
      TakeOne(r, list[0]);
      hide Take, WellFormed;
      var first := Take(r, list[0].tag, list[0].value);
      if first.Some? { ReadingExactly(first.value, list[1..]); }
    }
  }

  lemma TakeOne(r: Record, a: Attribute)
    ensures Take(r, a.tag, a.value).Some? <==> WellFormed(a)
    ensures WellFormed(a) ==>
              Take(r, a.tag, a.value).value ==
                if a.tag == 0 then r.(path := Some(Trimmed(a.value)))
                else if a.tag == 2 then r.(peer := Some(U32(a.value, 0))) else r
  {
  }

  /** Of several names or peers the last one stands, and other attributes change nothing. */
  lemma {:induction false} LastOneStands(r: Record, list: seq<Attribute>)
    requires TakeAll(r, list).Some?
    ensures var taken := TakeAll(r, list).value;
            && taken.inode == r.inode && taken.state == r.state && taken.kind == r.kind
            && ((forall a :: a in list ==> a.tag != 0) ==> taken.path == r.path)
            && ((forall a :: a in list ==> a.tag != 2) ==> taken.peer == r.peer)
            && (forall k :: LastOf(list, k, 0) ==> taken.path == Some(Trimmed(list[k].value)))
            && (forall k :: LastOf(list, k, 2) ==> |list[k].value| == 4 && taken.peer == Some(U32(list[k].value, 0)))
    decreases |list|
  {
    if list != [] {
      assert list == [list[0]] + list[1..];
      TakeOne(r, list[0]);
      assert list[0].tag == 2 ==> |list[0].value| == 4;
      hide Take, Trimmed, U32, WellFormed;
      LastOneStands(Take(r, list[0].tag, list[0].value).value, list[1..]);
      LastBehind(list, 0);
      LastBehind(list, 2);
      hide LastOf;
    }
  }

  predicate LastOf(list: seq<Attribute>, k: int, tag: nat) {
    0 <= k < |list| && list[k].tag == tag && forall j :: k < j < |list| ==> list[j].tag != tag
  }

  lemma LastBehind(list: seq<Attribute>, tag: nat)
    requires list != []
    ensures forall k :: k > 0 ==> (LastOf(list, k, tag) <==> LastOf(list[1..], k - 1, tag))
    ensures LastOf(list, 0, tag) <==> list[0].tag == tag && forall a :: a in list[1..] ==> a.tag != tag
  {
    assert forall k :: 0 < k < |list| ==> list[k] == list[1..][k - 1];
    forall k | k > 0
      ensures LastOf(list, k, tag) <==> LastOf(list[1..], k - 1, tag)
    {
      if LastOf(list[1..], k - 1, tag) {
        forall j | k < j < |list|
          ensures list[j].tag != tag
        {
          assert list[1..][j - 1].tag != tag;
        }
      }
    }
  }

  /** Where the message at `at` ends, the end of the data at the latest. */
  function FrameEnd(data: Bytes, at: nat): nat
    requires at + 4 <= |data|
  {
    var next := at + Align4(U32(data, at));
    if next <= |data| then next else |data|
  }

  lemma FrameFits(data: Bytes, at: nat, ended: bool)
    requires at < |data| && Messages(data, at, ended).Some?
    ensures at + 16 <= |data| && 16 <= U32(data, at) && at + U32(data, at) <= |data|
    ensures FrameEnd(data, at) < |data| ==> Messages(data, FrameEnd(data, at), U16(data, at + 4) == 3).Some?
  {
    hide U16, U32, Diagnostic;
  }

  lemma OneFrame(data: Bytes, at: nat) returns (m: Raw, cut: Bytes)
    requires at + 16 <= |data| && 16 <= U32(data, at) && at + U32(data, at) <= |data|
    ensures IsRaw(m) && |cut| < 4 && at < FrameEnd(data, at) <= |data|
    ensures data[at..FrameEnd(data, at)] + cut == RawBytes(m) && (cut != [] ==> FrameEnd(data, at) == |data|)
  {
    var length, end := U32(data, at), FrameEnd(data, at);
    var body := data[at + 16..at + length];
    cut := Zeros(at + Align4(length) - end);
    var pad := data[at + length..end] + cut;
    m := Raw(U16(data, at + 4), U16(data, at + 6), U32(data, at + 8), U32(data, at + 12), body, pad);
    HeaderIs(data, at, m);
    hide U16, U32, RawHeader;
    var head, tail := data[at..at + 16], data[at + length..end];
    assert data[at..end] == head + body + tail;
    assert head + body + tail + cut == head + body + (tail + cut);
  }

  /** Every dump that is accepted is made of messages, the padding of the last one perhaps cut off. */
  lemma {:induction false} AcceptedIsFramed(data: Bytes, at: nat, ended: bool) returns (list: seq<Raw>, cut: Bytes)
    requires at <= |data| && Messages(data, at, ended).Some?
    ensures |cut| < 4 && (forall m :: m in list ==> IsRaw(m)) && data[at..] + cut == RawDump(list)
    decreases |data| - at
  {
    hide Messages, RawBytes, IsRaw, FrameEnd, U16, U32;
    if at == |data| {
      list, cut := [], [];
    } else {
      FrameFits(data, at, ended);
      var m, one := OneFrame(data, at);
      var next := FrameEnd(data, at);
      var rest := [];
      cut := one;
      if next < |data| {
        rest, cut := AcceptedIsFramed(data, next, U16(data, at + 4) == 3);
      }
      list := [m] + rest;
      assert list[1..] == rest;
      Spliced(data, at, next, one, cut, RawBytes(m), RawDump(rest));
    }
  }

  lemma Spliced(data: Bytes, at: nat, next: nat, one: Bytes, cut: Bytes, first: Bytes, rest: Bytes)
    requires at <= next <= |data| && data[at..next] + one == first && (one != [] ==> next == |data|)
    requires if next < |data| then data[next..] + cut == rest else cut == one && rest == []
    ensures data[at..] + cut == first + rest
  {
    if next < |data| {
      assert data[at..] == data[at..next] + data[next..];
    }
  }

  lemma PutBack16(s: Bytes, at: nat)
    requires at + 2 <= |s|
    ensures Put16(U16(s, at)) == s[at..at + 2]
  {
    assert U16(s, at) % 0x100 == s[at] as nat && U16(s, at) / 0x100 == s[at + 1] as nat;
  }

  lemma PutBack32(s: Bytes, at: nat)
    requires at + 4 <= |s|
    ensures Put32(U32(s, at)) == s[at..at + 4]
  {
    PutBack16(s, at);
    PutBack16(s, at + 2);
    assert U32(s, at) % 0x1_0000 == U16(s, at) && U32(s, at) / 0x1_0000 == U16(s, at + 2);
    assert s[at..at + 4] == s[at..at + 2] + s[at + 2..at + 4];
  }

  lemma HeaderIs(data: Bytes, at: nat, m: Raw)
    requires at + 16 <= |data| && U32(data, at) == 16 + |m.body| && IsRaw(m)
    requires m.kind == U16(data, at + 4) && m.flags == U16(data, at + 6) && m.sequence == U32(data, at + 8)
    requires m.sender == U32(data, at + 12)
    ensures RawHeader(m) == data[at..at + 16]
  {
    PutBack32(data, at);
    PutBack16(data, at + 4);
    PutBack16(data, at + 6);
    PutBack32(data, at + 8);
    PutBack32(data, at + 12);
    hide U16, U32, Put16, Put32;
    assert data[at..at + 16] == data[at..at + 4] + data[at + 4..at + 6] + data[at + 6..at + 8] + data[at + 8..at + 12]
                                + data[at + 12..at + 16];
  }
}

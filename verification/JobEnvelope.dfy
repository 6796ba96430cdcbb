/** One reply line of the Darwin helper: a JSON object that carries a proof's output and diagnostics. */
module JobEnvelope {
  import opened Base
  import opened Decimals
  import Utf8

  const MAX_JOB_OUTPUT: nat := 1048576
  const MAX_REQUEST_ID: nat := 9007199254740991
  const LF: byte := 10
  const QUOTE: byte := 34
  const BACKSLASH: byte := 92

  type size_t = n: int | 0 <= n < 0x1_0000_0000_0000_0000

  // ----- JSON strings (section 7 of RFC 8259) -----------------------------------------------

  function HexDigit(d: nat): byte
    requires d < 16
  {
    if d < 10 then (48 + d) as byte else (87 + d) as byte
  }

  function EscapeOne(c: byte): (s: Bytes)
    ensures 1 <= |s| <= 6
  {
    if c == QUOTE || c == BACKSLASH then [BACKSLASH, c]
    else if c < 0x20 then [BACKSLASH, 117, 48, 48, HexDigit(c as nat / 16), HexDigit(c as nat % 16)]
    else [c]
  }

  function Escaped(text: Bytes): Bytes {
    if text == [] then [] else EscapeOne(text[0]) + Escaped(text[1..])
  }

  function Quoted(text: Bytes): Bytes {
    [QUOTE] + Escaped(text) + [QUOTE]
  }

  function HexValue(c: byte): Option<nat> {
    if 48 <= c <= 57 then Some(c as nat - 48)
    else if 97 <= c <= 102 then Some(c as nat - 87)
    else if 65 <= c <= 70 then Some(c as nat - 55)
    else None
  }

  function Hex4(s: Bytes, at: nat): Option<nat> {
    if at + 4 > |s| then None
    else
      match (HexValue(s[at]), HexValue(s[at + 1]), HexValue(s[at + 2]), HexValue(s[at + 3]))
      case (Some(a), Some(b), Some(c), Some(d)) => Some(a * 4096 + b * 256 + c * 16 + d)
      case _ => None
  }

  /** What the escape sequence at the front stands for, in UTF-8, and how long it is. Surrogates count
      only as a pair. */
  function Unescape(s: Bytes): (r: Option<(Bytes, nat)>)
    ensures r.Some? ==> 2 <= r.value.1 <= |s|
  {
    if |s| < 2 || s[0] != BACKSLASH then None
    else if s[1] == QUOTE || s[1] == BACKSLASH || s[1] == 47 then Some(([s[1]], 2))
    else if s[1] == 98 then Some(([8], 2))
    else if s[1] == 102 then Some(([12], 2))
    else if s[1] == 110 then Some(([10], 2))
    else if s[1] == 114 then Some(([13], 2))
    else if s[1] == 116 then Some(([9], 2))
    else if s[1] != 117 then None
    else
      match Hex4(s, 2)
      case None => None
      case Some(u) =>
        if u < 0xd800 || 0xe000 <= u <= 0xffff then Some((Utf8.EncodeOne(u), 6))
        else if u <= 0xdbff && 12 <= |s| && s[6] == BACKSLASH && s[7] == 117 then
          match Hex4(s, 8)
          case None => None
          case Some(v) =>
            if 0xdc00 <= v <= 0xdfff then
              Some((Utf8.EncodeOne(0x10000 + (u - 0xd800) * 0x400 + (v - 0xdc00)), 12))
            else None
        else None
  }

  /** A string's contents up to its closing quote, and what stands behind it. */
  function Unquote(s: Bytes): Option<(Bytes, Bytes)>
    decreases |s|
  {
    if s == [] || s[0] < 0x20 then None
    else if s[0] == QUOTE then Some(([], s[1..]))
    else if s[0] == BACKSLASH then
      match Unescape(s)
      case None => None
      case Some((first, n)) =>
        match Unquote(s[n..])
        case None => None
        case Some((text, rest)) => Some((first + text, rest))
    else
      match Unquote(s[1..])
      case None => None
      case Some((text, rest)) => Some(([s[0]] + text, rest))
  }

  function ParseString(s: Bytes): Option<(Bytes, Bytes)> {
    if s == [] || s[0] != QUOTE then None else Unquote(s[1..])
  }

  lemma HexReads(d: nat)
    requires d < 16
    ensures HexValue(HexDigit(d)) == Some(d)
  {
  }

  lemma EscapeReads(c: byte, rest: Bytes)
    requires c == QUOTE || c == BACKSLASH || c < 0x20
    ensures Unescape(EscapeOne(c) + rest) == Some(([c], |EscapeOne(c)|))
  {
    var s := EscapeOne(c) + rest;
    if c < 0x20 {
      HexReads(c as nat / 16);
      HexReads(c as nat % 16);
      HexReads(0);
      assert Hex4(s, 2) == Some(c as nat);
    }
  }

  lemma {:induction false} EscapedReads(text: Bytes, rest: Bytes)
    ensures Unquote(Escaped(text) + [QUOTE] + rest) == Some((text, rest))
    decreases |text|
  {
    var s := Escaped(text) + [QUOTE] + rest;
    if text == [] {
      assert s == [QUOTE] + rest && s[1..] == rest;
    } else {
      var c, n := text[0], |EscapeOne(text[0])|;
      var others := Escaped(text[1..]) + [QUOTE] + rest;
      assert s == EscapeOne(c) + others && s[n..] == others;
      EscapedReads(text[1..], rest);
      if c == QUOTE || c == BACKSLASH || c < 0x20 {
        EscapeReads(c, others);
      }
      assert [c] + text[1..] == text;
    }
  }

  /** Reading what was printed gives back the text, byte for byte, whatever follows it. */
  lemma QuotedReads(text: Bytes, rest: Bytes)
    ensures ParseString(Quoted(text) + rest) == Some((text, rest))
  {
    EscapedReads(text, rest);
    assert (Quoted(text) + rest)[1..] == Escaped(text) + [QUOTE] + rest;
  }

  predicate Printable(s: Bytes) {
    forall k :: 0 <= k < |s| ==> s[k] >= 0x20
  }

  /** Nothing printed is a control byte; in particular a quoted text stays on its line. */
  lemma {:induction false} EscapedIsPrintable(text: Bytes)
    ensures Printable(Escaped(text))
  {
    if text != [] {
      EscapedIsPrintable(text[1..]);
      assert Printable(EscapeOne(text[0]));
    }
  }

  lemma {:induction false} EncodeAppends(a: seq<Utf8.Scalar>, b: seq<Utf8.Scalar>)
    ensures Utf8.Encode(a + b) == Utf8.Encode(a) + Utf8.Encode(b)
  {
    if a == [] {
      assert a + b == b;
    } else {
      assert (a + b)[1..] == a[1..] + b;
      EncodeAppends(a[1..], b);
    }
  }

  lemma Utf8Appends(a: Bytes, b: Bytes)
    requires Utf8.IsUtf8(a) && Utf8.IsUtf8(b)
    ensures Utf8.IsUtf8(a + b)
  {
    var x :| Utf8.Encode(x) == a;
    var y :| Utf8.Encode(y) == b;
    EncodeAppends(x, y);
  }

  lemma {:induction false} AsciiIsUtf8(s: Bytes)
    requires forall k :: 0 <= k < |s| ==> s[k] < 0x80
    ensures Utf8.IsUtf8(s)
  {
    if s == [] {
      assert Utf8.Encode([]) == [];
    } else {
      AsciiIsUtf8(s[1..]);
      assert Utf8.Encode([s[0] as nat]) == [s[0]];
      Utf8Appends([s[0]], s[1..]);
      assert s == [s[0]] + s[1..];
    }
  }

  /** A text that is UTF-8 is printed as UTF-8: escaping never cuts a scalar. */
  lemma {:induction false} EscapedIsUtf8(text: seq<Utf8.Scalar>)
    ensures Utf8.IsUtf8(Escaped(Utf8.Encode(text)))
  {
    if text == [] {
      assert Utf8.Encode([]) == [];
    } else {
      var front, back := Utf8.EncodeOne(text[0]), Utf8.Encode(text[1..]);
      EscapedIsUtf8(text[1..]);
      if text[0] < 0x80 {
        assert Utf8.Encode(text) == [front[0]] + back;
        AsciiIsUtf8(EscapeOne(front[0]));
        Utf8Appends(EscapeOne(front[0]), Escaped(back));
      } else {
        assert Utf8.Encode([text[0]]) == front;
        HighBytesStand(front, back);
        Utf8Appends(front, Escaped(back));
      }
    }
  }

  lemma {:induction false} HighBytesStand(front: Bytes, back: Bytes)
    requires forall k :: 0 <= k < |front| ==> front[k] >= 0x80
    ensures Escaped(front + back) == front + Escaped(back)
  {
    if front == [] {
      assert front + back == back;
    } else {
      assert (front + back)[1..] == front[1..] + back;
      HighBytesStand(front[1..], back);
    }
  }

  // ----- printing ---------------------------------------------------------------------------

  lemma {:induction false} EscapedAppends(a: Bytes, c: byte)
    ensures Escaped(a + [c]) == Escaped(a) + EscapeOne(c)
  {
    if a == [] {
      assert [] + [c] == [c];
    } else {
      assert (a + [c])[1..] == a[1..] + [c];
      EscapedAppends(a[1..], c);
    }
  }

  method PrintString(text: Bytes) returns (out: Bytes)
    ensures out == Quoted(CString(text))
  {
    out := [QUOTE];
    var p := 0;
    while p < |text| && text[p] != 0
      invariant p <= |text| && 0 !in text[..p]
      invariant out == [QUOTE] + Escaped(text[..p])
    {
      EscapedAppends(text[..p], text[p]);
      assert text[..p + 1] == text[..p] + [text[p]];
      if text[p] == QUOTE || text[p] == BACKSLASH { out := out + [BACKSLASH, text[p]]; }
      else if text[p] < 0x20 {
        out := out + [BACKSLASH, 117, 48, 48, HexDigit(text[p] as nat / 16), HexDigit(text[p] as nat % 16)];
      } else { out := out + [text[p]]; }
      p := p + 1;
    }
    CStringEnds(text, p);
    out := out + [QUOTE];
  }

  // ----- the envelope -----------------------------------------------------------------------

  /** {"id": */
  const OPENING: Bytes := [123, 34, 105, 100, 34, 58]
  /** ,"ok": */
  const OK_KEY: Bytes := [44, 34, 111, 107, 34, 58]
  const TRUE: Bytes := [116, 114, 117, 101]
  const FALSE: Bytes := [102, 97, 108, 115, 101]
  const NULL: Bytes := [110, 117, 108, 108]
  /** ,"result": */
  const RESULT_KEY: Bytes := [44, 34, 114, 101, 115, 117, 108, 116, 34, 58]
  /** ,"stderr": */
  const STDERR_KEY: Bytes := [44, 34, 115, 116, 100, 101, 114, 114, 34, 58]
  /** } and the line's end */
  const CLOSING: Bytes := [125, LF]

  function Envelope(id: nat, succeeded: bool, result: Bytes, stderr: Bytes): Bytes {
    OPENING + Digits(id) + OK_KEY + (if succeeded then TRUE else FALSE) + RESULT_KEY + result
    + STDERR_KEY + Quoted(stderr) + CLOSING
  }

  // ----- reading a reply ----------------------------------------------------------------------

  // The members of a reply, as its readers know them.
  const ID_MEMBER := "{\"id\":"
  const OK_TRUE := ",\"ok\":true,\"result\":"
  const OK_FALSE := ",\"ok\":false,\"result\":null"
  const STDERR_MEMBER := ",\"stderr\":"
  const REPLY_END := "}\n"

  function Ascii(text: string): Bytes {
    seq(|text|, i requires 0 <= i < |text| => (text[i] as int % 128) as byte)
  }

  function After(prefix: Bytes, s: Bytes): Option<Bytes> {
    if prefix <= s then Some(s[|prefix|..]) else None
  }

  /** What follows the digits at the front. */
  function DigitsEnd(s: Bytes): (n: nat)
    ensures n <= |s| && (forall k :: 0 <= k < n ==> 48 <= s[k] <= 57) && (n < |s| ==> !(48 <= s[n] <= 57))
  {
    if s == [] || !(48 <= s[0] <= 57) then 0 else 1 + DigitsEnd(s[1..])
  }

  /** What follows the object at the front: its braces and brackets are counted, outside strings. */
  function ObjectEnd(s: Bytes, depth: nat): Option<Bytes>
    decreases |s|
  {
    if s == [] then None
    else if s[0] == 123 || s[0] == 91 then ObjectEnd(s[1..], depth + 1)
    else if s[0] == 125 || s[0] == 93 then
      if depth == 0 then None else if depth == 1 then Some(s[1..]) else ObjectEnd(s[1..], depth - 1)
    else if s[0] == QUOTE then
      match Unquote(s[1..])
      case None => None
      case Some((_, rest)) => if |rest| < |s| then ObjectEnd(rest, depth) else None
    else ObjectEnd(s[1..], depth)
  }

  datatype Reply = Reply(id: nat, ok: bool, result: Bytes, stderr: Bytes)

  /** A client's reading of a line: the members of the object in their order, `null` as the result of a
      refusal, an object otherwise, and nothing behind the line feed. */
  function ReadReply(line: Bytes): Option<Reply> {
    match After(Ascii(ID_MEMBER), line)
    case None => None
    case Some(s) => var n := DigitsEnd(s); if n == 0 then None else ReadResult(Value(s[..n]), s[n..])
  }

  function ReadResult(id: nat, s: Bytes): Option<Reply> {
    if After(Ascii(OK_TRUE), s).Some? then
      var t := After(Ascii(OK_TRUE), s).value;
      match ObjectEnd(t, 0)
      case None => None
      case Some(rest) =>
        if t == [] || t[0] != 123 || |rest| > |t| then None else ReadRest(id, true, t[..|t| - |rest|], rest)
    else
      match After(Ascii(OK_FALSE), s)
      case None => None
      case Some(rest) => ReadRest(id, false, Ascii("null"), rest)
  }

  function ReadRest(id: nat, ok: bool, result: Bytes, rest: Bytes): Option<Reply> {
    match After(Ascii(STDERR_MEMBER), rest)
    case None => None
    case Some(quoted) =>
      match ParseString(quoted)
      case Some((stderr, end)) => if end == Ascii(REPLY_END) then Some(Reply(id, ok, result, stderr)) else None
      case None => None
  }

  lemma AfterReads(prefix: Bytes, rest: Bytes)
    ensures After(prefix, prefix + rest) == Some(rest)
  {
  }

  lemma {:induction false} DigitsEndReads(text: Bytes, rest: Bytes)
    requires forall k :: 0 <= k < |text| ==> IsDigit(text[k])
    requires rest == [] || !IsDigit(rest[0])
    ensures DigitsEnd(text + rest) == |text|
  {
    if text == [] {
      assert text + rest == rest;
    } else {
      assert (text + rest)[1..] == text[1..] + rest;
      DigitsEndReads(text[1..], rest);
    }
  }

  lemma UnescapeIsLocal(s: Bytes, t: Bytes)
    requires Unescape(s).Some?
    ensures Unescape(s + t) == Unescape(s)
  {
    if s[1] == 117 {
      Hex4IsLocal(s, t, 2);
      if Hex4(s, 8).Some? { Hex4IsLocal(s, t, 8); }
    }
  }

  lemma Hex4IsLocal(s: Bytes, t: Bytes, at: nat)
    requires Hex4(s, at).Some?
    ensures Hex4(s + t, at) == Hex4(s, at)
  {
  }

  lemma {:induction false} UnquoteIsLocal(s: Bytes, t: Bytes)
    requires Unquote(s).Some?
    ensures Unquote(s + t) == Some((Unquote(s).value.0, Unquote(s).value.1 + t))
    ensures |Unquote(s).value.1| < |s|
    decreases |s|
  {
    if s[0] == QUOTE {
      assert (s + t)[1..] == s[1..] + t;
    } else if s[0] == BACKSLASH {
      UnescapeIsLocal(s, t);
      var n := Unescape(s).value.1;
      assert (s + t)[n..] == s[n..] + t;
      UnquoteIsLocal(s[n..], t);
    } else {
      assert (s + t)[1..] == s[1..] + t;
      UnquoteIsLocal(s[1..], t);
    }
  }

  lemma {:induction false} ObjectEndIsLocal(s: Bytes, t: Bytes, depth: nat)
    requires ObjectEnd(s, depth).Some?
    ensures ObjectEnd(s + t, depth) == Some(ObjectEnd(s, depth).value + t)
    decreases |s|
  {
    assert (s + t)[1..] == s[1..] + t;
    if s[0] == 123 || s[0] == 91 {
      ObjectEndIsLocal(s[1..], t, depth + 1);
    } else if s[0] == 125 || s[0] == 93 {
      if depth > 1 { ObjectEndIsLocal(s[1..], t, depth - 1); }
    } else if s[0] == QUOTE {
      UnquoteIsLocal(s[1..], t);
      ObjectEndIsLocal(Unquote(s[1..]).value.1, t, depth);
    } else {
      ObjectEndIsLocal(s[1..], t, depth);
    }
  }

  /** The output of a proof, without its line feed: one whole object. */
  predicate IsObject(s: Bytes) {
    s != [] && s[0] == 123 && ObjectEnd(s, 0) == Some([])
  }

  lemma TailReads(id: nat, ok: bool, result: Bytes, stderr: Bytes)
    ensures ReadRest(id, ok, result, STDERR_KEY + Quoted(stderr) + CLOSING) == Some(Reply(id, ok, result, stderr))
  {
    assert STDERR_KEY == Ascii(STDERR_MEMBER) && CLOSING == Ascii(REPLY_END);
    var rest := STDERR_KEY + Quoted(stderr) + CLOSING;
    assert rest == STDERR_KEY + (Quoted(stderr) + CLOSING);
    AfterReads(STDERR_KEY, Quoted(stderr) + CLOSING);
    QuotedReads(stderr, CLOSING);
  }

  /** A client reads back from a reply what it was made of: the request's number, how the job ended, its result
      and its diagnostics. */
  lemma ReplyReads(id: nat, succeeded: bool, result: Bytes, stderr: Bytes)
    requires if succeeded then IsObject(result) else result == NULL
    ensures ReadReply(Envelope(id, succeeded, result, stderr)) == Some(Reply(id, succeeded, result, stderr))
  {
    var tail := STDERR_KEY + Quoted(stderr) + CLOSING;
    var more := OkMember(succeeded) + result + tail;
    Regroup(OPENING, Digits(id), OK_KEY, if succeeded then TRUE else FALSE, RESULT_KEY, result, STDERR_KEY,
            Quoted(stderr), CLOSING);
    assert Envelope(id, succeeded, result, stderr) == OPENING + (Digits(id) + more);
    assert OPENING == Ascii(ID_MEMBER);
    assert more != [] && !IsDigit(more[0]);
    TailReads(id, succeeded, result, stderr);
    ResultReads(id, succeeded, result, tail);
    hide Ascii, ReadResult, ReadRest, OkMember, Quoted, Digits, Envelope, Value;
    AfterReads(OPENING, Digits(id) + more);
    DigitsEndReads(Digits(id), more);
    DigitsRead(id);
    CutAt(Digits(id), more);
  }

  lemma Regroup(a: Bytes, b: Bytes, c: Bytes, d: Bytes, e: Bytes, f: Bytes, g: Bytes, h: Bytes, i: Bytes)
    ensures a + b + c + d + e + f + g + h + i == a + (b + (c + d + e + f + (g + h + i)))
  {
  }

  lemma CutAt(a: Bytes, b: Bytes)
    ensures (a + b)[..|a|] == a && (a + b)[|a|..] == b
  {
  }

  lemma ResultReads(id: nat, succeeded: bool, result: Bytes, tail: Bytes)
    requires if succeeded then IsObject(result) else result == NULL
    ensures ReadResult(id, OkMember(succeeded) + result + tail) == ReadRest(id, succeeded, result, tail)
  {
    if succeeded {
      TrueReads(result + tail);
      assert OkMember(true) + result + tail == OkMember(true) + (result + tail);
      ObjectEndIsLocal(result, tail, 0);
      assert [] + tail == tail && (result + tail)[..|result|] == result;
    } else {
      FalseReads(tail);
      assert NULL == Ascii("null");
    }
    hide After, Ascii, ReadRest, OkMember, ObjectEnd;
  }

  lemma TrueReads(rest: Bytes)
    ensures After(Ascii(OK_TRUE), OkMember(true) + rest) == Some(rest)
  {
    assert OkMember(true) == Ascii(OK_TRUE);
  }

  lemma FalseReads(rest: Bytes)
    ensures After(Ascii(OK_TRUE), OkMember(false) + NULL + rest) == None
    ensures After(Ascii(OK_FALSE), OkMember(false) + NULL + rest) == Some(rest)
  {
    assert OkMember(false) + NULL == Ascii(OK_FALSE);
    assert Ascii(OK_TRUE)[6] != (OkMember(false) + NULL + rest)[6];
  }

  function OkMember(succeeded: bool): Bytes {
    OK_KEY + (if succeeded then TRUE else FALSE) + RESULT_KEY
  }

  /** The frame around the result and the quoted diagnostics takes less than the 256 bytes set aside. */
  lemma EnvelopeSize(id: nat, succeeded: bool, result: Bytes, stderr: Bytes)
    requires id <= MAX_REQUEST_ID
    ensures |Envelope(id, succeeded, result, stderr)| <= |result| + |Quoted(stderr)| + 55
  {
    assert Power10(4) == 10000 && Power10(8) == 10000 * Power10(4) by {
      assert Power10(2) == 100 && Power10(6) == 100 * Power10(4);
    }
    assert Power10(12) == 10000 * Power10(8) by { assert Power10(10) == 100 * Power10(8); }
    assert Power10(16) == 10000 * Power10(12) by { assert Power10(14) == 100 * Power10(12); }
    DigitsLength(id, 16);
  }

  /** A reply is one line when its result is: the only line feed is its last byte. */
  lemma EnvelopeIsOneLine(id: nat, succeeded: bool, result: Bytes, stderr: Bytes)
    requires LF !in result
    ensures var line := Envelope(id, succeeded, result, stderr);
            line[|line| - 1] == LF && LF !in line[..|line| - 1]
  {
    EscapedIsPrintable(stderr);
    assert LF !in Quoted(stderr);
    assert LF !in Digits(id);
    var frame := OPENING + Digits(id) + OK_KEY + (if succeeded then TRUE else FALSE) + RESULT_KEY;
    assert LF !in frame;
    var line := Envelope(id, succeeded, result, stderr);
    assert line[..|line| - 1] == frame + result + STDERR_KEY + Quoted(stderr) + [125];
  }

  /** The size of the quoted text as the helper counts it, byte by byte. It runs on past a NUL, where
      the printed string stops. */
  lemma {:induction false} CountedSize(text: Bytes)
    ensures |Quoted(CString(text))| <= |Quoted(text)|
    ensures |Quoted(CString(text))| == |Quoted(text)| <==> 0 !in text
  {
    if text != [] && text[0] != 0 {
      CountedSize(text[1..]);
      assert CString(text)[1..] == CString(text[1..]);
      assert 0 in text <==> 0 in text[1..];
    } else if text != [] {
      assert text[0] in text;
    }
  }

  /** What the proof wrote can be released: one JSON object with a line feed, or nothing on refusal. */
  predicate Framed(succeeded: bool, output: Bytes) {
    if succeeded then
      |output| >= 3 && output[0] == 123 && output[|output| - 2] == 125 && output[|output| - 1] == LF
    else output == []
  }

  function Result(succeeded: bool, output: Bytes): Bytes {
    if succeeded && output != [] then output[..|output| - 1] else NULL
  }

  /** The size of the diagnostics as a JSON string, unless it passes the limit. */
  method EncodedError(error: Bytes) returns (fits: bool, size: size_t)
    ensures fits <==> |Quoted(error)| <= MAX_JOB_OUTPUT
    ensures fits ==> size == |Quoted(error)|
  {
    size := 2;
    for i := 0 to |error|
      invariant size <= MAX_JOB_OUTPUT
      invariant |Quoted(error)| == size + |Escaped(error[i..])|
    {
      assert error[i..][1..] == error[i + 1..];
      var c := error[i];
      var extra: size_t := if c < 0x20 then 6 else if c == QUOTE || c == BACKSLASH then 2 else 1;
      var left: size_t := MAX_JOB_OUTPUT - extra;
      if size > left { return false, 0; }
      size := size + extra;
    }
    fits := true;
  }

  /** One job's reply. It is sent exactly when both streams were written, the output has its form, and
      the parts fit; then it fits the limit as a whole. `size_t` keeps every difference from wrapping. */
  method ServeJob(id: nat, succeeded: bool, output: Bytes, error: Bytes, written: bool, sent: bool)
    returns (valid: bool, line: Bytes)
    requires id <= MAX_REQUEST_ID && |output| < 0x1_0000_0000_0000_0000 && |error| < 0x1_0000_0000_0000_0000
    ensures valid <==>
              && written && sent && Framed(succeeded, output) && |output| + |error| <= MAX_JOB_OUTPUT
              && |Quoted(error)| + |Result(succeeded, output)| + 256 <= MAX_JOB_OUTPUT
    ensures valid ==>
              line == Envelope(id, succeeded, if succeeded then output[..|output| - 1] else NULL, CString(error))
    ensures valid ==> |line| <= MAX_JOB_OUTPUT - 201
  {
    line := [];
    var outputSize: size_t, errorSize: size_t := |output|, |error|;
    valid := written && outputSize <= MAX_JOB_OUTPUT;
    if valid {
      var left: size_t := MAX_JOB_OUTPUT - outputSize;
      valid := errorSize <= left;
    }
    if succeeded {
      valid := valid && outputSize >= 3 && output[0] == 123;
      valid := valid && output[outputSize - 2] == 125 && output[outputSize - 1] == LF;
    } else {
      valid := valid && outputSize == 0;
    }
    if !valid { return; }
    var fits, encoded := EncodedError(error);
    if !fits { return false, []; }
    var resultSize: size_t := if succeeded && outputSize > 0 then outputSize - 1 else 4;
    if encoded > MAX_JOB_OUTPUT - 256 { return false, []; }
    var left: size_t := MAX_JOB_OUTPUT - 256 - encoded;
    if resultSize > left { return false, []; }
    var quoted := PrintString(error);
    line := OPENING + Digits(id) + OK_KEY + (if succeeded then TRUE else FALSE) + RESULT_KEY;
    line := line + (if succeeded then output[..outputSize - 1] else NULL);
    line := line + STDERR_KEY + quoted + CLOSING;
    EnvelopeSize(id, succeeded, Result(succeeded, output), CString(error));
    CountedSize(error);
    valid := sent;
  }
}

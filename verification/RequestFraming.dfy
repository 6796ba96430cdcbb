/** The request lines both proof helpers read: one specification, and the two loops that implement it.

    The C loop cuts the line in place and the Python loop calls `split`. They differ in one thing only,
    the longest line they take. */
module RequestFraming {
  import opened Base
  import opened Decimals

  const SPACE: byte := 32
  const LF: byte := 10
  const MAX_REQUEST_LINE: nat := 4096
  const MAX_REQUEST_TOKENS: nat := 10
  const MAX_REQUEST_ID: nat := 9007199254740991

  // ----- fields -----------------------------------------------------------------------------

  /** The length of what stands before the first `c`. */
  function Before(s: Bytes, c: byte): (n: nat)
    ensures n <= |s| && c !in s[..n] && (n < |s| ==> s[n] == c)
  {
    if s == [] || s[0] == c then 0 else
      var n := Before(s[1..], c);
      assert s[..n + 1] == [s[0]] + s[1..][..n];
      n + 1
  }

  lemma BeforeIs(s: Bytes, c: byte, n: nat)
    requires n <= |s| && c !in s[..n] && (n < |s| ==> s[n] == c)
    ensures Before(s, c) == n
  {
    var m := Before(s, c);
    assert forall k :: 0 <= k < n ==> s[k] == s[..n][k];
    assert forall k :: 0 <= k < m ==> s[k] == s[..m][k];
  }

  /** What stands between the spaces. */
  function Fields(s: Bytes): (fields: seq<Bytes>)
    ensures fields != []
    decreases |s|
  {
    var n := Before(s, SPACE);
    if n == |s| then [s] else [s[..n]] + Fields(s[n + 1..])
  }

  function Join(fields: seq<Bytes>): Bytes
    requires fields != []
  {
    if |fields| == 1 then fields[0] else fields[0] + [SPACE] + Join(fields[1..])
  }

  lemma {:induction false} FieldsJoin(s: Bytes)
    ensures Join(Fields(s)) == s
    ensures forall f :: f in Fields(s) ==> SPACE !in f
    decreases |s|
  {
    var n := Before(s, SPACE);
    if n < |s| {
      FieldsJoin(s[n + 1..]);
      assert Fields(s)[1..] == Fields(s[n + 1..]);
      assert s == s[..n] + [SPACE] + s[n + 1..];
    }
  }

  /** Joining and splitting are inverse: a request has one reading. */
  lemma {:induction false} JoinSplits(fields: seq<Bytes>)
    requires fields != [] && forall f :: f in fields ==> SPACE !in f
    ensures Fields(Join(fields)) == fields
  {
    var s, first := Join(fields), fields[0];
    assert first in fields;
    if |fields| == 1 {
      BeforeIs(s, SPACE, |s|);
      assert s[..|s|] == s;
    } else {
      var rest := Join(fields[1..]);
      assert s[..|first|] == first && s[|first| + 1..] == rest;
      BeforeIs(s, SPACE, |first|);
      JoinSplits(fields[1..]);
    }
  }

  predicate WellSpaced(fields: seq<Bytes>) {
    && |fields| <= MAX_REQUEST_TOKENS
    && forall k :: 0 <= k < |fields| ==> fields[k] != []
  }

  // ----- requests ---------------------------------------------------------------------------

  datatype Request = Request(id: nat, arguments: seq<Bytes>)

  /** A payload stands for a request: 2 to 10 nonempty fields, the first a new number. */
  function Parse(payload: Bytes, previous: nat): Option<Request> {
    var fields := Fields(payload);
    if 2 <= |fields| && WellSpaced(fields) && IsDecimal(fields[0]) && previous < Value(fields[0]) <= MAX_REQUEST_ID
    then Some(Request(Value(fields[0]), fields[1..]))
    else None
  }

  predicate Visible(s: Bytes) {
    forall k :: 0 <= k < |s| ==> 0x20 <= s[k] <= 0x7e
  }

  datatype Line = End | Bad | Payload(text: Bytes, rest: Bytes)

  /** The next line of a stream, when lines may have up to `limit` bytes. */
  function NextLine(s: Bytes, limit: nat): Line {
    var n := Before(s, LF);
    if s == [] then End
    else if n == |s| || n > limit || !Visible(s[..n]) then Bad
    else Payload(s[..n], s[n + 1..])
  }

  /** The jobs a stream starts, and whether it ended well. `outcome` says which jobs succeed. */
  function Serve(s: Bytes, limit: nat, previous: nat, outcome: seq<bool>): (seq<Request>, bool)
    decreases |s|
  {
    match NextLine(s, limit)
    case End => ([], true)
    case Bad => ([], false)
    case Payload(text, rest) =>
      match Parse(text, previous)
      case None => ([], false)
      case Some(r) =>
        if outcome == [] || !outcome[0] then ([r], false)
        else
          var (jobs, ok) := Serve(rest, limit, r.id, outcome[1..]);
          ([r] + jobs, ok)
  }

  predicate Rising(jobs: seq<Request>, previous: nat) {
    && (forall k :: 0 <= k < |jobs| ==> previous < jobs[k].id <= MAX_REQUEST_ID)
    && forall i, j :: 0 <= i < j < |jobs| ==> jobs[i].id < jobs[j].id
  }

  lemma RisingBehind(r: Request, jobs: seq<Request>, previous: nat)
    requires previous < r.id <= MAX_REQUEST_ID && Rising(jobs, r.id)
    ensures Rising([r] + jobs, previous)
  {
    var all := [r] + jobs;
    assert forall k :: 0 < k < |all| ==> all[k] == jobs[k - 1];
  }

  /** Request numbers rise strictly, within 53 bits, whatever the stream holds. */
  lemma {:induction false} NumbersRise(s: Bytes, limit: nat, previous: nat, outcome: seq<bool>)
    ensures Rising(Serve(s, limit, previous, outcome).0, previous)
    decreases |s|
  {
    hide Rising, Parse, Fields;
    match NextLine(s, limit)
    case End => NothingRises(previous);
    case Bad => NothingRises(previous);
    case Payload(text, rest) =>
      match Parse(text, previous) {
        case None => NothingRises(previous);
        case Some(r) =>
          NothingRises(r.id);
          ParsedNumber(text, previous);
          if outcome == [] || !outcome[0] {
            RisingBehind(r, [], previous);
            assert [r] + [] == [r];
          } else {
            NumbersRise(rest, limit, r.id, outcome[1..]);
            RisingBehind(r, Serve(rest, limit, r.id, outcome[1..]).0, previous);
          }
      }
  }

  lemma NothingRises(previous: nat)
    ensures Rising([], previous)
  {
  }

  lemma ParsedNumber(payload: Bytes, previous: nat)
    requires Parse(payload, previous).Some?
    ensures previous < Parse(payload, previous).value.id <= MAX_REQUEST_ID
  {
  }

  // ----- what a stream of requests does -------------------------------------------------------

  /** A payload that stands for the request: its number in decimal, and its arguments behind single spaces. */
  ghost predicate StandsFor(payload: Bytes, r: Request, number: Bytes) {
    && IsDecimal(number) && Value(number) == r.id && 1 <= |r.arguments| <= 9
    && (forall a :: a in r.arguments ==> a != [] && SPACE !in a)
    && payload == Join([number] + r.arguments)
  }

  /** A payload is read as a request if and only if it stands for that request and the number is new and at most
      the greatest one that a client can tell apart. */
  lemma ParseExactly(payload: Bytes, previous: nat, r: Request)
    ensures Parse(payload, previous) == Some(r) <==>
              previous < r.id <= 9007199254740991 && exists number :: StandsFor(payload, r, number)
  {
    hide Join, Value;
    if Parse(payload, previous) == Some(r) {
      var fields := Fields(payload);
      FieldsJoin(payload);
      assert fields == [fields[0]] + fields[1..];
      assert forall a :: a in fields[1..] ==> a in fields;
      assert StandsFor(payload, r, fields[0]);
    }
    if exists number :: StandsFor(payload, r, number) {
      var number :| StandsFor(payload, r, number);
      var fields := [number] + r.arguments;
      assert SPACE !in number;
      hide Fields;
      JoinSplits(fields);
      assert fields[1..] == r.arguments;
      assert forall k :: 0 < k < |fields| ==> fields[k] == r.arguments[k - 1] && r.arguments[k - 1] in r.arguments;
      if previous < r.id <= 9007199254740991 {
        assert WellSpaced(fields) && Fields(payload) == fields;
      }
    }
  }

  /** The next line is what stands before the first line feed, when it is visible and not too long. */
  lemma NextLineExactly(s: Bytes, limit: nat, text: Bytes, rest: Bytes)
    ensures NextLine(s, limit) == Payload(text, rest) <==>
              s == text + [LF] + rest && LF !in text && |text| <= limit
              && forall c :: c in text ==> 32 <= c <= 126
    ensures NextLine(s, limit) == End <==> s == []
  {
    hide Before;
    var n := Before(s, LF);
    if NextLine(s, limit) == Payload(text, rest) {
      assert s == s[..n] + [s[n]] + s[n + 1..];
    }
    if s == text + [LF] + rest && LF !in text && |text| <= limit && forall c :: c in text ==> 32 <= c <= 126 {
      assert s[..|text|] == text && s[|text| + 1..] == rest;
      BeforeIs(s, LF, |text|);
      assert forall k :: 0 <= k < |text| ==> text[k] in text;
      assert Visible(text);
    }
  }

  ghost predicate IsLine(line: Bytes, r: Request, limit: nat) {
    && |line| <= limit && (forall c :: c in line ==> 32 <= c <= 126)
    && exists number :: StandsFor(line, r, number)
  }

  /** The stream of the lines, each closed by a line feed. */
  function Stream(lines: seq<Bytes>): Bytes {
    if lines == [] then [] else lines[0] + [LF] + Stream(lines[1..])
  }

  /** Each line is one of the requests, in order. */
  ghost predicate AreLines(lines: seq<Bytes>, requests: seq<Request>, previous: nat, limit: nat) {
    && |lines| == |requests| && Rising(requests, previous)
    && forall k :: 0 <= k < |lines| ==> IsLine(lines[k], requests[k], limit)
  }

  lemma LinesBehind(lines: seq<Bytes>, requests: seq<Request>, previous: nat, limit: nat)
    requires lines != [] && AreLines(lines, requests, previous, limit)
    ensures AreLines(lines[1..], requests[1..], requests[0].id, limit)
    ensures IsLine(lines[0], requests[0], limit) && previous < requests[0].id <= 9007199254740991
  {
    assert forall k :: 0 <= k < |lines| - 1 ==> requests[1..][k] == requests[k + 1] && lines[1..][k] == lines[k + 1];
    hide IsLine;
  }

  /** When the jobs of all requests succeed, they are the jobs, in order, and the helper goes on behind them. */
  lemma {:induction false} RequestsAreServed(
    lines: seq<Bytes>, requests: seq<Request>, tail: Bytes, limit: nat, previous: nat, outcome: seq<bool>)
    requires AreLines(lines, requests, previous, limit) && |requests| <= |outcome|
    requires forall k :: 0 <= k < |requests| ==> outcome[k]
    ensures var last := if requests == [] then previous else requests[|requests| - 1].id;
            var later := Serve(tail, limit, last, outcome[|requests|..]);
            Serve(Stream(lines) + tail, limit, previous, outcome) == (requests + later.0, later.1)
    decreases |lines|
  {
    hide AreLines, Serve, IsLine;
    if |lines| == 0 {
      NothingServed(lines, requests, previous, limit);
      assert Stream(lines) + tail == tail && outcome[0..] == outcome;
      assert [] + Serve(tail, limit, previous, outcome).0 == Serve(tail, limit, previous, outcome).0;
    } else {
      NothingServed(lines, requests, previous, limit);
      LinesBehind(lines, requests, previous, limit);
      var r, rest := requests[0], Stream(lines[1..]) + tail;
      assert Stream(lines) + tail == lines[0] + [LF] + rest;
      LineIsServed(Stream(lines) + tail, lines[0], r, rest, limit, previous, outcome);
      RequestsAreServed(lines[1..], requests[1..], tail, limit, r.id, outcome[1..]);
      assert outcome[1..][|requests| - 1..] == outcome[|requests|..];
      Prepended(requests, Serve(tail, limit, requests[|requests| - 1].id, outcome[|requests|..]).0);
    }
  }

  lemma NothingServed(lines: seq<Bytes>, requests: seq<Request>, previous: nat, limit: nat)
    requires AreLines(lines, requests, previous, limit)
    ensures |lines| == |requests|
  {
  }

  lemma Prepended(requests: seq<Request>, later: seq<Request>)
    requires requests != []
    ensures [requests[0]] + (requests[1..] + later) == requests + later
  {
  }

  /** The first job that fails is the last one, and the helper ends badly, whatever stands behind it. */
  lemma {:induction false} FailureEndsIt(
    lines: seq<Bytes>, requests: seq<Request>, tail: Bytes, limit: nat, previous: nat, outcome: seq<bool>, failed: nat)
    requires AreLines(lines, requests, previous, limit) && failed < |requests| == |lines|
    requires failed <= |outcome| && (forall k :: 0 <= k < failed ==> outcome[k])
    requires failed < |outcome| ==> !outcome[failed]
    ensures Serve(Stream(lines) + tail, limit, previous, outcome) == (requests[..failed + 1], false)
    decreases |lines|
  {
    hide AreLines, Serve, IsLine;
    LinesBehind(lines, requests, previous, limit);
    var r, rest := requests[0], Stream(lines[1..]) + tail;
    assert Stream(lines) + tail == lines[0] + [LF] + rest;
    LineIsServed(Stream(lines) + tail, lines[0], r, rest, limit, previous, outcome);
    if failed == 0 {
      assert requests[..1] == [r];
    } else {
      FailureEndsIt(lines[1..], requests[1..], tail, limit, r.id, outcome[1..], failed - 1);
      assert [r] + requests[1..][..failed] == requests[..failed + 1];
    }
  }

  lemma LineIsServed(
    s: Bytes, line: Bytes, r: Request, rest: Bytes, limit: nat, previous: nat, outcome: seq<bool>)
    requires s == line + [LF] + rest && IsLine(line, r, limit) && previous < r.id <= 9007199254740991
    ensures Serve(s, limit, previous, outcome) ==
              if outcome == [] || !outcome[0] then ([r], false)
              else ([r] + Serve(rest, limit, r.id, outcome[1..]).0, Serve(rest, limit, r.id, outcome[1..]).1)
  {
    var number :| StandsFor(line, r, number);
    ParseExactly(line, previous, r);
    hide Parse, NextLine, StandsFor;
    assert LF !in line;
    NextLineExactly(s, limit, line, rest);
  }

  /** A stream that ends with its last line ends well; any other line that is no new request starts nothing and
      closes the channel. */
  lemma OddLineIsRefused(s: Bytes, limit: nat, previous: nat, outcome: seq<bool>)
    ensures s == [] ==> Serve(s, limit, previous, outcome) == ([], true)
    ensures s != [] && (forall line, rest, r :: s == line + [LF] + rest && IsLine(line, r, limit) ==>
                                                 r.id <= previous || r.id > 9007199254740991) ==>
              Serve(s, limit, previous, outcome) == ([], false)
  {
    if s != [] {
      match NextLine(s, limit)
      case End =>
      case Bad =>
      case Payload(text, rest) =>
        NextLineExactly(s, limit, text, rest);
        if Parse(text, previous).Some? {
          ParseExactly(text, previous, Parse(text, previous).value);
          assert IsLine(text, Parse(text, previous).value, limit);
        }
    }
  }

  const NATIVE_LIMIT: nat := 4095
  const LINUX_LIMIT: nat := 4094

  /** The stream comes to a request that is one byte longer than the Python helper takes. */
  predicate ReachesLongest(s: Bytes, previous: nat, outcome: seq<bool>)
    decreases |s|
  {
    match NextLine(s, NATIVE_LIMIT)
    case End => false
    case Bad => false
    case Payload(text, rest) =>
      match Parse(text, previous)
      case None => false
      case Some(r) =>
        |text| == NATIVE_LIMIT ||
        (outcome != [] && outcome[0] && ReachesLongest(rest, r.id, outcome[1..]))
  }

  /** The two helpers start the same jobs, in the same order, and end alike, unless a request of exactly
      4095 bytes comes up. */
  lemma {:induction false} HelpersAgree(s: Bytes, previous: nat, outcome: seq<bool>)
    ensures Serve(s, NATIVE_LIMIT, previous, outcome) == Serve(s, LINUX_LIMIT, previous, outcome)
            <==> !ReachesLongest(s, previous, outcome)
    decreases |s|
  {
    match NextLine(s, NATIVE_LIMIT)
    case End =>
    case Bad =>
    case Payload(text, rest) =>
      match Parse(text, previous) {
        case None =>
        case Some(r) =>
          if outcome != [] && outcome[0] && |text| < NATIVE_LIMIT {
            HelpersAgree(rest, r.id, outcome[1..]);
            var a := Serve(rest, NATIVE_LIMIT, r.id, outcome[1..]).0;
            var b := Serve(rest, LINUX_LIMIT, r.id, outcome[1..]).0;
            assert ([r] + a)[1..] == a && ([r] + b)[1..] == b;
          }
      }
  }

  /** They do differ: the C helper takes "1 aaa…a" of 4095 bytes, which the Python helper refuses. */
  lemma LongestLineDiffers(outcome: seq<bool>)
    ensures var s := [49, SPACE] + seq(4093, i => 97) + [LF];
            && Serve(s, NATIVE_LIMIT, 0, outcome).0 != []
            && Serve(s, LINUX_LIMIT, 0, outcome) == ([], false)
  {
    hide Fields, Before;
    var word: Bytes := seq(4093, i => 97);
    var text: Bytes := [49, SPACE] + word;
    var s := text + [LF];
    assert s == [49, SPACE] + word + [LF];
    assert s[..4095] == text;
    BeforeIs(s, LF, 4095);
    var fields: seq<Bytes> := [[49], word];
    assert fields[1..] == [word] && Join([word]) == word;
    assert Join(fields) == [49] + [SPACE] + word == text;
    JoinSplits(fields);
    assert Value([49]) == 1 by { assert [49][..0] == []; }
  }

  // ----- the C loop -------------------------------------------------------------------------

  /** The stream as `fgetc` sees it, from `at` on. The payload lies in the buffer, closed by a NUL. */
  method RequestLine(input: Bytes, at: nat, line: array<byte>) returns (status: int, next: nat)
    requires at <= |input| && line.Length == MAX_REQUEST_LINE
    modifies line
    ensures at <= next <= |input|
    ensures match NextLine(input[at..], NATIVE_LIMIT)
            case End => status == 0
            case Bad => status == -1
            case Payload(text, rest) =>
              && status == 1 && rest == input[next..] && |text| <= NATIVE_LIMIT && next > at
              && line[..|text|] == text && line[|text|] == 0
  {
    var length := 0;
    next := at;
    ghost var s := input[at..];
    while next < |input|
      invariant at <= next <= |input| && length == next - at <= NATIVE_LIMIT
      invariant line[..length] == s[..length]
      invariant LF !in s[..length] && Visible(s[..length])
    {
      var c := input[next];
      next := next + 1;
      assert s[length] == c;
      assert s[..length + 1] == s[..length] + [c];
      if c == LF {
        BeforeIs(s, LF, length);
        line[length] := 0;
        return 1, next;
      }
      if length >= MAX_REQUEST_LINE - 1 || c < 0x20 || c > 0x7e {
        Hopeless(s, length);
        return -1, next;
      }
      line[length] := c;
      length := length + 1;
    }
    assert s[..length] == s;
    if length != 0 { BeforeIs(s, LF, length); }
    status := if length != 0 then -1 else 0;
  }

  lemma Hopeless(s: Bytes, length: nat)
    requires length < |s| && LF !in s[..length] && s[length] != LF
    requires length >= NATIVE_LIMIT || s[length] < 0x20 || s[length] > 0x7e
    ensures NextLine(s, NATIVE_LIMIT).Bad?
  {
    var n := Before(s, LF);
    if n > length {
      assert s[..n][length] == s[length];
    }
  }

  /** One field of the payload, from its first byte to the space or the end behind it. */
  lemma FieldIs(payload: Bytes, start: nat, end: nat)
    requires start <= end <= |payload| && SPACE !in payload[start..end]
    requires end < |payload| ==> payload[end] == SPACE
    ensures Fields(payload[start..]) ==
              if end == |payload| then [payload[start..end]]
              else [payload[start..end]] + Fields(payload[end + 1..])
  {
    var s, n := payload[start..], end - start;
    assert s[..n] == payload[start..end];
    BeforeIs(s, SPACE, n);
    if end < |payload| {
      assert s[n + 1..] == payload[end + 1..];
    } else {
      assert s[..n] == s;
    }
  }

  /** The token is a C string in the line, closed by a NUL no later than `limit`. */
  ghost predicate CutAt(line: Bytes, start: nat, field: Bytes, limit: nat) {
    && start + |field| <= limit < |line|
    && line[start..start + |field|] == field && line[start + |field|] == 0 && 0 !in field
  }

  lemma CutReads(line: Bytes, start: nat, field: Bytes, limit: nat)
    requires CutAt(line, start, field, limit)
    ensures CString(line[start..]) == field
  {
    assert line[start..][..|field|] == field;
    CStringEnds(line[start..], |field|);
  }

  /** The tokens cut so far are the leading fields; behind them stands the rest of the payload. */
  ghost predicate Cuts(line: Bytes, tokens: seq<nat>, fields: seq<Bytes>, limit: nat) {
    && |tokens| <= |fields|
    && forall k :: 0 <= k < |tokens| ==> CutAt(line, tokens[k], fields[k], limit) && fields[k] != []
  }

  lemma CutsStay(before: Bytes, line: Bytes, tokens: seq<nat>, fields: seq<Bytes>, limit: nat, later: nat)
    requires Cuts(before, tokens, fields, limit) && |before| == |line| && limit <= later < |line|
    requires before[..limit + 1] == line[..limit + 1]
    ensures Cuts(line, tokens, fields, later)
  {
    forall k | 0 <= k < |tokens|
      ensures CutAt(line, tokens[k], fields[k], later)
    {
      var a, n := tokens[k], |fields[k]|;
      assert before[a..a + n] == before[..limit + 1][a..a + n];
      assert line[a..a + n] == line[..limit + 1][a..a + n];
      assert before[a + n] == before[..limit + 1][a + n] && line[a + n] == line[..limit + 1][a + n];
    }
  }

  /** Where the tokeniser stands: at the first byte of field number `count`, or behind the last one. */
  ghost predicate Stands(payload: Bytes, p: nat, fields: seq<Bytes>, count: nat) {
    && p <= |payload| && count <= |fields|
    && (if p == |payload| then count == |fields| else payload[p] != SPACE && fields[count..] == Fields(payload[p..]))
  }

  lemma EmptyField(payload: Bytes, p: nat, fields: seq<Bytes>, count: nat)
    requires p <= |payload| && count <= |fields| && fields[count..] == Fields(payload[p..])
    requires p == |payload| || payload[p] == SPACE
    ensures !WellSpaced(fields)
  {
    FieldIs(payload, p, p);
    assert fields[count] == fields[count..][0] == payload[p..p];
  }

  /** The in-place tokeniser. On success each token is a pointer into the line, and reads as its field. */
  method Tokenise(line: array<byte>, ghost length: nat) returns (valid: bool, tokens: seq<nat>)
    requires length < line.Length && line[length] == 0 && Visible(line[..length])
    modifies line
    ensures valid <==> WellSpaced(Fields(old(line[..length])))
    ensures valid ==>
              && |tokens| == |Fields(old(line[..length]))|
              && forall k :: 0 <= k < |tokens| ==>
                   tokens[k] <= length && CString(line[tokens[k]..]) == Fields(old(line[..length]))[k]
  {
    hide Fields, Before;
    ghost var payload := line[..length];
    ghost var fields := Fields(payload);
    tokens := [];
    var p := 0;
    assert payload[0..] == payload && fields[0..] == fields;
    valid := line[p] != 0 && line[p] != SPACE;
    if !valid { EmptyField(payload, 0, fields, 0); }
    while valid && line[p] != 0
      invariant p <= length && line[length] == 0 && line[p..length] == payload[p..]
      invariant |tokens| <= MAX_REQUEST_TOKENS && (p < length ==> line[p] == payload[p])
      invariant valid ==> Stands(payload, p, fields, |tokens|) && Cuts(line[..], tokens, fields, p)
      invariant !valid ==> !WellSpaced(fields)
      decreases valid, length - p
    {
      assert p < length && line[p] == payload[p..][0];
      assert |fields[|tokens|..]| > 0;
      if |tokens| >= MAX_REQUEST_TOKENS { valid := false; break; }
      valid, tokens, p := CutOne(line, length, payload, fields, tokens, p);
      assert p < length ==> line[p] == line[p..length][0] == payload[p];
    }
    if valid {
      forall k | 0 <= k < |tokens|
        ensures tokens[k] <= length && CString(line[tokens[k]..]) == fields[k]
      {
        CutReads(line[..], tokens[k], fields[k], p);
        assert line[..][tokens[k]..] == line[tokens[k]..];
      }
    }
  }

  /** One turn of the loop: the token that starts here, and the space behind it made a NUL. */
  method CutOne(
    line: array<byte>, ghost length: nat, ghost payload: Bytes, ghost fields: seq<Bytes>, tokens: seq<nat>, start: nat)
    returns (valid: bool, more: seq<nat>, p: nat)
    requires start < length < line.Length && line[length] == 0 && |payload| == length && Visible(payload)
    requires line[start..length] == payload[start..]
    requires Stands(payload, start, fields, |tokens|) && Cuts(line[..], tokens, fields, start)
    modifies line
    ensures start < p <= length && line[length] == 0 && line[p..length] == payload[p..]
    ensures more == tokens + [start]
    ensures valid ==> Stands(payload, p, fields, |more|) && Cuts(line[..], more, fields, p)
    ensures !valid ==> !WellSpaced(fields)
  {
    hide Fields, Before, Cuts, CutAt, WellSpaced;
    p := start;
    ghost var was := line[..];
    assert forall k :: start <= k < length ==> line[k] == payload[start..][k - start] == payload[k];
    while line[p] != 0 && line[p] != SPACE
      invariant start <= p <= length && SPACE !in payload[start..p]
      invariant p == start ==> payload[p] != SPACE
      decreases length - p
    {
      assert payload[start..p + 1] == payload[start..p] + [line[p]];
      p := p + 1;
    }
    ghost var end := p;
    FieldIs(payload, start, end);
    TokenRead(payload, fields, |tokens|, start, end);
    more, valid := tokens + [start], true;
    if line[p] == SPACE {
      line[p], p := 0, p + 1;
      if line[p] == 0 || line[p] == SPACE {
        EmptyField(payload, p, fields, |more|);
        valid := false;
      }
    }
    CutsMore(was, line[..], payload, tokens, fields, start, end, p);
  }

  lemma TokenRead(payload: Bytes, fields: seq<Bytes>, count: nat, start: nat, end: nat)
    requires start < end <= |payload| && count <= |fields| && fields[count..] == Fields(payload[start..])
    requires SPACE !in payload[start..end] && (end < |payload| ==> payload[end] == SPACE)
    ensures count < |fields| && fields[count] == payload[start..end]
    ensures if end == |payload| then |fields| == count + 1 else fields[count + 1..] == Fields(payload[end + 1..])
  {
    FieldIs(payload, start, end);
    assert fields[count] == fields[count..][0];
    assert fields[count + 1..] == fields[count..][1..];
  }

  lemma CutsMore(
    was: Bytes, line: Bytes, payload: Bytes, tokens: seq<nat>, fields: seq<Bytes>, start: nat, end: nat, p: nat)
    requires Cuts(was, tokens, fields, start) && start < end <= p < |line| == |was| && end <= |payload|
    requires Visible(payload) && line[..end] == was[..end] && line[start..end] == payload[start..end] && line[end] == 0
    requires |tokens| < |fields| && fields[|tokens|] == payload[start..end]
    ensures Cuts(line, tokens + [start], fields, p)
  {
    var field := payload[start..end];
    assert line[..start + 1] == line[..end][..start + 1] == was[..end][..start + 1] == was[..start + 1];
    CutsStay(was, line, tokens, fields, start, p);
    assert CutAt(line, start, field, p);
  }

  /** What a loop has started, and what the rest of the stream still starts, make up the whole run. */
  ghost predicate Served(
    whole: (seq<Request>, bool), jobs: seq<Request>, rest: Bytes, limit: nat, last: nat, outcome: seq<bool>)
  {
    |jobs| <= |outcome| &&
    var later := Serve(rest, limit, last, outcome[|jobs|..]);
    whole == (jobs + later.0, later.1)
  }

  lemma ServedStep(
    whole: (seq<Request>, bool), jobs: seq<Request>, s: Bytes, limit: nat, last: nat, outcome: seq<bool>)
    requires Served(whole, jobs, s, limit, last, outcome)
    ensures NextLine(s, limit).End? ==> whole == (jobs, true)
    ensures NextLine(s, limit).Bad? ==> whole == (jobs, false)
    ensures NextLine(s, limit).Payload? ==>
              var line := NextLine(s, limit);
              match Parse(line.text, last)
              case None => whole == (jobs, false)
              case Some(r) =>
                if |jobs| == |outcome| || !outcome[|jobs|] then whole == (jobs + [r], false)
                else Served(whole, jobs + [r], line.rest, limit, r.id, outcome)
  {
    hide Parse, NextLine;
    assert jobs + [] == jobs;
    var line := NextLine(s, limit);
    if line.Payload? && Parse(line.text, last).Some? {
      var r := Parse(line.text, last).value;
      if |jobs| < |outcome| && outcome[|jobs|] {
        assert outcome[|jobs|..][1..] == outcome[|jobs| + 1..];
        var later := Serve(line.rest, limit, r.id, outcome[|jobs| + 1..]).0;
        assert jobs + ([r] + later) == jobs + [r] + later;
      }
    }
  }

  /** A tokenised line is a request exactly when its payload stands for one. */
  method ReadRequest(line: array<byte>, ghost text: Bytes, last: nat) returns (request: Option<Request>)
    requires |text| < line.Length && line[..|text|] == text && line[|text|] == 0 && Visible(text)
    modifies line
    ensures request == Parse(text, last)
  {
    hide Fields, CString;
    var valid, tokens := Tokenise(line, |text|);
    if !valid || |tokens| < 2 { return None; }
    var ok, id := Decimal(CString(line[tokens[0]..]), MAX_REQUEST_ID);
    if !ok || id <= last { return None; }
    var arguments: seq<Bytes> := [];
    for k := 1 to |tokens|
      invariant arguments == Fields(text)[1..k]
    {
      arguments := arguments + [CString(line[tokens[k]..])];
    }
    assert Fields(text)[1..|tokens|] == Fields(text)[1..];
    request := Some(Request(id, arguments));
  }

  /** The C helper's loop. */
  method ServeNative(input: Bytes, outcome: seq<bool>) returns (jobs: seq<Request>, ok: bool)
    ensures (jobs, ok) == Serve(input, NATIVE_LIMIT, 0, outcome)
  {
    hide Parse, Serve, Fields;
    var line := new byte[MAX_REQUEST_LINE];
    var at, last := 0, 0;
    jobs := [];
    ghost var whole := Serve(input, NATIVE_LIMIT, 0, outcome);
    assert input[0..] == input && outcome[0..] == outcome && [] + whole.0 == whole.0;
    while true
      invariant at <= |input| && Served(whole, jobs, input[at..], NATIVE_LIMIT, last, outcome)
      decreases |input| - at
    {
      ServedStep(whole, jobs, input[at..], NATIVE_LIMIT, last, outcome);
      ghost var shown := NextLine(input[at..], NATIVE_LIMIT);
      var status;
      status, at := RequestLine(input, at, line);
      if status == 0 { return jobs, true; }
      if status < 0 { return jobs, false; }
      var request := ReadRequest(line, shown.text, last);
      if request.None? { return jobs, false; }
      jobs, last := jobs + [request.value], request.value.id;
      if |jobs| > |outcome| || !outcome[|jobs| - 1] { return jobs, false; }
    }
  }

  /** What `readline` with a limit gives: through the line feed, or as much as limit and stream allow. */
  ghost predicate IsReadLine(s: Bytes, maximum: nat, line: Bytes) {
    var n := Before(s, LF);
    && line <= s
    && |line| == if n < |s| && n < maximum then n + 1 else if |s| < maximum then |s| else maximum
  }

  method ReadLine(input: Bytes, at: nat, maximum: nat) returns (line: Bytes)
    requires at <= |input| && maximum > 0
    ensures at + |line| <= |input| && IsReadLine(input[at..], maximum, line)
  {
    var n := 0;
    ghost var s := input[at..];
    while at + n < |input| && n < maximum
      invariant at + n <= |input| && n <= maximum && LF !in s[..n]
    {
      assert s[n] == input[at + n] && s[..n + 1] == s[..n] + [s[n]];
      n := n + 1;
      if input[at + n - 1] == LF {
        BeforeIs(s, LF, n - 1);
        return input[at..at + n];
      }
    }
    line := input[at..at + n];
    ghost var first := Before(s, LF);
    if first < |s| {
      assert forall k :: 0 <= k < n ==> s[k] == s[..n][k];
    }
  }

  /** A line that ends in a line feed, is short enough and visible is the next payload; nothing else is. */
  lemma LineTaken(s: Bytes, line: Bytes)
    requires IsReadLine(s, MAX_REQUEST_LINE, line)
    ensures NextLine(s, LINUX_LIMIT) ==
              if line == [] then End
              else if line[|line| - 1] != LF || |line| >= MAX_REQUEST_LINE || !Visible(line[..|line| - 1]) then Bad
              else Payload(line[..|line| - 1], s[|line|..])
  {
    var n := Before(s, LF);
    if line != [] {
      var k := |line| - 1;
      assert line[k] == s[k] && line[..k] == s[..k];
      assert k < n ==> s[k] == s[..n][k];
    }
  }

  /** The Python helper's loop. */
  method ServeLinux(input: Bytes, outcome: seq<bool>) returns (jobs: seq<Request>, ok: bool)
    ensures (jobs, ok) == Serve(input, LINUX_LIMIT, 0, outcome)
  {
    hide Serve, Fields, NextLine, IsReadLine;
    var at, previous := 0, 0;
    jobs := [];
    ghost var whole := Serve(input, LINUX_LIMIT, 0, outcome);
    assert input[0..] == input && outcome[0..] == outcome && [] + whole.0 == whole.0;
    while true
      invariant at <= |input| && Served(whole, jobs, input[at..], LINUX_LIMIT, previous, outcome)
      decreases |input| - at
    {
      ServedStep(whole, jobs, input[at..], LINUX_LIMIT, previous, outcome);
      var line := ReadLine(input, at, MAX_REQUEST_LINE);
      LineTaken(input[at..], line);
      if line == [] { return jobs, true; }
      if line[|line| - 1] != LF || |line| >= MAX_REQUEST_LINE { return jobs, false; }
      var text := line[..|line| - 1];
      if exists k | 0 <= k < |text| :: text[k] < 32 || text[k] > 126 { return jobs, false; }
      assert input[at..][|line|..] == input[at + |line|..];
      at := at + |line|;
      var tokens := Fields(text);
      if |tokens| < 2 || |tokens| > 10 || exists k | 0 <= k < |tokens| :: tokens[k] == [] { return jobs, false; }
      var decimal, id := Decimal(tokens[0], MAX_REQUEST_ID);
      if !decimal || id <= previous { return jobs, false; }
      assert Parse(text, previous) == Some(Request(id, tokens[1..]));
      previous := id;
      jobs := jobs + [Request(id, tokens[1..])];
      if |jobs| > |outcome| || !outcome[|jobs| - 1] { return jobs, false; }
    }
  }
}

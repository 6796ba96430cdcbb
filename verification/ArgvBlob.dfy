/** The kernel's argument blob: a count, the executable's path padded to eight bytes, the arguments, and
    then the environment, which is never parsed. */
module ArgvBlob {
  import opened Base
  import Utf8

  const MAX_HEAD_ARG: nat := 4096
  const MAX_PATH: nat := 4096

  /** The first two arguments; the same with `claude` in third place; or the tail of a server's command. */
  datatype Mode = Head | Claude | Endpoint(endpoint: Bytes)

  const CLAUDE: Bytes := [99, 108, 97, 117, 100, 101]
  const APP_SERVER: Bytes := [97, 112, 112, 45, 115, 101, 114, 118, 101, 114]
  const LISTEN: Bytes := [45, 45, 108, 105, 115, 116, 101, 110]

  // ----- the layout -------------------------------------------------------------------------

  /** A 32-bit little-endian signed number. */
  function ReadInt(s: Bytes): (n: int)
    requires |s| >= 4
    ensures -0x8000_0000 <= n < 0x8000_0000
  {
    var u := s[0] as int + s[1] as int * 0x100 + s[2] as int * 0x1_0000 + s[3] as int * 0x100_0000;
    if u < 0x8000_0000 then u else u - 0x1_0000_0000
  }

  function Zeros(n: nat): (s: Bytes)
    ensures |s| == n && forall k :: 0 <= k < n ==> s[k] == 0
  {
    seq(n, i => 0)
  }

  function RoundUp8(n: nat): (m: nat)
    ensures n <= m < n + 8 && m % 8 == 0
  {
    (n + 7) / 8 * 8
  }

  /** Arguments end to end, each closed by a NUL. */
  function Strings(args: seq<Bytes>): Bytes {
    if args == [] then [] else args[0] + [0] + Strings(args[1..])
  }

  predicate NulFree(args: seq<Bytes>) {
    forall k :: 0 <= k < |args| ==> 0 !in args[k]
  }

  predicate IsPath(path: Bytes) {
    path != [] && 0 !in path && |path| < MAX_PATH
  }

  /** The padded path, as the kernel lays it out behind the count. */
  function PathArea(path: Bytes): (s: Bytes)
    ensures |s| == RoundUp8(|path| + 1)
  {
    path + Zeros(RoundUp8(|path| + 1) - |path|)
  }

  /** The blob that starts with this count, path and arguments. */
  predicate Laid(blob: Bytes, path: Bytes, args: seq<Bytes>, tail: Bytes) {
    |blob| > 4 && IsPath(path) && NulFree(args) && blob[4..] == PathArea(path) + Strings(args) + tail
  }

  /** What the caller wants of the arguments it looks at, the leading ones of `argc`. */
  ghost predicate Wanted(mode: Mode, argc: nat, args: seq<Bytes>) {
    match mode
    case Head => |args| == (if argc > 2 then 2 else argc) && forall k :: 0 <= k < |args| ==> Storable(args[k])
    case Claude => argc >= 3 && |args| == 3 && Storable(args[0]) && Storable(args[1]) && args[2] == CLAUDE
    case Endpoint(endpoint) =>
      && argc >= 3 && |args| == argc
      && args[argc - 3] == APP_SERVER && args[argc - 2] == LISTEN && args[argc - 1] == endpoint
  }

  ghost predicate Storable(arg: Bytes) {
    |arg| <= MAX_HEAD_ARG && Utf8.IsUtf8(arg)
  }

  /** The blob is accepted, and these are the arguments looked at. */
  ghost predicate Accepts(blob: Bytes, mode: Mode, args: seq<Bytes>) {
    exists path, tail :: Shows(blob, mode, args, path, tail)
  }

  ghost predicate Shows(blob: Bytes, mode: Mode, args: seq<Bytes>, path: Bytes, tail: Bytes) {
    && Laid(blob, path, args, tail) && 0 <= ReadInt(blob) <= |blob| - 4 && Wanted(mode, ReadInt(blob), args)
  }

  // ----- reading is unambiguous -------------------------------------------------------------

  lemma StringEnds(a: Bytes, s: Bytes, b: Bytes, t: Bytes)
    requires 0 !in a && 0 !in b && a + [0] + s == b + [0] + t
    ensures a == b && s == t
  {
    var u, v := a + [0] + s, b + [0] + t;
    CStringEnds(u, |a|);
    CStringEnds(v, |b|);
    assert u[..|a|] == a && v[..|b|] == b;
    assert u[|a| + 1..] == s && v[|b| + 1..] == t;
  }

  lemma {:induction false} StringsAreUnique(a: seq<Bytes>, s: Bytes, b: seq<Bytes>, t: Bytes)
    requires NulFree(a) && NulFree(b) && |a| == |b| && Strings(a) + s == Strings(b) + t
    ensures a == b && s == t
  {
    if a == [] {
      assert Strings(a) + s == s && Strings(b) + t == t;
    } else {
      assert Strings(a) + s == a[0] + [0] + (Strings(a[1..]) + s);
      assert Strings(b) + t == b[0] + [0] + (Strings(b[1..]) + t);
      StringEnds(a[0], Strings(a[1..]) + s, b[0], Strings(b[1..]) + t);
      StringsAreUnique(a[1..], s, b[1..], t);
      assert a == [a[0]] + a[1..] && b == [b[0]] + b[1..];
    }
  }

  lemma PathsAreUnique(p: Bytes, s: Bytes, q: Bytes, t: Bytes)
    requires IsPath(p) && IsPath(q) && PathArea(p) + s == PathArea(q) + t
    ensures p == q && s == t
  {
    var u, v := PathArea(p) + s, PathArea(q) + t;
    assert u[..|p|] == p && v[..|q|] == q;
    CStringEnds(u, |p|);
    CStringEnds(v, |q|);
    assert u[|PathArea(p)|..] == s && v[|PathArea(q)|..] == t;
  }

  lemma AcceptedOnce(blob: Bytes, mode: Mode, a: seq<Bytes>, b: seq<Bytes>)
    requires Accepts(blob, mode, a) && Accepts(blob, mode, b)
    ensures a == b
  {
    var p, s :| Shows(blob, mode, a, p, s);
    var q, t :| Shows(blob, mode, b, q, t);
    SameStrings(p, a, s, q, b, t);
    StringsAreUnique(a, s, b, t);
  }

  /** A process' blob with all its arguments: the leading ones come back exactly, empty ones included. */
  lemma WholeBlobIsRead(blob: Bytes, mode: Mode, path: Bytes, all: seq<Bytes>, environment: Bytes, n: nat)
    requires Laid(blob, path, all, environment) && ReadInt(blob) == |all| && n <= |all|
    requires Wanted(mode, |all|, all[..n])
    ensures Accepts(blob, mode, all[..n])
  {
    StringsJoin(all[..n], all[n..]);
    assert all[..n] + all[n..] == all;
    StringsSize(all);
    var tail := Strings(all[n..]) + environment;
    assert PathArea(path) + Strings(all) + environment == PathArea(path) + Strings(all[..n]) + tail;
    assert Shows(blob, mode, all[..n], path, tail);
  }

  lemma {:induction false} StringsJoin(a: seq<Bytes>, b: seq<Bytes>)
    ensures Strings(a + b) == Strings(a) + Strings(b)
  {
    if a == [] {
      assert a + b == b;
    } else {
      assert (a + b)[1..] == a[1..] + b;
      StringsJoin(a[1..], b);
    }
  }

  lemma {:induction false} StringsSize(args: seq<Bytes>)
    ensures |Strings(args)| >= |args|
  {
    if args != [] {
      StringsSize(args[1..]);
    }
  }

  // ----- the parser -------------------------------------------------------------------------

  method StrNLen(blob: Bytes, at: nat) returns (n: nat)
    requires at <= |blob|
    ensures at + n <= |blob| && 0 !in blob[at..at + n] && (at + n < |blob| ==> blob[at + n] == 0)
  {
    n := 0;
    while at + n < |blob| && blob[at + n] != 0
      invariant at + n <= |blob| && 0 !in blob[at..at + n]
    {
      assert blob[at..at + n + 1] == blob[at..at + n] + [blob[at + n]];
      n := n + 1;
    }
  }

  /** Where the arguments begin, if the count and the padded path are in order. */
  method SkipPath(blob: Bytes) returns (ok: bool, offset: nat, ghost path: Bytes)
    requires |blob| > 4
    ensures ok ==> offset <= |blob| && IsPath(path) && blob[4..] == PathArea(path) + blob[offset..]
    ensures !ok ==> forall path', rest :: IsPath(path') ==> blob[4..] != PathArea(path') + rest
  {
    var length := StrNLen(blob, 4);
    path, offset := blob[4..4 + length], 0;
    ghost var body := blob[4..];
    assert body[..length] == path;
    CStringEnds(body, length);
    ok := length != 0 && length < MAX_PATH && length != |blob| - 4;
    if ok {
      offset := 4 + RoundUp8(length + 1);
      ok := offset <= |blob|;
      var i := 4 + length + 1;
      while ok && i < offset
        invariant 4 + length + 1 <= i <= offset
        invariant ok ==> offset <= |blob| && forall k :: 4 + length <= k < i ==> blob[k] == 0
        invariant !ok ==> offset > |blob| || exists k :: 4 + length <= k < offset && blob[k] != 0
      {
        if blob[i] != 0 { ok := false; }
        i := i + 1;
      }
    }
    if ok {
      assert body == PathArea(path) + blob[offset..];
    } else {
      forall path', rest | IsPath(path')
        ensures body != PathArea(path') + rest
      {
        if body == PathArea(path') + rest {
          NoPath(blob, length, path', rest);
        }
      }
    }
  }

  lemma NoPath(blob: Bytes, length: nat, path: Bytes, rest: Bytes)
    requires |blob| > 4 && 4 + length <= |blob| && CString(blob[4..]) == blob[4..4 + length]
    requires IsPath(path) && blob[4..] == PathArea(path) + rest
    ensures length == |path| && 4 + RoundUp8(length + 1) <= |blob|
    ensures forall k :: 4 + length <= k < 4 + RoundUp8(length + 1) ==> blob[k] == 0
  {
    var body := blob[4..];
    assert body[..|path|] == path && body[|path|] == 0;
    CStringEnds(body, |path|);
    forall k | 4 + length <= k < 4 + RoundUp8(length + 1)
      ensures blob[k] == 0
    {
      assert blob[k] == body[k - 4] == PathArea(path)[k - 4];
    }
  }

  /** Number `i` of the arguments is one the caller wants. */
  ghost predicate Fits(mode: Mode, argc: nat, i: nat, arg: Bytes) {
    match mode
    case Head => Storable(arg)
    case Claude => if i == 2 then arg == CLAUDE else Storable(arg)
    case Endpoint(endpoint) =>
      && (argc == i + 3 ==> arg == APP_SERVER) && (argc == i + 2 ==> arg == LISTEN)
      && (argc == i + 1 ==> arg == endpoint)
  }

  method Check(mode: Mode, argc: nat, i: nat, arg: Bytes) returns (fits: bool)
    requires mode.Endpoint? ==> i < argc
    ensures fits <==> Fits(mode, argc, i, arg)
    ensures fits && !mode.Endpoint? && i < 2 ==> |arg| <= MAX_HEAD_ARG
  {
    if mode.Claude? && i == 2 { return |arg| == 6 && arg == CLAUDE; }
    if !mode.Endpoint? {
      if |arg| > MAX_HEAD_ARG { return false; }
      fits := Utf8.ValidUtf8(arg);
      return;
    }
    if i + 3 < argc { return true; }
    var expected := if i + 3 == argc then APP_SERVER else if i + 2 == argc then LISTEN else mode.endpoint;
    fits := |arg| == |expected| && arg == expected;
  }

  function Row(out: array2<byte>, i: nat): Bytes
    requires i < out.Length0
    reads out
  {
    seq(out.Length1, k requires 0 <= k < out.Length1 reads out => out[i, k])
  }

  /** `memcpy` of one argument with its NUL. */
  method CopyOut(out: array2<byte>, i: nat, blob: Bytes, offset: nat, length: nat)
    requires i < out.Length0 && length + 1 <= out.Length1 && offset + length < |blob|
    requires 0 !in blob[offset..offset + length] && blob[offset + length] == 0
    modifies out
    ensures CString(Row(out, i)) == blob[offset..offset + length]
    ensures forall j, k :: 0 <= j < out.Length0 && 0 <= k < out.Length1 && j != i ==> out[j, k] == old(out[j, k])
  {
    forall k | 0 <= k <= length {
      out[i, k] := blob[offset + k];
    }
    assert Row(out, i)[..length] == blob[offset..offset + length];
    CStringEnds(Row(out, i), length);
  }

  lemma SameRow(was: Bytes, out: array2<byte>, i: nat)
    requires i < out.Length0 && |was| == out.Length1
    requires forall k :: 0 <= k < out.Length1 ==> out[i, k] == was[k]
    ensures Row(out, i) == was
  {
  }

  /** However else the blob might be read, its leading arguments are those read so far. */
  lemma ReadOn(blob: Bytes, path: Bytes, args: seq<Bytes>, rest: Bytes, path': Bytes, args': seq<Bytes>, tail': Bytes)
    requires |blob| > 4 && IsPath(path) && NulFree(args) && blob[4..] == PathArea(path) + Strings(args) + rest
    requires Laid(blob, path', args', tail') && |args| < |args'|
    ensures rest == args'[|args|] + [0] + (Strings(args'[|args| + 1..]) + tail')
    ensures args == args'[..|args|]
  {
    SameStrings(path, args, rest, path', args', tail');
    var n := |args|;
    hide Strings;
    StringsCut(args', n, tail');
    StringsAreUnique(args, rest, args'[..n], args'[n] + [0] + (Strings(args'[n + 1..]) + tail'));
  }

  lemma SameStrings(p: Bytes, a: seq<Bytes>, s: Bytes, q: Bytes, b: seq<Bytes>, t: Bytes)
    requires IsPath(p) && IsPath(q) && PathArea(p) + Strings(a) + s == PathArea(q) + Strings(b) + t
    ensures p == q && Strings(a) + s == Strings(b) + t
  {
    hide Strings, PathArea;
    Regroup(PathArea(p), Strings(a), s);
    Regroup(PathArea(q), Strings(b), t);
    PathsAreUnique(p, Strings(a) + s, q, Strings(b) + t);
  }

  lemma Regroup(a: Bytes, b: Bytes, c: Bytes)
    ensures a + b + c == a + (b + c)
  {
  }

  lemma StringsCut(args: seq<Bytes>, n: nat, tail: Bytes)
    requires n < |args|
    ensures Strings(args) + tail == Strings(args[..n]) + (args[n] + [0] + (Strings(args[n + 1..]) + tail))
  {
    var left := args[n..];
    assert args == args[..n] + left && left[1..] == args[n + 1..];
    StringsJoin(args[..n], left);
    Regroup(Strings(args[..n]), Strings(left), tail);
    Regroup(left[0] + [0], Strings(left[1..]), tail);
  }

  /** How many arguments are looked at. */
  function Observed(mode: Mode, argc: nat): nat {
    match mode
    case Head => if argc > 2 then 2 else argc
    case Claude => 3
    case Endpoint(_) => argc
  }

  lemma WantedFits(mode: Mode, argc: nat, args: seq<Bytes>)
    requires mode.Head? || argc >= 3
    ensures Wanted(mode, argc, args) <==>
              |args| == Observed(mode, argc) && forall k :: 0 <= k < |args| ==> Fits(mode, argc, k, args[k])
  {
    if !Wanted(mode, argc, args) && |args| == Observed(mode, argc) {
      match mode
      case Head =>
      case Claude =>
        assert !Fits(mode, argc, 0, args[0]) || !Fits(mode, argc, 1, args[1]) || !Fits(mode, argc, 2, args[2]);
      case Endpoint(_) =>
        assert !Fits(mode, argc, argc - 3, args[argc - 3]) || !Fits(mode, argc, argc - 2, args[argc - 2])
               || !Fits(mode, argc, argc - 1, args[argc - 1]);
    }
  }

  /** An argument that does not end, or does not fit, rules out every reading of the blob. */
  lemma NoReading(blob: Bytes, mode: Mode, path: Bytes, args: seq<Bytes>, rest: Bytes, argc: nat)
    requires |blob| > 4 && IsPath(path) && NulFree(args) && blob[4..] == PathArea(path) + Strings(args) + rest
    requires argc == ReadInt(blob) && (mode.Head? || argc >= 3) && |args| < Observed(mode, argc)
    requires 0 in rest ==> !Fits(mode, argc, |args|, CString(rest))
    ensures forall args' :: !Accepts(blob, mode, args')
  {
    forall args', path', tail'
      ensures !Shows(blob, mode, args', path', tail')
    {
      if Shows(blob, mode, args', path', tail') {
        WantedFits(mode, argc, args');
        ReadOn(blob, path, args, rest, path', args', tail');
        var arg := args'[|args|];
        assert rest[..|arg|] == arg && rest[|arg|] == 0;
        CStringEnds(rest, |arg|);
      }
    }
  }

  /** What the loop has read and stored. */
  ghost predicate Reading(blob: Bytes, mode: Mode, argc: nat, path: Bytes, args: seq<Bytes>, offset: nat) {
    && |blob| > 4 && offset <= |blob| && IsPath(path) && NulFree(args)
    && blob[4..] == PathArea(path) + Strings(args) + blob[offset..]
    && forall k :: 0 <= k < |args| ==> Fits(mode, argc, k, args[k])
  }

  lemma ReadingStep(blob: Bytes, mode: Mode, argc: nat, path: Bytes, args: seq<Bytes>, offset: nat, length: nat)
    requires Reading(blob, mode, argc, path, args, offset)
    requires offset + length < |blob| && 0 !in blob[offset..offset + length] && blob[offset + length] == 0
    requires Fits(mode, argc, |args|, blob[offset..offset + length])
    ensures Reading(blob, mode, argc, path, args + [blob[offset..offset + length]], offset + length + 1)
  {
    hide Strings, PathArea, Fits;
    var arg, rest := blob[offset..offset + length], blob[offset + length + 1..];
    StringsJoin(args, [arg]);
    OneString(arg);
    assert blob[offset..] == arg + [0] + rest;
    Regroup(PathArea(path) + Strings(args), arg + [0], rest);
    Regroup(PathArea(path), Strings(args), arg + [0]);
  }

  lemma OneString(arg: Bytes)
    ensures Strings([arg]) == arg + [0]
  {
  }

  /** The observed arguments come out whole, NUL and all, when the blob is laid out as the kernel does and
      they are what the caller wants; in every other case it is refused. */
  method Arguments(blob: Bytes, mode: Mode, out: array2<byte>)
    returns (ok: bool, retained: nat, ghost args: seq<Bytes>)
    requires out.Length0 == 2 && out.Length1 == MAX_HEAD_ARG + 1
    modifies out
    ensures ok ==> Accepts(blob, mode, args)
    ensures !ok ==> forall args' :: !Accepts(blob, mode, args')
    ensures ok ==> |blob| > 4 && retained == (if ReadInt(blob) > 2 then 2 else ReadInt(blob)) <= |args|
    ensures ok && !mode.Endpoint? ==> forall i :: 0 <= i < retained ==> CString(Row(out, i)) == args[i]
  {
    hide Laid, Wanted, Fits, Strings, PathArea, CString;
    retained, args := 0, [];
    if |blob| <= 4 { NoCount(blob, mode); return false, 0, []; }
    var argc := ReadInt(blob);
    if argc < 0 || argc > |blob| - 4 { NoCount(blob, mode); return false, 0, []; }
    var start, offset: nat;
    ghost var path;
    start, offset, path := SkipPath(blob);
    if !start { NoStart(blob, mode); return false, 0, []; }
    if !mode.Head? && argc < 3 { NoCount(blob, mode); return false, 0, []; }
    retained := if argc > 2 then 2 else argc;
    NothingRead(blob, mode, argc, path, offset);
    for i := 0 to Observed(mode, argc)
      invariant |args| == i && Reading(blob, mode, argc, path, args, offset)
      invariant !mode.Endpoint? ==> forall k :: 0 <= k < i && k < 2 ==> CString(Row(out, k)) == args[k]
    {
      var length := StrNLen(blob, offset);
      ghost var rest := blob[offset..];
      assert rest[..length] == blob[offset..offset + length];
      CStringEnds(rest, length);
      if offset + length == |blob| {
        NoReading(blob, mode, path, args, rest, argc);
        return false, 0, [];
      }
      var fits := Check(mode, argc, i, blob[offset..offset + length]);
      if !fits {
        NoReading(blob, mode, path, args, rest, argc);
        return false, 0, [];
      }
      if !mode.Endpoint? && i < 2 {
        ghost var first := Row(out, 0);
        CopyOut(out, i, blob, offset, length);
        if i == 1 { SameRow(first, out, 0); }
      }
      ReadingStep(blob, mode, argc, path, args, offset, length);
      args, offset := args + [blob[offset..offset + length]], offset + length + 1;
    }
    WantedFits(mode, argc, args);
    IsLaid(blob, mode, argc, path, args, offset);
    assert Shows(blob, mode, args, path, blob[offset..]);
    ok := true;
  }

  lemma NothingRead(blob: Bytes, mode: Mode, argc: nat, path: Bytes, offset: nat)
    requires |blob| > 4 && offset <= |blob| && IsPath(path) && blob[4..] == PathArea(path) + blob[offset..]
    ensures Reading(blob, mode, argc, path, [], offset)
  {
    assert PathArea(path) + Strings([]) == PathArea(path);
  }

  lemma IsLaid(blob: Bytes, mode: Mode, argc: nat, path: Bytes, args: seq<Bytes>, offset: nat)
    requires Reading(blob, mode, argc, path, args, offset)
    ensures Laid(blob, path, args, blob[offset..])
  {
  }

  lemma NoCount(blob: Bytes, mode: Mode)
    requires |blob| <= 4 || ReadInt(blob) < 0 || ReadInt(blob) > |blob| - 4 || (!mode.Head? && ReadInt(blob) < 3)
    ensures forall args :: !Accepts(blob, mode, args)
  {
  }

  lemma NoStart(blob: Bytes, mode: Mode)
    requires |blob| > 4 && forall path, rest :: IsPath(path) ==> blob[4..] != PathArea(path) + rest
    ensures forall args :: !Accepts(blob, mode, args)
  {
    forall args, path, tail
      ensures !Shows(blob, mode, args, path, tail)
    {
      assert PathArea(path) + Strings(args) + tail == PathArea(path) + (Strings(args) + tail);
    }
  }
}

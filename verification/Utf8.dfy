/** The helper's UTF-8 check, against the encoding itself (sections 3 and 4 of RFC 3629). */
module Utf8 {

  import opened Base

  /** A Unicode scalar value: a code point that is no surrogate. */
  type Scalar = u: nat | u < 0xd800 || 0xe000 <= u <= 0x10ffff witness 0

  function Continuation(bits: nat): byte
    requires bits < 64
  {
    (0x80 + bits) as byte
  }

  function EncodeOne(u: Scalar): (s: Bytes)
    ensures 1 <= |s| <= 4
  {
    var high: nat := u / 64;
    var higher: nat := high / 64;
    if u < 0x80 then [u as byte]
    else if u < 0x800 then [(0xc0 + high) as byte, Continuation(u % 64)]
    else if u < 0x10000 then [(0xe0 + higher) as byte, Continuation(high % 64), Continuation(u % 64)]
    else
      [(0xf0 + higher / 64) as byte, Continuation(higher % 64), Continuation(high % 64), Continuation(u % 64)]
  }

  function Encode(text: seq<Scalar>): Bytes {
    if text == [] then [] else EncodeOne(text[0]) + Encode(text[1..])
  }

  ghost predicate IsUtf8(s: Bytes) {
    exists text :: Encode(text) == s
  }

  // ----- one scalar at the front of a byte string -------------------------------------------

  /** The bits a lead byte contributes, and how many bytes must follow it. */
  function Lead(first: byte): Option<(nat, nat)> {
    if first < 0x80 then Some((first as nat, 0))
    else if 0xc2 <= first <= 0xdf then Some((first as nat % 32, 1))
    else if 0xe0 <= first <= 0xef then Some((first as nat % 16, 2))
    else if 0xf0 <= first <= 0xf4 then Some((first as nat % 8, 3))
    else None
  }

  /** The six bits a continuation byte contributes. */
  function Bits(next: byte): nat {
    next as nat % 64
  }

  predicate AllFollow(s: Bytes, at: nat, count: nat)
    requires at + count <= |s| && count <= 3
  {
    && (count > 0 ==> s[at] / 64 == 2) && (count > 1 ==> s[at + 1] / 64 == 2)
    && (count > 2 ==> s[at + 2] / 64 == 2)
  }

  /** `count` continuation bytes appended to `bits`. */
  function Follow(s: Bytes, at: nat, bits: nat, count: nat): Option<nat>
    requires at + count <= |s|
    decreases count
  {
    if count == 0 then Some(bits)
    else if s[at] / 64 != 2 then None
    else Follow(s, at + 1, bits * 64 + Bits(s[at]), count - 1)
  }

  predicate Allowed(u: nat, count: nat) {
    !((count == 2 && u < 0x800) || (count == 3 && u < 0x10000) || 0xd800 <= u <= 0xdfff || u > 0x10ffff)
  }

  /** The length of the scalar that the check passes over at `at`, if it does. */
  function Step(s: Bytes, at: nat): (n: Option<nat>)
    requires at < |s|
    ensures n.Some? ==> 1 <= n.value && at + n.value <= |s|
  {
    match Lead(s[at])
    case None => None
    case Some((bits, count)) =>
      if at + 1 + count > |s| then None
      else
        match Follow(s, at + 1, bits, count)
        case None => None
        case Some(u) => if Allowed(u, count) then Some(1 + count) else None
  }

  lemma FollowUnrolls(s: Bytes, at: nat, bits: nat, count: nat)
    requires at + count <= |s| && count <= 3
    ensures Follow(s, at, bits, count).Some? <==> AllFollow(s, at, count)
    ensures Follow(s, at, bits, count).Some? ==>
              Follow(s, at, bits, count).value ==
                if count == 0 then bits
                else if count == 1 then bits * 64 + Bits(s[at])
                else if count == 2 then (bits * 64 + Bits(s[at])) * 64 + Bits(s[at + 1])
                else ((bits * 64 + Bits(s[at])) * 64 + Bits(s[at + 1])) * 64 + Bits(s[at + 2])
    decreases count
  {
    if count > 0 {
      FollowUnrolls(s, at + 1, bits * 64 + Bits(s[at]), count - 1);
    }
  }

  lemma Digits(q: nat, d: nat)
    requires d < 64
    ensures (q * 64 + d) / 64 == q && (q * 64 + d) % 64 == d
  {
  }

  lemma ContinuationBits(c: byte)
    requires c / 64 == 2
    ensures Bits(c) < 64 && Continuation(Bits(c)) == c
  {
  }

  lemma OneByte(b0: byte)
    requires b0 < 0x80
    ensures EncodeOne(b0 as nat) == [b0]
  {
  }

  lemma TwoBytes(b0: byte, b1: byte)
    requires 0xc2 <= b0 <= 0xdf && b1 / 64 == 2
    ensures EncodeOne(b0 as nat % 32 * 64 + Bits(b1)) == [b0, b1]
  {
    ContinuationBits(b1);
    Digits(b0 as nat % 32, Bits(b1));
  }

  lemma ThreeBytes(b0: byte, b1: byte, b2: byte)
    requires 0xe0 <= b0 <= 0xef && b1 / 64 == 2 && b2 / 64 == 2
    requires Allowed((b0 as nat % 16 * 64 + Bits(b1)) * 64 + Bits(b2), 2)
    ensures EncodeOne((b0 as nat % 16 * 64 + Bits(b1)) * 64 + Bits(b2)) == [b0, b1, b2]
  {
    ContinuationBits(b1);
    ContinuationBits(b2);
    Digits(b0 as nat % 16, Bits(b1));
    Digits(b0 as nat % 16 * 64 + Bits(b1), Bits(b2));
  }

  lemma FourBytes(b0: byte, b1: byte, b2: byte, b3: byte)
    requires 0xf0 <= b0 <= 0xf4 && b1 / 64 == 2 && b2 / 64 == 2 && b3 / 64 == 2
    requires Allowed(((b0 as nat % 8 * 64 + Bits(b1)) * 64 + Bits(b2)) * 64 + Bits(b3), 3)
    ensures EncodeOne(((b0 as nat % 8 * 64 + Bits(b1)) * 64 + Bits(b2)) * 64 + Bits(b3)) == [b0, b1, b2, b3]
  {
    ContinuationBits(b1);
    ContinuationBits(b2);
    ContinuationBits(b3);
    Digits(b0 as nat % 8, Bits(b1));
    Digits(b0 as nat % 8 * 64 + Bits(b1), Bits(b2));
    Digits((b0 as nat % 8 * 64 + Bits(b1)) * 64 + Bits(b2), Bits(b3));
  }

  /** What the check passes over is the encoding of a scalar. */
  lemma StepIsEncoding(s: Bytes, at: nat) returns (u: Scalar)
    requires at < |s| && Step(s, at).Some?
    ensures EncodeOne(u) == s[at..at + Step(s, at).value]
  {
    hide EncodeOne, Bits;
    var (bits, count) := Lead(s[at]).value;
    FollowUnrolls(s, at + 1, bits, count);
    u := Follow(s, at + 1, bits, count).value;
    if count == 0 {
      OneByte(s[at]);
      assert s[at..at + 1] == [s[at]];
    } else if count == 1 {
      TwoBytes(s[at], s[at + 1]);
      assert s[at..at + 2] == [s[at], s[at + 1]];
    } else if count == 2 {
      ThreeBytes(s[at], s[at + 1], s[at + 2]);
      assert s[at..at + 3] == [s[at], s[at + 1], s[at + 2]];
    } else {
      FourBytes(s[at], s[at + 1], s[at + 2], s[at + 3]);
      assert s[at..at + 4] == [s[at], s[at + 1], s[at + 2], s[at + 3]];
    }
  }

  lemma EncodedContinuation(d: nat)
    requires d < 64
    ensures Continuation(d) / 64 == 2 && Bits(Continuation(d)) == d
  {
  }

  /** Read back as the check reads them, the bytes of an encoding make up the scalar. */
  lemma EncodedBits(u: Scalar)
    ensures var e := EncodeOne(u);
            && AllFollow(e, 1, |e| - 1)
            && Lead(e[0]).Some? && Lead(e[0]).value.1 == |e| - 1
            && var bits := Lead(e[0]).value.0;
               u == if |e| == 1 then bits
                    else if |e| == 2 then bits * 64 + Bits(e[1])
                    else if |e| == 3 then (bits * 64 + Bits(e[1])) * 64 + Bits(e[2])
                    else ((bits * 64 + Bits(e[1])) * 64 + Bits(e[2])) * 64 + Bits(e[3])
  {
    var high: nat := u / 64;
    var higher: nat := high / 64;
    assert u == high * 64 + u % 64 && high == higher * 64 + high % 64 && higher == higher / 64 * 64 + higher % 64;
    EncodingLeads(u);
    EncodedContinuation(u % 64);
    EncodedContinuation(high % 64);
    EncodedContinuation(higher % 64);
    hide Continuation, Bits, Lead;
  }

  /** The bits behind the lead byte of an encoding make up the scalar. */
  lemma EncodingFollows(s: Bytes, at: nat, u: Scalar)
    requires at + |EncodeOne(u)| <= |s| && s[at..at + |EncodeOne(u)|] == EncodeOne(u)
    ensures Lead(s[at]).Some? && Lead(s[at]).value.1 == |EncodeOne(u)| - 1
    ensures var (bits, count) := Lead(s[at]).value; Follow(s, at + 1, bits, count) == Some(u)
  {
    hide EncodeOne, Lead, Follow, Bits;
    var e := EncodeOne(u);
    EncodedBits(u);
    var part := s[at..at + |e|];
    assert s[at] == part[0] && (|e| > 1 ==> s[at + 1] == part[1]);
    assert (|e| > 2 ==> s[at + 2] == part[2]) && (|e| > 3 ==> s[at + 3] == part[3]);
    var (bits, count) := Lead(s[at]).value;
    FollowUnrolls(s, at + 1, bits, count);
  }

  /** The encoding of a scalar is passed over, whole, and its bits are the scalar's. */
  lemma EncodingSteps(s: Bytes, at: nat, u: Scalar)
    requires at + |EncodeOne(u)| <= |s| && s[at..at + |EncodeOne(u)|] == EncodeOne(u)
    ensures Step(s, at) == Some(|EncodeOne(u)|)
    ensures Lead(s[at]).Some? && var (bits, count) := Lead(s[at]).value; Follow(s, at + 1, bits, count) == Some(u)
  {
    EncodingFollows(s, at, u);
    EncodingIsAllowed(u);
    hide EncodeOne, Lead, Follow, Allowed;
  }

  lemma EncodingIsAllowed(u: Scalar)
    ensures Allowed(u, |EncodeOne(u)| - 1)
  {
  }

  lemma EncodingLeads(u: Scalar)
    ensures Lead(EncodeOne(u)[0]) ==
              Some(if u < 0x80 then (u, 0) else if u < 0x800 then (u / 64, 1)
                   else if u < 0x10000 then (u / 64 / 64, 2) else (u / 64 / 64 / 64, 3))
  {
  }

  /** Past one scalar, the rest decides; where none is passed over, nothing encodes the string. */
  lemma StepDecides(s: Bytes, at: nat)
    requires at < |s|
    ensures Step(s, at).None? ==> !IsUtf8(s[at..])
    ensures Step(s, at).Some? ==> (IsUtf8(s[at..]) <==> IsUtf8(s[at + Step(s, at).value..]))
  {
    hide EncodeOne, Step;
    if IsUtf8(s[at..]) {
      var text :| Encode(text) == s[at..];
      assert text != [] && s[at..] == EncodeOne(text[0]) + Encode(text[1..]);
      var n := |EncodeOne(text[0])|;
      assert s[at..at + n] == s[at..][..n] == EncodeOne(text[0]);
      EncodingSteps(s, at, text[0]);
      assert s[at + n..] == s[at..][n..] == Encode(text[1..]);
    }
    if Step(s, at).Some? && IsUtf8(s[at + Step(s, at).value..]) {
      var u := StepIsEncoding(s, at);
      var n := Step(s, at).value;
      var text :| Encode(text) == s[at + n..];
      assert ([u] + text)[1..] == text;
      assert Encode([u] + text) == s[at..at + n] + s[at + n..] == s[at..];
    }
  }

  /** A byte string passes if and only if it encodes some sequence of scalar values: no overlong form, no
      surrogate, nothing truncated, nothing above 10FFFF. */
  method ValidUtf8(s: Bytes) returns (valid: bool)
    ensures valid <==> IsUtf8(s)
  {
    var i := 0;
    assert s[0..] == s;
    while i < |s|
      invariant i <= |s| && (IsUtf8(s) <==> IsUtf8(s[i..]))
    {
      StepDecides(s, i);
      ghost var start := i;
      var first := s[i];
      i := i + 1;
      if first < 0x80 { continue; }
      var scalar: nat, count: nat;
      if 0xc2 <= first <= 0xdf { scalar, count := first as nat % 32, 1; }
      else if 0xe0 <= first <= 0xef { scalar, count := first as nat % 16, 2; }
      else if 0xf0 <= first <= 0xf4 { scalar, count := first as nat % 8, 3; }
      else { return false; }
      if count > |s| - i { return false; }
      ghost var bits := scalar;
      for j := 0 to count
        invariant i == start + 1 + j && i + (count - j) <= |s|
        invariant Follow(s, start + 1, bits, count) == Follow(s, i, scalar, count - j)
      {
        var next := s[i];
        i := i + 1;
        if next / 64 != 2 { return false; }
        scalar := scalar * 64 + Bits(next);
      }
      if (count == 2 && scalar < 0x800) || (count == 3 && scalar < 0x10000) ||
         0xd800 <= scalar <= 0xdfff || scalar > 0x10ffff
      { return false; }
    }
    assert s[i..] == [] == Encode([]);
    valid := true;
  }

  /** No two texts have the same encoding. */
  lemma {:induction false} EncodingIsInjective(a: seq<Scalar>, b: seq<Scalar>)
    requires Encode(a) == Encode(b)
    ensures a == b
  {
    hide EncodeOne, Step;
    var s := Encode(a);
    if a == [] || b == [] {
    } else {
      var m, n := |EncodeOne(a[0])|, |EncodeOne(b[0])|;
      assert s[0..m] == EncodeOne(a[0]) && s[0..n] == EncodeOne(b[0]);
      EncodingSteps(s, 0, a[0]);
      EncodingSteps(s, 0, b[0]);
      assert a[0] == b[0];
      assert s[m..] == Encode(a[1..]) && s[n..] == Encode(b[1..]);
      EncodingIsInjective(a[1..], b[1..]);
    }
  }
}

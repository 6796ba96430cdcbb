/** What several models share: byte strings, optional values, and a clock that a call moves forward. */
module Base {

  newtype byte = x: int | 0 <= x < 256
  type Bytes = seq<byte>

  datatype Option<+T> = None | Some(value: T)

  /** An operation takes some time: it ends at any instant from its start on. */
  method Later(start: nat) returns (now: nat)
    ensures now >= start
  {
    var pause: nat :| 0 <= pause;
    now := start + pause;
  }

  /** The string a C pointer to these bytes denotes. */
  function CString(s: Bytes): (text: Bytes)
    ensures text <= s && 0 !in text && (|text| < |s| ==> s[|text|] == 0)
  {
    if s == [] || s[0] == 0 then [] else [s[0]] + CString(s[1..])
  }

  lemma {:induction false} CStringEnds(s: Bytes, p: nat)
    requires p <= |s| && 0 !in s[..p] && (p < |s| ==> s[p] == 0)
    ensures CString(s) == s[..p]
  {
    if p > 0 {
      assert s[0] == s[..p][0];
      assert s[1..][..p - 1] == s[..p][1..];
      CStringEnds(s[1..], p - 1);
    }
  }
}

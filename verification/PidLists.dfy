/** The sorted PID lists of the Darwin helper, merged in place and searched by bisection. */
module PidLists {

  const MAX_PIDS: nat := 16384

  predicate Sorted(s: seq<int>) {
    forall i, j :: 0 <= i < j < |s| ==> s[i] <= s[j]
  }

  predicate StrictlyIncreasing(s: seq<int>) {
    forall i, j :: 0 <= i < j < |s| ==> s[i] < s[j]
  }

  /** The PIDs of a list that name ordinary processes. */
  function Pids(s: seq<int>): set<int> {
    set p | p in s && p > 1
  }

  /** Two strictly increasing lists of the same PIDs are the same list. */
  lemma {:induction false} IncreasingIsCanonical(s: seq<int>, t: seq<int>)
    requires StrictlyIncreasing(s) && StrictlyIncreasing(t)
    requires forall p :: p in s <==> p in t
    ensures s == t
  {
    if s == [] {
      assert forall k :: 0 <= k < |t| ==> t[k] in t;
    } else {
      assert s[0] in s;
      var a, b := s[|s| - 1], t[|t| - 1];
      assert a in t && b in s;
      assert a == b;
      var u, v := s[..|s| - 1], t[..|t| - 1];
      forall p
        ensures p in u <==> p in v
      {
        assert p in u <==> p in s && p != a;
        assert p in v <==> p in t && p != b;
      }
      IncreasingIsCanonical(u, v);
      assert s == u + [a] && t == v + [b];
    }
  }

  function Members(s: seq<int>): set<int> {
    set p | p in s
  }

  lemma LastIsNew(s: seq<int>)
    requires StrictlyIncreasing(s) && s != []
    ensures s[|s| - 1] !in s[..|s| - 1]
    ensures StrictlyIncreasing(s[..|s| - 1])
    ensures Members(s) == Members(s[..|s| - 1]) + {s[|s| - 1]}
  {
    assert s == s[..|s| - 1] + [s[|s| - 1]];
  }

  lemma {:induction false} IncreasingLength(s: seq<int>)
    requires StrictlyIncreasing(s)
    ensures |Members(s)| == |s|
  {
    if s != [] {
      LastIsNew(s);
      IncreasingLength(s[..|s| - 1]);
    }
  }

  lemma PidsOfLonger(s: seq<int>, i: nat)
    requires i < |s|
    ensures Pids(s[..i + 1]) == Pids(s[..i]) + (if s[i] > 1 then {s[i]} else {})
  {
    assert s[..i + 1] == s[..i] + [s[i]];
  }

  /** What the merge has written after it passed `i` entries of one list and `j` of the other. */
  ghost predicate Merged(out: seq<int>, a: seq<int>, i: nat, b: seq<int>, j: nat)
    requires i <= |a| && j <= |b|
  {
    && StrictlyIncreasing(out)
    && Members(out) == Pids(a[..i]) + Pids(b[..j])
    && NotPast(out, a, i) && NotPast(out, b, j)
  }

  predicate NotPast(out: seq<int>, s: seq<int>, i: nat)
    requires i <= |s|
  {
    out != [] && i < |s| ==> out[|out| - 1] <= s[i]
  }

  lemma AppendLarger(out: seq<int>, next: int)
    requires StrictlyIncreasing(out) && (out != [] ==> out[|out| - 1] <= next)
    ensures var out' := if out != [] && out[|out| - 1] == next then out else out + [next];
            && StrictlyIncreasing(out') && Members(out') == Members(out) + {next}
            && out' != [] && out'[|out'| - 1] == next
  {
    assert out != [] ==> out[|out| - 1] in out;
  }

  /** One entry passed, or one of each when they agree. */
  ghost predicate Passes(a: seq<int>, i: nat, i': nat, b: seq<int>, j: nat, j': nat, next: int) {
    && i <= i' <= i + 1 && j <= j' <= j + 1 && i' <= |a| && j' <= |b| && i + j < i' + j'
    && (i < i' ==> a[i] == next) && (j < j' ==> b[j] == next)
    && (i < |a| ==> next <= a[i]) && (j < |b| ==> next <= b[j])
    && (i' < |a| ==> next <= a[i']) && (j' < |b| ==> next <= b[j'])
  }

  lemma PidsStep(a: seq<int>, i: nat, i': nat, b: seq<int>, j: nat, j': nat, next: int)
    requires Passes(a, i, i', b, j, j', next)
    ensures Pids(a[..i']) + Pids(b[..j']) == Pids(a[..i]) + Pids(b[..j]) + (if next > 1 then {next} else {})
  {
    if i < i' { PidsOfLonger(a, i); }
    if j < j' { PidsOfLonger(b, j); }
  }

  lemma SkipStep(out: seq<int>, a: seq<int>, i: nat, i': nat, b: seq<int>, j: nat, j': nat, next: int)
    requires Passes(a, i, i', b, j, j', next) && Merged(out, a, i, b, j)
    requires next <= 1 || (out != [] && out[|out| - 1] == next)
    ensures Merged(out, a, i', b, j')
  {
    PidsStep(a, i, i', b, j, j', next);
    if out != [] {
      assert out[|out| - 1] in Members(out);
    }
  }

  lemma AppendStep(out: seq<int>, a: seq<int>, i: nat, i': nat, b: seq<int>, j: nat, j': nat, next: int)
    requires Passes(a, i, i', b, j, j', next) && Merged(out, a, i, b, j)
    requires next > 1 && (out == [] || out[|out| - 1] != next)
    ensures Merged(out + [next], a, i', b, j')
  {
    PidsStep(a, i, i', b, j, j', next);
    AppendLarger(out, next);
  }

  /** The smaller front entry, or both when they agree. */
  method PickNext(all: array<int>, count: nat, i: nat, extra: seq<int>, j: nat)
    returns (next: int, i': nat, j': nat)
    requires count <= all.Length && i <= count && j <= |extra| && (i < count || j < |extra|)
    requires Sorted(all[..count]) && Sorted(extra)
    ensures Passes(all[..count], i, i', extra, j, j', next)
  {
    ghost var a := all[..count];
    assert forall k :: 0 <= k < count ==> all[k] == a[k];
    if j >= |extra| || (i < count && all[i] < extra[j]) {
      next, i', j' := all[i], i + 1, j;
    } else if i >= count || extra[j] < all[i] {
      next, i', j' := extra[j], i, j + 1;
    } else {
      next, i', j' := all[i], i + 1, j + 1;
    }
  }

  /** `all` becomes the strictly increasing union of the PIDs above 1 of both lists. It is left alone
      when that union has no room. */
  method MergePids(all: array<int>, count: nat, extra: seq<int>) returns (ok: bool, size: nat)
    requires count <= all.Length == MAX_PIDS
    requires Sorted(all[..count]) && Sorted(extra)
    modifies all
    ensures ok <==> |Pids(old(all[..count])) + Pids(extra)| < MAX_PIDS
    ensures ok ==> size < MAX_PIDS && StrictlyIncreasing(all[..size])
    ensures ok ==> Members(all[..size]) == Pids(old(all[..count])) + Pids(extra)
    ensures !ok ==> all[..] == old(all[..]) && size == count
  {
    var merged := new int[MAX_PIDS];
    var i, j := 0, 0;
    size := 0;
    ghost var a := all[..count];
    ghost var out: seq<int> := [];
    while i < count || j < |extra|
      invariant i <= count && j <= |extra| && size < MAX_PIDS
      invariant all[..] == old(all[..]) && all[..count] == a
      invariant out == merged[..size] && Merged(out, a, i, extra, j)
      decreases count - i + |extra| - j
    {
      var next, i', j' := PickNext(all, count, i, extra, j);
      if next <= 1 || (size > 0 && merged[size - 1] == next) {
        SkipStep(out, a, i, i', extra, j, j', next);
      } else {
        AppendStep(out, a, i, i', extra, j, j', next);
        out := out + [next];
        if size >= MAX_PIDS - 1 {
          NoRoom(out, a, i', extra, j');
          return false, count;
        }
        merged[size], size := next, size + 1;
      }
      i, j := i', j';
    }
    Fits(out, a, extra);
    CopyBack(all, merged, size);
    ok := true;
  }

  method CopyBack(all: array<int>, merged: array<int>, size: nat)
    requires size <= all.Length && size <= merged.Length && all != merged
    modifies all
    ensures all[..size] == merged[..size]
  {
    forall k | 0 <= k < size {
      all[k] := merged[k];
    }
  }

  lemma NoRoom(out: seq<int>, a: seq<int>, i: nat, b: seq<int>, j: nat)
    requires i <= |a| && j <= |b| && Merged(out, a, i, b, j) && |out| >= MAX_PIDS
    ensures |Pids(a) + Pids(b)| >= MAX_PIDS
  {
    IncreasingLength(out);
    assert Pids(a[..i]) + Pids(b[..j]) <= Pids(a) + Pids(b);
    SubsetSize(Members(out), Pids(a) + Pids(b));
  }

  lemma Fits(out: seq<int>, a: seq<int>, b: seq<int>)
    requires Merged(out, a, |a|, b, |b|)
    ensures |Pids(a) + Pids(b)| == |out|
    ensures Members(out) == Pids(a) + Pids(b)
  {
    assert a[..|a|] == a && b[..|b|] == b;
    IncreasingLength(out);
  }

  lemma SubsetSize(s: set<int>, t: set<int>)
    requires s <= t
    ensures |s| <= |t|
  {
    assert |t - s| == |t| - |s|;
  }

  /** Bisection over a sorted list finds a PID exactly when it is there. */
  method Find(pids: array<int>, count: nat, pid: int) returns (found: bool, at: nat)
    requires count <= pids.Length && StrictlyIncreasing(pids[..count])
    ensures found <==> pid in pids[..count]
    ensures found ==> at < count && pids[at] == pid
  {
    var low, high := 0, count;
    while low < high
      invariant low <= high <= count
      invariant forall k :: 0 <= k < low ==> pids[..count][k] < pid
      invariant forall k :: high <= k < count ==> pids[..count][k] > pid
    {
      var mid := (low + high) / 2;
      assert pids[..count][mid] == pids[mid];
      if pids[mid] == pid { return true, mid; }
      if pids[mid] < pid { low := mid + 1; } else { high := mid; }
    }
    found, at := false, 0;
  }
}

/**
 * What the windowers promise: the skip-gram index tuples are exactly the
 * ascending in-range tuples whose span is at most n + skip - 1, each once;
 * skip-grams with skip 0 are the contiguous n-grams; and the two examples the
 * test suite checks.
 */
module WindowProperties {
  import opened Wrappers
  import opened Windows

  /** The positions a skip-gram of n tokens with at most `skip` skipped tokens can take. */
  predicate IsSkipgramIndex(t: seq<int>, len: int, n: int, skip: int)
  {
    |t| == n >= 1 && Ascending(t) && InRange(t, len) && t[n - 1] - t[0] <= n + skip - 1
  }

  /** The tuple lies in the window of width w starting at k. */
  predicate InWindow(t: seq<int>, n: int, k: int, w: int)
  {
    |t| == n && Ascending(t) && Within(t, k, k + w)
  }

  // ----------------------------------------------------------------------
  // Combinations
  // ----------------------------------------------------------------------

  /** Putting a position in front of an ascending tuple of larger positions keeps it ascending. */
  lemma {:induction false} ConsAscending(t: seq<int>, hi: int)
    requires |t| >= 1 && Ascending(t[1..]) && Within(t[1..], t[0] + 1, hi) && t[0] < hi
    ensures Ascending(t) && Within(t, t[0], hi)
  {
    var tail := t[1..];
    assert forall a :: 1 <= a < |t| ==> t[a] == tail[a - 1];
  }

  /** The tuples of PrependAll(x, ts) are x followed by a tuple of ts. */
  lemma {:induction false} PrependAllInverse(x: int, ts: seq<seq<int>>, t: seq<int>)
    requires t in PrependAll(x, ts)
    ensures |t| >= 1 && t[0] == x && t[1..] in ts
  {
    var i :| 0 <= i < |ts| && PrependAll(x, ts)[i] == t;
    assert t[1..] == ts[i];
  }

  lemma {:induction false} PrependAllMember(x: int, ts: seq<seq<int>>, t: seq<int>)
    requires |t| >= 1 && t[0] == x && t[1..] in ts
    ensures t in PrependAll(x, ts)
  {
    var i :| 0 <= i < |ts| && ts[i] == t[1..];
    assert PrependAll(x, ts)[i] == t;
  }

  /**
   * A tuple of combinations(range(lo, hi), n) is lo followed by a tuple of
   * combinations(range(lo + 1, hi), n - 1), or one of combinations(range(lo + 1, hi), n);
   * head says which part of the concatenation it was found in.
   */
  lemma {:induction false} CombinationsSplit(lo: int, hi: int, n: nat, t: seq<int>) returns (head: bool)
    requires n > 0 && lo < hi && t in Combinations(lo, hi, n)
    ensures head ==> |t| >= 1 && t[0] == lo && t[1..] in Combinations(lo + 1, hi, n - 1)
    ensures !head ==> t in Combinations(lo + 1, hi, n)
  {
    CombinationsUnfold(lo, hi, n);
    var prefixed := PrependAll(lo, Combinations(lo + 1, hi, n - 1));
    var rest := Combinations(lo + 1, hi, n);
    var i :| 0 <= i < |prefixed + rest| && (prefixed + rest)[i] == t;
    head := i < |prefixed|;
    if head {
      assert prefixed[i] == t;
      PrependAllInverse(lo, Combinations(lo + 1, hi, n - 1), t);
    } else {
      assert rest[i - |prefixed|] == t;
    }
  }

  lemma {:induction false} WithinWider(t: seq<int>, lo: int, hi: int)
    requires Within(t, lo + 1, hi)
    ensures Within(t, lo, hi)
  {
  }

  lemma {:induction false} CombinationsSound(lo: int, hi: int, n: nat, t: seq<int>)
    requires t in Combinations(lo, hi, n)
    ensures |t| == n && Ascending(t) && Within(t, lo, hi)
    decreases n, hi - lo, 1
  {
    if n > 0 && lo < hi {
      var head := CombinationsSplit(lo, hi, n, t);
      if head {
        SoundHead(lo, hi, n, t);
      } else {
        SoundRest(lo, hi, n, t);
      }
    }
  }

  lemma {:induction false} SoundHead(lo: int, hi: int, n: nat, t: seq<int>)
    requires n > 0 && lo < hi && |t| >= 1 && t[0] == lo && t[1..] in Combinations(lo + 1, hi, n - 1)
    ensures |t| == n && Ascending(t) && Within(t, lo, hi)
    decreases n, hi - lo, 0
  {
    CombinationsSound(lo + 1, hi, n - 1, t[1..]);
    ConsAscending(t, hi);
  }

  lemma {:induction false} SoundRest(lo: int, hi: int, n: nat, t: seq<int>)
    requires n > 0 && lo < hi && t in Combinations(lo + 1, hi, n)
    ensures |t| == n && Ascending(t) && Within(t, lo, hi)
    decreases n, hi - lo, 0
  {
    CombinationsSound(lo + 1, hi, n, t);
    WithinWider(t, lo, hi);
  }

  /** Removing the first position lo of an ascending tuple leaves one drawn from [lo + 1, hi). */
  lemma {:induction false} TailAscending(t: seq<int>, lo: int, hi: int)
    requires |t| >= 1 && t[0] == lo && Ascending(t) && Within(t, lo, hi)
    ensures Ascending(t[1..]) && Within(t[1..], lo + 1, hi)
  {
    var tail := t[1..];
    assert forall a :: 0 <= a < |tail| ==> tail[a] == t[a + 1];
  }

  /** An ascending tuple not starting at lo lies in [lo + 1, hi). */
  lemma {:induction false} AboveLow(t: seq<int>, lo: int, hi: int)
    requires |t| >= 1 && Ascending(t) && Within(t, lo, hi) && t[0] != lo
    ensures Within(t, lo + 1, hi)
  {
    assert forall a :: 0 < a < |t| ==> t[0] < t[a];
  }

  lemma {:induction false} CombinationsUnfold(lo: int, hi: int, n: nat)
    requires n > 0 && lo < hi
    ensures Combinations(lo, hi, n) == PrependAll(lo, Combinations(lo + 1, hi, n - 1)) + Combinations(lo + 1, hi, n)
  {
  }


  /** lo followed by a tuple of combinations(range(lo + 1, hi), n - 1) is one of combinations(range(lo, hi), n). */
  lemma {:induction false} CombinationsHead(lo: int, hi: int, n: nat, t: seq<int>)
    requires n > 0 && lo < hi && |t| >= 1 && t[0] == lo && t[1..] in Combinations(lo + 1, hi, n - 1)
    ensures t in Combinations(lo, hi, n)
  {
    CombinationsUnfold(lo, hi, n);
    PrependAllMember(lo, Combinations(lo + 1, hi, n - 1), t);
  }

  /** combinations(range(lo + 1, hi), n) is a part of combinations(range(lo, hi), n). */
  lemma {:induction false} CombinationsRest(lo: int, hi: int, n: nat, t: seq<int>)
    requires n > 0 && lo < hi && t in Combinations(lo + 1, hi, n)
    ensures t in Combinations(lo, hi, n)
  {
    CombinationsUnfold(lo, hi, n);
  }

  lemma {:induction false} CombinationsComplete(lo: int, hi: int, n: nat, t: seq<int>)
    requires |t| == n && Ascending(t) && Within(t, lo, hi)
    ensures t in Combinations(lo, hi, n)
    decreases n, hi - lo, 1
  {
    if n > 0 {
      assert lo <= t[0] < hi;
      if t[0] == lo {
        CompleteHead(lo, hi, n, t);
      } else {
        CompleteRest(lo, hi, n, t);
      }
    }
  }

  lemma {:induction false} CompleteHead(lo: int, hi: int, n: nat, t: seq<int>)
    requires n > 0 && |t| == n && Ascending(t) && Within(t, lo, hi) && t[0] == lo
    ensures t in Combinations(lo, hi, n)
    decreases n, hi - lo, 0
  {
    TailAscending(t, lo, hi);
    CombinationsComplete(lo + 1, hi, n - 1, t[1..]);
    CombinationsHead(lo, hi, n, t);
  }

  lemma {:induction false} CompleteRest(lo: int, hi: int, n: nat, t: seq<int>)
    requires n > 0 && |t| == n && Ascending(t) && Within(t, lo, hi) && t[0] != lo
    ensures t in Combinations(lo, hi, n)
    decreases n, hi - lo, 0
  {
    AboveLow(t, lo, hi);
    CombinationsComplete(lo + 1, hi, n, t);
    CombinationsRest(lo, hi, n, t);
  }

  /** `combinations(range(lo, hi), n)` holds exactly the ascending n-tuples drawn from [lo, hi). */
  lemma {:induction false} CombinationsMembers(lo: int, hi: int, n: nat, t: seq<int>)
    ensures t in Combinations(lo, hi, n) <==> |t| == n && Ascending(t) && Within(t, lo, hi)
  {
    if t in Combinations(lo, hi, n) {
      CombinationsSound(lo, hi, n, t);
    }
    if |t| == n && Ascending(t) && Within(t, lo, hi) {
      CombinationsComplete(lo, hi, n, t);
    }
  }

  /** The n consecutive positions starting at k. */
  function Run(k: int, n: nat): (r: seq<int>)
    ensures |r| == n && forall i :: 0 <= i < n ==> r[i] == k + i
  {
    seq(n, i => k + i)
  }

  /** (n choose n): the only n-tuple of n consecutive positions is all of them. */
  lemma {:induction false} CombinationsAll(lo: int, n: nat)
    ensures Combinations(lo, lo + n, n) == [Run(lo, n)]
    decreases n
  {
    if n > 0 {
      CombinationsAll(lo + 1, n - 1);
      CombinationsTooFew(lo + 1, lo + n, n);
      var tail := Run(lo + 1, n - 1);
      CombinationsUnfold(lo, lo + n, n);
      assert Combinations(lo + 1, lo + n, n - 1) == [tail];
      PrependAllOne(lo, tail);
      assert [lo] + tail == Run(lo, n);
    } else {
      assert Run(lo, n) == [];
    }
  }

  lemma {:induction false} CombinationsTooFew(lo: int, hi: int, n: nat)
    requires n > 0 && n > hi - lo
    ensures Combinations(lo, hi, n) == []
    decreases hi - lo
  {
    if lo < hi {
      CombinationsTooFew(lo + 1, hi, n);
      if n > 1 {
        CombinationsTooFew(lo + 1, hi, n - 1);
      } else {
        assert false;
      }
    }
  }

  // ----------------------------------------------------------------------
  // Shifting and candidates
  // ----------------------------------------------------------------------

  lemma {:induction false} ShiftWindow(c: seq<int>, n: nat, k: int, w: int)
    ensures InWindow(Shift(c, k), n, k, w) <==> InWindow(c, n, 0, w)
  {
    var t := Shift(c, k);
    assert forall i :: 0 <= i < |t| ==> t[i] == c[i] + k;
    assert Ascending(t) <==> Ascending(c);
    assert Within(t, k, k + w) <==> Within(c, 0, w);
  }

  lemma {:induction false} ShiftAllMembers(w: int, n: nat, k: int, t: seq<int>)
    ensures t in ShiftAll(Combinations(0, w, n), k) <==> InWindow(t, n, k, w)
  {
    var combos := Combinations(0, w, n);
    var shifted := ShiftAll(combos, k);
    if t in shifted {
      var i :| 0 <= i < |combos| && shifted[i] == t;
      assert t == Shift(combos[i], k);
      CombinationsMembers(0, w, n, combos[i]);
      ShiftWindow(combos[i], n, k, w);
    }
    if InWindow(t, n, k, w) {
      var c := Shift(t, -k);
      assert Shift(c, k) == t;
      ShiftWindow(c, n, k, w);
      CombinationsMembers(0, w, n, c);
      var i :| 0 <= i < |combos| && combos[i] == c;
      assert shifted[i] == t;
    }
  }

  /** The tuple lies in the window of width w of one of the starts 0 .. K-1. */
  predicate InSomeWindow(t: seq<int>, n: int, K: int, w: int)
  {
    exists k :: 0 <= k < K && InWindow(t, n, k, w)
  }

  lemma {:induction false} InSomeWindowStep(t: seq<int>, n: int, K: int, w: int)
    requires K > 0
    ensures InSomeWindow(t, n, K, w) <==> InSomeWindow(t, n, K - 1, w) || InWindow(t, n, K - 1, w)
  {
    if InSomeWindow(t, n, K, w) {
      var k :| 0 <= k < K && InWindow(t, n, k, w);
      if k < K - 1 {
        assert InSomeWindow(t, n, K - 1, w);
      }
    }
  }

  lemma {:induction false} CandidatesUnfold(len: int, n: nat, skip: int, K: int)
    requires K > 0
    ensures Candidates(len, n, skip, K) ==
      Candidates(len, n, skip, K - 1) + ShiftAll(Combinations(0, Width(len, n, skip), n), K - 1)
  {
  }

  /** The candidates are the ascending n-tuples of the windows of the starts 0 .. K-1. */
  lemma {:induction false} CandidatesMembers(len: int, n: nat, skip: int, K: int, t: seq<int>)
    ensures t in Candidates(len, n, skip, K) <==> InSomeWindow(t, n, K, Width(len, n, skip))
    decreases K
  {
    if K > 0 {
      var w := Width(len, n, skip);
      CandidatesUnfold(len, n, skip, K);
      CandidatesMembers(len, n, skip, K - 1, t);
      ShiftAllMembers(w, n, K - 1, t);
      InSomeWindowStep(t, n, K, w);
    }
  }

  // ----------------------------------------------------------------------
  // The ordered set and the range filter
  // ----------------------------------------------------------------------

  lemma {:induction false} AddAllMembers(acc: seq<seq<int>>, ts: seq<seq<int>>, x: seq<int>)
    ensures x in AddAll(acc, ts) <==> x in acc || x in ts
    decreases |ts|
  {
    if ts != [] {
      var init := ts[..|ts| - 1];
      AddAllMembers(acc, init, x);
      assert ts == init + [ts[|ts| - 1]];
    }
  }

  lemma {:induction false} AddAllDistinct(acc: seq<seq<int>>, ts: seq<seq<int>>)
    requires Distinct(acc)
    ensures Distinct(AddAll(acc, ts))
    decreases |ts|
  {
    if ts != [] {
      AddAllDistinct(acc, ts[..|ts| - 1]);
    }
  }

  /** With nothing repeated, the ordered set keeps every tuple in order. */
  lemma {:induction false} AddAllOfDistinct(ts: seq<seq<int>>)
    requires Distinct(ts)
    ensures AddAll([], ts) == ts
    decreases |ts|
  {
    if ts != [] {
      var init := ts[..|ts| - 1];
      AddAllOfDistinct(init);
      assert ts[|ts| - 1] !in init;
      assert ts == init + [ts[|ts| - 1]];
    }
  }

  lemma {:induction false} KeepInRangeMembers(ts: seq<seq<int>>, len: int, x: seq<int>)
    ensures x in KeepInRange(ts, len) <==> x in ts && InRange(x, len)
    decreases |ts|
  {
    if ts != [] {
      var init := ts[..|ts| - 1];
      KeepInRangeMembers(init, len, x);
      assert ts == init + [ts[|ts| - 1]];
    }
  }

  lemma {:induction false} KeepInRangeDistinct(ts: seq<seq<int>>, len: int)
    requires Distinct(ts)
    ensures Distinct(KeepInRange(ts, len))
    decreases |ts|
  {
    if ts != [] {
      var init := ts[..|ts| - 1];
      KeepInRangeDistinct(init, len);
      KeepInRangeMembers(init, len, ts[|ts| - 1]);
    }
  }

  lemma {:induction false} KeepInRangeOfInRange(ts: seq<seq<int>>, len: int)
    requires forall t :: t in ts ==> InRange(t, len)
    ensures KeepInRange(ts, len) == ts
    decreases |ts|
  {
    if ts != [] {
      var init := ts[..|ts| - 1];
      KeepInRangeOfInRange(init, len);
      assert ts == init + [ts[|ts| - 1]];
    }
  }

  // ----------------------------------------------------------------------
  // The characterisation
  // ----------------------------------------------------------------------

  lemma {:induction false} AscendingGap(t: seq<int>, i: int)
    requires Ascending(t) && 0 <= i < |t|
    ensures t[i] >= t[0] + i
    decreases i
  {
    if i > 0 {
      AscendingGap(t, i - 1);
    }
  }

  /** An in-range tuple inside one of the windows spans at most n + skip positions. */
  lemma {:induction false} WindowedIsIndex(len: int, n: nat, skip: int, t: seq<int>)
    requires 1 <= n <= len && 0 <= skip
    requires InSomeWindow(t, n, len - n + 1, Width(len, n, skip)) && InRange(t, len)
    ensures IsSkipgramIndex(t, len, n, skip)
  {
    var w := Width(len, n, skip);
    var k :| 0 <= k < len - n + 1 && InWindow(t, n, k, w);
    assert k <= t[0] && t[n - 1] < k + w;
  }

  /** A skip-gram index tuple lies in the window starting at its first position. */
  lemma {:induction false} IndexIsWindowed(len: int, n: nat, skip: int, t: seq<int>)
    requires 1 <= n <= len && 0 <= skip
    requires IsSkipgramIndex(t, len, n, skip)
    ensures InSomeWindow(t, n, len - n + 1, Width(len, n, skip))
  {
    var w := Width(len, n, skip);
    AscendingGap(t, n - 1);
    var k := t[0];
    forall i | 0 <= i < |t|
      ensures k <= t[i] < k + w
    {
      AscendingGap(t, i);
      if i < n - 1 {
        assert t[i] < t[n - 1];
      }
    }
    assert InWindow(t, n, k, w);
  }

  /** A candidate fits in the sequence exactly when it is a skip-gram index tuple. */
  lemma {:induction false} CandidateInRange(len: int, n: nat, skip: int, t: seq<int>)
    requires 1 <= n <= len && 0 <= skip
    ensures (t in Candidates(len, n, skip, len - n + 1) && InRange(t, len)) <==> IsSkipgramIndex(t, len, n, skip)
  {
    CandidatesMembers(len, n, skip, len - n + 1, t);
    if InSomeWindow(t, n, len - n + 1, Width(len, n, skip)) && InRange(t, len) {
      WindowedIsIndex(len, n, skip, t);
    }
    if IsSkipgramIndex(t, len, n, skip) {
      IndexIsWindowed(len, n, skip, t);
    }
  }

  /**
   * The index tuples `skipgrams_from_seq` yields: each ascending, in-range
   * n-tuple whose last and first positions are at most n + skip - 1 apart,
   * each exactly once.
   */
  lemma {:induction false} SkipgramIndicesCharacterised(len: int, n: int, skip: int)
    requires 1 <= n <= len && 0 <= skip
    ensures Distinct(SkipgramIndices(len, n, skip))
    ensures forall t :: t in SkipgramIndices(len, n, skip) <==> IsSkipgramIndex(t, len, n, skip)
  {
    var cands := Candidates(len, n, skip, len - n + 1);
    AddAllDistinct([], cands);
    KeepInRangeDistinct(AddAll([], cands), len);
    forall t
      ensures t in SkipgramIndices(len, n, skip) <==> IsSkipgramIndex(t, len, n, skip)
    {
      KeepInRangeMembers(AddAll([], cands), len, t);
      AddAllMembers([], cands, t);
      CandidateInRange(len, n, skip, t);
    }
  }

  /**
   * `skipgrams_from_seq` raises `ValueError` unless 1 <= n <= len(seq) and
   * 0 <= skip <= len(seq); otherwise it yields, in order, the tokens at the
   * positions of each skip-gram index tuple, every tuple once (tokens may
   * still repeat when the sequence repeats tokens).
   */
  lemma {:induction false} SkipgramsCharacterised<T>(s: seq<T>, n: int, skip: int)
    ensures Skipgrams(s, n, skip).Err? <==> !(1 <= n <= |s| && 0 <= skip <= |s|)
    ensures Skipgrams(s, n, skip).Err? ==> Skipgrams(s, n, skip).error == ValueError
    ensures Skipgrams(s, n, skip).Ok? ==>
      var idx := SkipgramIndices(|s|, n, skip);
      && Distinct(idx)
      && (forall t :: t in idx <==> IsSkipgramIndex(t, |s|, n, skip))
      && |Skipgrams(s, n, skip).value| == |idx|
      && (forall i :: 0 <= i < |idx| ==> Skipgrams(s, n, skip).value[i] == Gather(s, idx[i]))
  {
    if 1 <= n <= |s| && 0 <= skip <= |s| {
      SkipgramIndicesCharacterised(|s|, n, skip);
    }
  }

  /** Every skip-gram of length n has n tokens. */
  lemma {:induction false} SkipgramLengths<T>(s: seq<T>, n: int, skip: int)
    requires Skipgrams(s, n, skip).Ok?
    ensures forall i :: 0 <= i < |Skipgrams(s, n, skip).value| ==> |Skipgrams(s, n, skip).value[i]| == n
  {
    SkipgramsCharacterised(s, n, skip);
    var idx := SkipgramIndices(|s|, n, skip);
    forall i | 0 <= i < |idx|
      ensures |idx[i]| == n
    {
      assert idx[i] in idx;
    }
  }

  // ----------------------------------------------------------------------
  // Ngrams are the skip = 0 case of skip-grams
  // ----------------------------------------------------------------------

  /** The runs of n consecutive positions starting at 0, 1, ..., K - 1. */
  function Runs(K: nat, n: nat): (r: seq<seq<int>>)
    ensures |r| == K && forall k :: 0 <= k < K ==> r[k] == Run(k, n)
  {
    seq(K, k => Run(k, n))
  }

  lemma {:induction false} CandidatesNoSkip(len: int, n: nat, K: nat)
    requires 1 <= n <= len
    ensures Candidates(len, n, 0, K) == Runs(K, n)
    decreases K
  {
    if K > 0 {
      CandidatesNoSkip(len, n, K - 1);
      assert Width(len, n, 0) == n;
      CombinationsAll(0, n);
      assert Shift(Run(0, n), K - 1) == Run(K - 1, n);
      assert ShiftAll([Run(0, n)], K - 1) == [Run(K - 1, n)];
      assert Runs(K - 1, n) + [Run(K - 1, n)] == Runs(K, n);
    }
  }

  lemma {:induction false} RunsDistinct(K: nat, n: nat)
    requires 1 <= n
    ensures Distinct(Runs(K, n))
  {
    var runs := Runs(K, n);
    forall a, b | 0 <= a < b < K
      ensures runs[a] != runs[b]
    {
      assert runs[a][0] == a && runs[b][0] == b;
    }
  }

  lemma {:induction false} RunsInRange(K: nat, n: nat, len: int)
    requires K + n - 1 <= len
    ensures forall t :: t in Runs(K, n) ==> InRange(t, len)
  {
    var runs := Runs(K, n);
    forall t | t in runs
      ensures InRange(t, len)
    {
      var k :| 0 <= k < K && runs[k] == t;
    }
  }

  /** With skip 0 every window start contributes one tuple, its n consecutive positions. */
  lemma {:induction false} NoSkipIndices(len: int, n: nat)
    requires 1 <= n <= len
    ensures SkipgramIndices(len, n, 0) == Runs(len - n + 1, n)
  {
    CandidatesNoSkip(len, n, len - n + 1);
    RunsKept(len - n + 1, n, len);
  }

  /** The runs are distinct and fit, so the ordered set and the filter keep all of them. */
  lemma {:induction false} RunsKept(K: nat, n: nat, len: int)
    requires 1 <= n && K + n - 1 <= len
    ensures KeepInRange(AddAll([], Runs(K, n)), len) == Runs(K, n)
  {
    RunsDistinct(K, n);
    AddAllOfDistinct(Runs(K, n));
    RunsInRange(K, n, len);
    KeepInRangeOfInRange(Runs(K, n), len);
  }

  /** "Ngrams are a special case of skipgrams, where skip = 0." */
  lemma {:induction false} SkipZeroIsNgrams<T>(s: seq<T>, n: int)
    requires 1 <= n <= |s|
    ensures Skipgrams(s, n, 0) == Ok(NgramsFromSeq(s, n))
  {
    var K := |s| - n + 1;
    var idx := SkipgramIndices(|s|, n, 0);
    NoSkipIndices(|s|, n);
    var grams := NgramsFromSeq(s, n);
    var gathered := GatherAll(s, idx);
    assert |gathered| == |grams|;
    forall k | 0 <= k < K
      ensures gathered[k] == grams[k]
    {
      assert idx[k] == Run(k, n);
      assert Gather(s, idx[k]) == s[k..k + n];
    }
    assert gathered == grams;
  }

  // ----------------------------------------------------------------------
  // The examples of the test suite
  // ----------------------------------------------------------------------

  lemma {:induction false} NgramsExamples()
    ensures NgramsFromSeq("abcd", 2) == ["ab", "bc", "cd"]
    ensures NgramsFromSeq("abcd", 3) == ["abc", "bcd"]
  {
    var pairs := NgramsFromSeq("abcd", 2);
    assert pairs[0] == "ab" && pairs[1] == "bc" && pairs[2] == "cd";
    var triples := NgramsFromSeq("abcd", 3);
    assert triples[0] == "abc" && triples[1] == "bcd";
  }

  /** The windows of the sequences the test suite feeds to its `Ngrams(3)` fixture: "ab". */
  lemma {:induction false} FixtureWindowsAB(s: string)
    requires s == "ab"
    ensures NgramsFromSeq(s, 2) == ["ab"]
    ensures NgramsFromSeq(s, 3) == []
  {
    var w := NgramsFromSeq(s, 2);
    assert w[0] == s[0..2] == "ab";
  }

  /** "abc". */
  lemma {:induction false} FixtureWindowsABC(s: string)
    requires s == "abc"
    ensures NgramsFromSeq(s, 2) == ["ab", "bc"]
    ensures NgramsFromSeq(s, 3) == ["abc"]
  {
    var w := NgramsFromSeq(s, 2);
    assert w[0] == s[0..2] == "ab" && w[1] == s[1..3] == "bc";
    w := NgramsFromSeq(s, 3);
    assert w[0] == s[0..3] == "abc";
  }

  /** "abcde". */
  lemma {:induction false} FixtureWindowsFive(s: string)
    requires s == "abcde"
    ensures NgramsFromSeq(s, 2) == ["ab", "bc", "cd", "de"]
    ensures NgramsFromSeq(s, 3) == ["abc", "bcd", "cde"]
  {
    var w := NgramsFromSeq(s, 2);
    assert w[0] == s[0..2] == "ab" && w[1] == s[1..3] == "bc" && w[2] == s[2..4] == "cd" && w[3] == s[3..5] == "de";
    w := NgramsFromSeq(s, 3);
    assert w[0] == s[0..3] == "abc" && w[1] == s[1..4] == "bcd" && w[2] == s[2..5] == "cde";
  }

  /** "abcdef". */
  lemma {:induction false} FixtureWindowsSix(s: string)
    requires s == "abcdef"
    ensures NgramsFromSeq(s, 2) == ["ab", "bc", "cd", "de", "ef"]
    ensures NgramsFromSeq(s, 3) == ["abc", "bcd", "cde", "def"]
  {
    var w := NgramsFromSeq(s, 2);
    assert w[0] == s[0..2] == "ab" && w[1] == s[1..3] == "bc" && w[2] == s[2..4] == "cd" && w[3] == s[3..5] == "de" && w[4] == s[4..6] == "ef";
    w := NgramsFromSeq(s, 3);
    assert w[0] == s[0..3] == "abc" && w[1] == s[1..4] == "bcd" && w[2] == s[2..5] == "cde" && w[3] == s[3..6] == "def";
  }

  // ----------------------------------------------------------------------
  // Pairs with one skip: the pattern of the Wikipedia example
  // ----------------------------------------------------------------------

  /**
   * The pairs (0, 1), (0, 2), (1, 2), (1, 3), ..., (K-1, K+1), (K, K+1): each
   * start paired with the next position and then with the one after that,
   * the last start only with the next.
   */
  function OneSkipPairs(K: nat): (r: seq<seq<int>>)
    ensures |r| == 2 * K + 1
  {
    if K == 0 then [[0, 1]] else OneSkipPairs(K - 1) + [[K - 1, K + 1], [K, K + 1]]
  }

  lemma {:induction false} OneSkipBounds(K: nat)
    ensures forall t :: t in OneSkipPairs(K) ==> |t| == 2 && 0 <= t[0] <= K && t[0] < t[1] <= K + 1
    decreases K
  {
    if K > 0 {
      OneSkipBounds(K - 1);
      forall t | t in OneSkipPairs(K)
        ensures |t| == 2 && 0 <= t[0] <= K && t[0] < t[1] <= K + 1
      {
        if t !in OneSkipPairs(K - 1) {
          assert t == [K - 1, K + 1] || t == [K, K + 1];
        }
      }
    }
  }

  lemma {:induction false} AddAllConcat(acc: seq<seq<int>>, xs: seq<seq<int>>, ys: seq<seq<int>>)
    ensures AddAll(acc, xs + ys) == AddAll(AddAll(acc, xs), ys)
    decreases |ys|
  {
    if ys == [] {
      assert xs + ys == xs;
    } else {
      var init := ys[..|ys| - 1];
      AddAllConcat(acc, xs, init);
      assert (xs + ys)[..|xs + ys| - 1] == xs + init;
    }
  }

  lemma {:induction false} AddAllThree(acc: seq<seq<int>>, a: seq<int>, b: seq<int>, c: seq<int>)
    ensures AddAll(acc, [a, b, c]) == AddNew(AddNew(AddNew(acc, a), b), c)
  {
    assert [a][..0] == [];
    assert AddAll(acc, [a]) == AddNew(acc, a);
    assert [a, b][..1] == [a];
    assert AddAll(acc, [a, b]) == AddNew(AddAll(acc, [a]), b);
    assert [a, b, c][..2] == [a, b];
  }

  lemma {:induction false} PrependAllOne(x: int, t: seq<int>)
    ensures PrependAll(x, [t]) == [[x] + t]
  {
  }

  lemma {:induction false} PrependAllTwo(x: int, t: seq<int>, u: seq<int>)
    ensures PrependAll(x, [t, u]) == [[x] + t, [x] + u]
  {
  }

  lemma {:induction false} PairCombinations()
    ensures Combinations(0, 3, 2) == [[0, 1], [0, 2], [1, 2]]
  {
    assert Combinations(3, 3, 0) == [[]];
    assert Combinations(3, 3, 1) == [];
    assert Combinations(3, 3, 2) == [];
    PrependAllOne(2, []);
    assert [2] + [] == [2];
    assert Combinations(2, 3, 1) == [[2]];
    assert Combinations(2, 3, 2) == [];
    PrependAllOne(1, []);
    assert [1] + [] == [1];
    assert Combinations(1, 3, 1) == [[1], [2]];
    PrependAllOne(1, [2]);
    assert [1] + [2] == [1, 2];
    assert Combinations(1, 3, 2) == [[1, 2]];
    PrependAllTwo(0, [1], [2]);
    assert [0] + [1] == [0, 1] && [0] + [2] == [0, 2];
  }

  lemma {:induction false} ShiftPairs(k: int)
    ensures ShiftAll([[0, 1], [0, 2], [1, 2]], k) == [[k, k + 1], [k, k + 2], [k + 1, k + 2]]
  {
    assert Shift([0, 1], k) == [k, k + 1];
    assert Shift([0, 2], k) == [k, k + 2];
    assert Shift([1, 2], k) == [k + 1, k + 2];
  }

  /** The start k - 1 contributes (k-1, k), (k-1, k+1) and (k, k+1). */
  lemma {:induction false} OneSkipCandidates(len: int, K: int)
    requires 3 <= len && 1 <= K
    ensures Candidates(len, 2, 1, K) == Candidates(len, 2, 1, K - 1) + [[K - 1, K], [K - 1, K + 1], [K, K + 1]]
  {
    assert Width(len, 2, 1) == 3;
    PairCombinations();
    ShiftPairs(K - 1);
  }

  /** Of those three, only the first is already in the set. */
  lemma {:induction false} OneSkipStep(K: nat)
    requires 1 <= K
    ensures AddNew(AddNew(AddNew(OneSkipPairs(K - 1), [K - 1, K]), [K - 1, K + 1]), [K, K + 1]) == OneSkipPairs(K)
  {
    var before := OneSkipPairs(K - 1);
    var a, b, c := [K - 1, K], [K - 1, K + 1], [K, K + 1];
    assert a in before by {
      OneSkipLast(K - 1);
    }
    OneSkipFresh(K - 1);
    assert AddNew(before, a) == before;
    assert AddNew(before, b) == before + [b];
    assert AddNew(before + [b], c) == before + [b] + [c];
  }

  /** The first start contributes three new pairs. */
  lemma {:induction false} OneSkipFirst()
    ensures AddNew(AddNew(AddNew([], [0, 1]), [0, 2]), [1, 2]) == OneSkipPairs(1)
  {
  }

  lemma {:induction false} OneSkipLast(K: nat)
    ensures OneSkipPairs(K)[2 * K] == [K, K + 1]
  {
  }

  /** Neither (K, K+2) nor (K+1, K+2) occurs among the pairs of the first K + 1 starts. */
  lemma {:induction false} OneSkipFresh(K: nat)
    ensures [K, K + 2] !in OneSkipPairs(K)
    ensures [K + 1, K + 2] !in OneSkipPairs(K) + [[K, K + 2]]
  {
    OneSkipBounds(K);
  }

  /** Assigning three more tuples after the rest. */
  lemma {:induction false} AddThreeAfter(earlier: seq<seq<int>>, a: seq<int>, b: seq<int>, c: seq<int>)
    ensures AddAll([], earlier + [a, b, c]) == AddNew(AddNew(AddNew(AddAll([], earlier), a), b), c)
  {
    AddAllConcat([], earlier, [a, b, c]);
    AddAllThree(AddAll([], earlier), a, b, c);
  }

  lemma {:induction false} OneSkipOrderedSet(len: int, K: int)
    requires 3 <= len && 1 <= K <= len - 1
    ensures AddAll([], Candidates(len, 2, 1, K)) == OneSkipPairs(K)
    decreases K, 1
  {
    if K == 1 {
      OneSkipOrderedSetFirst(len);
    } else {
      OneSkipOrderedSetStep(len, K);
    }
  }

  lemma {:induction false} OneSkipOrderedSetFirst(len: int)
    requires 3 <= len
    ensures AddAll([], Candidates(len, 2, 1, 1)) == OneSkipPairs(1)
  {
    OneSkipCandidates(len, 1);
    AddThreeAfter(Candidates(len, 2, 1, 0), [0, 1], [0, 2], [1, 2]);
    assert Candidates(len, 2, 1, 0) == [];
    OneSkipFirst();
  }

  lemma {:induction false} OneSkipOrderedSetStep(len: int, K: int)
    requires 3 <= len && 2 <= K <= len - 1
    ensures AddAll([], Candidates(len, 2, 1, K)) == OneSkipPairs(K)
    decreases K, 0
  {
    OneSkipOrderedSet(len, K - 1);
    OneSkipCandidates(len, K);
    AddThreeAfter(Candidates(len, 2, 1, K - 1), [K - 1, K], [K - 1, K + 1], [K, K + 1]);
    OneSkipStep(K);
  }

  lemma {:induction false} PairPastEnd(a: int, b: int, len: int)
    requires len <= b
    ensures !InRange([a, b], len)
  {
    assert [a, b][1] == b;
  }

  lemma {:induction false} KeepInRangeDropLast(ts: seq<seq<int>>, x: seq<int>, len: int)
    requires !InRange(x, len)
    ensures KeepInRange(ts + [x], len) == KeepInRange(ts, len)
  {
    assert (ts + [x])[..|ts|] == ts;
  }

  /** The ordered set before the tuples running past the end are dropped. */
  lemma {:induction false} OneSkipUnfiltered(len: int)
    requires 3 <= len
    ensures SkipgramIndices(len, 2, 1) == KeepInRange(OneSkipPairs(len - 1), len)
  {
    OneSkipOrderedSet(len, len - 1);
    SkipgramIndicesFrom(len, 2, 1, OneSkipPairs(len - 1));
  }

  lemma {:induction false} SkipgramIndicesFrom(len: int, n: nat, skip: int, set0: seq<seq<int>>)
    requires AddAll([], Candidates(len, n, skip, len - n + 1)) == set0
    ensures SkipgramIndices(len, n, skip) == KeepInRange(set0, len)
  {
  }

  /** The last start's two pairs past the end are dropped, */
  lemma {:induction false} OneSkipDropsPastEnd(len: int)
    requires 3 <= len
    ensures KeepInRange(OneSkipPairs(len - 1), len) == KeepInRange(OneSkipPairs(len - 2), len)
  {
    var kept := OneSkipPairs(len - 2);
    var last, skipped := [len - 1, len], [len - 2, len];
    assert OneSkipPairs(len - 1) == kept + [skipped] + [last];
    PairPastEnd(len - 1, len, len);
    KeepInRangeDropLast(kept + [skipped], last, len);
    PairPastEnd(len - 2, len, len);
    KeepInRangeDropLast(kept, skipped, len);
  }

  /** and every pair before them fits. */
  lemma {:induction false} OneSkipKept(len: int)
    requires 3 <= len
    ensures KeepInRange(OneSkipPairs(len - 2), len) == OneSkipPairs(len - 2)
  {
    OneSkipInRange(len - 2, len);
    KeepInRangeOfInRange(OneSkipPairs(len - 2), len);
  }

  lemma {:induction false} OneSkipIndices(len: int)
    requires 3 <= len
    ensures SkipgramIndices(len, 2, 1) == OneSkipPairs(len - 2)
  {
    OneSkipUnfiltered(len);
    OneSkipDropsPastEnd(len);
    OneSkipKept(len);
  }

  lemma {:induction false} GatherAllAppend<T>(s: seq<T>, xs: seq<seq<int>>, ys: seq<seq<int>>)
    requires forall t :: t in xs ==> InRange(t, |s|)
    requires forall t :: t in ys ==> InRange(t, |s|)
    ensures forall t :: t in xs + ys ==> InRange(t, |s|)
    ensures GatherAll(s, xs + ys) == GatherAll(s, xs) + GatherAll(s, ys)
  {
  }

  lemma {:induction false} GatherPairs<T>(s: seq<T>, a: int, b: int, c: int, d: int)
    requires 0 <= a < |s| && 0 <= b < |s| && 0 <= c < |s| && 0 <= d < |s|
    ensures forall t :: t in [[a, b], [c, d]] ==> InRange(t, |s|)
    ensures GatherAll(s, [[a, b], [c, d]]) == [[s[a], s[b]], [s[c], s[d]]]
  {
    assert Gather(s, [a, b]) == [s[a], s[b]];
    assert Gather(s, [c, d]) == [s[c], s[d]];
  }

  /** Every pair of the first K + 1 starts indexes a sequence of K + 2 tokens or more. */
  lemma {:induction false} OneSkipInRange(K: nat, len: int)
    requires K + 2 <= len
    ensures forall t :: t in OneSkipPairs(K) ==> InRange(t, len)
  {
    OneSkipBounds(K);
    forall t | t in OneSkipPairs(K)
      ensures InRange(t, len)
    {
      assert |t| == 2 && 0 <= t[0] < t[1] <= K + 1;
    }
  }

  /** The tokens of the pairs of the first K + 1 starts, one start at a time. */
  lemma {:induction false} OneSkipTokensStep<T>(s: seq<T>, K: nat)
    requires K + 2 <= |s|
    ensures forall t :: t in OneSkipPairs(K) ==> InRange(t, |s|)
    ensures K == 0 ==> GatherAll(s, OneSkipPairs(K)) == [[s[0], s[1]]]
    ensures K > 0 ==>
      GatherAll(s, OneSkipPairs(K)) == GatherAll(s, OneSkipPairs(K - 1)) + [[s[K - 1], s[K + 1]], [s[K], s[K + 1]]]
  {
    OneSkipInRange(K, |s|);
    if K > 0 {
      OneSkipInRange(K - 1, |s|);
      GatherPairs(s, K - 1, K + 1, K, K + 1);
      assert OneSkipPairs(K) == OneSkipPairs(K - 1) + [[K - 1, K + 1], [K, K + 1]];
      GatherAllAppend(s, OneSkipPairs(K - 1), [[K - 1, K + 1], [K, K + 1]]);
    } else {
      assert Gather(s, [0, 1]) == [s[0], s[1]];
    }
  }

  /** The example of the test suite, taken from the Wikipedia article on n-grams. */
  lemma {:induction false} WikipediaSkipgrams(s: seq<string>)
    requires s == ["the", "rain", "in", "Spain", "falls", "mainly", "on", "the", "plain"]
    ensures Skipgrams(s, 2, 1) == Ok([
      ["the", "rain"], ["the", "in"], ["rain", "in"], ["rain", "Spain"], ["in", "Spain"],
      ["in", "falls"], ["Spain", "falls"], ["Spain", "mainly"], ["falls", "mainly"],
      ["falls", "on"], ["mainly", "on"], ["mainly", "the"], ["on", "the"], ["on", "plain"],
      ["the", "plain"]])
  {
    OneSkipIndices(|s|);
    WikipediaTokens(s);
  }

  lemma {:induction false} WikipediaTokens(s: seq<string>)
    requires s == ["the", "rain", "in", "Spain", "falls", "mainly", "on", "the", "plain"]
    ensures forall t :: t in OneSkipPairs(7) ==> InRange(t, |s|)
    ensures GatherAll(s, OneSkipPairs(7)) == [
      ["the", "rain"], ["the", "in"], ["rain", "in"], ["rain", "Spain"], ["in", "Spain"],
      ["in", "falls"], ["Spain", "falls"], ["Spain", "mainly"], ["falls", "mainly"],
      ["falls", "on"], ["mainly", "on"], ["mainly", "the"], ["on", "the"], ["on", "plain"],
      ["the", "plain"]]
  {
    WikipediaTokensFirst(s);
    var g := [
      ["the", "rain"], ["the", "in"], ["rain", "in"], ["rain", "Spain"], ["in", "Spain"],
      ["in", "falls"], ["Spain", "falls"]];
    OneSkipTokensStep(s, 4);
    g := g + [["Spain", "mainly"], ["falls", "mainly"]];
    assert GatherAll(s, OneSkipPairs(4)) == g;
    OneSkipTokensStep(s, 5);
    g := g + [["falls", "on"], ["mainly", "on"]];
    assert GatherAll(s, OneSkipPairs(5)) == g;
    OneSkipTokensStep(s, 6);
    g := g + [["mainly", "the"], ["on", "the"]];
    assert GatherAll(s, OneSkipPairs(6)) == g;
    OneSkipTokensStep(s, 7);
    g := g + [["on", "plain"], ["the", "plain"]];
    assert GatherAll(s, OneSkipPairs(7)) == g;
  }

  lemma {:induction false} WikipediaTokensFirst(s: seq<string>)
    requires s == ["the", "rain", "in", "Spain", "falls", "mainly", "on", "the", "plain"]
    ensures forall t :: t in OneSkipPairs(3) ==> InRange(t, |s|)
    ensures GatherAll(s, OneSkipPairs(3)) == [
      ["the", "rain"], ["the", "in"], ["rain", "in"], ["rain", "Spain"], ["in", "Spain"],
      ["in", "falls"], ["Spain", "falls"]]
  {
    OneSkipTokensStep(s, 0);
    var g := [["the", "rain"]];
    assert GatherAll(s, OneSkipPairs(0)) == g;
    OneSkipTokensStep(s, 1);
    g := g + [["the", "in"], ["rain", "in"]];
    assert GatherAll(s, OneSkipPairs(1)) == g;
    OneSkipTokensStep(s, 2);
    g := g + [["rain", "Spain"], ["in", "Spain"]];
    assert GatherAll(s, OneSkipPairs(2)) == g;
    OneSkipTokensStep(s, 3);
    g := g + [["in", "falls"], ["Spain", "falls"]];
    assert GatherAll(s, OneSkipPairs(3)) == g;
  }
}

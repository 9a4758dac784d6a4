/**
 * The collections of nskipgrams.py: `Skipgrams` keeps one counting trie per
 * stratum (length, skip) for the lengths 1..n and the skips 0..skip;
 * `Ngrams` is the same collection with skip 0.
 *
 * The count of the entry e under skip k is CountIn(tries, e, k): the count
 * stored in the trie of stratum (|e|, k), 0 when there is none.
 */
module NSkipgrams {
  import opened Wrappers
  import opened Trie
  import Windows
  import WindowProperties

  /** The strata `__init__` creates: lengths 1..n, skips 0..skip. */
  predicate IsStratum(key: (int, int), n: int, skip: int)
  {
    1 <= key.0 <= n && 0 <= key.1 <= skip
  }

  function Strata(n: int, skip: int): set<(int, int)>
  {
    set i, k | 1 <= i <= n && 0 <= k <= skip :: (i, k)
  }

  /** The count of e under skip k. */
  function CountIn<T>(tries: map<(int, int), Node<T>>, e: seq<T>, k: int): int
  {
    if (|e|, k) in tries then Value(tries[(|e|, k)], e) else 0
  }

  /** e is stored under skip k (possibly with count 0). */
  predicate StoredIn<T>(tries: map<(int, int), Node<T>>, e: seq<T>, k: int)
  {
    (|e|, k) in tries && Get(tries[(|e|, k)], e).Some?
  }

  /** Every stratum of length L holds a trie whose leaves lie L levels down. */
  ghost predicate Fits<T>(tries: map<(int, int), Node<T>>)
  {
    forall key :: key in tries ==> key.0 >= 1 && Shaped(tries[key], key.0)
  }

  /** Inserting an entry changes its own count by c and no other count. */
  lemma {:induction false} InsertStratumCounts<T>(tries: map<(int, int), Node<T>>, e: seq<T>, k: int, c: int, x: seq<T>, j: int)
    requires (|e|, k) in tries && 1 <= |e| && Shaped(tries[(|e|, k)], |e|)
    ensures CountIn(tries[(|e|, k) := Insert(tries[(|e|, k)], e, c)], x, j) == CountIn(tries, x, j) + (if x == e && j == k then c else 0)
    ensures StoredIn(tries[(|e|, k) := Insert(tries[(|e|, k)], e, c)], x, j) <==> StoredIn(tries, x, j) || (x == e && j == k)
  {
    if (|x|, j) == (|e|, k) {
      InsertCounts(tries[(|e|, k)], e, c, x);
    }
  }

  /** The key comes before (m, k) in the order the loops visit strata: by length, then by skip. */
  predicate Before(key: (int, int), m: int, k: int)
  {
    key.0 < m || (key.0 == m && key.1 < k)
  }

  // ----------------------------------------------------------------------
  // What add_from_seq adds
  // ----------------------------------------------------------------------

  /**
   * The strata `add_from_seq` fills for a sequence of length len: lengths up
   * to min(n, len), and for each length m the skips below
   * max(min(skip, len - m) + 1, 1).
   */
  predicate Visited(key: (int, int), len: int, n: int, skip: int)
  {
    1 <= key.0 <= Min(n, len) && 0 <= key.1 < Max(Min(skip, len - key.0) + 1, 1)
  }

  /** The skip-grams of stratum (m, k) of s, each of m tokens, as `skipgrams_from_seq` yields them. */
  function StratumGrams<T>(s: seq<T>, m: int, k: int): (r: seq<seq<T>>)
    requires 1 <= m <= |s| && 0 <= k <= |s|
    ensures Windows.Skipgrams(s, m, k) == Ok(r)
    ensures forall i :: 0 <= i < |r| ==> |r[i]| == m
  {
    WindowProperties.SkipgramsCharacterised(s, m, k);
    WindowProperties.SkipgramLengths(s, m, k);
    Windows.Skipgrams(s, m, k).value
  }

  /** What `add_from_seq(s, c)` adds to the count of x under skip j: c for every time s yields x. */
  function FromSeqCount<T(==)>(s: seq<T>, n: int, skip: int, c: int, x: seq<T>, j: int): int
  {
    if Visited((|x|, j), |s|, n, skip) then c * multiset(StratumGrams(s, |x|, j))[x] else 0
  }

  /** `add_from_seq(s, c)` stores x under skip j (even when c is 0). */
  predicate FromSeqStored<T(==)>(s: seq<T>, n: int, skip: int, x: seq<T>, j: int)
  {
    Visited((|x|, j), |s|, n, skip) && x in StratumGrams(s, |x|, j)
  }

  /** At the entry x under skip j, now holds what before held plus what the strata before (m, k) of s add. */
  predicate AddedAt<T>(now: map<(int, int), Node<T>>, before: map<(int, int), Node<T>>,
                       s: seq<T>, n: int, skip: int, c: int, m: int, k: int, x: seq<T>, j: int)
  {
    var done := Before((|x|, j), m, k);
    && CountIn(now, x, j) == CountIn(before, x, j) + (if done then FromSeqCount(s, n, skip, c, x, j) else 0)
    && (StoredIn(now, x, j) <==> StoredIn(before, x, j) || (done && FromSeqStored(s, n, skip, x, j)))
  }

  ghost predicate AddedBelow<T(!new)>(now: map<(int, int), Node<T>>, before: map<(int, int), Node<T>>,
                                      s: seq<T>, n: int, skip: int, c: int, m: int, k: int)
  {
    forall x: seq<T>, j: int :: AddedAt(now, before, s, n, skip, c, m, k, x, j)
  }

  /** The counts after `add_from_seq(s, c)`: every count grew by what s adds to it, and nothing else changed. */
  ghost predicate AddedFromSeq<T(!new)>(now: map<(int, int), Node<T>>, before: map<(int, int), Node<T>>,
                                        s: seq<T>, n: int, skip: int, c: int)
  {
    forall x: seq<T>, j: int ::
      && CountIn(now, x, j) == CountIn(before, x, j) + FromSeqCount(s, n, skip, c, x, j)
      && (StoredIn(now, x, j) <==> StoredIn(before, x, j) || FromSeqStored(s, n, skip, x, j))
  }

  /** Filling stratum (m, k) with the skip-grams of s moves the frontier past (m, k). */
  lemma {:induction false} FromSeqStep<T(!new)>(now: map<(int, int), Node<T>>, before: map<(int, int), Node<T>>,
                                                s: seq<T>, n: int, skip: int, c: int, m: int, k: int)
    requires AddedBelow(now, before, s, n, skip, c, m, k)
    requires Visited((m, k), |s|, n, skip) && (m, k) in now && Shaped(now[(m, k)], m)
    ensures AddedBelow(now[(m, k) := InsertAll(now[(m, k)], m, WithCount(StratumGrams(s, m, k), c))],
                       before, s, n, skip, c, m, k + 1)
  {
    var grams := StratumGrams(s, m, k);
    var after := now[(m, k) := InsertAll(now[(m, k)], m, WithCount(grams, c))];
    var next := k + 1;
    forall x: seq<T>, j: int
      ensures AddedAt(after, before, s, n, skip, c, m, next, x, j)
    {
      FromSeqAt(now, before, s, n, skip, c, m, k, x, j);
    }
  }

  /** FromSeqStep at one entry x under skip j. */
  lemma {:induction false} FromSeqAt<T(!new)>(now: map<(int, int), Node<T>>, before: map<(int, int), Node<T>>,
                                              s: seq<T>, n: int, skip: int, c: int, m: int, k: int, x: seq<T>, j: int)
    requires AddedAt(now, before, s, n, skip, c, m, k, x, j)
    requires Visited((m, k), |s|, n, skip) && (m, k) in now && Shaped(now[(m, k)], m)
    ensures AddedAt(now[(m, k) := InsertAll(now[(m, k)], m, WithCount(StratumGrams(s, m, k), c))],
                    before, s, n, skip, c, m, k + 1, x, j)
  {
    if (|x|, j) == (m, k) {
      FromSeqStratum(now[(m, k)], s, m, k, c, x);
    }
  }

  /** Filling the trie of stratum (m, k) with the skip-grams of s adds c for each time s yields x. */
  lemma {:induction false} FromSeqStratum<T(!new)>(node: Node<T>, s: seq<T>, m: int, k: int, c: int, x: seq<T>)
    requires 1 <= m <= |s| && 0 <= k <= |s| && |x| == m && Shaped(node, m)
    ensures Value(InsertAll(node, m, WithCount(StratumGrams(s, m, k), c)), x) == Value(node, x) + c * multiset(StratumGrams(s, m, k))[x]
    ensures Get(InsertAll(node, m, WithCount(StratumGrams(s, m, k), c)), x).Some? <==> Get(node, x).Some? || x in StratumGrams(s, m, k)
  {
    var grams := StratumGrams(s, m, k);
    InsertAllCounts(node, m, WithCount(grams, c), x);
    SumForWithCount(grams, c, x);
  }

  /** Past the last skip of length m, the frontier moves to the next length. */
  lemma {:induction false} FromSeqRow<T(!new)>(now: map<(int, int), Node<T>>, before: map<(int, int), Node<T>>,
                                               s: seq<T>, n: int, skip: int, c: int, m: int)
    requires AddedBelow(now, before, s, n, skip, c, m, Max(Min(skip, |s| - m) + 1, 1))
    ensures AddedBelow(now, before, s, n, skip, c, m + 1, 0)
  {
    var next, skips := m + 1, Max(Min(skip, |s| - m) + 1, 1);
    forall x: seq<T>, j: int
      ensures AddedAt(now, before, s, n, skip, c, next, 0, x, j)
    {
      assert AddedAt(now, before, s, n, skip, c, m, skips, x, j);
    }
  }

  /** Past the last length, everything s adds is added. */
  lemma {:induction false} FromSeqDone<T(!new)>(now: map<(int, int), Node<T>>, before: map<(int, int), Node<T>>,
                                                s: seq<T>, n: int, skip: int, c: int)
    requires AddedBelow(now, before, s, n, skip, c, Min(n, |s|) + 1, 0)
    ensures AddedFromSeq(now, before, s, n, skip, c)
  {
    forall x: seq<T>, j: int
      ensures CountIn(now, x, j) == CountIn(before, x, j) + FromSeqCount(s, n, skip, c, x, j)
      ensures StoredIn(now, x, j) <==> StoredIn(before, x, j) || FromSeqStored(s, n, skip, x, j)
    {
      assert AddedAt(now, before, s, n, skip, c, Min(n, |s|) + 1, 0, x, j);
    }
  }

  // ----------------------------------------------------------------------
  // What combine adds
  // ----------------------------------------------------------------------

  /** At the entry x under skip j, now holds what before held plus what the strata of other before (m, k) hold. */
  predicate MergedAt<T>(now: map<(int, int), Node<T>>, before: map<(int, int), Node<T>>,
                        other: map<(int, int), Node<T>>, m: int, k: int, x: seq<T>, j: int)
  {
    var done := Before((|x|, j), m, k);
    && CountIn(now, x, j) == CountIn(before, x, j) + (if done then CountIn(other, x, j) else 0)
    && (StoredIn(now, x, j) <==> StoredIn(before, x, j) || (done && StoredIn(other, x, j)))
  }

  ghost predicate MergedBelow<T(!new)>(now: map<(int, int), Node<T>>, before: map<(int, int), Node<T>>,
                                       other: map<(int, int), Node<T>>, m: int, k: int)
  {
    forall x: seq<T>, j: int :: MergedAt(now, before, other, m, k, x, j)
  }

  /** Every count of now is the sum of those of before and other; an entry is stored when either stores it. */
  ghost predicate Merged<T(!new)>(now: map<(int, int), Node<T>>, before: map<(int, int), Node<T>>,
                                  other: map<(int, int), Node<T>>)
  {
    forall x: seq<T>, j: int ::
      && CountIn(now, x, j) == CountIn(before, x, j) + CountIn(other, x, j)
      && (StoredIn(now, x, j) <==> StoredIn(before, x, j) || StoredIn(other, x, j))
  }

  /** Nothing is merged yet: the entries before (1, 0) are the empty ones, which no stratum holds. */
  lemma {:induction false} MergeStart<T(!new)>(now: map<(int, int), Node<T>>, other: map<(int, int), Node<T>>)
    requires forall key :: key in other ==> 1 <= key.0 && 0 <= key.1
    ensures MergedBelow(now, now, other, 1, 0)
  {
    forall x: seq<T>, j: int
      ensures MergedAt(now, now, other, 1, 0, x, j)
    {
    }
  }

  /** Inserting an enumeration of stratum (m, k) of other moves the frontier past (m, k). */
  lemma {:induction false} MergeStep<T(!new)>(now: map<(int, int), Node<T>>, before: map<(int, int), Node<T>>,
                                              other: map<(int, int), Node<T>>, m: int, k: int, pairs: seq<(seq<T>, int)>)
    requires MergedBelow(now, before, other, m, k)
    requires 1 <= m && (m, k) in now && Shaped(now[(m, k)], m)
    requires (m, k) in other && Enumerates(other[(m, k)], pairs)
    requires forall i :: 0 <= i < |pairs| ==> |pairs[i].0| == m
    ensures MergedBelow(now[(m, k) := InsertAll(now[(m, k)], m, pairs)], before, other, m, k + 1)
  {
    var after := now[(m, k) := InsertAll(now[(m, k)], m, pairs)];
    var next := k + 1;
    forall x: seq<T>, j: int
      ensures MergedAt(after, before, other, m, next, x, j)
    {
      assert MergedAt(now, before, other, m, k, x, j);
      if (|x|, j) == (m, k) {
        InsertAllCounts(now[(m, k)], m, pairs, x);
        SumForEnumeration(other[(m, k)], pairs, x);
      }
    }
  }

  /** When other has no skip K or above, the frontier moves past length m. */
  lemma {:induction false} MergeRow<T(!new)>(now: map<(int, int), Node<T>>, before: map<(int, int), Node<T>>,
                                             other: map<(int, int), Node<T>>, m: int, K: int)
    requires MergedBelow(now, before, other, m, K)
    requires forall key :: key in other ==> 0 <= key.1 < K
    ensures MergedBelow(now, before, other, m + 1, 0)
  {
    var next := m + 1;
    forall x: seq<T>, j: int
      ensures MergedAt(now, before, other, next, 0, x, j)
    {
      assert MergedAt(now, before, other, m, K, x, j);
    }
  }

  /** When other has no length above M, everything is merged past length M. */
  lemma {:induction false} MergeDone<T(!new)>(now: map<(int, int), Node<T>>, before: map<(int, int), Node<T>>,
                                              other: map<(int, int), Node<T>>, M: int)
    requires MergedBelow(now, before, other, M + 1, 0)
    requires forall key :: key in other ==> key.0 <= M
    ensures Merged(now, before, other)
  {
    forall x: seq<T>, j: int
      ensures CountIn(now, x, j) == CountIn(before, x, j) + CountIn(other, x, j)
      ensures StoredIn(now, x, j) <==> StoredIn(before, x, j) || StoredIn(other, x, j)
    {
      assert MergedAt(now, before, other, M + 1, 0, x, j);
    }
  }

  /** A non-empty stratum of other outside the strata of tries: merging it raises KeyError. */
  ghost predicate Lost<T(!new)>(tries: map<(int, int), Node<T>>, other: map<(int, int), Node<T>>)
  {
    exists key, e :: key in other && key !in tries && Get(other[key], e).Some?
  }

  /** No stratum before (m, k) is lost. */
  ghost predicate NoneLostBefore<T(!new)>(tries: map<(int, int), Node<T>>, other: map<(int, int), Node<T>>, m: int, k: int)
  {
    forall key, e :: key in other && key !in tries && Before(key, m, k) ==> Get(other[key], e).None?
  }

  /**
   * Merging stopped with KeyError at stratum (m, k) of other: it is the first
   * non-empty stratum of other that before lacks, and every stratum of other
   * before it is merged into now.
   */
  ghost predicate StoppedAt<T(!new)>(now: map<(int, int), Node<T>>, before: map<(int, int), Node<T>>,
                                     other: map<(int, int), Node<T>>, m: int, k: int)
  {
    && (m, k) in other && (m, k) !in before
    && (exists e :: Get(other[(m, k)], e).Some?)
    && NoneLostBefore(before, other, m, k)
    && MergedBelow(now, before, other, m, k)
  }

  /** Merging stopped with KeyError at some stratum, with everything before it merged. */
  ghost predicate MergeStopped<T(!new)>(now: map<(int, int), Node<T>>, before: map<(int, int), Node<T>>,
                                        other: map<(int, int), Node<T>>)
  {
    exists m, k :: StoppedAt(now, before, other, m, k)
  }

  /**
   * The state a failed merge leaves is determined: it stops at the same
   * stratum every time, with the same counts stored.
   */
  lemma {:induction false} StoppedAtUnique<T(!new)>(a: map<(int, int), Node<T>>, b: map<(int, int), Node<T>>,
                                                    before: map<(int, int), Node<T>>, other: map<(int, int), Node<T>>,
                                                    m: int, k: int, m2: int, k2: int)
    requires StoppedAt(a, before, other, m, k) && StoppedAt(b, before, other, m2, k2)
    ensures (m, k) == (m2, k2)
    ensures SameCounts(a, b)
  {
    assert !Before((m, k), m2, k2) by {
      var e :| Get(other[(m, k)], e).Some?;
    }
    assert !Before((m2, k2), m, k) by {
      var e :| Get(other[(m2, k2)], e).Some?;
    }
    forall x: seq<T>, j: int
      ensures CountIn(a, x, j) == CountIn(b, x, j) && (StoredIn(a, x, j) <==> StoredIn(b, x, j))
    {
      assert MergedAt(a, before, other, m, k, x, j);
      assert MergedAt(b, before, other, m, k, x, j);
    }
  }

  /** A stratum neither trie has, and which other leaves empty, moves the frontier past (m, k). */
  lemma {:induction false} MergeEmptyStep<T(!new)>(now: map<(int, int), Node<T>>, before: map<(int, int), Node<T>>,
                                                   other: map<(int, int), Node<T>>, m: int, k: int)
    requires MergedBelow(now, before, other, m, k)
    requires (m, k) !in now && (m, k) !in before
    requires forall e :: (m, k) in other ==> Get(other[(m, k)], e).None?
    ensures MergedBelow(now, before, other, m, k + 1)
  {
    var next := k + 1;
    forall x: seq<T>, j: int
      ensures MergedAt(now, before, other, m, next, x, j)
    {
      assert MergedAt(now, before, other, m, k, x, j);
      if (|x|, j) == (m, k) && (m, k) in other {
        assert Get(other[(m, k)], x).None?;
      }
    }
  }

  /** Two trie maps that agree on every count and on what is stored. */
  ghost predicate SameCounts<T(!new)>(a: map<(int, int), Node<T>>, b: map<(int, int), Node<T>>)
  {
    forall x: seq<T>, j: int :: CountIn(a, x, j) == CountIn(b, x, j) && (StoredIn(a, x, j) <==> StoredIn(b, x, j))
  }

  /** Adding empty strata changes no count. */
  lemma {:induction false} NewStrataEmpty<T(!new)>(a: map<(int, int), Node<T>>, b: map<(int, int), Node<T>>)
    requires forall key :: key in b ==> key in a && a[key] == b[key]
    requires forall key :: key in a && key !in b ==> a[key] == Empty()
    ensures SameCounts(a, b)
  {
    forall x: seq<T>, j: int
      ensures CountIn(a, x, j) == CountIn(b, x, j) && (StoredIn(a, x, j) <==> StoredIn(b, x, j))
    {
      EmptyStoresNothing(x);
    }
  }

  /** Merging into a map with the same counts merges into the original. */
  lemma {:induction false} MergedSame<T(!new)>(now: map<(int, int), Node<T>>, mid: map<(int, int), Node<T>>,
                                               before: map<(int, int), Node<T>>, other: map<(int, int), Node<T>>)
    requires Merged(now, mid, other) && SameCounts(mid, before)
    ensures Merged(now, before, other)
  {
    forall x: seq<T>, j: int
      ensures CountIn(now, x, j) == CountIn(before, x, j) + CountIn(other, x, j)
      ensures StoredIn(now, x, j) <==> StoredIn(before, x, j) || StoredIn(other, x, j)
    {
      assert CountIn(mid, x, j) == CountIn(before, x, j);
    }
  }

  // ----------------------------------------------------------------------
  // The arguments of combine
  // ----------------------------------------------------------------------

  /** An argument of `combine`: a collection, or a value of any other type. */
  datatype Arg<T(==,!new)> = Grams(g: Skipgrams<T>) | NotGrams

  /** The collections among the arguments. */
  function Collections<T(==,!new)>(others: seq<Arg<T>>): set<Skipgrams<T>>
  {
    set i | 0 <= i < |others| && others[i].Grams? :: others[i].g
  }

  /** The position of the first argument that is not a collection, or the number of arguments. */
  function FirstNotGrams<T(==,!new)>(others: seq<Arg<T>>): (r: nat)
    ensures r <= |others|
    ensures forall i :: 0 <= i < r ==> others[i].Grams?
    ensures r < |others| ==> others[r].NotGrams?
    decreases |others|
  {
    if others == [] || others[0].NotGrams? then 0 else 1 + FirstNotGrams(others[1..])
  }

  /** The collections of a prefix of the arguments are among those of all of them. */
  lemma {:induction false} CollectionsPrefix<T(!new)>(others: seq<Arg<T>>, i: int)
    requires 0 <= i <= |others|
    ensures Collections(others[..i]) <= Collections(others)
  {
    forall g | g in Collections(others[..i])
      ensures g in Collections(others)
    {
      var p :| 0 <= p < i && others[..i][p].Grams? && others[..i][p].g == g;
      assert others[p] == others[..i][p];
    }
  }

  /** The largest n among base and the collections. */
  ghost function WidestN<T(!new)>(others: seq<Arg<T>>, base: int): int
    reads Collections(others)
    decreases |others|
  {
    if others == [] then base
    else
      var last := others[|others| - 1];
      CollectionsPrefix(others, |others| - 1);
      Max(WidestN(others[..|others| - 1], base), if last.Grams? then last.g.n else base)
  }

  /** The largest skip among base and the collections. */
  ghost function WidestSkip<T(!new)>(others: seq<Arg<T>>, base: int): int
    reads Collections(others)
    decreases |others|
  {
    if others == [] then base
    else
      var last := others[|others| - 1];
      CollectionsPrefix(others, |others| - 1);
      Max(WidestSkip(others[..|others| - 1], base), if last.Grams? then last.g.skip else base)
  }

  /** The sum of the collections' counts of x under skip j. */
  ghost function CombinedCount<T(!new)>(others: seq<Arg<T>>, x: seq<T>, j: int): int
    reads Collections(others)
    decreases |others|
  {
    if others == [] then 0
    else
      var last := others[|others| - 1];
      CollectionsPrefix(others, |others| - 1);
      CombinedCount(others[..|others| - 1], x, j) + (if last.Grams? then CountIn(last.g.tries, x, j) else 0)
  }

  /** Some collection stores x under skip j. */
  ghost predicate CombinedStored<T(!new)>(others: seq<Arg<T>>, x: seq<T>, j: int)
    reads Collections(others)
  {
    exists i :: 0 <= i < |others| && others[i].Grams? && StoredIn(others[i].g.tries, x, j)
  }

  /** Every count of now is that of before plus those of the collections; an entry is stored when any of them stores it. */
  ghost predicate CombinedAll<T(!new)>(now: map<(int, int), Node<T>>, before: map<(int, int), Node<T>>, others: seq<Arg<T>>)
    reads Collections(others)
  {
    forall x: seq<T>, j: int ::
      && CountIn(now, x, j) == CountIn(before, x, j) + CombinedCount(others, x, j)
      && (StoredIn(now, x, j) <==> StoredIn(before, x, j) || CombinedStored(others, x, j))
  }

  /** Merging one more collection extends the combination by it. */
  lemma {:induction false} CombinedStep<T(!new)>(now: map<(int, int), Node<T>>, mid: map<(int, int), Node<T>>,
                                                 before: map<(int, int), Node<T>>, others: seq<Arg<T>>)
    requires |others| >= 1 && others[|others| - 1].Grams?
    requires CombinedAll(mid, before, others[..|others| - 1])
    requires Merged(now, mid, others[|others| - 1].g.tries)
    ensures CombinedAll(now, before, others)
  {
    var init := others[..|others| - 1];
    var last := others[|others| - 1].g;
    forall x: seq<T>, j: int
      ensures CountIn(now, x, j) == CountIn(before, x, j) + CombinedCount(others, x, j)
      ensures StoredIn(now, x, j) <==> StoredIn(before, x, j) || CombinedStored(others, x, j)
    {
      assert CountIn(mid, x, j) == CountIn(before, x, j) + CombinedCount(init, x, j);
      if CombinedStored(init, x, j) {
        var i :| 0 <= i < |init| && init[i].Grams? && StoredIn(init[i].g.tries, x, j);
        assert others[i] == init[i];
      }
      if CombinedStored(others, x, j) {
        var i :| 0 <= i < |others| && others[i].Grams? && StoredIn(others[i].g.tries, x, j);
        if i < |init| {
          assert others[i] == init[i];
        }
      }
      if StoredIn(last.tries, x, j) {
        assert others[|others| - 1].Grams? && StoredIn(others[|others| - 1].g.tries, x, j);
      }
    }
  }

  class Skipgrams<T(==,!new)> {
    var n: int
    var skip: int
    var tries: map<(int, int), Node<T>>

    ghost predicate Valid()
      reads this
    {
      && n >= 1 && skip >= 0
      && (forall key :: key in tries <==> IsStratum(key, n, skip))
      && Fits(tries)
    }

    /** The body of `__init__` once n and skip are validated: every stratum empty. */
    constructor Init(n: int, skip: int)
      requires n >= 1 && skip >= 0
      ensures Valid() && this.n == n && this.skip == skip
      ensures forall key :: key in tries ==> tries[key] == Empty()
    {
      this.n := n;
      this.skip := skip;
      tries := map key | key in Strata(n, skip) :: Empty();
    }

    /** `Skipgrams(n, skip)`: n is validated first, then skip; both raise ValueError. */
    static method New(n: int, skip: int) returns (r: Result<Skipgrams<T>>)
      ensures r.Err? <==> n < 1 || skip < 0
      ensures r.Err? ==> r.error == ValueError
      ensures r.Ok? ==> fresh(r.value) && r.value.Valid() && r.value.n == n && r.value.skip == skip
      ensures r.Ok? ==> forall key :: key in r.value.tries ==> r.value.tries[key] == Empty()
    {
      var checkedN := Windows.ValidateN(n, None);
      if checkedN.Err? {
        return Err(checkedN.error);
      }
      var checkedSkip := Windows.ValidateSkip(skip, None);
      if checkedSkip.Err? {
        return Err(checkedSkip.error);
      }
      var g := new Skipgrams.Init(n, skip);
      return Ok(g);
    }

    /** `Ngrams(n)`: the collection with skip 0. */
    static method NewNgrams(n: int) returns (r: Result<Skipgrams<T>>)
      ensures r.Err? <==> n < 1
      ensures r.Err? ==> r.error == ValueError
      ensures r.Ok? ==> fresh(r.value) && r.value.Valid() && r.value.n == n && r.value.skip == 0
      ensures r.Ok? ==> forall key :: key in r.value.tries ==> r.value.tries[key] == Empty()
    {
      r := New(n, 0);
    }

    /** `add(skipgram, skip, count)`: both checks come before any change. */
    method Add(e: seq<T>, k: int, c: int) returns (o: Outcome)
      requires Valid()
      modifies this
      ensures Valid() && n == old(n) && skip == old(skip)
      ensures o.Pass? <==> 1 <= |e| <= n && 0 <= k <= skip
      ensures o.Fail? ==> o.error == ValueError && tries == old(tries)
      ensures o.Pass? ==> tries == old(tries)[(|e|, k) := Insert(old(tries)[(|e|, k)], e, c)]
    {
      if !(1 <= |e| <= n) {
        return Fail(ValueError);
      }
      var checked := Windows.ValidateSkip(k, Some(skip));
      if checked.Err? {
        return Fail(checked.error);
      }
      assert IsStratum((|e|, k), n, skip);
      o := AddUnchecked(e, k, c);
    }

    /**
     * `_add(skipgram, skip, count, validated=True)`: the stratum lookup raises
     * KeyError when the collection has no stratum (len(skipgram), skip).
     */
    method AddUnchecked(e: seq<T>, k: int, c: int) returns (o: Outcome)
      requires Fits(tries) && 1 <= |e|
      modifies this
      ensures n == old(n) && skip == old(skip) && tries.Keys == old(tries).Keys && Fits(tries)
      ensures o.Fail? <==> (|e|, k) !in old(tries)
      ensures o.Fail? ==> o.error == KeyError && tries == old(tries)
      ensures o.Pass? ==> tries == old(tries)[(|e|, k) := Insert(old(tries)[(|e|, k)], e, c)]
    {
      if (|e|, k) !in tries {
        return Fail(KeyError);
      }
      tries := tries[(|e|, k) := Insert(tries[(|e|, k)], e, c)];
      return Pass;
    }

    /**
     * `count(skipgram, skip)`: skip is validated first; an entry longer than n
     * counts 0; the empty entry has no stratum (KeyError). Nothing is changed.
     */
    method Count(e: seq<T>, k: int) returns (r: Result<int>)
      requires Valid()
      ensures !(0 <= k <= skip) ==> r == Err(ValueError)
      ensures 0 <= k <= skip && |e| == 0 ==> r == Err(KeyError)
      ensures 0 <= k <= skip && |e| >= 1 ==> r == Ok(CountIn(tries, e, k))
      ensures 0 <= k <= skip && |e| > n ==> r == Ok(0)
    {
      var checked := Windows.ValidateSkip(k, Some(skip));
      if checked.Err? {
        return Err(checked.error);
      }
      if |e| > n {
        return Ok(0);
      }
      if (|e|, k) !in tries {
        return Err(KeyError);
      }
      var inner := GetInnerTrie(tries[(|e|, k)], e);
      if inner.Some? && inner.value.Leaf? && inner.value.count != 0 {
        r := Ok(inner.value.count);
      } else {
        r := Ok(0);
      }
    }

    /**
     * `__contains__`: the first nonzero count over the skips 0..skip, or 0
     * (`in` turns it into a bool).
     */
    method Contains(e: seq<T>) returns (r: Result<int>)
      requires Valid()
      ensures |e| == 0 <==> r.Err?
      ensures r.Err? ==> r.error == KeyError
      ensures r.Ok? && r.value == 0 ==> forall k :: 0 <= k <= skip ==> CountIn(tries, e, k) == 0
      ensures r.Ok? && r.value != 0 ==>
        exists k :: 0 <= k <= skip && r.value == CountIn(tries, e, k) && forall j :: 0 <= j < k ==> CountIn(tries, e, j) == 0
    {
      var k := 0;
      while k <= skip
        invariant 0 <= k <= skip + 1
        invariant |e| == 0 ==> k == 0
        invariant forall j :: 0 <= j < k ==> CountIn(tries, e, j) == 0
      {
        var c := Count(e, k);
        if c.Err? || c.value != 0 {
          return c;
        }
        k := k + 1;
      }
      return Ok(0);
    }

    /**
     * `skipgrams_with_counts(n, skip, prefix)`: n and skip are validated
     * against the collection's bounds, then every stored pair of stratum
     * (n, skip) whose entry starts with prefix is listed once. No prefix
     * (`None`) is the empty one.
     */
    method SkipgramsWithCounts(m: int, k: int, prefix: seq<T>) returns (r: Result<seq<(seq<T>, int)>>)
      requires Valid()
      ensures r.Err? <==> !(1 <= m <= n) || !(0 <= k <= skip)
      ensures r.Err? ==> r.error == ValueError
      ensures r.Ok? ==> EnumeratesFrom(tries[(m, k)], prefix, r.value)
      ensures r.Ok? && |prefix| > m ==> r.value == []
      ensures r.Ok? && Get(tries[(m, k)], prefix).Some? ==> r.value == [(prefix, Get(tries[(m, k)], prefix).value)]
    {
      var checkedN := Windows.ValidateN(m, Some(n));
      if checkedN.Err? {
        return Err(checkedN.error);
      }
      var checkedSkip := Windows.ValidateSkip(k, Some(skip));
      if checkedSkip.Err? {
        return Err(checkedSkip.error);
      }
      assert IsStratum((m, k), n, skip);
      var pairs := FlattenedWithCounts(tries[(m, k)], m, prefix);
      if |prefix| > m {
        LongPrefixEnumeration(tries[(m, k)], m, prefix, pairs);
      }
      if Get(tries[(m, k)], prefix).Some? {
        FullEntryEnumeration(tries[(m, k)], m, prefix, pairs);
      }
      return Ok(pairs);
    }

    /**
     * The `_add(..., validated=True)` loop over a list of pairs, all of stratum
     * (m, k): the first pair raises KeyError when the stratum is missing.
     */
    method AddPairs(pairs: seq<(seq<T>, int)>, m: int, k: int) returns (o: Outcome)
      requires Fits(tries) && 1 <= m
      requires forall i :: 0 <= i < |pairs| ==> |pairs[i].0| == m
      modifies this
      ensures n == old(n) && skip == old(skip) && tries.Keys == old(tries).Keys && Fits(tries)
      ensures o.Fail? <==> (m, k) !in old(tries) && pairs != []
      ensures o.Fail? ==> o.error == KeyError
      ensures (m, k) !in old(tries) ==> tries == old(tries)
      ensures (m, k) in old(tries) ==> tries == old(tries)[(m, k) := InsertAll(old(tries)[(m, k)], m, pairs)]
    {
      if (m, k) !in tries {
        if pairs != [] {
          o := AddUnchecked(pairs[0].0, k, pairs[0].1);
          return;
        }
        return Pass;
      }
      InsertPairs(pairs, m, k);
      return Pass;
    }

    /** The loop of AddPairs once the stratum is known to exist: each pair inserted in turn. */
    method InsertPairs(pairs: seq<(seq<T>, int)>, m: int, k: int)
      requires Fits(tries) && 1 <= m && (m, k) in tries
      requires forall i :: 0 <= i < |pairs| ==> |pairs[i].0| == m
      modifies this
      ensures n == old(n) && skip == old(skip) && Fits(tries)
      ensures tries == old(tries)[(m, k) := InsertAll(old(tries)[(m, k)], m, pairs)]
    {
      var i := 0;
      while i < |pairs|
        invariant 0 <= i <= |pairs|
        invariant n == old(n) && skip == old(skip) && Fits(tries)
        invariant tries == old(tries)[(m, k) := InsertAll(old(tries)[(m, k)], m, pairs[..i])]
      {
        assert pairs[..i + 1][..i] == pairs[..i];
        var added := AddUnchecked(pairs[i].0, k, pairs[i].1);
        i := i + 1;
      }
      assert pairs[..i] == pairs;
    }

    /**
     * `add_from_seq(seq, count)`: every skip-gram of every visited stratum is
     * added with the count, so each count grows by count times the number of
     * times seq yields the entry under that skip.
     */
    method AddFromSeq(s: seq<T>, c: int)
      requires Valid()
      modifies this
      ensures Valid() && n == old(n) && skip == old(skip)
      ensures AddedFromSeq(tries, old(tries), s, n, skip, c)
    {
      var m := 1;
      while m <= Min(n, |s|)
        invariant 1 <= m <= Min(n, |s|) + 1
        invariant Valid() && n == old(n) && skip == old(skip)
        invariant AddedBelow(tries, old(tries), s, n, skip, c, m, 0)
      {
        AddLengthFromSeq(s, m, c, old(tries));
        m := m + 1;
      }
      FromSeqDone(tries, old(tries), s, n, skip, c);
    }

    /** The middle loop of `add_from_seq`: the skips of length m. */
    method AddLengthFromSeq(s: seq<T>, m: int, c: int, ghost before: map<(int, int), Node<T>>)
      requires Valid() && 1 <= m <= Min(n, |s|)
      requires AddedBelow(tries, before, s, n, skip, c, m, 0)
      modifies this
      ensures Valid() && n == old(n) && skip == old(skip)
      ensures AddedBelow(tries, before, s, n, skip, c, m + 1, 0)
    {
      var skips := Max(Min(skip, |s| - m) + 1, 1);
      var k := 0;
      while k < skips
        invariant 0 <= k <= skips
        invariant Valid() && n == old(n) && skip == old(skip)
        invariant AddedBelow(tries, before, s, n, skip, c, m, k)
      {
        AddStratumFromSeq(s, m, k, c, before);
        k := k + 1;
      }
      FromSeqRow(tries, before, s, n, skip, c, m);
    }

    /** The inner loop of `add_from_seq`: every skip-gram of stratum (m, k) of s, with the count. */
    method AddStratumFromSeq(s: seq<T>, m: int, k: int, c: int, ghost before: map<(int, int), Node<T>>)
      requires Valid() && Visited((m, k), |s|, n, skip)
      requires AddedBelow(tries, before, s, n, skip, c, m, k)
      modifies this
      ensures Valid() && n == old(n) && skip == old(skip)
      ensures AddedBelow(tries, before, s, n, skip, c, m, k + 1)
    {
      var grams := Windows.SkipgramsFromSeq(s, m, k);
      ghost var expected := StratumGrams(s, m, k);
      FromSeqStep(tries, before, s, n, skip, c, m, k);
      assert IsStratum((m, k), n, skip);
      var added := AddPairs(WithCount(grams.value, c), m, k);
    }

    /**
     * The loops of `combine` over the strata of one operand: every stored pair
     * of other is added to the same stratum here. The first pair of a stratum
     * this collection lacks raises KeyError; otherwise every count becomes the
     * sum of the two.
     */
    method MergeStrata(other: Skipgrams<T>) returns (o: Outcome)
      requires Fits(tries) && other.Valid() && other != this
      modifies this
      ensures n == old(n) && skip == old(skip) && tries.Keys == old(tries).Keys && Fits(tries)
      ensures o.Fail? <==> Lost(old(tries), other.tries)
      ensures o.Fail? ==> o.error == KeyError
      ensures o.Pass? ==> Merged(tries, old(tries), other.tries)
      ensures o.Fail? ==> MergeStopped(tries, old(tries), other.tries)
    {
      MergeStart(tries, other.tries);
      var m := 1;
      while m <= other.n
        invariant 1 <= m <= other.n + 1
        invariant n == old(n) && skip == old(skip) && tries.Keys == old(tries).Keys && Fits(tries)
        invariant NoneLostBefore(old(tries), other.tries, m, 0)
        invariant MergedBelow(tries, old(tries), other.tries, m, 0)
      {
        o := MergeLength(other, m, old(tries));
        if o.Fail? {
          return;
        }
        m := m + 1;
      }
      MergeDone(tries, old(tries), other.tries, other.n);
      assert !Lost(old(tries), other.tries) by {
        forall key, e | key in other.tries && key !in old(tries)
          ensures Get(other.tries[key], e).None?
        {
          assert Before(key, other.n + 1, 0);
        }
      }
      return Pass;
    }

    /** The middle loop of `combine`: the skips of length m of the operand. */
    method MergeLength(other: Skipgrams<T>, m: int, ghost before: map<(int, int), Node<T>>) returns (o: Outcome)
      requires Fits(tries) && other.Valid() && other != this && 1 <= m <= other.n
      requires tries.Keys == before.Keys
      requires NoneLostBefore(before, other.tries, m, 0)
      requires MergedBelow(tries, before, other.tries, m, 0)
      modifies this
      ensures n == old(n) && skip == old(skip) && tries.Keys == old(tries).Keys && Fits(tries)
      ensures o.Fail? ==> o.error == KeyError && Lost(before, other.tries)
      ensures o.Fail? ==> MergeStopped(tries, before, other.tries)
      ensures o.Pass? ==> NoneLostBefore(before, other.tries, m + 1, 0)
      ensures o.Pass? ==> MergedBelow(tries, before, other.tries, m + 1, 0)
    {
      var k := 0;
      while k <= other.skip
        invariant 0 <= k <= other.skip + 1
        invariant n == old(n) && skip == old(skip) && tries.Keys == old(tries).Keys && Fits(tries)
        invariant NoneLostBefore(before, other.tries, m, k)
        invariant MergedBelow(tries, before, other.tries, m, k)
      {
        o := MergeStratum(other, m, k, before);
        if o.Fail? {
          assert StoppedAt(tries, before, other.tries, m, k);
          return;
        }
        k := k + 1;
      }
      MergeRow(tries, before, other.tries, m, other.skip + 1);
      return Pass;
    }

    /** The inner loop of `combine`: every stored pair of stratum (m, k) of the operand. */
    method MergeStratum(other: Skipgrams<T>, m: int, k: int, ghost before: map<(int, int), Node<T>>) returns (o: Outcome)
      requires Fits(tries) && other.Valid() && other != this && 1 <= m <= other.n && 0 <= k <= other.skip
      requires tries.Keys == before.Keys
      requires NoneLostBefore(before, other.tries, m, k)
      requires MergedBelow(tries, before, other.tries, m, k)
      modifies this
      ensures n == old(n) && skip == old(skip) && tries.Keys == old(tries).Keys && Fits(tries)
      ensures o.Fail? ==> o.error == KeyError && Lost(before, other.tries)
      ensures o.Fail? ==> tries == old(tries) && StoppedAt(tries, before, other.tries, m, k)
      ensures o.Pass? ==> NoneLostBefore(before, other.tries, m, k + 1)
      ensures o.Pass? ==> MergedBelow(tries, before, other.tries, m, k + 1)
    {
      assert IsStratum((m, k), other.n, other.skip);
      var pairs := FlattenedWithCounts(other.tries[(m, k)], m, []);
      EnumeratedLengths(other.tries[(m, k)], m, pairs);
      if (m, k) in tries {
        MergeStep(tries, before, other.tries, m, k, pairs);
      }
      o := AddPairs(pairs, m, k);
      if o.Fail? {
        assert pairs[0] in pairs;
        return;
      }
      if (m, k) !in before {
        MergeEmptyStep(tries, before, other.tries, m, k);
      }
    }

    /** Grow the bounds to at least (m, k) and create every new stratum, empty. */
    method Widen(m: int, k: int)
      requires Valid()
      modifies this
      ensures Valid() && n == Max(old(n), m) && skip == Max(old(skip), k)
      ensures SameCounts(tries, old(tries))
    {
      if m > n {
        n := m;
      }
      if k > skip {
        skip := k;
      }
      tries := map key | key in Strata(n, skip) :: if key in tries then tries[key] else Empty();
      NewStrataEmpty(tries, old(tries));
    }

    /**
     * `combine(other)` for one operand as intended: the bounds grow to the
     * operand's, the strata they add are created, and every count becomes
     * the sum of the two collections' counts.
     */
    method CombineOne(other: Skipgrams<T>)
      requires Valid() && other.Valid() && other != this
      modifies this
      ensures Valid() && n == Max(old(n), other.n) && skip == Max(old(skip), other.skip)
      ensures Merged(tries, old(tries), other.tries)
    {
      Widen(other.n, other.skip);
      ghost var widened := tries;
      assert forall key :: key in other.tries ==> key in widened by {
        forall key | key in other.tries
          ensures key in widened
        {
          assert IsStratum(key, n, skip);
        }
      }
      var o := MergeStrata(other);
      MergedSame(tries, widened, old(tries), other.tries);
    }

    /**
     * `combine(other)` for one operand as written: the bounds grow to the
     * operand's but no stratum is created, so merging a non-empty stratum
     * this collection lacks raises KeyError.
     */
    method CombineOneAsWritten(other: Skipgrams<T>) returns (o: Outcome)
      requires Valid() && other.Valid() && other != this
      modifies this
      ensures n == Max(old(n), other.n) && skip == Max(old(skip), other.skip)
      ensures tries.Keys == old(tries).Keys
      ensures o.Fail? <==> Lost(old(tries), other.tries)
      ensures o.Fail? ==> o.error == KeyError
      ensures o.Pass? ==> Merged(tries, old(tries), other.tries)
      ensures o.Fail? ==> MergeStopped(tries, old(tries), other.tries)
    {
      if other.n > n {
        n := other.n;
      }
      if other.skip > skip {
        skip := other.skip;
      }
      o := MergeStrata(other);
    }

    /**
     * `combine(*others)` as intended: the arguments are merged in turn until
     * the first that is not a collection, which raises TypeError. The bounds
     * become the widest among the merged collections, and every count the sum
     * of the merged counts.
     */
    method Combine(others: seq<Arg<T>>) returns (o: Outcome)
      requires Valid()
      requires forall g :: g in Collections(others) ==> g != this && g.Valid()
      modifies this
      ensures Valid()
      ensures o.Fail? <==> FirstNotGrams(others) < |others|
      ensures o.Fail? ==> o.error == TypeError
      ensures n == WidestN(others[..FirstNotGrams(others)], old(n))
      ensures skip == WidestSkip(others[..FirstNotGrams(others)], old(skip))
      ensures CombinedAll(tries, old(tries), others[..FirstNotGrams(others)])
    {
      var i := 0;
      while i < |others|
        invariant 0 <= i <= FirstNotGrams(others)
        invariant Valid()
        invariant n == WidestN(others[..i], old(n)) && skip == WidestSkip(others[..i], old(skip))
        invariant CombinedAll(tries, old(tries), others[..i])
      {
        if others[i].NotGrams? {
          assert FirstNotGrams(others) == i;
          return Fail(TypeError);
        }
        CombineNext(others, i, old(n), old(skip), old(tries));
        i := i + 1;
      }
      assert others[..i] == others[..FirstNotGrams(others)];
      return Pass;
    }

    /** One turn of the loop of `combine`: merge the collection at position i. */
    method CombineNext(others: seq<Arg<T>>, i: int, ghost n0: int, ghost skip0: int, ghost before: map<(int, int), Node<T>>)
      requires Valid() && 0 <= i < |others| && others[i].Grams?
      requires forall g :: g in Collections(others) ==> g != this && g.Valid()
      requires n == WidestN(others[..i], n0) && skip == WidestSkip(others[..i], skip0)
      requires CombinedAll(tries, before, others[..i])
      modifies this
      ensures Valid()
      ensures n == WidestN(others[..i + 1], n0) && skip == WidestSkip(others[..i + 1], skip0)
      ensures CombinedAll(tries, before, others[..i + 1])
    {
      var other := others[i].g;
      CollectionsPrefix(others, i);
      CollectionsPrefix(others, i + 1);
      assert other in Collections(others);
      ghost var mid := tries;
      CombineOne(other);
      assert others[..i + 1][..i] == others[..i];
      CombinedStep(tries, mid, before, others[..i + 1]);
    }

    /** `Ngrams.ngrams_with_counts(n, prefix)`: the skip-0 stratum of length n. */
    method NgramsWithCounts(m: int, prefix: seq<T>) returns (r: Result<seq<(seq<T>, int)>>)
      requires Valid()
      ensures r.Err? <==> !(1 <= m <= n)
      ensures r.Err? ==> r.error == ValueError
      ensures r.Ok? ==> EnumeratesFrom(tries[(m, 0)], prefix, r.value)
    {
      r := SkipgramsWithCounts(m, 0, prefix);
    }
  }

  // ----------------------------------------------------------------------
  // Combining with a wider collection
  // ----------------------------------------------------------------------

  /** A `Skipgrams(2)` holding ("a", "b") once. */
  method OneBigram() returns (g: Skipgrams<char>)
    ensures fresh(g) && g.Valid() && g.n == 2 && g.skip == 0
    ensures Get(g.tries[(2, 0)], "ab") == Some(1) && CountIn(g.tries, "ab", 0) == 1
  {
    var made := Skipgrams<char>.New(2, 0);
    g := made.value;
    var added := g.Add("ab", 0, 1);
    EmptyStoresNothing<char>("ab");
  }

  /**
   * `Skipgrams(1).combine(g)` where g is a `Skipgrams(2)` holding ("a", "b"):
   * as written, the bounds grow to 2 but the stratum (2, 0) is never created,
   * so adding ("a", "b") raises KeyError.
   */
  method WiderCombineAsWritten() returns (o: Outcome)
    ensures o == Fail(KeyError)
  {
    var small := Skipgrams<char>.New(1, 0);
    var wide := OneBigram();
    assert (2, 0) !in small.value.tries;
    o := small.value.CombineOneAsWritten(wide);
  }

  /** Combining a single collection adds its counts. */
  lemma {:induction false} CombinedSingle<T(!new)>(now: map<(int, int), Node<T>>, before: map<(int, int), Node<T>>,
                                                   g: Skipgrams<T>, x: seq<T>, j: int)
    requires CombinedAll(now, before, [Grams(g)])
    ensures CountIn(now, x, j) == CountIn(before, x, j) + CountIn(g.tries, x, j)
  {
    var others := [Grams(g)];
    assert others[..0] == [];
    assert CombinedCount(others[..0], x, j) == 0;
    assert CombinedCount(others, x, j) == CountIn(g.tries, x, j);
  }

  /** The same combination as intended: the merged collection counts ("a", "b") once. */
  method WiderCombine() returns (r: Result<int>)
    ensures r == Ok(1)
  {
    var small := Skipgrams<char>.New(1, 0);
    var wide := OneBigram();
    var others := [Grams(wide)];
    assert FirstNotGrams(others) == 1 && others[..1] == others;
    ghost var before := small.value.tries;
    assert CountIn(before, "ab", 0) == 0;
    var o := small.value.Combine(others);
    assert others[..0] == [];
    assert small.value.skip == 0 && small.value.n == 2;
    CombinedSingle(small.value.tries, before, wide, "ab", 0);
    assert CountIn(small.value.tries, "ab", 0) == 1;
    r := small.value.Count("ab", 0);
  }

  // ----------------------------------------------------------------------
  // Counting, then adding
  // ----------------------------------------------------------------------

  /**
   * `count(e)` and then `add(e, c)` on a fresh `Ngrams(|e|)`: the lookup here
   * only reads the trie, so the add goes through and e then counts c.
   */
  method CountThenAdd<T(==,!new)>(e: seq<T>, c: int) returns (r: Result<int>)
    requires 1 <= |e|
    ensures r == Ok(c)
  {
    var made := Skipgrams<T>.NewNgrams(|e|);
    var g := made.value;
    EmptyStoresNothing(e);
    var counted := g.Count(e, 0);
    var added := g.Add(e, 0, c);
    r := g.Count(e, 0);
  }

  /**
   * `add((a,), c)`, `count((b,))` and `ngrams_with_counts(1)` on `Ngrams(1)`:
   * the lookup only reads, so the listing is the one stored pair.
   */
  method ListAfterCount<T(==,!new)>(a: T, b: T, c: int) returns (listed: Result<seq<(seq<T>, int)>>)
    ensures listed == Ok([([a], c)])
  {
    var made := Skipgrams<T>.NewNgrams(1);
    var g := made.value;
    var added := g.Add([a], 0, c);
    var counted := g.Count([b], 0);
    EmptyStoresNothing<T>([a]);
    forall x: seq<T>
      ensures Get(g.tries[(1, 0)], x) == if x == [a] then Some(c) else None
    {
      InsertCounts(Empty<T>(), [a], c, x);
      EmptyStoresNothing(x);
    }
    listed := g.NgramsWithCounts(1, []);
    SingleEnumerates(g.tries[(1, 0)], [a], c, listed.value);
  }

  // ----------------------------------------------------------------------
  // The collection of the test suite
  // ----------------------------------------------------------------------

  /**
   * With skip 0, `add_from_seq(s, c)` adds to x c times the number of windows
   * of s equal to x, and nothing when x is longer than s or than n.
   */
  lemma {:induction false} FromSeqCountNoSkip<T>(s: seq<T>, n: int, c: int, x: seq<T>, w: seq<seq<T>>)
    requires w == Windows.NgramsFromSeq(s, |x|)
    ensures FromSeqCount(s, n, 0, c, x, 0) == if 1 <= |x| <= Min(n, |s|) then c * multiset(w)[x] else 0
  {
    if 1 <= |x| <= Min(n, |s|) {
      WindowProperties.SkipZeroIsNgrams(s, |x|);
      assert StratumGrams(s, |x|, 0) == w;
    }
  }

  /** What `add_from_seq("ab")` of `Ngrams(3)` adds to ("a", "b"), ("d", "e", "f") and ("f", "o", "o"). */
  lemma {:induction false} FixtureAddsAB(s: string)
    requires s == "ab"
    ensures FromSeqCount(s, 3, 0, 1, "ab", 0) == 1
    ensures FromSeqCount(s, 3, 0, 1, "def", 0) == 0
    ensures FromSeqCount(s, 3, 0, 1, "foo", 0) == 0
  {
    WindowProperties.FixtureWindowsAB(s);
    var w2: seq<string>, w3: seq<string> := ["ab"], [];
    FromSeqCountNoSkip(s, 3, 1, "ab", w2);
    FromSeqCountNoSkip(s, 3, 1, "def", w3);
    FromSeqCountNoSkip(s, 3, 1, "foo", w3);
  }

  /** The same for "abc". */
  lemma {:induction false} FixtureAddsABC(s: string)
    requires s == "abc"
    ensures FromSeqCount(s, 3, 0, 1, "ab", 0) == 1
    ensures FromSeqCount(s, 3, 0, 1, "def", 0) == 0
    ensures FromSeqCount(s, 3, 0, 1, "foo", 0) == 0
  {
    WindowProperties.FixtureWindowsABC(s);
    var w2: seq<string>, w3: seq<string> := ["ab", "bc"], ["abc"];
    FromSeqCountNoSkip(s, 3, 1, "ab", w2);
    FromSeqCountNoSkip(s, 3, 1, "def", w3);
    FromSeqCountNoSkip(s, 3, 1, "foo", w3);
  }

  /** The same for "abcde". */
  lemma {:induction false} FixtureAddsABCDE(s: string)
    requires s == "abcde"
    ensures FromSeqCount(s, 3, 0, 1, "ab", 0) == 1
    ensures FromSeqCount(s, 3, 0, 1, "def", 0) == 0
    ensures FromSeqCount(s, 3, 0, 1, "foo", 0) == 0
  {
    WindowProperties.FixtureWindowsFive(s);
    var w2: seq<string>, w3: seq<string> := ["ab", "bc", "cd", "de"], ["abc", "bcd", "cde"];
    FromSeqCountNoSkip(s, 3, 1, "ab", w2);
    FromSeqCountNoSkip(s, 3, 1, "def", w3);
    FromSeqCountNoSkip(s, 3, 1, "foo", w3);
  }

  /** The same for "abcdef". */
  lemma {:induction false} FixtureAddsABCDEF(s: string)
    requires s == "abcdef"
    ensures FromSeqCount(s, 3, 0, 1, "ab", 0) == 1
    ensures FromSeqCount(s, 3, 0, 1, "def", 0) == 1
    ensures FromSeqCount(s, 3, 0, 1, "foo", 0) == 0
  {
    WindowProperties.FixtureWindowsSix(s);
    FixtureAddsPairs(s, ["ab", "bc", "cd", "de", "ef"]);
    FixtureAddsTriples(s, ["abc", "bcd", "cde", "def"]);
  }

  lemma {:induction false} FixtureAddsPairs(s: string, w2: seq<string>)
    requires |s| == 6 && w2 == Windows.NgramsFromSeq(s, 2) && w2 == ["ab"] + ["bc", "cd", "de", "ef"]
    ensures FromSeqCount(s, 3, 0, 1, "ab", 0) == 1
  {
    FromSeqCountNoSkip(s, 3, 1, "ab", w2);
  }

  lemma {:induction false} FixtureAddsTriples(s: string, w3: seq<string>)
    requires |s| == 6 && w3 == Windows.NgramsFromSeq(s, 3) && w3 == ["abc", "bcd", "cde"] + ["def"]
    ensures FromSeqCount(s, 3, 0, 1, "def", 0) == 1
    ensures FromSeqCount(s, 3, 0, 1, "foo", 0) == 0
  {
    FromSeqCountNoSkip(s, 3, 1, "def", w3);
    FromSeqCountNoSkip(s, 3, 1, "foo", w3);
  }

  /** After `add_from_seq(s, c)`, the count of x under skip j grew by what s adds to it. */
  lemma {:induction false} AddedFromSeqAt<T(!new)>(now: map<(int, int), Node<T>>, before: map<(int, int), Node<T>>,
                                                   s: seq<T>, n: int, skip: int, c: int, x: seq<T>, j: int)
    requires AddedFromSeq(now, before, s, n, skip, c)
    ensures CountIn(now, x, j) == CountIn(before, x, j) + FromSeqCount(s, n, skip, c, x, j)
  {
  }

  /** What each sequence of the test suite adds, by its position in the list. */
  lemma {:induction false} FixtureAdds(s: string, i: int)
    requires 0 <= i < 7 && s == ["ab", "abc", "abcde", "abcde", "abcde", "abcdef", "abcdef"][i]
    ensures FromSeqCount(s, 3, 0, 1, "ab", 0) == 1
    ensures FromSeqCount(s, 3, 0, 1, "def", 0) == if i >= 5 then 1 else 0
    ensures FromSeqCount(s, 3, 0, 1, "foo", 0) == 0
  {
    if i == 0 {
      FixtureAddsAB(s);
    } else if i == 1 {
      FixtureAddsABC(s);
    } else if i < 5 {
      FixtureAddsABCDE(s);
    } else {
      FixtureAddsABCDEF(s);
    }
  }

  /** `Ngrams(3)` fed "ab", "abc", three times "abcde" and twice "abcdef". */
  method Fixture() returns (g: Skipgrams<char>)
    ensures fresh(g) && g.Valid() && g.n == 3 && g.skip == 0
    ensures CountIn(g.tries, "ab", 0) == 7 && CountIn(g.tries, "def", 0) == 2 && CountIn(g.tries, "foo", 0) == 0
  {
    var made := Skipgrams<char>.NewNgrams(3);
    g := made.value;
    ghost var ab, def, foo := "ab", "def", "foo";
    EmptyStoresNothing<char>(ab);
    EmptyStoresNothing<char>(def);
    EmptyStoresNothing<char>(foo);
    var seqs := ["ab", "abc", "abcde", "abcde", "abcde", "abcdef", "abcdef"];
    var i := 0;
    while i < |seqs|
      invariant 0 <= i <= |seqs|
      invariant g.Valid() && g.n == 3 && g.skip == 0
      invariant CountIn(g.tries, ab, 0) == i
      invariant CountIn(g.tries, def, 0) == if i <= 5 then 0 else i - 5
      invariant CountIn(g.tries, foo, 0) == 0
    {
      FixtureStep(g, seqs[i], i, ab, def, foo);
      i := i + 1;
    }
  }

  /** One sequence of the fixture, fed with `add_from_seq`. */
  method FixtureStep(g: Skipgrams<char>, s: string, i: int, ghost ab: string, ghost def: string, ghost foo: string)
    requires g.Valid() && g.n == 3 && g.skip == 0
    requires 0 <= i < 7 && s == ["ab", "abc", "abcde", "abcde", "abcde", "abcdef", "abcdef"][i]
    requires ab == "ab" && def == "def" && foo == "foo"
    modifies g
    ensures g.Valid() && g.n == 3 && g.skip == 0
    ensures CountIn(g.tries, ab, 0) == old(CountIn(g.tries, ab, 0)) + 1
    ensures CountIn(g.tries, def, 0) == old(CountIn(g.tries, def, 0)) + if i >= 5 then 1 else 0
    ensures CountIn(g.tries, foo, 0) == old(CountIn(g.tries, foo, 0))
  {
    FixtureAdds(s, i);
    g.AddFromSeq(s, 1);
    AddedFromSeqAt(g.tries, old(g.tries), s, 3, 0, 1, ab, 0);
    AddedFromSeqAt(g.tries, old(g.tries), s, 3, 0, 1, def, 0);
    AddedFromSeqAt(g.tries, old(g.tries), s, 3, 0, 1, foo, 0);
  }

  /** The counts the test suite checks on that collection. */
  method FixtureCounts() returns (ab: Result<int>, def: Result<int>, random: Result<int>, foo: Result<int>)
    ensures ab == Ok(7) && def == Ok(2) && random == Ok(0) && foo == Ok(0)
  {
    var g := Fixture();
    ab := g.Count("ab", 0);
    def := g.Count("def", 0);
    random := g.Count("random", 0);
    foo := g.Count("foo", 0);
  }

  /** The memberships the test suite checks: ("a", "b") and ("d", "e", "f") are found, ("r", "a", ...) and ("f", "o", "o") are not. */
  method FixtureContains() returns (ab: Result<int>, def: Result<int>, random: Result<int>, foo: Result<int>)
    ensures ab == Ok(7) && def == Ok(2) && random == Ok(0) && foo == Ok(0)
  {
    var g := Fixture();
    ab := NgramsContains(g, "ab");
    def := NgramsContains(g, "def");
    random := NgramsContains(g, "random");
    foo := NgramsContains(g, "foo");
  }

  /** On an `Ngrams` (skip 0), `__contains__` of a non-empty entry is its count. */
  method NgramsContains<T(==,!new)>(g: Skipgrams<T>, e: seq<T>) returns (r: Result<int>)
    requires g.Valid() && g.skip == 0 && |e| >= 1
    ensures r == Ok(CountIn(g.tries, e, 0))
  {
    r := g.Contains(e);
  }


}

/**
 * The windowers: contiguous n-grams (`ngrams_from_seq`) and skip-bounded
 * skip-grams (`skipgrams_from_seq`), together with the argument validators
 * `_validate_n` and `_validate_skip` of nskipgrams.py.
 *
 * A skip-gram is described by the ascending tuple of positions it takes from
 * the sequence; everything below is stated first for those index tuples and
 * then mapped to tokens.
 */
module Windows {
  import opened Wrappers

  // ----------------------------------------------------------------------
  // Argument validation
  // ----------------------------------------------------------------------

  /** `_validate_n`: n must be at least 1 and, when a bound is given, at most the bound. */
  function ValidateN(n: int, upperBound: Option<int>): (r: Result<int>)
    ensures r.Ok? <==> 1 <= n && (upperBound.Some? ==> n <= upperBound.value)
    ensures r.Ok? ==> r.value == n
    ensures r.Err? ==> r.error == ValueError
  {
    if n < 1 then Err(ValueError)
    else if upperBound.Some? && n > upperBound.value then Err(ValueError)
    else Ok(n)
  }

  /** `_validate_skip`: skip must be at least 0 and, when a bound is given, at most the bound. */
  function ValidateSkip(skip: int, upperBound: Option<int>): (r: Result<int>)
    ensures r.Ok? <==> 0 <= skip && (upperBound.Some? ==> skip <= upperBound.value)
    ensures r.Ok? ==> r.value == skip
    ensures r.Err? ==> r.error == ValueError
  {
    if skip < 0 then Err(ValueError)
    else if upperBound.Some? && skip > upperBound.value then Err(ValueError)
    else Ok(skip)
  }

  // ----------------------------------------------------------------------
  // Contiguous n-grams
  // ----------------------------------------------------------------------

  /**
   * `ngrams_from_seq`: zipping the suffixes s[0:], s[1:], ..., s[n-1:] gives
   * one tuple per start position that still has n tokens after it, and
   * nothing at all when n < 1 (an empty `zip`) or n exceeds the length.
   */
  function NgramsFromSeq<T>(s: seq<T>, n: int): (r: seq<seq<T>>)
    ensures |r| == if 1 <= n <= |s| then |s| - n + 1 else 0
    ensures forall i :: 0 <= i < |r| ==> i + n <= |s| && r[i] == s[i..i + n]
    decreases |s|
  {
    if n < 1 || |s| < n then [] else [s[..n]] + NgramsFromSeq(s[1..], n)
  }

  // ----------------------------------------------------------------------
  // Index tuples
  // ----------------------------------------------------------------------

  /** Strictly increasing positions. */
  predicate Ascending(t: seq<int>)
  {
    forall i, j :: 0 <= i < j < |t| ==> t[i] < t[j]
  }

  /** Every position lies in [lo, hi). */
  predicate Within(t: seq<int>, lo: int, hi: int)
  {
    forall i :: 0 <= i < |t| ==> lo <= t[i] < hi
  }

  /** Every position indexes a sequence of length len. */
  predicate InRange(t: seq<int>, len: int)
  {
    Within(t, 0, len)
  }

  predicate Distinct<X(==)>(xs: seq<X>)
  {
    forall i, j :: 0 <= i < j < |xs| ==> xs[i] != xs[j]
  }

  /** `(x,) + t` for every tuple t of ts, in order. */
  function PrependAll(x: int, ts: seq<seq<int>>): seq<seq<int>>
  {
    seq(|ts|, i requires 0 <= i < |ts| => [x] + ts[i])
  }

  /**
   * `itertools.combinations(range(lo, hi), n)`: the ascending n-tuples drawn
   * from [lo, hi), in lexicographic order.
   */
  function Combinations(lo: int, hi: int, n: nat): seq<seq<int>>
    decreases n, hi - lo
  {
    if n == 0 then [[]]
    else if hi <= lo then []
    else PrependAll(lo, Combinations(lo + 1, hi, n - 1)) + Combinations(lo + 1, hi, n)
  }

  /** `tuple(i + k for i in indices)`. */
  function Shift(c: seq<int>, k: int): seq<int>
  {
    seq(|c|, i requires 0 <= i < |c| => c[i] + k)
  }

  function ShiftAll(cs: seq<seq<int>>, k: int): seq<seq<int>>
  {
    seq(|cs|, i requires 0 <= i < |cs| => Shift(cs[i], k))
  }

  /**
   * The window width at every start: min(skip + n, len(seq)); it is not
   * narrowed near the end of the sequence, so tuples running past the end
   * are produced and dropped later.
   */
  function Width(len: int, n: int, skip: int): int
  {
    Min(skip + n, len)
  }

  /** Every tuple the double loop produces for the starts 0 .. K-1, repeats included. */
  function Candidates(len: int, n: nat, skip: int, K: int): seq<seq<int>>
    decreases K
  {
    if K <= 0 then []
    else Candidates(len, n, skip, K - 1) + ShiftAll(Combinations(0, Width(len, n, skip), n), K - 1)
  }

  /** Assigning a key of an `OrderedDict`: a key already present keeps its first position. */
  function AddNew(acc: seq<seq<int>>, t: seq<int>): seq<seq<int>>
  {
    if t in acc then acc else acc + [t]
  }

  /** The keys of the `OrderedDict` after assigning every tuple of ts, in order. */
  function AddAll(acc: seq<seq<int>>, ts: seq<seq<int>>): seq<seq<int>>
    decreases |ts|
  {
    if ts == [] then acc else AddNew(AddAll(acc, ts[..|ts| - 1]), ts[|ts| - 1])
  }

  /** The tuples whose token lookup does not raise `IndexError`. */
  function KeepInRange(ts: seq<seq<int>>, len: int): (r: seq<seq<int>>)
    ensures forall t :: t in r ==> InRange(t, len)
    decreases |ts|
  {
    if ts == [] then []
    else KeepInRange(ts[..|ts| - 1], len) + (if InRange(ts[|ts| - 1], len) then [ts[|ts| - 1]] else [])
  }

  /** `tuple(seq[i] for i in indices)`. */
  function Gather<T>(s: seq<T>, t: seq<int>): seq<T>
    requires InRange(t, |s|)
  {
    seq(|t|, i requires 0 <= i < |t| => s[t[i]])
  }

  function GatherAll<T>(s: seq<T>, ts: seq<seq<int>>): seq<seq<T>>
    requires forall t :: t in ts ==> InRange(t, |s|)
  {
    seq(|ts|, i requires 0 <= i < |ts| => Gather(s, ts[i]))
  }

  /** The index tuples whose tokens `skipgrams_from_seq` yields, in yield order. */
  function SkipgramIndices(len: int, n: nat, skip: int): seq<seq<int>>
  {
    KeepInRange(AddAll([], Candidates(len, n, skip, len - n + 1)), len)
  }

  /** The list `skipgrams_from_seq(s, n, skip)` produces, or the error it raises. */
  function Skipgrams<T>(s: seq<T>, n: int, skip: int): Result<seq<seq<T>>>
  {
    match ValidateN(n, Some(|s|))
    case Err(e) => Err(e)
    case Ok(_) =>
      match ValidateSkip(skip, Some(|s|))
      case Err(e) => Err(e)
      case Ok(_) => Ok(GatherAll(s, SkipgramIndices(|s|, n, skip)))
  }

  // ----------------------------------------------------------------------
  // skipgrams_from_seq, as the source computes it
  // ----------------------------------------------------------------------

  /**
   * `skipgrams_from_seq`: fill an ordered set with the shifted combinations
   * of every window start, then yield the tokens of each tuple that fits in
   * the sequence.
   */
  method SkipgramsFromSeq<T>(s: seq<T>, n: int, skip: int) returns (r: Result<seq<seq<T>>>)
    ensures r == Skipgrams(s, n, skip)
  {
    var checkedN := ValidateN(n, Some(|s|));
    if checkedN.Err? {
      return Err(checkedN.error);
    }
    var checkedSkip := ValidateSkip(skip, Some(|s|));
    if checkedSkip.Err? {
      return Err(checkedSkip.error);
    }
    assert Skipgrams(s, n, skip) == Ok(GatherAll(s, SkipgramIndices(|s|, n, skip)));
    var allIndices := OrderedIndexSet(|s|, n, skip);
    var yielded := TokensOfInRange(s, allIndices);
    return Ok(yielded);
  }

  /** The double loop of `skipgrams_from_seq` that fills the `OrderedDict` of index tuples. */
  method OrderedIndexSet(len: int, n: nat, skip: int) returns (allIndices: seq<seq<int>>)
    requires 1 <= n <= len
    ensures allIndices == AddAll([], Candidates(len, n, skip, len - n + 1))
  {
    var width := Width(len, n, skip);
    allIndices := [];
    var k := 0;
    while k < len - n + 1
      invariant 0 <= k <= len - n + 1
      invariant allIndices == AddAll([], Candidates(len, n, skip, k))
    {
      allIndices := AddShifted(allIndices, Combinations(0, width, n), k, Candidates(len, n, skip, k));
      k := k + 1;
    }
  }

  /** The inner loop: assign every combination of the window, shifted to start k. */
  method AddShifted(acc: seq<seq<int>>, combos: seq<seq<int>>, k: int, ghost done: seq<seq<int>>)
    returns (allIndices: seq<seq<int>>)
    requires acc == AddAll([], done)
    ensures allIndices == AddAll([], done + ShiftAll(combos, k))
  {
    ghost var block := ShiftAll(combos, k);
    allIndices := acc;
    var j := 0;
    assert done + block[..0] == done;
    while j < |combos|
      invariant 0 <= j <= |combos|
      invariant allIndices == AddAll([], done + block[..j])
    {
      var indices := Shift(combos[j], k);
      assert (done + block[..j + 1])[..|done + block[..j]|] == done + block[..j];
      if indices !in allIndices {
        allIndices := allIndices + [indices];
      }
      j := j + 1;
    }
    assert block[..j] == block;
  }

  /** The yield loop of `skipgrams_from_seq`: tuples that raise `IndexError` are passed over. */
  method TokensOfInRange<T>(s: seq<T>, allIndices: seq<seq<int>>) returns (yielded: seq<seq<T>>)
    ensures yielded == GatherAll(s, KeepInRange(allIndices, |s|))
  {
    yielded := [];
    ghost var kept: seq<seq<int>> := [];
    var i := 0;
    while i < |allIndices|
      invariant 0 <= i <= |allIndices|
      invariant kept == KeepInRange(allIndices[..i], |s|)
      invariant yielded == GatherAll(s, kept)
    {
      var indices := allIndices[i];
      assert allIndices[..i + 1][..i] == allIndices[..i];
      if InRange(indices, |s|) {
        yielded := yielded + [Gather(s, indices)];
        kept := kept + [indices];
      }
      i := i + 1;
    }
    assert allIndices[..i] == allIndices;
  }
}

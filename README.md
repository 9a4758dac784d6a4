# nskipgrams in Dafny

A model of the counting core of nskipgrams, a small Python library that counts
n-grams and skip-grams of token sequences.

- **Windowers** (`windows.dfy`, `windows_properties.dfy`): `ngrams_from_seq`
  slides a window of n tokens over a sequence; `skipgrams_from_seq` takes, at
  every window start k, every ascending n-combination of positions of a window
  of width `min(skip + n, len(seq))`, shifts it to start at k, keeps each
  position tuple once in first-seen order (an `OrderedDict` used as an ordered
  set) and yields the tokens of the tuples that fit inside the sequence. The
  validators `_validate_n` and `_validate_skip` guard it.
- **Counting trie** (`trie.dfy`): one trie per stratum. The nested
  `defaultdict` whose bottom level holds integers becomes the tagged value
  `Node<T> = Branch(map<T, Node<T>>) | Leaf(int)`. A stratum of entries of
  length L is `Shaped` at depth L: every leaf lies exactly L levels down. Its
  abstract content is the partial map `Get(node, e)` from entries to counts;
  insertion is a point update of that map, lookup follows the tokens
  (`Descend`), and flattening lists exactly the map's pairs, each entry once.
- **Collections**: `Skipgrams` of `nskipgrams.py` (`nskipgrams.dfy`), a class
  whose field `tries` maps every stratum (length, skip) to its trie, with
  `Ngrams` as its skip-0 case; and the older `Ngrams` of `ngrams.py`
  (`legacy_ngrams.dfy`), one trie per length, whose lookup goes through the
  `defaultdict` and therefore plants empty branches (`Plant`).
- **Test fixture** (end of `nskipgrams.dfy`): the `Ngrams(n=3)` of
  test_ngrams.py:10-24, fed seven sequences, and the counts and memberships
  the tests expect of it. The keyword `n` is that of `nskipgrams.Ngrams`, so
  the fixture is built on the `Skipgrams` class.
- `wrappers.dfy` holds the Python exceptions raised (`ValueError`,
  `TypeError`, `KeyError`, `AttributeError`) and the `Result`/`Outcome` types that carry them.

The model follows the code at these points, where it does something other
than its docstrings or names suggest:

- the skip-gram window is `min(skip + n, len(seq))` wide at every start, not
  narrowed to the remaining length, so tuples past the end are produced and
  then dropped (nskipgrams.py:78, 80-84);
- `Skipgrams.__contains__` returns the first nonzero count, not a boolean
  (nskipgrams.py:217-222);
- `count` of the empty entry raises `KeyError`: there is no stratum of
  length 0 (nskipgrams.py:195, ngrams.py:152);
- `total_count` of `ngrams.py` takes a single order (ngrams.py:176-196).

One operation follows its docstring rather than its code: `combine` of
`nskipgrams.py` raises the bounds but creates no stratum, so merging a wider
collection raises KeyError (first row of Findings). `Skipgrams.Combine` and
`Skipgrams.Widen` model the widening the docstring promises
(nskipgrams.py:252-254); the code as written is `Skipgrams.CombineOneAsWritten`,
for one operand.

## Model

| member | source | states |
|---|---|---|
| `Windows.ValidateN` | nskipgrams.py:104-109 | succeeds exactly when 1 <= n and n is within the optional upper bound, returning n; raises ValueError otherwise |
| `Windows.ValidateSkip` | nskipgrams.py:112-117 | succeeds exactly when 0 <= skip and skip is within the optional upper bound, returning skip; raises ValueError otherwise |
| `Windows.NgramsFromSeq` | nskipgrams.py:87-101 | len(seq) - n + 1 windows when 1 <= n <= len(seq), none otherwise; the i-th is seq[i..i+n) (same code at ngrams.py:44-58) |
| `Windows.KeepInRange` | nskipgrams.py:80-84 | every tuple kept indexes inside the sequence |
| `Windows.SkipgramsFromSeq` | nskipgrams.py:73-84 | validation of n then skip, then the tokens of the ordered, deduplicated, in-range index tuples (the function `Skipgrams`) |
| `Windows.OrderedIndexSet` | nskipgrams.py:76-79 | the double loop leaves the keys of the ordered set of all shifted combinations, first-seen order |
| `Windows.AddShifted` | nskipgrams.py:78-79 | the inner loop adds each combination shifted by k unless already present |
| `Windows.TokensOfInRange` | nskipgrams.py:80-84 | yields the tokens of exactly the in-range tuples, in order |
| `WindowProperties.CombinationsMembers` | nskipgrams.py:78 | `combinations(range(lo, hi), n)` lists exactly the ascending n-tuples within [lo, hi) |
| `WindowProperties.CandidatesMembers` | nskipgrams.py:77-79 | the tuples produced for starts 0..K-1 are exactly those lying in some window of the given width |
| `WindowProperties.AddAllMembers` | nskipgrams.py:76-79 | the ordered set holds a tuple exactly when it was assigned |
| `WindowProperties.AddAllDistinct` | nskipgrams.py:76-79 | the ordered set never holds a tuple twice |
| `WindowProperties.SkipgramIndicesCharacterised` | nskipgrams.py:73-84 | the yielded index tuples are distinct and are exactly the ascending in-range n-tuples with last - first <= n + skip - 1 |
| `WindowProperties.SkipgramsCharacterised` | nskipgrams.py:73-84 | raises ValueError exactly when n is outside [1, len] or skip outside [0, len]; otherwise yields, once per qualifying index tuple, its tokens |
| `WindowProperties.SkipgramLengths` | nskipgrams.py:73-84 | every yielded skip-gram has n tokens |
| `WindowProperties.SkipZeroIsNgrams` | nskipgrams.py:283 | skip-grams with skip 0 are exactly the contiguous n-grams, in the same order |
| `WindowProperties.NgramsExamples` | test_ngrams.py:27-36 | the windows of "abcd" of lengths 2 and 3 |
| `WindowProperties.WikipediaSkipgrams` | test_ngrams.py:39-69 | the 15 pairs with one skip of "the rain in Spain falls mainly on the plain", in order |
| `Trie.EmptyStoresNothing` | nskipgrams.py:21-22 | a fresh `_trie()` stores no entry |
| `Trie.GetInnerTrie` | nskipgrams.py:55-70 | the lookup loop reaches the node at the end of the prefix, or None when a token is missing or a leaf is reached early; it only reads |
| `Trie.DescendShaped` | nskipgrams.py:55-70 | below a stratum of depth d the node reached by p is shaped at depth d - len(p) |
| `Trie.StoredLength` | nskipgrams.py:148-155 | in a stratum of depth L every stored entry has length L |
| `Trie.Insert` | nskipgrams.py:148-155 | insertion keeps every leaf at depth L and leaves the entry counting its old count (0 when absent) plus c |
| `Trie.InsertOthers` | nskipgrams.py:148-155 | insertion leaves every other entry's stored count as it was |
| `Trie.InsertCounts` | nskipgrams.py:148-155 | insertion is a point update of the entry-to-count map |
| `Trie.MissingEnumerates` | nskipgrams.py:43-44 | below a missing prefix nothing is listed |
| `Trie.LeafEnumerates` | nskipgrams.py:45-47 | a prefix that is a stored entry is listed alone, with its count |
| `Trie.PrependPathEnumerates` | nskipgrams.py:48-52 | the prefix in front of an enumeration of the inner trie enumerates the entries that start with the prefix |
| `Trie.FlattenTrie` | nskipgrams.py:26-38 | `_flatten_trie` lists every stored (entry, count) of a branch, each entry once, and nothing else |
| `Trie.FlattenChild` | nskipgrams.py:32-38 | one key of a level: a leaf level yields (token, count), a deeper level prefixes the token to everything below |
| `Trie.FlattenedWithCounts` | nskipgrams.py:25-52 | lists exactly the stored pairs whose entry starts with the prefix, each once |
| `Trie.FullEntryEnumeration` | nskipgrams.py:45-47 | when the prefix is a stored entry, the listing is exactly [(prefix, count)] |
| `Trie.LongPrefixEnumeration` | nskipgrams.py:55-60 | a prefix longer than the stratum's entries lists nothing |
| `Trie.SamePairsSameTotals` | ngrams.py:192-196 | two duplicate-free listings of the same pairs have the same length and the same sum of counts |
| `Trie.EnumerationsAgree` | ngrams.py:192-196 | whatever order the dicts iterate in, the number of pairs and their total count are determined by the trie |
| `Trie.InsertAllCounts` | nskipgrams.py:272-277 | adding a list of pairs in turn gives each entry its old count plus the list's counts for it, and stores it when it was stored or listed |
| `Trie.SumForWithCount` | nskipgrams.py:172-173 | adding every entry of a list with count c gives each entry c times its number of occurrences |
| `Trie.SumForEnumeration` | nskipgrams.py:274-277 | re-adding an enumeration of a trie adds exactly that trie's count to each entry |
| `Trie.EnumeratedLengths` | nskipgrams.py:274-277 | every entry listed from a stratum of length m has length m |
| `NSkipgrams.InsertStratumCounts` | nskipgrams.py:148-155 | adding e under skip k raises count(e, k) by c and changes no other (entry, skip) count |
| `NSkipgrams.StratumGrams` | nskipgrams.py:172 | the skip-grams of a visited stratum (m, k) are the successful result of `skipgrams_from_seq`, all of length m |
| `NSkipgrams.FromSeqStratum` | nskipgrams.py:172-173 | filling one stratum adds c for each time the sequence yields the entry there |
| `NSkipgrams.MergeStep` | nskipgrams.py:272-277 | merging one stratum of the operand adds its counts there and leaves the rest |
| `NSkipgrams.NewStrataEmpty` | nskipgrams.py:126 | adding empty strata changes no count |
| `NSkipgrams.FirstNotGrams` | nskipgrams.py:265-267 | the position of the first argument that is not a collection, all before it being collections |
| `NSkipgrams.Skipgrams.Init` | nskipgrams.py:123-126 | the strata are exactly (i, k) for 1 <= i <= n, 0 <= k <= skip, all empty, each shaped at its length |
| `NSkipgrams.Skipgrams.New` | nskipgrams.py:123-126 | raises ValueError exactly when n < 1 or skip < 0; otherwise a fresh collection of empty strata |
| `NSkipgrams.Skipgrams.NewNgrams` | nskipgrams.py:287-288 | `Ngrams(n)` is the skip-0 collection; raises ValueError exactly when n < 1 |
| `NSkipgrams.Skipgrams.Add` | nskipgrams.py:128-155 | raises ValueError, changing nothing, unless 1 <= len(e) <= n and 0 <= skip <= self.skip; otherwise inserts into stratum (len(e), skip) only |
| `NSkipgrams.Skipgrams.AddUnchecked` | nskipgrams.py:143-155 | `_add(..., validated=True)` raises KeyError when the stratum is missing, otherwise inserts |
| `NSkipgrams.Skipgrams.AddPairs` | nskipgrams.py:272-277 | adding a list of pairs of one stratum in turn; a missing stratum raises KeyError at the first pair |
| `NSkipgrams.Skipgrams.InsertPairs` | nskipgrams.py:272-277 | the same loop on an existing stratum: the stratum becomes the insertion of every pair in turn, nothing else changes |
| `NSkipgrams.Skipgrams.Count` | nskipgrams.py:175-200 | ValueError for skip outside [0, self.skip]; 0 for an entry longer than n; KeyError for the empty entry; otherwise the stored count, 0 when absent or only a prefix; reads only |
| `NSkipgrams.Skipgrams.Contains` | nskipgrams.py:202-222 | the first nonzero count over skips 0..self.skip, else 0; KeyError for the empty entry |
| `NSkipgrams.Skipgrams.SkipgramsWithCounts` | nskipgrams.py:224-247 | ValueError unless 1 <= n <= self.n and 0 <= skip <= self.skip; otherwise exactly the stored pairs of stratum (n, skip) starting with the prefix; nothing for a prefix longer than n; only (prefix, count) for a stored prefix |
| `NSkipgrams.Skipgrams.NgramsWithCounts` | nskipgrams.py:290-291 | the same for skip 0 |
| `NSkipgrams.Skipgrams.AddFromSeq` | nskipgrams.py:157-173 | every count grows by c times the number of times `skipgrams_from_seq(seq, m, k)` yields the entry, for the visited strata only; nothing else changes |
| `NSkipgrams.Skipgrams.AddLengthFromSeq` | nskipgrams.py:171-173 | the loop over the skips 0 .. max(min(self.skip, len(seq) - m), 0) of one length |
| `NSkipgrams.Skipgrams.AddStratumFromSeq` | nskipgrams.py:172-173 | adds every skip-gram of one stratum with the count |
| `NSkipgrams.Skipgrams.MergeStrata` | nskipgrams.py:272-277 | raises KeyError exactly when the operand has a non-empty stratum this collection lacks, leaving every operand stratum before the first such one merged (`MergeStopped`); otherwise every count is the sum of both; the operand is not modified |
| `NSkipgrams.Skipgrams.MergeLength` | nskipgrams.py:273-277 | the skips of one length of the operand; on KeyError the strata merged so far stay merged |
| `NSkipgrams.Skipgrams.MergeStratum` | nskipgrams.py:274-277 | one stratum of the operand; on KeyError nothing changes and it is the first lost stratum (`StoppedAt`) |
| `NSkipgrams.StoppedAtUnique` | nskipgrams.py:272-277 | a failed merge always stops at the same stratum and leaves the same counts |
| `NSkipgrams.Skipgrams.Widen` | nskipgrams.py:252-254 | the widening the docstring promises, corrected from nskipgrams.py:268-271, which raises the bounds without creating strata: the bounds become the maxima and the new strata are created empty; no count changes |
| `NSkipgrams.Skipgrams.CombineOne` | nskipgrams.py:265-277 | one operand, as the docstring promises: bounds become the maxima, every count the sum of both |
| `NSkipgrams.Skipgrams.CombineOneAsWritten` | nskipgrams.py:268-277 | one operand as written: the bounds grow but no stratum is created, so KeyError exactly when a non-empty operand stratum is missing, with the strata before it merged |
| `NSkipgrams.Skipgrams.Combine` | nskipgrams.py:249-277 | the corrected `combine` (the docstring's widening, through `Widen`): merges the arguments in turn; TypeError at the first argument that is not a collection, after merging those before it; bounds are the maxima and counts the sums over the merged ones |
| `NSkipgrams.Skipgrams.CombineNext` | nskipgrams.py:265-277 | one turn of the loop over the arguments |
| `NSkipgrams.CombinedStep` | nskipgrams.py:265-277 | merging one more operand extends the sum of counts by its counts |
| `NSkipgrams.OneBigram` | nskipgrams.py:128-155 | a `Skipgrams(2)` after `add(("a", "b"))` counts it once |
| `NSkipgrams.WiderCombineAsWritten` | nskipgrams.py:268-277 | `Skipgrams(1).combine(Skipgrams(2) holding ("a", "b"))` raises KeyError |
| `NSkipgrams.WiderCombine` | nskipgrams.py:252-254 | the same combination as intended counts ("a", "b") once |
| `NSkipgrams.CountThenAdd` | nskipgrams.py:55-70 | with the read-only lookup, `count(e)` then `add(e, c)` leaves e counting c |
| `NSkipgrams.FromSeqCountNoSkip` | nskipgrams.py:157-173 | with skip 0, `add_from_seq(s, c)` adds to x c times the number of windows of s equal to x when 1 <= len(x) <= min(n, len(s)), and nothing otherwise |
| `WindowProperties.FixtureWindowsAB` | test_ngrams.py:10-24 | the windows of length 2 and 3 of "ab": one pair and no triple |
| `WindowProperties.FixtureWindowsABC` | test_ngrams.py:10-24 | the windows of length 2 and 3 of "abc" |
| `WindowProperties.FixtureWindowsFive` | test_ngrams.py:10-24 | the windows of length 2 and 3 of "abcde" |
| `WindowProperties.FixtureWindowsSix` | test_ngrams.py:10-24 | the windows of length 2 and 3 of "abcdef" |
| `NSkipgrams.FixtureAdds` | test_ngrams.py:10-24 | each sequence of the test fixture adds one ("a", "b"), one ("d", "e", "f") exactly when it is "abcdef", and no ("f", "o", "o") |
| `NSkipgrams.Fixture` | test_ngrams.py:10-24 | `Ngrams(3)` fed the fixture's seven sequences is a valid collection counting ("a", "b") 7 times, ("d", "e", "f") twice and ("f", "o", "o") never |
| `NSkipgrams.FixtureCounts` | test_ngrams.py:84-90 | `count` on the fixture gives 7, 2, 0 and 0 for "ab", "def", "random" and "foo" |
| `NSkipgrams.NgramsContains` | nskipgrams.py:202-222 | on an `Ngrams`, `__contains__` of a non-empty entry is its count |
| `NSkipgrams.FixtureContains` | test_ngrams.py:93-99 | `in` on the fixture gives 7 and 2 (true) for "ab" and "def", 0 (false) for "random" and "foo" |
| `Legacy.ShapedLoose` | ngrams.py:10-11 | a trie built by `add` alone is a loose trie too |
| `Legacy.Plant` | ngrams.py:35-41 | indexing the defaultdict along p creates the missing branches; the lookup ends on the count of p, or on an empty trie when p is absent |
| `Legacy.PlantKeepsCounts` | ngrams.py:35-41 | the planting lookup changes no stored count |
| `Legacy.PlantStored` | ngrams.py:35-41 | looking up a stored entry changes nothing |
| `Legacy.Deposit` | ngrams.py:108-115 | adding to a planted empty slot raises TypeError; otherwise the entry counts its old count plus c |
| `Legacy.DepositOthers` | ngrams.py:108-115 | a successful add leaves every other entry's count unchanged |
| `Legacy.DepositIsInsert` | ngrams.py:108-115 | on a trie without planted slots the add of ngrams.py is the `_add` of nskipgrams.py |
| `Legacy.DepositAll` | ngrams.py:132-133 | adding a list of entries in turn; the first TypeError ends it |
| `Legacy.DepositAllFailed` | ngrams.py:132-133 | once a prefix of the list raises, the whole list does |
| `Legacy.DepositState` | ngrams.py:132-133 | the trie adding a list in turn leaves, raising or not: on success it is the `DepositAll` result |
| `Legacy.DepositStateAfterFail` | ngrams.py:132-133 | once a prefix of the list raises, the rest of the list changes nothing |
| `Legacy.DepositStateStops` | ngrams.py:132-133 | when entry k raises, the trie left is the one the entries before k built |
| `Legacy.DepositAllShaped` | ngrams.py:132-133 | on a trie without planted slots, adding a list never raises and equals nskipgrams.py's insertion of the list |
| `Legacy.FromSeqBuilt` | ngrams.py:131-133 | on a trie built by `add`, the windows of length m never raise and add c per window equal to the entry |
| `Legacy.FromSeqNext` | ngrams.py:131-133 | finishing one length extends the windows added to the next length |
| `Legacy.FromSeqFinished` | ngrams.py:131-133 | when every length took its windows, the tries left are the ones added |
| `Legacy.FromSeqStopped` | ngrams.py:131-133 | when a length raises, the shorter lengths keep their windows, it keeps the windows before the failing one, and the longer lengths are untouched |
| `Legacy.Lengths` | ngrams.py:90 | the lengths with a trie are exactly 1..order |
| `Legacy.Ngrams.Init` | ngrams.py:89-90 | one empty trie for each length 1..order |
| `Legacy.Ngrams.New` | ngrams.py:74-90 | raises ValueError exactly when order < 1 |
| `Legacy.Ngrams.Add` | ngrams.py:92-115 | ValueError, changing nothing, unless 1 <= len(g) <= order; TypeError, changing nothing, on a planted slot; otherwise the entry's trie is updated, and on a collection built by `add` this is the nskipgrams.py insertion |
| `Legacy.Ngrams.AddCounts` | ngrams.py:104-115 | a successful add raises the entry's count by c and leaves every other count as it was |
| `Legacy.Ngrams.Count` | ngrams.py:135-157 | 0 for an entry longer than order, KeyError for the empty entry, otherwise the stored count (0 when absent), and the trie of the entry's length is replaced by its planted form |
| `Legacy.Ngrams.Contains` | ngrams.py:159-174 | `bool(count(g))`, planting as `count` does |
| `Legacy.Ngrams.NgramsWithCounts` | ngrams.py:198-211 | KeyError for a length without a trie; AttributeError exactly when a level of its trie holds a count beside a planted slot; otherwise every stored entry of that length once with its count |
| `Legacy.Ngrams.TotalCount` | ngrams.py:176-196 | the same errors; otherwise the number of pairs listed when unique, the sum of their counts otherwise, the same for every listing order |
| `Legacy.Ngrams.AddFromSeq` | ngrams.py:117-133 | for every length 1..min(order, len(seq)) the trie becomes the one after adding every window of that length; the first TypeError ends it, leaving the earlier lengths and the earlier windows added (`FromSeqLeft`) |
| `Legacy.Ngrams.AddLengthFromSeq` | ngrams.py:132-133 | the windows of one length added in turn; raising or not, the trie is what they leave (`FromSeqState`) |
| `Legacy.Ngrams.AddWindows` | ngrams.py:132-133 | adding a list of windows in turn leaves the trie `DepositAll` gives, or TypeError exactly when that raises with the windows before the failing one added (`DepositState`) |
| `Legacy.Ngrams.AddWindow` | ngrams.py:133 | one window added after those before it; on TypeError nothing changes |
| `Legacy.CountThenAddFails` | ngrams.py:35-41 | on a loose trie, counting an absent entry and then adding it raises TypeError |
| `Legacy.CountThenAddAsWritten` | ngrams.py:150-157 | on a fresh `Ngrams`, `count(g)` then `add(g, c)` raises TypeError |
| `Legacy.ShapedFlattenable` | ngrams.py:14-27 | a trie without planted slots never mixes counts and tries on a level, so its listing never raises |
| `Legacy.FlattenLoose` | ngrams.py:15-27 | `_flatten_trie` on any loose trie: AttributeError exactly when some level it reaches mixes a count with a planted empty trie; otherwise every stored pair once, planted slots skipped |
| `Legacy.FlattenLooseChild` | ngrams.py:20-24 | one key: a count on a level of counts is listed, a trie below a level of tries is flattened under its token, a count on a level of tries raises |
| `Legacy.PlantedEmptyFlattenable` | ngrams.py:35-41 | the chain a lookup plants in a fresh trie lists to its end |
| `Legacy.FreshTotalCount` | ngrams.py:87-90 | on a fresh `Ngrams(order)`, every length 1..order lists nothing and `total_count` is 0, unique or not |
| `Legacy.CountThenList` | ngrams.py:14-41 | `count` of an absent entry on a fresh collection plants a lone empty slot, which the listing skips: nothing listed, total 0 |
| `Legacy.ListAfterCountAsWritten` | ngrams.py:14-41 | on `Ngrams(1)`, `add((a,), c)` then `count((b,))` with b != a, and `ngrams_with_counts(1)` raises AttributeError |
| `NSkipgrams.ListAfterCount` | nskipgrams.py:55-70 | the same calls on `Ngrams(1)` of nskipgrams.py list exactly ((a,), c) |
| `Trie.NothingStoredEnumerates` | nskipgrams.py:25-52 | a trie storing nothing has the empty listing as its only enumeration |
| `Trie.EmptyEnumerates` | nskipgrams.py:21-22 | `_trie()` lists nothing |
| `Trie.SingleEnumerates` | nskipgrams.py:25-52 | a trie storing one entry lists that one pair |

## Left out

- Version lookup (`importlib.metadata`, `pkg_resources`), packaging and the
  changelog test: not part of the counting core.
- Run-time type checks (`type(n) != int`, `isinstance` in `combine`) and,
  in nskipgrams.py, the `sum()` probe that tells a level of counts from a
  level of tries: Dafny's static types and the tagged node replace them (no
  level of a trie of nskipgrams.py mixes the two; for ngrams.py, where a
  lookup can make one, the probe is modelled by `Legacy.AllCounts`); `combine` arguments are the
  datatype `Arg` (a collection or anything else), which keeps the TypeError
  path. Non-integer bounds such as 1.5 have no counterpart.
- Generators are modelled as functions or methods returning the whole
  sequence; the validation of `skipgrams_from_seq` and
  `skipgrams_with_counts`, which Python runs at the first `next()`, is
  modelled as happening at the call.
- The iteration order of dicts: flattening takes the keys of a level in an
  unspecified order, and listings are specified as sets of pairs without
  repeated entries. The order of `skipgrams_from_seq` is kept exactly.
- In-place mutation of nested dicts: a stratum's trie is a value rebuilt on
  insertion and stored back into the `tries` map. Every node is owned by one
  trie, so no sharing is lost.
- `NSkipgrams.Skipgrams.Combine`: requires every operand to be distinct from
  the collection itself; `combine(self)` iterates a trie while adding to it.
- `NSkipgrams.Skipgrams.Combine`: models the widening of the docstring; the
  code's KeyError path for a wider operand (no stratum created) is modelled
  for one operand only, by `NSkipgrams.Skipgrams.CombineOneAsWritten`.
- The AttributeError of `ngrams_with_counts` is raised by the generator when
  it is consumed; the model raises it at the call.

## Findings

| source | as written | input that shows it | evidently intended | confidence | as-written member | corrected member |
|---|---|---|---|---|---|---|
| nskipgrams.py:268-277 | `combine` raises `self.n` and `self.skip` to the operand's but never creates the new strata, so `_add` into one of them raises KeyError | `Skipgrams(1).combine(g)` where `g = Skipgrams(2)` holds ("a", "b") | the docstring (nskipgrams.py:252-254): the collection widens and ("a", "b") then counts 1 | high; not executed | `NSkipgrams.WiderCombineAsWritten` | `NSkipgrams.WiderCombine` |
| ngrams.py:35-41 | lookup indexes the `defaultdict`, so `count` of an absent entry leaves an empty trie in its slot and a later `add` of it does `{} += count`, raising TypeError | `Ngrams(1)`: `count(("a",))`, then `add(("a",))` | a read-only lookup, as nskipgrams.py:55-70 does: the add succeeds and the entry counts 1 | high; not executed | `Legacy.CountThenAddAsWritten` | `NSkipgrams.CountThenAdd` |
| ngrams.py:14-32 | after a lookup plants an empty trie beside a stored count, `sum` over that level raises TypeError and `_flatten_trie` recurses into the count, whose `.values()` raises AttributeError | `Ngrams(1)`: `add(("a",))`, `count(("b",))`, then `list(ngrams_with_counts(1))` | the listing of the stored pairs, as nskipgrams.py gives with its read-only lookup: `[(("a",), 1)]` | high; not executed | `Legacy.ListAfterCountAsWritten` | `NSkipgrams.ListAfterCount` |

/**
 * ngrams.py, the older collection of contiguous n-grams: one trie per entry
 * length 1 .. order (`Ngrams`).
 *
 * Its lookup indexes the `defaultdict` tries directly, and indexing a
 * `defaultdict` creates the missing child, so `count` of an absent entry
 * adds empty branches along the entry's path (Plant); the slot of the last
 * token then holds an empty trie where a count would be. Tries are therefore
 * Loose here: the bottom slots hold a count or such a planted empty trie.
 * A trie built by `add` alone has no planted slot and is Shaped.
 */
module Legacy {
  import opened Wrappers
  import opened Trie
  import Windows

  /** d levels of branches whose bottom slots hold either a count or a planted empty trie. */
  ghost predicate Loose<T>(node: Node<T>, d: nat)
    decreases d
  {
    if d == 0 then node.Leaf? || node == Empty()
    else node.Branch? && forall t :: t in node.children ==> Loose(node.children[t], d - 1)
  }

  /** A trie without planted slots is loose as well. */
  lemma {:induction false} ShapedLoose<T>(node: Node<T>, d: nat)
    requires Shaped(node, d)
    ensures Loose(node, d)
    decreases d
  {
    if d > 0 {
      forall t | t in node.children
        ensures Loose(node.children[t], d - 1)
      {
        ShapedLoose(node.children[t], d - 1);
      }
    }
  }

  // ----------------------------------------------------------------------
  // Lookup through a defaultdict
  // ----------------------------------------------------------------------

  /**
   * The trie after `_get_inner_trie_from_prefix(trie, p)` on a `defaultdict`:
   * every token of p that is missing is given an empty trie. The lookup ends
   * on the count of p when p is stored and on an empty trie otherwise.
   */
  function Plant<T>(node: Node<T>, p: seq<T>): (r: Node<T>)
    requires Loose(node, |p|)
    ensures Loose(r, |p|)
    ensures Descend(r, p) == Some(if Get(node, p).Some? then Leaf(Get(node, p).value) else Empty())
    decreases |p|
  {
    if p == [] then node
    else
      var m := node.children;
      var child := if p[0] in m then m[p[0]] else Empty();
      EmptyStoresNothing(p[1..]);
      var r := Branch(m[p[0] := Plant(child, p[1..])]);
      assert Descend(r, p) == Descend(Plant(child, p[1..]), p[1..]);
      r
  }

  /** Planting changes no count: every entry is stored with the same count as before. */
  lemma {:induction false} PlantKeepsCounts<T>(node: Node<T>, p: seq<T>, x: seq<T>)
    requires Loose(node, |p|)
    ensures Get(Plant(node, p), x) == Get(node, x)
    decreases |p|
  {
    if p != [] && x != [] {
      var m := node.children;
      GetStep(Plant(node, p), x);
      GetStep(node, x);
      if x[0] == p[0] {
        var child := if p[0] in m then m[p[0]] else Empty();
        EmptyStoresNothing(x[1..]);
        PlantKeepsCounts(child, p[1..], x[1..]);
      }
    }
  }

  /** Looking up an entry that is stored changes nothing. */
  lemma {:induction false} PlantStored<T>(node: Node<T>, p: seq<T>)
    requires Loose(node, |p|) && Get(node, p).Some?
    ensures Plant(node, p) == node
    decreases |p|
  {
    if p != [] {
      var m := node.children;
      GetStep(node, p);
      PlantStored(m[p[0]], p[1..]);
      assert m[p[0] := m[p[0]]] == m;
    }
  }

  // ----------------------------------------------------------------------
  // Insertion
  // ----------------------------------------------------------------------

  /**
   * `add(ngram, count)` on the trie of the entry's length: the walk over all
   * but the last token creates missing branches; the slot of the last token
   * gets c added when present and is set to c otherwise. Adding c to a
   * planted empty trie (`{} += count`) raises TypeError.
   */
  function Deposit<T>(node: Node<T>, e: seq<T>, c: int): (r: Result<Node<T>>)
    requires 1 <= |e| && Loose(node, |e|)
    ensures r.Err? <==> Descend(node, e) == Some(Empty())
    ensures r.Err? ==> r.error == TypeError
    ensures r.Ok? ==> Loose(r.value, |e|) && Get(r.value, e) == Some(Value(node, e) + c)
    decreases |e|
  {
    var m := node.children;
    if |e| == 1 then
      assert e[1..] == [];
      assert Descend(node, e) == if e[0] in m then Some(m[e[0]]) else None;
      if e[0] in m && m[e[0]].Branch? then Err(TypeError)
      else
        var r := Branch(m[e[0] := Leaf(if e[0] in m then m[e[0]].count + c else c)]);
        assert Descend(r, e) == Descend(r.children[e[0]], e[1..]);
        Ok(r)
    else
      var child := if e[0] in m then m[e[0]] else Empty();
      EmptyStoresNothing(e[1..]);
      assert Descend(node, e) == if e[0] in m then Descend(child, e[1..]) else None;
      assert Descend(Empty<T>(), e[1..]) == None;
      match Deposit(child, e[1..], c)
      case Err(x) => Err(x)
      case Ok(inner) =>
        var r := Branch(m[e[0] := inner]);
        assert Descend(r, e) == Descend(inner, e[1..]);
        Ok(r)
  }

  /** A successful `add` of e leaves every other entry's count as it was. */
  lemma {:induction false} DepositOthers<T>(node: Node<T>, e: seq<T>, c: int, x: seq<T>)
    requires 1 <= |e| && Loose(node, |e|) && Deposit(node, e, c).Ok? && x != e
    ensures Get(Deposit(node, e, c).value, x) == Get(node, x)
    decreases |e|, 1
  {
    if x != [] {
      GetStep(Deposit(node, e, c).value, x);
      GetStep(node, x);
      if x[0] == e[0] {
        DepositOthersBelow(node, e, c, x);
      }
    }
  }

  /** The case of DepositOthers where x and e share their first token. */
  lemma {:induction false} DepositOthersBelow<T>(node: Node<T>, e: seq<T>, c: int, x: seq<T>)
    requires 1 <= |e| && Loose(node, |e|) && Deposit(node, e, c).Ok? && x != e && |x| >= 1 && x[0] == e[0]
    ensures Get(Deposit(node, e, c).value.children[e[0]], x[1..]) == Get(node, x)
    decreases |e|, 0
  {
    var m := node.children;
    GetStep(node, x);
    assert x == [x[0]] + x[1..] && e == [e[0]] + e[1..];
    if |e| == 1 {
      assert x[1..] != [];
    } else {
      var child := if e[0] in m then m[e[0]] else Empty();
      EmptyStoresNothing(x[1..]);
      DepositOthers(child, e[1..], c, x[1..]);
    }
  }

  /** On a trie without planted slots, `add` of ngrams.py is the `_add` of nskipgrams.py. */
  lemma {:induction false} DepositIsInsert<T>(node: Node<T>, e: seq<T>, c: int)
    requires 1 <= |e| && Loose(node, |e|) && Shaped(node, |e|)
    ensures Deposit(node, e, c) == Ok(Insert(node, e, c))
    decreases |e|
  {
    if |e| > 1 {
      var m := node.children;
      var child := if e[0] in m then m[e[0]] else Empty();
      DepositIsInsert(child, e[1..], c);
    }
  }

  /** `add` of every entry in turn with count c; the first TypeError ends it. */
  function DepositAll<T>(node: Node<T>, d: nat, entries: seq<seq<T>>, c: int): (r: Result<Node<T>>)
    requires 1 <= d && Loose(node, d) && forall i :: 0 <= i < |entries| ==> |entries[i]| == d
    ensures r.Ok? ==> Loose(r.value, d)
    ensures r.Err? ==> r.error == TypeError
    decreases |entries|
  {
    if entries == [] then Ok(node)
    else
      match DepositAll(node, d, entries[..|entries| - 1], c)
      case Err(x) => Err(x)
      case Ok(prev) => Deposit(prev, entries[|entries| - 1], c)
  }

  /** Once a prefix of the entries raises, the whole list does. */
  lemma {:induction false} DepositAllFailed<T>(node: Node<T>, d: nat, entries: seq<seq<T>>, c: int, k: int)
    requires 1 <= d && Loose(node, d) && forall i :: 0 <= i < |entries| ==> |entries[i]| == d
    requires 0 <= k <= |entries| && DepositAll(node, d, entries[..k], c).Err?
    ensures DepositAll(node, d, entries, c).Err?
    decreases |entries|
  {
    if k < |entries| {
      var init := entries[..|entries| - 1];
      assert init[..k] == entries[..k];
      DepositAllFailed(node, d, init, c, k);
    } else {
      assert entries[..k] == entries;
    }
  }

  /** On a trie without planted slots, adding a list never raises and is nskipgrams.py's InsertAll. */
  lemma {:induction false} DepositAllShaped<T>(node: Node<T>, d: nat, entries: seq<seq<T>>, c: int)
    requires 1 <= d && Loose(node, d) && Shaped(node, d) && forall i :: 0 <= i < |entries| ==> |entries[i]| == d
    ensures forall i :: 0 <= i < |entries| ==> |WithCount(entries, c)[i].0| == d
    ensures DepositAll(node, d, entries, c) == Ok(InsertAll(node, d, WithCount(entries, c)))
    decreases |entries|
  {
    var pairs := WithCount(entries, c);
    forall i | 0 <= i < |entries|
      ensures |pairs[i].0| == d
    {
      assert pairs[i].0 == EntriesOf(pairs)[i];
    }
    if entries != [] {
      var init := entries[..|entries| - 1];
      var last := entries[|entries| - 1];
      DepositAllShaped(node, d, init, c);
      assert pairs[..|entries| - 1] == WithCount(init, c) by {
        assert EntriesOf(pairs[..|entries| - 1]) == EntriesOf(pairs)[..|entries| - 1];
      }
      assert pairs[|entries| - 1] == (last, c) by {
        assert EntriesOf(pairs)[|entries| - 1] == last;
      }
      var prev := InsertAll(node, d, WithCount(init, c));
      ShapedLoose(prev, d);
      DepositIsInsert(prev, last, c);
    }
  }

  /**
   * The trie `add` of every entry in turn leaves behind, raising or not: the
   * adds before the first TypeError stay in place, and the one that raises
   * changes nothing.
   */
  function DepositState<T>(node: Node<T>, d: nat, entries: seq<seq<T>>, c: int): (r: Node<T>)
    requires 1 <= d && Loose(node, d) && forall i :: 0 <= i < |entries| ==> |entries[i]| == d
    ensures Loose(r, d)
    ensures DepositAll(node, d, entries, c).Ok? ==> r == DepositAll(node, d, entries, c).value
    decreases |entries|
  {
    if entries == [] then node
    else
      var prev := DepositState(node, d, entries[..|entries| - 1], c);
      if DepositAll(node, d, entries[..|entries| - 1], c).Err? then prev
      else
        match Deposit(prev, entries[|entries| - 1], c)
        case Err(_) => prev
        case Ok(next) => next
  }

  /** Once a prefix of the entries raises, nothing after it changes the trie. */
  lemma {:induction false} DepositStateAfterFail<T>(node: Node<T>, d: nat, entries: seq<seq<T>>, c: int, k: int)
    requires 1 <= d && Loose(node, d) && forall i :: 0 <= i < |entries| ==> |entries[i]| == d
    requires 0 <= k <= |entries| && DepositAll(node, d, entries[..k], c).Err?
    ensures DepositState(node, d, entries, c) == DepositState(node, d, entries[..k], c)
    decreases |entries|
  {
    if k < |entries| {
      var init := entries[..|entries| - 1];
      assert init[..k] == entries[..k];
      DepositStateAfterFail(node, d, init, c, k);
      DepositAllFailed(node, d, init, c, k);
    } else {
      assert entries[..k] == entries;
    }
  }

  /**
   * When the entries before k are added as t and entry k raises, the trie
   * left behind is t: every entry before the failing one is added.
   */
  lemma {:induction false} DepositStateStops<T>(node: Node<T>, d: nat, entries: seq<seq<T>>, c: int, k: int, t: Node<T>)
    requires 1 <= d && Loose(node, d) && forall i :: 0 <= i < |entries| ==> |entries[i]| == d
    requires 0 <= k < |entries| && DepositAll(node, d, entries[..k], c) == Ok(t)
    requires DepositAll(node, d, entries[..k + 1], c).Err?
    ensures DepositState(node, d, entries, c) == t
  {
    assert entries[..k + 1][..k] == entries[..k];
    DepositStateAfterFail(node, d, entries, c, k + 1);
  }

  // ----------------------------------------------------------------------
  // add_from_seq
  // ----------------------------------------------------------------------

  /** The trie of length m after `add` of every window of `ngrams_from_seq(s, m)` with count c. */
  ghost function FromSeqStratum<T>(before: Node<T>, m: int, s: seq<T>, c: int): Result<Node<T>>
    requires 1 <= m && Loose(before, m)
  {
    DepositAll(before, m, Windows.NgramsFromSeq(s, m), c)
  }

  /**
   * On a trie without planted slots, `add_from_seq` on length m never raises,
   * keeps the trie free of planted slots and adds c for every window of s
   * that equals x.
   */
  lemma {:induction false} FromSeqBuilt<T>(before: Node<T>, m: int, s: seq<T>, c: int, x: seq<T>)
    requires 1 <= m && Loose(before, m) && Shaped(before, m)
    ensures FromSeqStratum(before, m, s, c).Ok?
    ensures Shaped(FromSeqStratum(before, m, s, c).value, m)
    ensures Value(FromSeqStratum(before, m, s, c).value, x) == Value(before, x) + c * multiset(Windows.NgramsFromSeq(s, m))[x]
  {
    var grams := Windows.NgramsFromSeq(s, m);
    DepositAllShaped(before, m, grams, c);
    InsertAllCounts(before, m, WithCount(grams, c), x);
    SumForWithCount(grams, c, x);
  }

  /** Every window of length m has length m. */
  lemma WindowLengths<T>(s: seq<T>, m: int)
    ensures forall i :: 0 <= i < |Windows.NgramsFromSeq(s, m)| ==> |Windows.NgramsFromSeq(s, m)[i]| == m
  {
  }

  /** Every length 1 .. M - 1 of before takes the windows of s without raising. */
  ghost predicate FromSeqOk<T>(before: map<int, Node<T>>, s: seq<T>, c: int, M: int)
  {
    forall j :: j in before && 1 <= j < M && Loose(before[j], j) ==> FromSeqStratum(before[j], j, s, c).Ok?
  }

  /** now is before with the windows of s of every length 1 .. M - 1 added, and nothing else changed. */
  ghost predicate FromSeqBelow<T>(now: map<int, Node<T>>, before: map<int, Node<T>>, s: seq<T>, c: int, M: int)
  {
    && now.Keys == before.Keys
    && (forall j :: j in before && 1 <= j < M && Loose(before[j], j) ==>
          FromSeqStratum(before[j], j, s, c).Ok? && now[j] == FromSeqStratum(before[j], j, s, c).value)
    && (forall j :: j in before && !(1 <= j < M) ==> now[j] == before[j])
  }

  /** Finishing length M extends both predicates to M + 1. */
  lemma {:induction false} FromSeqNext<T>(now: map<int, Node<T>>, before: map<int, Node<T>>, s: seq<T>, c: int, M: int, next: map<int, Node<T>>)
    requires 1 <= M && M in before && Loose(before[M], M) && FromSeqStratum(before[M], M, s, c).Ok?
    requires FromSeqOk(before, s, c, M) && FromSeqBelow(now, before, s, c, M)
    requires next == now[M := FromSeqStratum(before[M], M, s, c).value]
    ensures FromSeqOk(before, s, c, M + 1) && FromSeqBelow(next, before, s, c, M + 1)
  {
    forall j | j in before && 1 <= j < M + 1 && Loose(before[j], j)
      ensures FromSeqStratum(before[j], j, s, c).Ok? && next[j] == FromSeqStratum(before[j], j, s, c).value
    {
      if j < M {
        assert next[j] == now[j];
      }
    }
    forall j | j in before && !(1 <= j < M + 1)
      ensures next[j] == before[j]
    {
      assert next[j] == now[j];
    }
  }

  /** The trie of length m that `add` of the windows of s leaves behind, raising or not. */
  ghost function FromSeqState<T>(before: Node<T>, m: int, s: seq<T>, c: int): Node<T>
    requires 1 <= m && Loose(before, m)
  {
    DepositState(before, m, Windows.NgramsFromSeq(s, m), c)
  }

  /**
   * The tries `add_from_seq` leaves behind, raising or not: each length
   * 1 .. M - 1 that the loop reaches (all shorter lengths took their windows)
   * holds what its windows left, the lengths after the one that raised are as
   * they were, and so is every other length.
   */
  ghost predicate FromSeqLeft<T>(now: map<int, Node<T>>, before: map<int, Node<T>>, s: seq<T>, c: int, M: int)
  {
    && now.Keys == before.Keys
    && (forall j :: j in before && 1 <= j < M && Loose(before[j], j) ==>
          now[j] == if FromSeqOk(before, s, c, j) then FromSeqState(before[j], j, s, c) else before[j])
    && (forall j :: j in before && !(1 <= j < M) ==> now[j] == before[j])
  }

  /** After every length 1 .. M - 1 took its windows, the tries left are the ones added. */
  lemma {:induction false} FromSeqFinished<T>(now: map<int, Node<T>>, before: map<int, Node<T>>, s: seq<T>, c: int, M: int)
    requires FromSeqOk(before, s, c, M) && FromSeqBelow(now, before, s, c, M)
    ensures FromSeqLeft(now, before, s, c, M)
  {
    forall j | j in before && 1 <= j < M && Loose(before[j], j)
      ensures FromSeqOk(before, s, c, j) && now[j] == FromSeqState(before[j], j, s, c)
    {
    }
  }

  /**
   * When length M raises after every shorter length took its windows, the
   * shorter lengths keep what they added, length M keeps the windows before
   * the failing one, and the longer lengths are untouched.
   */
  lemma {:induction false} FromSeqStopped<T>(now: map<int, Node<T>>, before: map<int, Node<T>>, s: seq<T>, c: int, M: int, top: int,
                                             next: map<int, Node<T>>)
    requires 1 <= M < top && M in before && Loose(before[M], M) && FromSeqStratum(before[M], M, s, c).Err?
    requires FromSeqOk(before, s, c, M) && FromSeqBelow(now, before, s, c, M)
    requires next == now[M := FromSeqState(before[M], M, s, c)]
    ensures FromSeqLeft(next, before, s, c, top)
  {
    forall j | j in before && 1 <= j < top && Loose(before[j], j)
      ensures next[j] == if FromSeqOk(before, s, c, j) then FromSeqState(before[j], j, s, c) else before[j]
    {
      if j < M {
        assert next[j] == now[j];
      } else if j > M {
        assert !FromSeqOk(before, s, c, j);
        assert next[j] == now[j];
      }
    }
    forall j | j in before && !(1 <= j < top)
      ensures next[j] == before[j]
    {
      assert next[j] == now[j];
    }
  }

  // ----------------------------------------------------------------------
  // Listing a loose trie
  // ----------------------------------------------------------------------

  /**
   * `_flatten_trie` runs to its end on node: at every level it reaches, the
   * values are either all counts (`sum` succeeds and the items are listed)
   * or all tries (`sum` raises TypeError and each one is flattened in turn).
   * A level holding a count beside a planted empty trie sends the loop into
   * the count, whose `.values()` raises AttributeError.
   */
  ghost predicate Flattenable<T>(node: Node<T>, d: nat)
    decreases d, 1
  {
    node.Branch? ==> AllCounts(node) || TriesBelow(node, d, node.children.Keys)
  }

  /** Every value of the branch is a count: `sum(trie_.values())` succeeds. */
  ghost predicate AllCounts<T>(node: Node<T>)
    requires node.Branch?
  {
    forall t :: t in node.children ==> node.children[t].Leaf?
  }

  /** The children under the tokens ks are tries that flatten to their end. */
  ghost predicate TriesBelow<T>(node: Node<T>, d: nat, ks: set<T>)
    requires node.Branch?
    decreases d, 0
  {
    forall t :: t in ks ==> t in node.children && node.children[t].Branch? && d >= 1 && Flattenable(node.children[t], d - 1)
  }

  /** A trie without planted slots never mixes counts and tries on one level. */
  lemma {:induction false} ShapedFlattenable<T>(node: Node<T>, d: nat)
    requires Shaped(node, d)
    ensures Flattenable(node, d)
    decreases d
  {
    if d >= 2 {
      forall t | t in node.children
        ensures node.children[t].Branch? && Flattenable(node.children[t], d - 1)
      {
        ShapedFlattenable(node.children[t], d - 1);
      }
      assert TriesBelow(node, d, node.children.Keys);
    }
  }

  /**
   * `_flatten_trie` on a loose trie, listing (path, count) pairs: the items of
   * a level of counts, or the token in front of everything below each child
   * of a level of tries; AttributeError when a level mixes the two.
   */
  method FlattenLoose<T(!new)>(node: Node<T>, d: nat) returns (r: Result<seq<(seq<T>, int)>>)
    requires Loose(node, d) && node.Branch?
    ensures r.Ok? <==> Flattenable(node, d)
    ensures r.Ok? ==> Enumerates(node, r.value)
    ensures r.Err? ==> r.error == AttributeError
    decreases d, 1
  {
    var m := node.children;
    var summable := forall t | t in m :: m[t].Leaf?;
    assert summable == AllCounts(node);
    var keys := m.Keys;
    ghost var done: set<T> := {};
    var pairs: seq<(seq<T>, int)> := [];
    while keys != {}
      invariant FlattenProgress(node, d, summable, keys, done, pairs)
      decreases |keys|
    {
      var t :| t in keys;
      var block := FlattenLooseChild(node, d, t, summable);
      if block.Err? {
        FlattenFails(node, d, t);
        return Err(AttributeError);
      }
      FlattenStep(node, d, summable, keys, done, pairs, t, block.value);
      pairs := pairs + block.value;
      done := done + {t};
      keys := keys - {t};
    }
    FlattenDone(node, d, summable, done, pairs);
    return Ok(pairs);
  }

  /** The invariant of the loop of FlattenLoose: done listed, keys still to come. */
  ghost predicate FlattenProgress<T(!new)>(node: Node<T>, d: nat, summable: bool, keys: set<T>, done: set<T>, pairs: seq<(seq<T>, int)>)
    requires node.Branch?
  {
    && done <= node.children.Keys && keys == node.children.Keys - done
    && EnumeratesUnder(node, done, pairs)
    && (!summable ==> TriesBelow(node, d, done))
  }

  /** A child that is neither on a level of counts nor a trie that flattens stops the whole listing. */
  lemma {:induction false} FlattenFails<T>(node: Node<T>, d: nat, t: T)
    requires node.Branch? && t in node.children && !(AllCounts(node) || TriesBelow(node, d, {t}))
    ensures !Flattenable(node, d)
  {
  }

  /** With no key left, the invariant of FlattenLoose is its postcondition. */
  lemma {:induction false} FlattenDone<T(!new)>(node: Node<T>, d: nat, summable: bool, done: set<T>, pairs: seq<(seq<T>, int)>)
    requires node.Branch? && summable == AllCounts(node) && FlattenProgress(node, d, summable, {}, done, pairs)
    ensures Flattenable(node, d) && Enumerates(node, pairs)
  {
    forall k | k in node.children.Keys
      ensures k in done
    {
      assert k !in node.children.Keys - done;
    }
    assert done == node.children.Keys;
    UnderAll(node, pairs);
  }

  /** One turn of the loop of FlattenLoose keeps its invariant. */
  lemma {:induction false} FlattenStep<T(!new)>(node: Node<T>, d: nat, summable: bool, keys: set<T>, done: set<T>,
                                               pairs: seq<(seq<T>, int)>, t: T, block: seq<(seq<T>, int)>)
    requires node.Branch? && FlattenProgress(node, d, summable, keys, done, pairs) && t in keys
    requires EnumeratesFrom(node, [t], block) && (summable || TriesBelow(node, d, {t}))
    ensures FlattenProgress(node, d, summable, keys - {t}, done + {t}, pairs + block)
  {
    JoinBlock(node, pairs, done, t, block);
  }

  /**
   * One item of the loop of `_flatten_trie`: a count on a level of counts is
   * listed; a trie on a level of tries is flattened below its token; a count
   * on a level of tries raises AttributeError.
   */
  method FlattenLooseChild<T(!new)>(node: Node<T>, d: nat, t: T, summable: bool) returns (r: Result<seq<(seq<T>, int)>>)
    requires Loose(node, d) && node.Branch? && t in node.children
    requires summable == AllCounts(node)
    ensures r.Ok? <==> summable || TriesBelow(node, d, {t})
    ensures r.Ok? ==> EnumeratesFrom(node, [t], r.value)
    ensures r.Err? ==> r.error == AttributeError
    decreases d, 0
  {
    var child := node.children[t];
    assert Descend(node, [t]) == Descend(child, []);
    if summable {
      LeafEnumerates(node, [t], child.count);
      return Ok([([t], child.count)]);
    }
    if child.Leaf? {
      return Err(AttributeError);
    }
    assert d >= 1;
    var inner := FlattenLoose(child, d - 1);
    if inner.Err? {
      return Err(AttributeError);
    }
    PrependPathEnumerates(node, [t], child, inner.value);
    return Ok(PrependPath([t], inner.value));
  }

  /** The trie a lookup plants in a fresh trie, a chain of branches ending on an empty one, lists to its end. */
  lemma {:induction false} PlantedEmptyFlattenable<T>(p: seq<T>)
    ensures Plant(Empty<T>(), p).Branch? && Flattenable(Plant(Empty<T>(), p), |p|)
    decreases |p|
  {
    if p != [] {
      PlantedEmptyFlattenable(p[1..]);
      var node := Plant(Empty<T>(), p);
      assert node.children == map[p[0] := Plant(Empty<T>(), p[1..])];
      assert TriesBelow(node, |p|, node.children.Keys);
    }
  }

  // ----------------------------------------------------------------------
  // The collection
  // ----------------------------------------------------------------------

  /** The entry lengths that have a trie: 1 .. order. */
  function Lengths(order: int): (r: set<int>)
    ensures forall m :: m in r <==> 1 <= m <= order
    decreases order
  {
    if order < 1 then {} else Lengths(order - 1) + {order}
  }

  /** `Ngrams(order)`: one trie for every entry length 1 .. order. */
  class Ngrams<T(==,!new)> {
    var order: int
    var tries: map<int, Node<T>>

    ghost predicate Valid()
      reads this
    {
      && order >= 1
      && (forall m :: m in tries <==> 1 <= m <= order)
      && (forall m :: m in tries ==> Loose(tries[m], m))
    }

    /** No trie has a planted slot: the collection was built by `add` alone. */
    ghost predicate Built()
      reads this
    {
      forall m :: m in tries ==> Shaped(tries[m], m)
    }

    /** The body of `__init__` once order is validated: every trie empty. */
    constructor Init(order: int)
      requires order >= 1
      ensures Valid() && Built() && this.order == order
      ensures forall m :: m in tries ==> tries[m] == Empty()
    {
      this.order := order;
      tries := map m | m in Lengths(order) :: Empty();
      new;
      forall m | m in tries
        ensures Shaped(tries[m], m) && Loose(tries[m], m)
      {
        assert tries[m] == Empty();
      }
    }

    /** `Ngrams(order)`: an order below 1 raises ValueError. */
    static method New(order: int) returns (r: Result<Ngrams<T>>)
      ensures r.Err? <==> order < 1
      ensures r.Err? ==> r.error == ValueError
      ensures r.Ok? ==> fresh(r.value) && r.value.Valid() && r.value.Built() && r.value.order == order
      ensures r.Ok? ==> forall m :: m in r.value.tries ==> r.value.tries[m] == Empty()
    {
      if order < 1 {
        return Err(ValueError);
      }
      var g := new Ngrams.Init(order);
      return Ok(g);
    }

    /**
     * `add(ngram, count)`: the length is checked before any change; adding to
     * a slot that an earlier `count` planted raises TypeError and changes
     * nothing.
     */
    method Add(e: seq<T>, c: int) returns (o: Outcome)
      requires Valid()
      modifies this
      ensures Valid() && order == old(order)
      ensures o == Fail(ValueError) <==> !(1 <= |e| <= order)
      ensures o == Fail(TypeError) <==> 1 <= |e| <= order && Descend(old(tries)[|e|], e) == Some(Empty())
      ensures o.Pass? <==> 1 <= |e| <= order && Descend(old(tries)[|e|], e) != Some(Empty())
      ensures o.Fail? ==> tries == old(tries)
      ensures o.Pass? ==> tries == old(tries)[|e| := Deposit(old(tries)[|e|], e, c).value]
      ensures old(Built()) && 1 <= |e| <= order ==> o.Pass? && tries == old(tries)[|e| := Insert(old(tries)[|e|], e, c)] && Built()
    {
      if !(1 <= |e| <= order) {
        return Fail(ValueError);
      }
      if Built() {
        DepositIsInsert(tries[|e|], e, c);
      }
      var r := Deposit(tries[|e|], e, c);
      if r.Err? {
        return Fail(r.error);
      }
      tries := tries[|e| := r.value];
      return Pass;
    }

    /** A successful `add` of e grows its count by c and leaves every other count as it was. */
    lemma {:induction false} AddCounts(e: seq<T>, c: int, x: seq<T>, after: map<int, Node<T>>)
      requires Valid() && 1 <= |e| <= order && Deposit(tries[|e|], e, c).Ok?
      requires after == tries[|e| := Deposit(tries[|e|], e, c).value]
      ensures 1 <= |x| <= order ==> Value(after[|x|], x) == Value(tries[|x|], x) + (if x == e then c else 0)
    {
      if x != e && |x| == |e| {
        DepositOthers(tries[|e|], e, c, x);
      }
    }

    /**
     * `count(ngram)`: an entry longer than order counts 0 and the empty entry
     * has no trie (KeyError). Otherwise the lookup plants the entry's path and
     * reports the stored count, or 0 where it ends on an empty trie.
     */
    method Count(e: seq<T>) returns (r: Result<int>)
      requires Valid()
      modifies this
      ensures Valid() && order == old(order)
      ensures |e| > order ==> r == Ok(0) && tries == old(tries)
      ensures |e| == 0 ==> r == Err(KeyError) && tries == old(tries)
      ensures 1 <= |e| <= order ==> r == Ok(Value(old(tries)[|e|], e)) && tries == old(tries)[|e| := Plant(old(tries)[|e|], e)]
    {
      if |e| > order {
        return Ok(0);
      }
      if |e| !in tries {
        return Err(KeyError);
      }
      var planted := Plant(tries[|e|], e);
      tries := tries[|e| := planted];
      var inner := GetInnerTrie(planted, e);
      if inner.Some? && inner.value.Leaf? && inner.value.count != 0 {
        r := Ok(inner.value.count);
      } else {
        r := Ok(0);
      }
    }

    /** `__contains__`: `bool(count(ngram))`, planting as `count` does. */
    method Contains(e: seq<T>) returns (r: Result<bool>)
      requires Valid()
      modifies this
      ensures Valid() && order == old(order)
      ensures r.Err? <==> |e| == 0
      ensures r.Err? ==> r.error == KeyError
      ensures r.Ok? ==> (r.value <==> 1 <= |e| <= order && Value(old(tries)[|e|], e) != 0)
      ensures 1 <= |e| <= order ==> tries == old(tries)[|e| := Plant(old(tries)[|e|], e)]
      ensures !(1 <= |e| <= order) ==> tries == old(tries)
    {
      var c := Count(e);
      if c.Err? {
        return Err(c.error);
      }
      return Ok(c.value != 0);
    }

    /**
     * `ngrams_with_counts(order)`: every stored pair of the trie of length m,
     * each entry once; a length without a trie raises KeyError, and a trie
     * where a count shares a level with a planted slot raises AttributeError
     * once the listing is consumed.
     */
    method NgramsWithCounts(m: int) returns (r: Result<seq<(seq<T>, int)>>)
      requires Valid()
      ensures r.Err? <==> !(1 <= m <= order) || !Flattenable(tries[m], m)
      ensures r.Err? ==> r.error == if 1 <= m <= order then AttributeError else KeyError
      ensures r.Ok? ==> Enumerates(tries[m], r.value)
    {
      if m !in tries {
        return Err(KeyError);
      }
      r := FlattenLoose(tries[m], m);
    }

    /**
     * `total_count(order, unique)`: the number of stored entries of length m
     * when unique, otherwise the sum of their counts; the same for every
     * enumeration of the trie.
     */
    method TotalCount(m: int, unique: bool) returns (r: Result<int>)
      requires Valid()
      ensures r.Err? <==> !(1 <= m <= order) || !Flattenable(tries[m], m)
      ensures r.Err? ==> r.error == if 1 <= m <= order then AttributeError else KeyError
      ensures r.Ok? ==> forall pairs :: Enumerates(tries[m], pairs) ==> r.value == if unique then |pairs| else SumCounts(pairs)
    {
      var listed := NgramsWithCounts(m);
      if listed.Err? {
        return Err(listed.error);
      }
      forall pairs | Enumerates(tries[m], pairs)
        ensures |listed.value| == |pairs| && SumCounts(listed.value) == SumCounts(pairs)
      {
        EnumerationsAgree(tries[m], listed.value, pairs);
      }
      if unique {
        r := Ok(|listed.value|);
      } else {
        r := Ok(SumCounts(listed.value));
      }
    }

    /**
     * `add_from_seq(seq, count)`: `add` of every window of every length
     * 1 .. min(order, len(seq)), length by length; the first TypeError ends it.
     */
    method AddFromSeq(s: seq<T>, c: int) returns (o: Outcome)
      requires Valid()
      modifies this
      ensures Valid() && order == old(order)
      ensures o.Pass? <==> FromSeqOk(old(tries), s, c, Min(order, |s|) + 1)
      ensures o.Fail? ==> o.error == TypeError
      ensures o.Pass? ==> FromSeqBelow(tries, old(tries), s, c, Min(order, |s|) + 1)
      ensures FromSeqLeft(tries, old(tries), s, c, Min(order, |s|) + 1)
    {
      ghost var before := tries;
      var top := Min(order, |s|);
      var m := 1;
      while m <= top
        invariant 1 <= m <= top + 1
        invariant Valid() && order == old(order)
        invariant FromSeqOk(before, s, c, m) && FromSeqBelow(tries, before, s, c, m)
      {
        ghost var prev := tries;
        o := AddLengthFromSeq(s, m, c, before[m]);
        if o.Fail? {
          FromSeqStopped(prev, before, s, c, m, top + 1, tries);
          return;
        }
        FromSeqNext(prev, before, s, c, m, tries);
        m := m + 1;
      }
      FromSeqFinished(tries, before, s, c, m);
      return Pass;
    }

    /** The inner loop of `add_from_seq`: `add` of every window of length m in turn. */
    method AddLengthFromSeq(s: seq<T>, m: int, c: int, ghost before: Node<T>) returns (o: Outcome)
      requires Valid() && 1 <= m <= order && m <= |s| && tries[m] == before
      modifies this
      ensures Valid() && order == old(order) && m in tries && tries == old(tries)[m := tries[m]]
      ensures o.Pass? <==> FromSeqStratum(before, m, s, c).Ok?
      ensures o.Pass? ==> tries[m] == FromSeqStratum(before, m, s, c).value
      ensures o.Fail? ==> o.error == TypeError
      ensures tries[m] == FromSeqState(before, m, s, c)
    {
      var grams := Windows.NgramsFromSeq(s, m);
      WindowLengths(s, m);
      o := AddWindows(grams, m, c, before);
    }

    /** `add` of every entry of grams in turn; the first TypeError ends it. */
    method AddWindows(grams: seq<seq<T>>, m: int, c: int, ghost before: Node<T>) returns (o: Outcome)
      requires Valid() && 1 <= m <= order && tries[m] == before
      requires forall i :: 0 <= i < |grams| ==> |grams[i]| == m
      modifies this
      ensures Valid() && order == old(order) && m in tries && tries == old(tries)[m := tries[m]]
      ensures o.Pass? <==> DepositAll(before, m, grams, c).Ok?
      ensures o.Pass? ==> tries[m] == DepositAll(before, m, grams, c).value
      ensures o.Fail? ==> o.error == TypeError
      ensures tries[m] == DepositState(before, m, grams, c)
    {
      assert grams[..0] == [];
      var j := 0;
      while j < |grams|
        invariant 0 <= j <= |grams|
        invariant Valid() && order == old(order) && m in tries && tries == old(tries)[m := tries[m]]
        invariant Loose(before, m) && DepositAll(before, m, grams[..j], c) == Ok(tries[m])
      {
        ghost var added := tries[m];
        o := AddWindow(grams, j, m, c, before);
        if o.Fail? {
          DepositStateStops(before, m, grams, c, j, added);
          return;
        }
        j := j + 1;
      }
      assert grams[..j] == grams;
      return Pass;
    }

    /** One `add` of the inner loop of `add_from_seq`: the window grams[j], after those before it. */
    method AddWindow(grams: seq<seq<T>>, j: int, m: int, c: int, ghost before: Node<T>) returns (o: Outcome)
      requires Valid() && 1 <= m <= order && 0 <= j < |grams| && Loose(before, m)
      requires forall i :: 0 <= i < |grams| ==> |grams[i]| == m
      requires DepositAll(before, m, grams[..j], c) == Ok(tries[m])
      modifies this
      ensures Valid() && order == old(order) && m in tries && tries == old(tries)[m := tries[m]]
      ensures o.Pass? ==> DepositAll(before, m, grams[..j + 1], c) == Ok(tries[m])
      ensures o.Fail? ==> o.error == TypeError && DepositAll(before, m, grams, c).Err?
      ensures o.Fail? ==> tries == old(tries) && DepositAll(before, m, grams[..j + 1], c).Err?
    {
      assert grams[..j + 1][..j] == grams[..j] && grams[..j + 1][j] == grams[j];
      o := Add(grams[j], c);
      if o.Fail? {
        DepositAllFailed(before, m, grams, c, j + 1);
      }
    }
  }

  // ----------------------------------------------------------------------
  // Counting, then adding
  // ----------------------------------------------------------------------

  /**
   * In a loose trie, `count` of an absent entry followed by `add` of the same
   * entry raises TypeError: the lookup has left an empty trie in the slot
   * that `add` then tries to increment.
   */
  lemma {:induction false} CountThenAddFails<T>(node: Node<T>, e: seq<T>, c: int)
    requires 1 <= |e| && Loose(node, |e|) && Get(node, e).None?
    ensures Deposit(Plant(node, e), e, c) == Err(TypeError)
  {
  }

  /** On a fresh collection of any order, `count(e)` and then `add(e, c)` raises TypeError. */
  method CountThenAddAsWritten<T(==,!new)>(e: seq<T>, c: int) returns (o: Outcome)
    requires 1 <= |e|
    ensures o == Fail(TypeError)
  {
    var g := Ngrams<T>.New(|e|);
    EmptyStoresNothing(e);
    var counted := g.value.Count(e);
    o := g.value.Add(e, c);
  }

  // ----------------------------------------------------------------------
  // Listing after a lookup
  // ----------------------------------------------------------------------

  /** A fresh `Ngrams(order)`: every length 1 .. order lists nothing and totals 0, unique or not. */
  method FreshTotalCount<T(==,!new)>(order: int, m: int, unique: bool) returns (listed: Result<seq<(seq<T>, int)>>, total: Result<int>)
    requires 1 <= m <= order
    ensures listed == Ok([]) && total == Ok(0)
  {
    var made := Ngrams<T>.New(order);
    var g := made.value;
    assert Flattenable(Empty<T>(), m);
    listed := g.NgramsWithCounts(m);
    EmptyEnumerates<T>(listed.value);
    EmptyEnumerates<T>([]);
    total := g.TotalCount(m, unique);
  }

  /**
   * `count(e)` of an absent entry on a fresh collection plants an empty trie
   * alone on its level; the listing skips it: nothing is listed and the
   * total is 0.
   */
  method CountThenList<T(==,!new)>(e: seq<T>, unique: bool) returns (listed: Result<seq<(seq<T>, int)>>, total: Result<int>)
    requires 1 <= |e|
    ensures listed == Ok([]) && total == Ok(0)
  {
    var made := Ngrams<T>.New(|e|);
    var g := made.value;
    var counted := g.Count(e);
    PlantedEmptyFlattenable(e);
    forall x: seq<T>
      ensures Get(g.tries[|e|], x).None?
    {
      PlantKeepsCounts(Empty<T>(), e, x);
      EmptyStoresNothing(x);
    }
    listed := g.NgramsWithCounts(|e|);
    NothingStoredEnumerates(g.tries[|e|], listed.value);
    NothingStoredEnumerates(g.tries[|e|], []);
    total := g.TotalCount(|e|, unique);
  }

  /**
   * `add((a,), c)` and then `count((b,))` of another token on `Ngrams(1)`:
   * the count of a and the empty trie planted for b share the level, so
   * `ngrams_with_counts(1)` raises AttributeError.
   */
  method ListAfterCountAsWritten<T(==,!new)>(a: T, b: T, c: int) returns (listed: Result<seq<(seq<T>, int)>>)
    requires a != b
    ensures listed == Err(AttributeError)
  {
    var made := Ngrams<T>.New(1);
    var g := made.value;
    var added := g.Add([a], c);
    assert [b][1..] == [] && [a][1..] == [];
    var counted := g.Count([b]);
    ghost var node := g.tries[1];
    assert node.children[a] == Leaf(c) && node.children[b] == Empty();
    assert !AllCounts(node) && !TriesBelow(node, 1, node.children.Keys);
    listed := g.NgramsWithCounts(1);
  }
}

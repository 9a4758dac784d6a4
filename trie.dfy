/**
 * The counting trie of one stratum (`_trie`, `_add`, `_get_inner_trie_from_prefix`
 * and `_flattened_ngrams_with_counts` of nskipgrams.py).
 *
 * A trie is a nested `defaultdict` from token to child; the counts sit at the
 * bottom. Here a node is a value: a branch maps tokens to children, a leaf holds
 * a count. The entry e is stored with count c when following the tokens of e
 * from the root ends at the leaf c (Get). A stratum holding entries of length L
 * is Shaped at depth L: every leaf lies exactly L levels down.
 */
module Trie {
  import opened Wrappers

  datatype Node<T> = Branch(children: map<T, Node<T>>) | Leaf(count: int)

  /** `_trie()`: a fresh, empty branch. */
  function Empty<T>(): Node<T>
  {
    Branch(map[])
  }

  /** Every leaf lies exactly d levels below node, and everything above them is a branch. */
  ghost predicate Shaped<T>(node: Node<T>, d: nat)
    decreases d
  {
    if d == 0 then node.Leaf?
    else node.Branch? && forall t :: t in node.children ==> Shaped(node.children[t], d - 1)
  }

  /**
   * `_get_inner_trie_from_prefix`: the node reached by following the tokens of p,
   * or None when a token is missing or a leaf is reached before p is used up.
   */
  function Descend<T>(node: Node<T>, p: seq<T>): Option<Node<T>>
    decreases |p|
  {
    if p == [] then Some(node)
    else match node
      case Leaf(_) => None
      case Branch(m) => if p[0] in m then Descend(m[p[0]], p[1..]) else None
  }

  /** The count stored for the entry e: the leaf that e leads to, if any. */
  function Get<T>(node: Node<T>, e: seq<T>): Option<int>
  {
    match Descend(node, e)
    case Some(Leaf(c)) => Some(c)
    case _ => None
  }

  /** The count of e, 0 when e is not stored. */
  function Value<T>(node: Node<T>, e: seq<T>): int
  {
    match Get(node, e)
    case Some(c) => c
    case None => 0
  }

  // ----------------------------------------------------------------------
  // Descending
  // ----------------------------------------------------------------------

  /** One step of a lookup in a branch. */
  lemma {:induction false} GetStep<T>(node: Node<T>, x: seq<T>)
    requires node.Branch? && |x| >= 1
    ensures Get(node, x) == if x[0] in node.children then Get(node.children[x[0]], x[1..]) else None
  {
  }

  /** The empty trie stores nothing. */
  lemma {:induction false} EmptyStoresNothing<T>(x: seq<T>)
    ensures Get(Empty<T>(), x) == None
  {
  }

  /** Following p + q is following p, then q from where p ends. */
  lemma {:induction false} DescendAppend<T>(node: Node<T>, p: seq<T>, q: seq<T>)
    ensures Descend(node, p).None? ==> Descend(node, p + q).None?
    ensures Descend(node, p).Some? ==> Descend(node, p + q) == Descend(Descend(node, p).value, q)
    decreases |p|
  {
    if p == [] {
      assert p + q == q;
    } else {
      assert (p + q)[0] == p[0];
      assert (p + q)[1..] == p[1..] + q;
      if node.Branch? && p[0] in node.children {
        assert Descend(node, p) == Descend(node.children[p[0]], p[1..]);
        assert Descend(node, p + q) == Descend(node.children[p[0]], p[1..] + q);
        DescendAppend(node.children[p[0]], p[1..], q);
      }
    }
  }

  /** Below a node shaped at depth d, the node reached by p is shaped at depth d - |p|. */
  lemma {:induction false} DescendShaped<T>(node: Node<T>, d: nat, p: seq<T>)
    requires Shaped(node, d) && Descend(node, p).Some?
    ensures |p| <= d && Shaped(Descend(node, p).value, d - |p|)
    decreases |p|
  {
    if p != [] {
      DescendShaped(node.children[p[0]], d - 1, p[1..]);
    }
  }

  /** The depth invariant: in a trie shaped at depth d every stored entry has length d. */
  lemma {:induction false} StoredLength<T>(node: Node<T>, d: nat, e: seq<T>)
    requires Shaped(node, d) && Get(node, e).Some?
    ensures |e| == d
  {
    DescendShaped(node, d, e);
  }

  // ----------------------------------------------------------------------
  // Lookup, as the source loops
  // ----------------------------------------------------------------------

  /** The loop of `_get_inner_trie_from_prefix`, which only reads the trie. */
  method GetInnerTrie<T>(trie: Node<T>, prefix: seq<T>) returns (r: Option<Node<T>>)
    ensures r == Descend(trie, prefix)
  {
    var node := trie;
    var i := 0;
    while i < |prefix|
      invariant 0 <= i <= |prefix|
      invariant Descend(trie, prefix) == Descend(node, prefix[i..])
    {
      var token := prefix[i];
      assert prefix[i..][0] == token && prefix[i..][1..] == prefix[i + 1..];
      if node.Leaf? || token !in node.children {
        return None;
      }
      node := node.children[token];
      i := i + 1;
    }
    assert prefix[i..] == [];
    return Some(node);
  }

  // ----------------------------------------------------------------------
  // Insertion
  // ----------------------------------------------------------------------

  /**
   * `_add` on one stratum: walk the first |e| - 1 tokens, creating empty
   * branches where they are missing, then add c to the leaf of the last
   * token, or create that leaf with c.
   */
  function Insert<T>(node: Node<T>, e: seq<T>, c: int): (r: Node<T>)
    requires 1 <= |e| && Shaped(node, |e|)
    ensures Shaped(r, |e|)
    ensures Get(r, e) == Some(Value(node, e) + c)
    decreases |e|
  {
    var m := node.children;
    if |e| == 1 then
      assert e[1..] == [];
      var r := Branch(m[e[0] := Leaf(if e[0] in m then m[e[0]].count + c else c)]);
      assert Descend(r, e) == Descend(r.children[e[0]], e[1..]);
      assert Descend(node, e) == if e[0] in m then Descend(m[e[0]], e[1..]) else None;
      r
    else
      var child := if e[0] in m then m[e[0]] else Empty();
      EmptyStoresNothing(e[1..]);
      Branch(m[e[0] := Insert(child, e[1..], c)])
  }

  /** Inserting e leaves the count of every other entry as it was. */
  lemma {:induction false} InsertOthers<T>(node: Node<T>, e: seq<T>, c: int, x: seq<T>)
    requires 1 <= |e| && Shaped(node, |e|) && x != e
    ensures Get(Insert(node, e, c), x) == Get(node, x)
    decreases |e|
  {
    var r := Insert(node, e, c);
    if x != [] {
      GetStep(r, x);
      GetStep(node, x);
      if x[0] == e[0] {
        InsertOthersBelow(node, e, c, x);
      }
    }
  }

  /** The case of InsertOthers where x and e share their first token. */
  lemma {:induction false} InsertOthersBelow<T>(node: Node<T>, e: seq<T>, c: int, x: seq<T>)
    requires 1 <= |e| && Shaped(node, |e|) && x != e && |x| >= 1 && x[0] == e[0]
    ensures Get(Insert(node, e, c).children[e[0]], x[1..]) == Get(node, x)
    decreases |e|, 0
  {
    var m := node.children;
    GetStep(node, x);
    assert x == [x[0]] + x[1..] && e == [e[0]] + e[1..];
    if |e| == 1 {
      assert x[1..] != [];
    } else {
      var child := if e[0] in m then m[e[0]] else Empty();
      EmptyStoresNothing(x[1..]);
      InsertOthers(child, e[1..], c, x[1..]);
    }
  }

  /** With InsertOthers: inserting e is a map update of the stored counts. */
  lemma {:induction false} InsertCounts<T>(node: Node<T>, e: seq<T>, c: int, x: seq<T>)
    requires 1 <= |e| && Shaped(node, |e|)
    ensures Get(Insert(node, e, c), x) == if x == e then Some(Value(node, e) + c) else Get(node, x)
    ensures Value(Insert(node, e, c), x) == Value(node, x) + (if x == e then c else 0)
  {
    if x != e {
      InsertOthers(node, e, c, x);
    }
  }

  // ----------------------------------------------------------------------
  // Enumeration
  // ----------------------------------------------------------------------

  /** No entry occurs twice. */
  ghost predicate DistinctEntries<T>(r: seq<(seq<T>, int)>)
  {
    forall i, j :: 0 <= i < j < |r| ==> r[i].0 != r[j].0
  }

  /** r lists exactly the stored entries of node that start with prefix, each once and with its count. */
  ghost predicate EnumeratesFrom<T(!new)>(node: Node<T>, prefix: seq<T>, r: seq<(seq<T>, int)>)
  {
    && DistinctEntries(r)
    && (forall p :: p in r ==> prefix <= p.0 && Get(node, p.0) == Some(p.1))
    && (forall e :: prefix <= e && Get(node, e).Some? ==> (e, Get(node, e).value) in r)
  }

  /** r lists exactly the stored entries of node, each once and with its count. */
  ghost predicate Enumerates<T(!new)>(node: Node<T>, r: seq<(seq<T>, int)>)
  {
    EnumeratesFrom(node, [], r)
  }

  /** r lists exactly the stored entries of node whose first token is in ks. */
  ghost predicate EnumeratesUnder<T(!new)>(node: Node<T>, ks: set<T>, r: seq<(seq<T>, int)>)
  {
    && DistinctEntries(r)
    && (forall p :: p in r ==> |p.0| >= 1 && p.0[0] in ks && Get(node, p.0) == Some(p.1))
    && (forall e :: |e| >= 1 && e[0] in ks && Get(node, e).Some? ==> (e, Get(node, e).value) in r)
  }

  /** `prefix + ngram` for every pair the inner trie yields. */
  function PrependPath<T>(prefix: seq<T>, pairs: seq<(seq<T>, int)>): seq<(seq<T>, int)>
  {
    seq(|pairs|, i requires 0 <= i < |pairs| => (prefix + pairs[i].0, pairs[i].1))
  }

  lemma {:induction false} GetAppend<T>(node: Node<T>, p: seq<T>, q: seq<T>, inner: Node<T>)
    requires Descend(node, p) == Some(inner)
    ensures Get(node, p + q) == Get(inner, q)
  {
    DescendAppend(node, p, q);
  }

  lemma {:induction false} PrefixSplit<T>(p: seq<T>, e: seq<T>)
    requires p <= e
    ensures e == p + e[|p|..]
  {
  }

  /** Below a missing prefix nothing is stored. */
  lemma {:induction false} MissingEnumerates<T(!new)>(node: Node<T>, prefix: seq<T>)
    requires Descend(node, prefix).None?
    ensures EnumeratesFrom(node, prefix, [])
  {
    forall e | prefix <= e
      ensures Get(node, e).None?
    {
      PrefixSplit(prefix, e);
      DescendAppend(node, prefix, e[|prefix|..]);
    }
  }

  /** A prefix that ends at a leaf is the only stored entry starting with it. */
  lemma {:induction false} LeafEnumerates<T(!new)>(node: Node<T>, prefix: seq<T>, c: int)
    requires Descend(node, prefix) == Some(Leaf(c))
    ensures EnumeratesFrom(node, prefix, [(prefix, c)])
  {
    forall e | prefix <= e && e != prefix
      ensures Get(node, e).None?
    {
      PrefixSplit(prefix, e);
      GetAppend(node, prefix, e[|prefix|..], Leaf(c));
    }
  }

  /** Putting the path of a node in front of an enumeration of that node enumerates below the path. */
  lemma {:induction false} PrependPathEnumerates<T(!new)>(node: Node<T>, prefix: seq<T>, inner: Node<T>, pairs: seq<(seq<T>, int)>)
    requires Descend(node, prefix) == Some(inner) && Enumerates(inner, pairs)
    ensures EnumeratesFrom(node, prefix, PrependPath(prefix, pairs))
  {
    var r := PrependPath(prefix, pairs);
    forall i, j | 0 <= i < j < |r|
      ensures r[i].0 != r[j].0
    {
      assert pairs[i].0 != pairs[j].0;
      assert r[i].0[|prefix|..] == pairs[i].0 && r[j].0[|prefix|..] == pairs[j].0;
    }
    forall p | p in r
      ensures prefix <= p.0 && Get(node, p.0) == Some(p.1)
    {
      var i :| 0 <= i < |r| && r[i] == p;
      assert pairs[i] in pairs;
      GetAppend(node, prefix, pairs[i].0, inner);
    }
    forall e | prefix <= e && Get(node, e).Some?
      ensures (e, Get(node, e).value) in r
    {
      var q := e[|prefix|..];
      PrefixSplit(prefix, e);
      GetAppend(node, prefix, q, inner);
      assert (q, Get(inner, q).value) in pairs;
      var i :| 0 <= i < |pairs| && pairs[i] == (q, Get(inner, q).value);
      assert r[i] == (e, Get(node, e).value);
    }
  }

  /** The enumeration of the entries starting with lo grows by a block with a new first token. */
  lemma {:induction false} JoinBlock<T(!new)>(node: Node<T>, r: seq<(seq<T>, int)>, ks: set<T>, t: T, block: seq<(seq<T>, int)>)
    requires EnumeratesUnder(node, ks, r) && t !in ks && EnumeratesFrom(node, [t], block)
    ensures EnumeratesUnder(node, ks + {t}, r + block)
  {
    var joined := r + block;
    forall p | p in block
      ensures |p.0| >= 1 && p.0[0] == t
    {
      assert [t] <= p.0;
      assert p.0[..1] == [t];
    }
    forall i, j | 0 <= i < j < |joined|
      ensures joined[i].0 != joined[j].0
    {
      if j >= |r| && i < |r| {
        assert joined[i] in r && joined[j] in block;
      } else if i >= |r| {
        assert joined[i] == block[i - |r|] && joined[j] == block[j - |r|];
      }
    }
    forall e | |e| >= 1 && e[0] in ks + {t} && Get(node, e).Some?
      ensures (e, Get(node, e).value) in joined
    {
      if e[0] == t {
        assert [t] <= e;
      }
    }
  }

  /** Under every first token of a branch, everything stored is listed. */
  lemma {:induction false} UnderAll<T(!new)>(node: Node<T>, r: seq<(seq<T>, int)>)
    requires node.Branch? && EnumeratesUnder(node, node.children.Keys, r)
    ensures Enumerates(node, r)
  {
    forall e | Get(node, e).Some?
      ensures |e| >= 1 && e[0] in node.children.Keys
    {
      if e != [] {
        GetStep(node, e);
      }
    }
  }

  /**
   * `_flatten_trie`: for a branch d >= 1 levels above its leaves, every
   * stored (path, count) pair, each path once, in the dict's iteration order
   * (left open here: keys are taken in any order).
   */
  method FlattenTrie<T(!new)>(node: Node<T>, d: nat) returns (r: seq<(seq<T>, int)>)
    requires 1 <= d && Shaped(node, d)
    ensures Enumerates(node, r)
    decreases d, 1
  {
    var m := node.children;
    var keys := m.Keys;
    ghost var done: set<T> := {};
    r := [];
    while keys != {}
      invariant keys + done == m.Keys && keys !! done
      invariant EnumeratesUnder(node, done, r)
      decreases |keys|
    {
      var t :| t in keys;
      var block := FlattenChild(node, d, t);
      JoinBlock(node, r, done, t, block);
      r := r + block;
      done := done + {t};
      keys := keys - {t};
    }
    UnderAll(node, r);
  }

  /**
   * One item of the loop of `_flatten_trie`: a level of leaves yields its
   * (token, count) items, a level of tries puts the token in front of
   * everything below it.
   */
  method FlattenChild<T(!new)>(node: Node<T>, d: nat, t: T) returns (block: seq<(seq<T>, int)>)
    requires 1 <= d && Shaped(node, d) && t in node.children
    ensures EnumeratesFrom(node, [t], block)
    decreases d, 0
  {
    var child := node.children[t];
    assert Descend(node, [t]) == Descend(child, []);
    if d == 1 {
      block := [([t], child.count)];
      LeafEnumerates(node, [t], child.count);
    } else {
      var inner := FlattenTrie(child, d - 1);
      block := PrependPath([t], inner);
      PrependPathEnumerates(node, [t], child, inner);
    }
  }

  /**
   * `_flattened_ngrams_with_counts(trie, prefix)` on a trie shaped at depth d:
   * every stored pair whose entry starts with prefix.
   */
  method FlattenedWithCounts<T(!new)>(trie: Node<T>, d: nat, prefix: seq<T>) returns (r: seq<(seq<T>, int)>)
    requires Shaped(trie, d)
    ensures EnumeratesFrom(trie, prefix, r)
  {
    var inner := GetInnerTrie(trie, prefix);
    match inner
    case None =>
      MissingEnumerates(trie, prefix);
      r := [];
    case Some(Leaf(c)) =>
      LeafEnumerates(trie, prefix, c);
      r := [(prefix, c)];
    case Some(Branch(m)) =>
      DescendShaped(trie, d, prefix);
      var flat := FlattenTrie(Branch(m), d - |prefix|);
      PrependPathEnumerates(trie, prefix, Branch(m), flat);
      r := PrependPath(prefix, flat);
  }

  /** When the prefix is itself a stored entry of a shaped trie, it is all that is listed. */
  lemma {:induction false} FullEntryEnumeration<T(!new)>(node: Node<T>, d: nat, prefix: seq<T>, r: seq<(seq<T>, int)>)
    requires Shaped(node, d) && Get(node, prefix).Some? && EnumeratesFrom(node, prefix, r)
    ensures r == [(prefix, Get(node, prefix).value)]
  {
    var c := Get(node, prefix).value;
    StoredLength(node, d, prefix);
    forall p | p in r
      ensures p == (prefix, c)
    {
      StoredLength(node, d, p.0);
      assert p.0 == prefix;
    }
    assert (prefix, c) in r;
    SamePairsSameTotals(r, [(prefix, c)]);
    assert r[0] in r;
  }

  /** A prefix longer than the entries of a shaped trie lists nothing. */
  lemma {:induction false} LongPrefixEnumeration<T(!new)>(node: Node<T>, d: nat, prefix: seq<T>, r: seq<(seq<T>, int)>)
    requires Shaped(node, d) && |prefix| > d && EnumeratesFrom(node, prefix, r)
    ensures r == []
  {
    if r != [] {
      assert r[0] in r;
      StoredLength(node, d, r[0].0);
    }
  }

  /** A trie that stores nothing lists nothing, and the empty listing is its only enumeration. */
  lemma {:induction false} NothingStoredEnumerates<T(!new)>(node: Node<T>, pairs: seq<(seq<T>, int)>)
    requires forall x :: Get(node, x).None?
    ensures Enumerates(node, pairs) <==> pairs == []
  {
    if pairs != [] {
      assert pairs[0] in pairs && Get(node, pairs[0].0).None?;
    }
  }

  /** In particular a fresh trie: `_trie()` lists nothing. */
  lemma {:induction false} EmptyEnumerates<T(!new)>(pairs: seq<(seq<T>, int)>)
    ensures Enumerates(Empty<T>(), pairs) <==> pairs == []
  {
    forall x: seq<T>
      ensures Get(Empty<T>(), x).None?
    {
      EmptyStoresNothing(x);
    }
    NothingStoredEnumerates(Empty<T>(), pairs);
  }

  /** A trie storing the single entry e, with count c, is listed as that one pair. */
  lemma {:induction false} SingleEnumerates<T(!new)>(node: Node<T>, e: seq<T>, c: int, pairs: seq<(seq<T>, int)>)
    requires forall x :: Get(node, x) == if x == e then Some(c) else None
    requires Enumerates(node, pairs)
    ensures pairs == [(e, c)]
  {
    assert Get(node, e) == Some(c) && [] <= e;
    assert (e, c) in pairs;
    forall p | p in pairs
      ensures p == (e, c)
    {
    }
    SamePairsSameTotals(pairs, [(e, c)]);
    assert pairs[0] in pairs;
  }

  // ----------------------------------------------------------------------
  // Totals of an enumeration
  // ----------------------------------------------------------------------

  /** `sum(count for _, count in pairs)`. */
  function SumCounts<T>(pairs: seq<(seq<T>, int)>): int
    decreases |pairs|
  {
    if pairs == [] then 0 else SumCounts(pairs[..|pairs| - 1]) + pairs[|pairs| - 1].1
  }

  lemma {:induction false} SumCountsAppend<T>(a: seq<(seq<T>, int)>, b: seq<(seq<T>, int)>)
    ensures SumCounts(a + b) == SumCounts(a) + SumCounts(b)
    decreases |b|
  {
    if b == [] {
      assert a + b == a;
    } else {
      assert (a + b)[..|a + b| - 1] == a + b[..|b| - 1];
      SumCountsAppend(a, b[..|b| - 1]);
    }
  }

  /** Taking the j-th pair out of a list takes its count out of the sum. */
  lemma {:induction false} SumCountsRemove<T>(r: seq<(seq<T>, int)>, j: int)
    requires 0 <= j < |r|
    ensures SumCounts(r) == SumCounts(r[..j] + r[j + 1..]) + r[j].1
  {
    assert r == r[..j] + [r[j]] + r[j + 1..];
    SumCountsAppend(r[..j] + [r[j]], r[j + 1..]);
    SumCountsAppend(r[..j], [r[j]]);
    SumCountsAppend(r[..j], r[j + 1..]);
    assert SumCounts([r[j]]) == r[j].1 by {
      assert [r[j]][..0] == [];
    }
  }

  /** Taking a pair out of a list without repeated entries keeps it without repeated entries, */
  lemma {:induction false} DistinctRemove<T>(r: seq<(seq<T>, int)>, j: int)
    requires DistinctEntries(r) && 0 <= j < |r|
    ensures DistinctEntries(r[..j] + r[j + 1..])
  {
    var rest := r[..j] + r[j + 1..];
    forall a, b | 0 <= a < b < |rest|
      ensures rest[a].0 != rest[b].0
    {
      var a2 := if a < j then a else a + 1;
      var b2 := if b < j then b else b + 1;
      assert rest[a] == r[a2] && rest[b] == r[b2];
    }
  }

  /** and leaves exactly the other pairs. */
  lemma {:induction false} MembersRemove<T>(r: seq<(seq<T>, int)>, j: int, p: (seq<T>, int))
    requires DistinctEntries(r) && 0 <= j < |r|
    ensures p in r[..j] + r[j + 1..] <==> p in r && p != r[j]
  {
    var rest := r[..j] + r[j + 1..];
    if p in rest {
      var k :| 0 <= k < |rest| && rest[k] == p;
      var k2 := if k < j then k else k + 1;
      assert r[k2] == p;
    }
    if p in r && p != r[j] {
      var k :| 0 <= k < |r| && r[k] == p;
      if k < j {
        assert rest[k] == p;
      } else {
        assert rest[k - 1] == p;
      }
    }
  }

  /** Two duplicate-free lists of the same pairs have the same length and the same total. */
  lemma {:induction false} SamePairsSameTotals<T>(r1: seq<(seq<T>, int)>, r2: seq<(seq<T>, int)>)
    requires DistinctEntries(r1) && DistinctEntries(r2)
    requires forall p :: p in r1 <==> p in r2
    ensures |r1| == |r2| && SumCounts(r1) == SumCounts(r2)
    decreases |r1|
  {
    assert r2 != [] ==> r2[0] in r2;
    if r1 != [] {
      var n := |r1| - 1;
      var last := r1[n];
      assert last in r1;
      var j :| 0 <= j < |r2| && r2[j] == last;
      assert r1[..n] == r1[..n] + r1[n + 1..];
      forall p
        ensures p in r1[..n] <==> p in r2[..j] + r2[j + 1..]
      {
        MembersRemove(r1, n, p);
        MembersRemove(r2, j, p);
      }
      DistinctRemove(r1, n);
      DistinctRemove(r2, j);
      SamePairsSameTotals(r1[..n], r2[..j] + r2[j + 1..]);
      SumCountsRemove(r2, j);
    }
  }

  /** Any two enumerations of a trie agree on how many pairs they list and on their total count. */
  lemma {:induction false} EnumerationsAgree<T(!new)>(node: Node<T>, r1: seq<(seq<T>, int)>, r2: seq<(seq<T>, int)>)
    requires Enumerates(node, r1) && Enumerates(node, r2)
    ensures |r1| == |r2| && SumCounts(r1) == SumCounts(r2)
  {
    forall p
      ensures p in r1 <==> p in r2
    {
      if p in r1 {
        assert Get(node, p.0) == Some(p.1);
      }
      if p in r2 {
        assert Get(node, p.0) == Some(p.1);
      }
    }
    SamePairsSameTotals(r1, r2);
  }

  // ----------------------------------------------------------------------
  // Inserting a list of pairs
  // ----------------------------------------------------------------------

  /** The entries of a list of pairs, in order. */
  function EntriesOf<T>(pairs: seq<(seq<T>, int)>): seq<seq<T>>
  {
    seq(|pairs|, i requires 0 <= i < |pairs| => pairs[i].0)
  }

  /** `_add(entry, count)` for every pair of the list in turn, on one stratum of depth d. */
  function InsertAll<T>(node: Node<T>, d: nat, pairs: seq<(seq<T>, int)>): (r: Node<T>)
    requires 1 <= d && Shaped(node, d) && forall i :: 0 <= i < |pairs| ==> |pairs[i].0| == d
    ensures Shaped(r, d)
    decreases |pairs|
  {
    if pairs == [] then node
    else
      var last := pairs[|pairs| - 1];
      Insert(InsertAll(node, d, pairs[..|pairs| - 1]), last.0, last.1)
  }

  /** The total count the list gives the entry x. */
  function SumFor<T(==)>(pairs: seq<(seq<T>, int)>, x: seq<T>): int
    decreases |pairs|
  {
    if pairs == [] then 0
    else SumFor(pairs[..|pairs| - 1], x) + (if pairs[|pairs| - 1].0 == x then pairs[|pairs| - 1].1 else 0)
  }

  /** After inserting the list, x counts what it counted plus the list's counts for x, and it is stored when it was or the list names it. */
  lemma {:induction false} InsertAllCounts<T>(node: Node<T>, d: nat, pairs: seq<(seq<T>, int)>, x: seq<T>)
    requires 1 <= d && Shaped(node, d) && forall i :: 0 <= i < |pairs| ==> |pairs[i].0| == d
    ensures Value(InsertAll(node, d, pairs), x) == Value(node, x) + SumFor(pairs, x)
    ensures Get(InsertAll(node, d, pairs), x).Some? <==> Get(node, x).Some? || x in EntriesOf(pairs)
    decreases |pairs|
  {
    if pairs != [] {
      var init := pairs[..|pairs| - 1];
      var last := pairs[|pairs| - 1];
      InsertAllCounts(node, d, init, x);
      InsertCounts(InsertAll(node, d, init), last.0, last.1, x);
      assert EntriesOf(pairs) == EntriesOf(init) + [last.0];
    }
  }

  /** In an enumeration of a trie shaped at depth d every entry has length d. */
  lemma {:induction false} EnumeratedLengths<T(!new)>(node: Node<T>, d: nat, pairs: seq<(seq<T>, int)>)
    requires Shaped(node, d) && Enumerates(node, pairs)
    ensures forall i :: 0 <= i < |pairs| ==> |pairs[i].0| == d
  {
    forall i | 0 <= i < |pairs|
      ensures |pairs[i].0| == d
    {
      assert pairs[i] in pairs;
      StoredLength(node, d, pairs[i].0);
    }
  }

  /** Every entry of the list, paired with the same count. */
  function WithCount<T>(entries: seq<seq<T>>, c: int): (r: seq<(seq<T>, int)>)
    ensures |r| == |entries| && EntriesOf(r) == entries
    ensures forall i :: 0 <= i < |r| ==> r[i].1 == c
  {
    seq(|entries|, i requires 0 <= i < |entries| => (entries[i], c))
  }

  /** One more occurrence adds c once more; kept apart so the step is proved outside the sequence facts. */
  lemma MulSucc(c: int, a: int)
    ensures c * (a + 1) == c * a + c
  {
  }

  /** Pairing every entry with c gives x c times its number of occurrences. */
  lemma {:induction false} SumForWithCount<T>(entries: seq<seq<T>>, c: int, x: seq<T>)
    ensures SumFor(WithCount(entries, c), x) == c * multiset(entries)[x]
    decreases |entries|
  {
    if entries != [] {
      var init := entries[..|entries| - 1];
      var last := entries[|entries| - 1];
      assert entries == init + [last];
      assert WithCount(entries, c)[..|entries| - 1] == WithCount(init, c);
      SumForWithCount(init, c, x);
      var before := multiset(init)[x];
      assert multiset(entries)[x] == before + (if last == x then 1 else 0);
      MulSucc(c, before);
    }
  }

  /** A list without the entry x gives it nothing. */
  lemma {:induction false} SumForAbsent<T>(pairs: seq<(seq<T>, int)>, x: seq<T>)
    requires forall i :: 0 <= i < |pairs| ==> pairs[i].0 != x
    ensures SumFor(pairs, x) == 0
    decreases |pairs|
  {
    if pairs != [] {
      SumForAbsent(pairs[..|pairs| - 1], x);
    }
  }

  /** An enumeration of a trie gives every entry exactly its count there, and names exactly the stored entries. */
  lemma {:induction false} SumForEnumeration<T(!new)>(node: Node<T>, pairs: seq<(seq<T>, int)>, x: seq<T>)
    requires Enumerates(node, pairs)
    ensures SumFor(pairs, x) == Value(node, x)
    ensures x in EntriesOf(pairs) <==> Get(node, x).Some?
  {
    if x in EntriesOf(pairs) {
      var i :| 0 <= i < |pairs| && pairs[i].0 == x;
      assert pairs[i] in pairs;
    }
    if Get(node, x).Some? {
      assert (x, Get(node, x).value) in pairs;
      var i :| 0 <= i < |pairs| && pairs[i] == (x, Get(node, x).value);
      assert EntriesOf(pairs)[i] == x;
      SumForOnce(pairs, i);
    } else {
      forall i | 0 <= i < |pairs|
        ensures pairs[i].0 != x
      {
        assert pairs[i] in pairs;
      }
      SumForAbsent(pairs, x);
    }
  }

  /** In a list without repeated entries, the entry at i gets exactly its own count. */
  lemma {:induction false} SumForOnce<T>(pairs: seq<(seq<T>, int)>, i: int)
    requires DistinctEntries(pairs) && 0 <= i < |pairs|
    ensures SumFor(pairs, pairs[i].0) == pairs[i].1
    decreases |pairs|
  {
    var init := pairs[..|pairs| - 1];
    if i == |pairs| - 1 {
      forall k | 0 <= k < |init|
        ensures init[k].0 != pairs[i].0
      {
        assert init[k] == pairs[k];
      }
      SumForAbsent(init, pairs[i].0);
    } else {
      assert DistinctEntries(init) by {
        forall a, b | 0 <= a < b < |init|
          ensures init[a].0 != init[b].0
        {
          assert init[a] == pairs[a] && init[b] == pairs[b];
        }
      }
      assert init[i] == pairs[i];
      SumForOnce(init, i);
    }
  }
}

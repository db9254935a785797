/**
 * The LINQ and collection idioms the editor relies on: counting occurrences
 * into a dictionary, Skip/Take paging, Distinct, OrderBy (a stable sort) and
 * ordering the keys of a dictionary.
 */
module Collections {
  import opened Text

  /** An element of a set that is not empty. */
  lemma Pick<T>(s: set<T>) returns (y: T)
    requires s != {}
    ensures y in s
  {
    assert |s| > 0;
    assert !(forall z :: z !in s);
    y :| y in s;
  }

  lemma NonEmptyHasElement<T>(s: set<T>)
    requires s != {}
    ensures exists y :: y in s
  {
    var y := Pick(s);
  }

  // ---------------------------------------------------------------------
  // Sums and tallies
  // ---------------------------------------------------------------------

  function Sum(s: seq<int>): int
  {
    if s == [] then 0 else Sum(s[..|s| - 1]) + s[|s| - 1]
  }

  /** The sum of the values of a dictionary. */
  ghost function SumValues<K>(m: map<K, nat>): nat
    decreases |m.Keys|
  {
    if m.Keys == {} then 0
    else
      NonEmptyHasElement(m.Keys);
      var k :| k in m.Keys;
      m[k] + SumValues(m - {k})
  }

  /** The sum does not depend on which key is taken out first. */
  lemma SumValuesRemove<K>(m: map<K, nat>, k: K)
    requires k in m
    ensures SumValues(m) == m[k] + SumValues(m - {k})
    decreases |m.Keys|
  {
    NonEmptyHasElement(m.Keys);
    var j :| j in m.Keys && SumValues(m) == m[j] + SumValues(m - {j});
    if j != k {
      SumValuesRemove(m - {j}, k);
      SumValuesRemove(m - {k}, j);
      SumValuesSwap(m, j, k);
    }
  }

  lemma SumValuesSwap<K>(m: map<K, nat>, j: K, k: K)
    requires j in m && k in m && j != k
    requires SumValues(m - {j}) == m[k] + SumValues(m - {j} - {k})
    requires SumValues(m - {k}) == m[j] + SumValues(m - {k} - {j})
    ensures m[j] + SumValues(m - {j}) == m[k] + SumValues(m - {k})
  {
    assert m - {j} - {k} == m - {k} - {j};
  }

  /** Setting one entry changes the sum by the difference. */
  lemma SumValuesUpdate<K>(m: map<K, nat>, k: K, v: nat)
    ensures SumValues(m[k := v]) + (if k in m then m[k] else 0) == SumValues(m) + v
  {
    var m' := m[k := v];
    SumValuesRemove(m', k);
    assert m' - {k} == m - {k};
    if k in m {
      SumValuesRemove(m, k);
    } else {
      assert m - {k} == m;
    }
  }

  /** The number of occurrences of every element, as a dictionary that holds
      exactly the elements that occur (the `counts[x]++` loops of the source). */
  function Tally<T(!new)>(s: seq<T>): (m: map<T, nat>)
    ensures forall x :: x in m <==> x in s
    ensures forall x :: x in m ==> m[x] == multiset(s)[x]
  {
    if s == [] then map[]
    else
      var init := s[..|s| - 1];
      var x := s[|s| - 1];
      assert s == init + [x];
      var m := Tally(init);
      m[x := (if x in m then m[x] else 0) + 1]
  }

  /** One more occurrence of `x` adds one to its count. */
  lemma TallyAppend<T(!new)>(s: seq<T>, x: T)
    ensures Tally(s + [x]) == Tally(s)[x := (if x in Tally(s) then Tally(s)[x] else 0) + 1]
  {
    assert (s + [x])[..|s|] == s;
  }

  /** The counts add up to the number of elements counted. */
  lemma {:induction false} TallySum<T(!new)>(s: seq<T>)
    ensures SumValues(Tally(s)) == |s|
  {
    if s != [] {
      var init := s[..|s| - 1];
      var x := s[|s| - 1];
      TallySum(init);
      var m := Tally(init);
      SumValuesUpdate(m, x, (if x in m then m[x] else 0) + 1);
    }
  }

  // ---------------------------------------------------------------------
  // Skip / Take paging
  // ---------------------------------------------------------------------

  /** Enumerable.Take: the first `n` elements, none for a count that is not
      positive. */
  function Take<T>(s: seq<T>, n: int): (r: seq<T>)
    ensures |r| == if n <= 0 then 0 else if n >= |s| then |s| else n
    ensures r == s[..|r|]
  {
    if n <= 0 then [] else if n >= |s| then s else s[..n]
  }

  /** Enumerable.Skip. */
  function Skip<T>(s: seq<T>, n: int): (r: seq<T>)
    ensures |r| == if n <= 0 then |s| else if n >= |s| then 0 else |s| - n
    ensures r == s[|s| - |r|..]
  {
    if n <= 0 then s else if n >= |s| then [] else s[n..]
  }

  lemma TakeSkip<T>(s: seq<T>, n: int)
    ensures Take(s, n) + Skip(s, n) == s
  {
  }

  /** Math.Ceiling(n / d) for non-negative 32-bit values; the division of two
      such doubles never rounds across an integer, so the result is exact. */
  function CeilDiv(n: nat, d: nat): (q: nat)
    requires d > 0
    ensures q * d >= n
    ensures q > 0 ==> (q - 1) * d < n
  {
    (n + d - 1) / d
  }

  /** The elements from position `start`, at most `size` of them:
      Skip(start).Take(size). */
  function Page<T>(s: seq<T>, start: nat, size: nat): (r: seq<T>)
    ensures |r| == if start >= |s| then 0 else if start + size <= |s| then size else |s| - start
    ensures forall k :: 0 <= k < |r| ==> r[k] == s[start + k]
  {
    s[Min(start, |s|)..Min(start + size, |s|)]
  }

  lemma PageIsSkipTake<T>(s: seq<T>, start: nat, size: nat)
    ensures Page(s, start, size) == Take(Skip(s, start), size)
  {
  }

  /** Page `i` of `size` elements: Skip(i * size).Take(size). */
  function Chunk<T>(s: seq<T>, size: nat, i: nat): seq<T>
  {
    Page(s, i * size, size)
  }

  /** The first `count` pages. */
  function Chunks<T>(s: seq<T>, size: nat, count: nat): (r: seq<seq<T>>)
    ensures |r| == count && forall i :: 0 <= i < count ==> r[i] == Chunk(s, size, i)
  {
    seq(count, i requires 0 <= i < count => Chunk(s, size, i))
  }

  function Flatten<T>(ss: seq<seq<T>>): seq<T>
  {
    if ss == [] then [] else Flatten(ss[..|ss| - 1]) + ss[|ss| - 1]
  }

  /** Enumerable.SelectMany: the pieces `f` gives for the elements, in
      order. */
  function FlatMap<A, B>(s: seq<A>, f: A -> seq<B>): seq<B>
  {
    if s == [] then [] else FlatMap(s[..|s| - 1], f) + f(s[|s| - 1])
  }

  /** Elements that each give one piece give those pieces. */
  lemma {:induction false} FlatMapSingles<A, B>(s: seq<A>, f: A -> seq<B>, r: seq<B>)
    requires |s| == |r| && forall i :: 0 <= i < |s| ==> f(s[i]) == [r[i]]
    ensures FlatMap(s, f) == r
  {
    if s != [] {
      var n := |s| - 1;
      FlatMapSingles(s[..n], f, r[..n]);
      assert r == r[..n] + [r[n]];
    }
  }

  function Min(a: int, b: int): int
  {
    if a <= b then a else b
  }

  /** The first `count` pages, put back together, are the elements they cover. */
  lemma {:induction false} FlattenChunksPrefix<T>(s: seq<T>, size: nat, count: nat)
    ensures Flatten(Chunks(s, size, count)) == s[..Min(count * size, |s|)]
  {
    if count > 0 {
      FlattenChunksPrefix(s, size, count - 1);
      FlattenChunksPrefixStep(s, size, count);
    }
  }

  /** One more page extends the covered prefix by that page. */
  lemma FlattenChunksPrefixStep<T>(s: seq<T>, size: nat, count: nat)
    requires count > 0
    requires Flatten(Chunks(s, size, count - 1)) == s[..Min((count - 1) * size, |s|)]
    ensures Flatten(Chunks(s, size, count)) == s[..Min(count * size, |s|)]
  {
    FlattenChunksStep(s, size, count);
    ChunkEnd(s, size, count - 1);
  }

  lemma FlattenChunksStep<T>(s: seq<T>, size: nat, count: nat)
    requires count > 0
    ensures Flatten(Chunks(s, size, count)) == Flatten(Chunks(s, size, count - 1)) + Chunk(s, size, count - 1)
  {
    assert Chunks(s, size, count)[..count - 1] == Chunks(s, size, count - 1);
  }

  lemma ChunkEnd<T>(s: seq<T>, size: nat, i: nat)
    ensures s[..Min(i * size, |s|)] + Chunk(s, size, i) == s[..Min((i + 1) * size, |s|)]
  {
    MulSucc(i, size);
    PageAppend(s, i * size, size);
  }

  lemma MulSucc(n: nat, size: nat)
    ensures (n + 1) * size == n * size + size
  {
  }

  lemma PageAppend<T>(s: seq<T>, a: nat, size: nat)
    ensures s[..Min(a + size, |s|)] == s[..Min(a, |s|)] + Page(s, a, size)
  {
  }

  /** Enough pages cover everything, each element exactly once and in order. */
  lemma FlattenChunks<T>(s: seq<T>, size: nat, count: nat)
    requires count * size >= |s|
    ensures Flatten(Chunks(s, size, count)) == s
  {
    FlattenChunksPrefix(s, size, count);
  }

  /** With ceil(n / size) pages, every page is non-empty. */
  lemma ChunksNonEmpty<T>(s: seq<T>, size: nat, i: nat)
    requires size > 0 && i < CeilDiv(|s|, size)
    ensures |Chunk(s, size, i)| > 0
  {
    var q := CeilDiv(|s|, size);
    MulMonotone(i, q - 1, size);
  }

  /** An element of a sequence without duplicates lies in one page only. */
  lemma ChunksDisjoint<T>(s: seq<T>, size: nat, i: nat, j: nat, x: T)
    requires NoDuplicates(s)
    requires x in Chunk(s, size, i) && x in Chunk(s, size, j)
    ensures i == j
  {
    var p := i * size;
    var q := j * size;
    var a := Page(s, p, size);
    var b := Page(s, q, size);
    var k :| 0 <= k < |a| && a[k] == x;
    var l :| 0 <= l < |b| && b[l] == x;
    assert s[p + k] == s[q + l];
    MulStep(i, j, size);
    MulStep(j, i, size);
  }

  lemma {:induction false} MulMonotone(a: nat, b: nat, size: nat)
    requires a <= b
    ensures a * size <= b * size
    decreases b - a
  {
    if a < b {
      MulMonotone(a, b - 1, size);
      assert b * size == (b - 1) * size + size;
    }
  }

  /** Page j starts inside the sequence exactly when j is below the page count. */
  lemma CeilDivLess(n: nat, d: nat, j: nat)
    requires d > 0
    ensures j * d < n <==> j < CeilDiv(n, d)
  {
    var q := CeilDiv(n, d);
    if j < q {
      MulMonotone(j, q - 1, d);
    } else {
      MulMonotone(q, j, d);
    }
  }

  /** The pages from page j on, as long as they start inside the sequence. */
  function PagesFrom<T>(s: seq<T>, size: nat, j: nat): seq<seq<T>>
    requires size > 0
    decreases |s| - j * size
  {
    if j * size >= |s| then []
    else
      MulSucc(j, size);
      [Chunk(s, size, j)] + PagesFrom(s, size, j + 1)
  }

  /** Those are the last pages of the CeilDiv(|s|, size) pages. */
  lemma {:induction false} PagesFromChunks<T>(s: seq<T>, size: nat, j: nat)
    requires size > 0 && j <= CeilDiv(|s|, size)
    ensures PagesFrom(s, size, j) == Chunks(s, size, CeilDiv(|s|, size))[j..]
    decreases CeilDiv(|s|, size) - j
  {
    var all := Chunks(s, size, CeilDiv(|s|, size));
    CeilDivLess(|s|, size, j);
    if j * size < |s| {
      MulSucc(j, size);
      PagesFromChunks(s, size, j + 1);
      assert all[j..] == [all[j]] + all[j + 1..];
    }
  }

  /** The pages from the start are CeilDiv(|s|, size) pages of one to size
      elements that together are the sequence. */
  lemma PagesCover<T>(s: seq<T>, size: nat)
    requires size > 0
    ensures var r := PagesFrom(s, size, 0);
      |r| == CeilDiv(|s|, size) && Flatten(r) == s
      && forall i :: 0 <= i < |r| ==> 0 < |r[i]| <= size
  {
    var count := CeilDiv(|s|, size);
    PagesFromChunks(s, size, 0);
    var all := Chunks(s, size, count);
    assert all[0..] == all;
    FlattenChunks(s, size, count);
    forall i | 0 <= i < count ensures 0 < |all[i]| <= size {
      ChunksNonEmpty(s, size, i);
    }
  }

  /** The elements of a page are elements of the sequence. */
  lemma ChunkWithin<T>(s: seq<T>, size: nat, i: nat)
    ensures forall x :: x in Chunk(s, size, i) ==> x in s
  {
    var c := Chunk(s, size, i);
    forall x | x in c ensures x in s {
      var k :| 0 <= k < |c| && c[k] == x;
      assert s[i * size + k] == x;
    }
  }

  /** Later pages start after earlier pages end. */
  lemma MulStep(a: nat, b: nat, size: nat)
    ensures a < b ==> a * size + size <= b * size
  {
    if a < b {
      MulMonotone(a + 1, b, size);
      assert (a + 1) * size == a * size + size;
    }
  }

  /** Extending a prefix by one element. */
  lemma TakeNext<T>(s: seq<T>, i: nat)
    requires i < |s|
    ensures s[..i + 1] == s[..i] + [s[i]]
  {
  }

  /** Appending one element after a concatenation. */
  lemma AppendOneAssoc<T>(a: seq<T>, b: seq<T>, x: T)
    ensures (a + b) + [x] == a + (b + [x])
  {
  }

  /** Extending a prefix by one element after a fixed head. */
  lemma HeadTakeNext<T>(h: seq<T>, s: seq<T>, i: nat)
    requires i < |s|
    ensures (h + s[..i]) + [s[i]] == h + s[..i + 1]
  {
    TakeNext(s, i);
  }

  // ---------------------------------------------------------------------
  // Select
  // ---------------------------------------------------------------------

  /** Enumerable.Select. */
  function Map<A, B>(s: seq<A>, f: A -> B): (r: seq<B>)
    ensures |r| == |s| && forall i :: 0 <= i < |s| ==> r[i] == f(s[i])
  {
    seq(|s|, i requires 0 <= i < |s| => f(s[i]))
  }

  /** Selecting from two orderings of the same elements gives two orderings
      of the same results. */
  lemma {:induction false} MapPermutation<A, B>(a: seq<A>, b: seq<A>, f: A -> B)
    requires multiset(a) == multiset(b)
    ensures multiset(Map(a, f)) == multiset(Map(b, f))
    decreases |a|
  {
    if a != [] {
      var i := IndexIn(b, a[0]);
      RemoveMatching(a, b, i);
      MapPermutation(a[1..], b[..i] + b[i + 1..], f);
      MapPermutationStep(a, b, i, f);
    }
  }

  /** A position of an element of the sequence. */
  lemma IndexIn<T>(s: seq<T>, x: T) returns (i: nat)
    requires x in multiset(s)
    ensures i < |s| && s[i] == x
  {
    assert x in s;
    i :| 0 <= i < |s| && s[i] == x;
  }

  /** Taking the same element out of two orderings of the same elements
      leaves two orderings of the same elements. */
  lemma RemoveMatching<T>(a: seq<T>, b: seq<T>, i: nat)
    requires multiset(a) == multiset(b) && a != [] && i < |b| && b[i] == a[0]
    ensures multiset(a[1..]) == multiset(b[..i] + b[i + 1..])
  {
    var x, rest := a[0], b[..i] + b[i + 1..];
    MultisetRemoveAt(b, i);
    assert multiset(rest) == multiset(b) - multiset{x};
    assert a == [x] + a[1..];
    assert multiset(a[1..]) == multiset(a) - multiset{x};
  }

  lemma MapPermutationStep<A, B>(a: seq<A>, b: seq<A>, i: nat, f: A -> B)
    requires a != [] && i < |b| && b[i] == a[0]
    requires multiset(Map(a[1..], f)) == multiset(Map(b[..i] + b[i + 1..], f))
    ensures multiset(Map(a, f)) == multiset(Map(b, f))
  {
    MapRemoveAt(a, 0, f);
    MapRemoveAt(b, i, f);
    assert a[..0] + a[1..] == a[1..];
  }

  /** Taking one element out of a sequence takes it out of its multiset. */
  lemma MultisetRemoveAt<T>(s: seq<T>, i: nat)
    requires i < |s|
    ensures multiset(s) == multiset(s[..i] + s[i + 1..]) + multiset{s[i]}
  {
    assert s == s[..i] + [s[i]] + s[i + 1..];
    assert multiset(s) == multiset(s[..i]) + multiset{s[i]} + multiset(s[i + 1..]);
  }

  lemma MapRemoveAt<A, B>(s: seq<A>, i: nat, f: A -> B)
    requires i < |s|
    ensures multiset(Map(s, f)) == multiset(Map(s[..i] + s[i + 1..], f)) + multiset{f(s[i])}
  {
    var m := Map(s, f);
    MultisetRemoveAt(m, i);
    assert m[..i] + m[i + 1..] == Map(s[..i] + s[i + 1..], f);
  }

  // ---------------------------------------------------------------------
  // Dictionaries filled entry by entry (later entries replace earlier ones)
  // ---------------------------------------------------------------------

  /** The dictionary of a sequence of optional entries, a later entry for a
      key replacing an earlier one. */
  function Collect<K, V>(entries: seq<Option<(K, V)>>): map<K, V>
  {
    if entries == [] then map[]
    else
      var labels := Collect(entries[..|entries| - 1]);
      match entries[|entries| - 1]
      case None => labels
      case Some(e) => labels[e.0 := e.1]
  }

  lemma {:induction false} CollectKeys<K, V>(es: seq<Option<(K, V)>>, name: K)
    ensures name in Collect(es) <==> exists k :: 0 <= k < |es| && es[k].Some? && es[k].value.0 == name
  {
    if es != [] {
      var init := es[..|es| - 1];
      CollectKeys(init, name);
      assert forall k :: 0 <= k < |init| ==> init[k] == es[k];
    }
  }

  /** A key of the dictionary has its value from some entry. */
  lemma {:induction false} CollectValueFrom<K, V>(es: seq<Option<(K, V)>>, name: K)
    requires name in Collect(es)
    ensures exists k :: 0 <= k < |es| && es[k] == Some((name, Collect(es)[name]))
  {
    var last := |es| - 1;
    var init := es[..last];
    if es[last].Some? && es[last].value.0 == name {
      assert es[last] == Some((name, Collect(es)[name]));
    } else {
      CollectValueFrom(init, name);
      var k :| 0 <= k < |init| && init[k] == Some((name, Collect(init)[name]));
      assert es[k] == init[k];
    }
  }

  lemma {:induction false} CollectLastWins<K, V>(es: seq<Option<(K, V)>>, k: nat)
    requires k < |es| && es[k].Some?
    requires forall j :: k < j < |es| && es[j].Some? ==> es[j].value.0 != es[k].value.0
    ensures es[k].value.0 in Collect(es) && Collect(es)[es[k].value.0] == es[k].value.1
  {
    var init := es[..|es| - 1];
    if k < |es| - 1 {
      assert forall j :: 0 <= j < |init| ==> init[j] == es[j];
      CollectLastWins(init, k);
    }
  }

  lemma {:induction false} CollectUniform<K, V>(es: seq<Option<(K, V)>>, name: K, text: V)
    requires exists k :: 0 <= k < |es| && es[k] == Some((name, text))
    requires forall k :: 0 <= k < |es| && es[k].Some? && es[k].value.0 == name ==> es[k].value.1 == text
    ensures name in Collect(es) && Collect(es)[name] == text
  {
    var last := |es| - 1;
    var init := es[..last];
    assert forall k :: 0 <= k < |init| ==> init[k] == es[k];
    if es[last] != Some((name, text)) {
      var k :| 0 <= k < |es| && es[k] == Some((name, text));
      assert k < last;
      CollectUniform(init, name, text);
    }
  }

  // ---------------------------------------------------------------------
  // Unions and selections over a sequence
  // ---------------------------------------------------------------------

  /** The union of the sets the elements give (a HashSet filled element by
      element). */
  function UnionOf<A, B>(s: seq<A>, f: A -> set<B>): set<B>
  {
    if s == [] then {} else UnionOf(s[..|s| - 1], f) + f(s[|s| - 1])
  }

  /** Something is in the union exactly when some element gives it. */
  lemma {:induction false} UnionOfMeans<A, B>(s: seq<A>, f: A -> set<B>, x: B)
    ensures x in UnionOf(s, f) <==> exists k :: 0 <= k < |s| && x in f(s[k])
  {
    if s != [] {
      var init := s[..|s| - 1];
      UnionOfMeans(init, f, x);
      assert forall k :: 0 <= k < |init| ==> init[k] == s[k];
    }
  }

  /** The results of the elements that give one, in order (a list filled by
      a loop that skips some elements). */
  function Choose<A, B>(s: seq<A>, f: A -> Option<B>): seq<B>
  {
    if s == [] then []
    else
      var init := Choose(s[..|s| - 1], f);
      match f(s[|s| - 1])
      case Some(y) => init + [y]
      case None => init
  }

  /** Every chosen result is the result of some element. */
  lemma {:induction false} ChooseFrom<A, B>(s: seq<A>, f: A -> Option<B>)
    ensures forall y :: y in Choose(s, f) ==> exists k :: 0 <= k < |s| && f(s[k]) == Some(y)
  {
    if s != [] {
      var init := s[..|s| - 1];
      ChooseFrom(init, f);
      assert forall k :: 0 <= k < |init| ==> init[k] == s[k];
    }
  }

  /** Nothing is chosen exactly when no element gives a result. */
  lemma {:induction false} ChooseEmpty<A, B>(s: seq<A>, f: A -> Option<B>)
    ensures Choose(s, f) == [] <==> forall k :: 0 <= k < |s| ==> f(s[k]).None?
  {
    if s != [] {
      var init := s[..|s| - 1];
      ChooseEmpty(init, f);
      assert forall k :: 0 <= k < |init| ==> init[k] == s[k];
    }
  }

  // ---------------------------------------------------------------------
  // Shuffles
  // ---------------------------------------------------------------------

  /** A shuffle (OrderBy(x => random) or OrderBy(x => Guid.NewGuid())) is
      some permutation of what it is given. */
  ghost predicate IsShuffle<T(!new)>(shuffle: seq<T> -> seq<T>)
  {
    forall s :: multiset(shuffle(s)) == multiset(s)
  }

  // ---------------------------------------------------------------------
  // Distinct
  // ---------------------------------------------------------------------

  predicate NoDuplicates<T(==)>(s: seq<T>)
  {
    forall i, j :: 0 <= i < j < |s| ==> s[i] != s[j]
  }

  /** Enumerable.Distinct: every element once, at its first occurrence. */
  function Distinct<T(==,!new)>(s: seq<T>): (r: seq<T>)
    ensures NoDuplicates(r)
    ensures forall x :: x in r <==> x in s
    ensures |r| <= |s|
  {
    if s == [] then []
    else
      var r := Distinct(s[..|s| - 1]);
      var x := s[|s| - 1];
      assert s == s[..|s| - 1] + [x];
      if x in r then r else r + [x]
  }

  /** List<T>.IndexOf: the position of the first element equal to `x`, or
      -1 when there is none. */
  function FirstIndex<T(==)>(s: seq<T>, x: T): (i: int)
    ensures -1 <= i < |s|
    ensures i == -1 <==> x !in s
    ensures 0 <= i ==> s[i] == x && x !in s[..i]
  {
    if s == [] then -1
    else if s[0] == x then 0
    else
      var j := FirstIndex(s[1..], x);
      assert j >= 0 ==> s[..j + 1] == [s[0]] + s[1..][..j];
      if j == -1 then -1 else j + 1
  }

  /** A sequence has no duplicates exactly when no element occurs twice in
      its multiset. */
  lemma {:induction false} NoDuplicatesCounts<T>(s: seq<T>)
    ensures NoDuplicates(s) <==> forall x :: multiset(s)[x] <= 1
  {
    if s != [] {
      var init, last := s[..|s| - 1], s[|s| - 1];
      assert s == init + [last];
      NoDuplicatesCounts(init);
      assert forall x :: multiset(s)[x] == multiset(init)[x] + (if x == last then 1 else 0);
      assert NoDuplicates(s) <==> NoDuplicates(init) && last !in init by {
        if NoDuplicates(s) {
          forall i | 0 <= i < |init| ensures init[i] != last {
            assert init[i] == s[i];
          }
        }
        if NoDuplicates(init) && last !in init {
          forall i, j | 0 <= i < j < |s| ensures s[i] != s[j] {
            assert s[i] == init[i];
            if j < |init| {
              assert s[j] == init[j];
            }
          }
        }
      }
      if forall x :: multiset(s)[x] <= 1 {
        assert multiset(init)[last] == 0;
      }
    }
  }

  /** Reordering keeps a sequence free of duplicates. */
  lemma PermutationNoDuplicates<T>(s: seq<T>, t: seq<T>)
    requires multiset(s) == multiset(t) && NoDuplicates(s)
    ensures NoDuplicates(t)
  {
    NoDuplicatesCounts(s);
    NoDuplicatesCounts(t);
  }

  /** Two sequences without duplicates that hold the same elements are
      reorderings of each other. */
  lemma SameElementsSameMultiset<T>(s: seq<T>, t: seq<T>)
    requires NoDuplicates(s) && NoDuplicates(t)
    requires forall x :: x in s <==> x in t
    ensures multiset(s) == multiset(t)
  {
    NoDuplicatesCounts(s);
    NoDuplicatesCounts(t);
    forall x ensures multiset(s)[x] == multiset(t)[x] {
      assert x in s <==> x in multiset(s);
      assert x in t <==> x in multiset(t);
    }
  }

  /** A sequence without duplicates has as many elements as its set. */
  lemma {:induction false} NoDuplicatesCard<T>(s: seq<T>)
    requires NoDuplicates(s)
    ensures |set x | x in s| == |s|
  {
    if s != [] {
      var init := s[..|s| - 1];
      var x := s[|s| - 1];
      assert s == init + [x];
      NoDuplicatesCard(init);
      assert (set y | y in s) == (set y | y in init) + {x};
      assert x !in init;
    }
  }

  // ---------------------------------------------------------------------
  // Ordering
  // ---------------------------------------------------------------------

  ghost predicate IsTotalPreorder<T(!new)>(le: (T, T) -> bool)
  {
    (forall a, b :: le(a, b) || le(b, a))
    && (forall a, b, c :: le(a, b) && le(b, c) ==> le(a, c))
  }

  predicate SortedBy<T>(s: seq<T>, le: (T, T) -> bool)
  {
    forall i, j :: 0 <= i < j < |s| ==> le(s[i], s[j])
  }

  /** The elements of `s` equivalent to `e` under `le`, in their order. */
  function EquivalentTo<T>(s: seq<T>, e: T, le: (T, T) -> bool): seq<T>
  {
    if s == [] then []
    else EquivalentTo(s[..|s| - 1], e, le) + (if le(s[|s| - 1], e) && le(e, s[|s| - 1]) then [s[|s| - 1]] else [])
  }

  /** Where OrderBy puts the next element: before the first element that is
      strictly greater. */
  function InsertPosition<T>(t: seq<T>, x: T, le: (T, T) -> bool): (p: nat)
    ensures p <= |t|
    ensures forall i :: 0 <= i < p ==> le(t[i], x)
    ensures p < |t| ==> !le(t[p], x)
  {
    if t == [] || !le(t[0], x) then 0 else 1 + InsertPosition(t[1..], x, le)
  }

  function Insert<T>(t: seq<T>, x: T, le: (T, T) -> bool): seq<T>
  {
    var p := InsertPosition(t, x, le);
    t[..p] + [x] + t[p..]
  }

  /** Enumerable.OrderBy: a stable sort under a total preorder. */
  function SortBy<T>(s: seq<T>, le: (T, T) -> bool): (r: seq<T>)
    ensures |r| == |s|
  {
    if s == [] then [] else Insert(SortBy(s[..|s| - 1], le), s[|s| - 1], le)
  }

  lemma InsertSorted<T(!new)>(t: seq<T>, x: T, le: (T, T) -> bool)
    requires IsTotalPreorder(le) && SortedBy(t, le)
    ensures SortedBy(Insert(t, x, le), le)
    ensures multiset(Insert(t, x, le)) == multiset(t) + multiset{x}
  {
    var p := InsertPosition(t, x, le);
    var r := Insert(t, x, le);
    assert t == t[..p] + t[p..];
    forall i, j | 0 <= i < j < |r| ensures le(r[i], r[j]) {
      if j < p || i > p {
      } else if i == p {
        assert le(x, t[p]);
        assert r[j] == t[j - 1];
      } else if j == p {
      } else {
        assert r[i] == t[i] && r[j] == t[j - 1];
      }
    }
  }

  /** Inserting keeps, for every equivalence class, the elements already
      placed ahead of the new one. */
  lemma InsertStable<T(!new)>(t: seq<T>, x: T, e: T, le: (T, T) -> bool)
    requires IsTotalPreorder(le) && SortedBy(t, le)
    ensures EquivalentTo(Insert(t, x, le), e, le)
         == EquivalentTo(t, e, le) + (if le(x, e) && le(e, x) then [x] else [])
  {
    if le(x, e) && le(e, x) {
      TailNotEquivalent(t, x, e, le);
    }
    InsertSplit(t, x, e, le);
  }

  lemma InsertSplit<T>(t: seq<T>, x: T, e: T, le: (T, T) -> bool)
    requires le(x, e) && le(e, x) ==> EquivalentTo(t[InsertPosition(t, x, le)..], e, le) == []
    ensures EquivalentTo(Insert(t, x, le), e, le)
         == EquivalentTo(t, e, le) + (if le(x, e) && le(e, x) then [x] else [])
  {
    var p := InsertPosition(t, x, le);
    var A := EquivalentTo(t[..p], e, le);
    var B := EquivalentTo(t[p..], e, le);
    var X := if le(x, e) && le(e, x) then [x] else [];
    InsertParts(t, x, e, le);
    if X == [] {
      assert (A + X) + B == A + B == (A + B) + X;
    } else {
      assert (A + X) + B == A + X == (A + B) + X;
    }
  }

  /** The equivalents of `e` before and after the insertion point. */
  lemma InsertParts<T>(t: seq<T>, x: T, e: T, le: (T, T) -> bool)
    ensures var p := InsertPosition(t, x, le);
      var X := if le(x, e) && le(e, x) then [x] else [];
      && EquivalentTo(t, e, le) == EquivalentTo(t[..p], e, le) + EquivalentTo(t[p..], e, le)
      && EquivalentTo(Insert(t, x, le), e, le) == (EquivalentTo(t[..p], e, le) + X) + EquivalentTo(t[p..], e, le)
  {
    var p := InsertPosition(t, x, le);
    var a := t[..p];
    var b := t[p..];
    var ax := a + [x];
    assert t == a + b;
    assert Insert(t, x, le) == ax + b;
    EquivalentToConcat(ax, b, e, le);
    EquivalentToConcat(a, b, e, le);
    assert ax[..|ax| - 1] == a;
  }

  /** Nothing after the insertion point is equivalent to the inserted element. */
  lemma TailNotEquivalent<T(!new)>(t: seq<T>, x: T, e: T, le: (T, T) -> bool)
    requires IsTotalPreorder(le) && SortedBy(t, le)
    requires le(x, e) && le(e, x)
    ensures EquivalentTo(t[InsertPosition(t, x, le)..], e, le) == []
  {
    var p := InsertPosition(t, x, le);
    var b := t[p..];
    forall k | 0 <= k < |b| ensures !(le(b[k], e) && le(e, b[k])) {
      assert b[k] == t[p + k];
      assert k == 0 || le(t[p], t[p + k]);
    }
    EquivalentToNone(b, e, le);
  }

  lemma {:induction false} EquivalentToConcat<T>(a: seq<T>, b: seq<T>, e: T, le: (T, T) -> bool)
    ensures EquivalentTo(a + b, e, le) == EquivalentTo(a, e, le) + EquivalentTo(b, e, le)
  {
    if b != [] {
      assert (a + b)[..|a + b| - 1] == a + b[..|b| - 1];
      EquivalentToConcat(a, b[..|b| - 1], e, le);
    } else {
      assert a + b == a;
    }
  }

  lemma {:induction false} EquivalentToNone<T>(b: seq<T>, e: T, le: (T, T) -> bool)
    requires forall k :: 0 <= k < |b| ==> !(le(b[k], e) && le(e, b[k]))
    ensures EquivalentTo(b, e, le) == []
  {
    if b != [] {
      EquivalentToNone(b[..|b| - 1], e, le);
    }
  }

  /** OrderBy sorts, loses and adds nothing, and keeps equivalent elements in
      their original order. */
  lemma {:induction false} SortByCorrect<T(!new)>(s: seq<T>, le: (T, T) -> bool)
    requires IsTotalPreorder(le)
    ensures SortedBy(SortBy(s, le), le)
    ensures multiset(SortBy(s, le)) == multiset(s)
    ensures forall e :: EquivalentTo(SortBy(s, le), e, le) == EquivalentTo(s, e, le)
  {
    if s != [] {
      var init := s[..|s| - 1];
      var x := s[|s| - 1];
      assert s == init + [x];
      SortByCorrect(init, le);
      InsertSorted(SortBy(init, le), x, le);
      forall e ensures EquivalentTo(SortBy(s, le), e, le) == EquivalentTo(s, e, le) {
        InsertStable(SortBy(init, le), x, e, le);
      }
    }
  }

  /** The ascending order of integers, OrderBy(n => n). */
  predicate AtMost(x: int, y: int)
  {
    x <= y
  }

  lemma AtMostIsTotalPreorder()
    ensures IsTotalPreorder(AtMost)
  {
  }

  /** Two ascending integer sequences with the same elements are equal. */
  lemma {:induction false} SortedIntsUnique(a: seq<int>, b: seq<int>)
    requires SortedBy(a, AtMost) && SortedBy(b, AtMost)
    requires multiset(a) == multiset(b)
    ensures a == b
  {
    assert |a| == |multiset(a)| == |multiset(b)| == |b|;
    if a != [] {
      SortedHeadIsLeast(a, b[0]);
      SortedHeadIsLeast(b, a[0]);
      assert a[0] == b[0];
      assert a == [a[0]] + a[1..] && b == [b[0]] + b[1..];
      assert multiset(a[1..]) == multiset(b[1..]) by {
        assert multiset(a) == multiset([a[0]] + a[1..]) == multiset{a[0]} + multiset(a[1..]);
        assert multiset(b) == multiset([b[0]] + b[1..]) == multiset{a[0]} + multiset(b[1..]);
        assert multiset(a[1..]) == multiset(a) - multiset{a[0]};
        assert multiset(b[1..]) == multiset(b) - multiset{a[0]};
      }
      SortedIntsUnique(a[1..], b[1..]);
    }
  }

  lemma SortedHeadIsLeast(a: seq<int>, x: int)
    requires SortedBy(a, AtMost)
    requires x in multiset(a)
    ensures a[0] <= x
  {
    var i :| 0 <= i < |a| && a[i] == x;
    if i > 0 {
      assert AtMost(a[0], a[i]);
    }
  }

  /** Two sequences sorted by the same order and holding the same elements
      are equal, when no two different elements of them are equivalent. */
  lemma {:induction false} SortedUnique<T>(a: seq<T>, b: seq<T>, le: (T, T) -> bool)
    requires SortedBy(a, le) && SortedBy(b, le)
    requires multiset(a) == multiset(b)
    requires forall x, y :: x in a && y in a && le(x, y) && le(y, x) ==> x == y
    ensures a == b
    decreases |a|
  {
    assert |a| == |multiset(a)| == |multiset(b)| == |b|;
    if a != [] {
      SortedHeads(a, b, le);
      MultisetTails(a, b);
      assert forall x :: x in a[1..] ==> x in a;
      SortedUnique(a[1..], b[1..], le);
      assert a == [a[0]] + a[1..] && b == [b[0]] + b[1..];
    }
  }

  lemma SortedHeads<T>(a: seq<T>, b: seq<T>, le: (T, T) -> bool)
    requires SortedBy(a, le) && SortedBy(b, le)
    requires multiset(a) == multiset(b) && a != []
    requires forall x, y :: x in a && y in a && le(x, y) && le(y, x) ==> x == y
    ensures |b| > 0 && a[0] == b[0]
  {
    assert |a| == |multiset(a)| == |multiset(b)| == |b|;
    assert b[0] in multiset(a) && a[0] in multiset(b);
    var i :| 0 <= i < |a| && a[i] == b[0];
    var j :| 0 <= j < |b| && b[j] == a[0];
    if i > 0 && j > 0 {
      assert le(a[0], a[i]) && le(b[0], b[j]);
    }
  }

  lemma MultisetTails<T>(a: seq<T>, b: seq<T>)
    requires multiset(a) == multiset(b) && a != [] && b != [] && a[0] == b[0]
    ensures multiset(a[1..]) == multiset(b[1..])
  {
    assert a == [a[0]] + a[1..] && b == [b[0]] + b[1..];
    assert multiset(a) == multiset{a[0]} + multiset(a[1..]);
    assert multiset(b) == multiset{a[0]} + multiset(b[1..]);
    assert multiset(a[1..]) == multiset(a) - multiset{a[0]} == multiset(b) - multiset{a[0]} == multiset(b[1..]);
  }

  /** The keys of an integer-keyed dictionary in ascending order
      (OrderBy(kvp => kvp.Key)). */
  function SortedKeys(s: set<int>): (r: seq<int>)
    ensures forall i, j :: 0 <= i < j < |r| ==> r[i] < r[j]
    ensures forall x :: x in r <==> x in s
    ensures |r| == |s|
    decreases |s|
  {
    if s == {} then []
    else
      var m := MinOf(s);
      var r := SortedKeys(s - {m});
      [m] + r
  }

  function MinOf(s: set<int>): (m: int)
    requires s != {}
    ensures m in s && forall x :: x in s ==> m <= x
  {
    MinExists(s);
    var m :| m in s && forall x :: x in s ==> m <= x;
    m
  }

  lemma MinExists(s: set<int>)
    requires s != {}
    ensures exists m :: m in s && forall x :: x in s ==> m <= x
    decreases |s|
  {
    var y := Pick(s);
    if s == {y} {
      assert forall x :: x in s ==> y <= x;
    } else {
      var rest := s - {y};
      assert |rest| == |s| - 1;
      MinExists(rest);
      var m :| m in rest && forall x :: x in rest ==> m <= x;
      var least := if y < m then y else m;
      forall x | x in s ensures least <= x {
        if x != y {
          assert x in rest;
        }
      }
      assert least in s;
    }
  }

  /** The characters of a set in ascending code order (OrderBy(c => c)). */
  function SortedChars(s: set<char>): (r: seq<char>)
    ensures forall i, j :: 0 <= i < j < |r| ==> r[i] < r[j]
    ensures forall x :: x in r <==> x in s
    decreases |s|
  {
    if s == {} then []
    else
      var m := MinChar(s);
      [m] + SortedChars(s - {m})
  }

  function MinChar(s: set<char>): (m: char)
    requires s != {}
    ensures m in s && forall x :: x in s ==> m <= x
  {
    var codes := set c | c in s :: c as int;
    assert codes != {} by {
      var y := Pick(s);
      assert y as int in codes;
    }
    var k := MinOf(codes);
    var m :| m in s && m as int == k;
    assert forall x :: x in s ==> x as int in codes;
    m
  }
}

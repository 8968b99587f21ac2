/** What the shape of a tree is determined by, and what a walk of it lists. */
module TrieTheory {
  import opened Wrappers
  import opened Keys
  import opened Trie

  // ----- the shape depends only on the contents -----

  ghost function MaxLen(s: set<Key>): (n: nat)
    ensures forall k :: k in s ==> |k| <= n
  {
    if s == {} then 0
    else
      var k :| k in s;
      var n := MaxLen(s - {k});
      assert forall q :: q in s ==> q == k || q in s - {k};
      if |k| < n then n else |k|
  }

  /** A well-formed tree contains the branching point of any two of its nodes. */
  lemma {:induction false} BranchingPointsAreNodes<T>(t: Trie<T>, k: Key, a: Key, b: Key)
    requires WellFormed(t) && k in t && a in t && b in t && k <= a && k <= b
    ensures Lcp(a, b) in t
    decreases |a| - |k|
  {
    if k == a || k == b {
      assert a[..|k|] == k == b[..|k|];
      SharedUnique(a, b, |k|);
    } else {
      var i := WayDown(t, k, a);
      var j := WayDown(t, k, b);
      if i == j {
        BranchingPointsAreNodes(t, t[k].kids[i], a, b);
      } else {
        assert a[..|k|] == k == b[..|k|];
        SharedUnique(a, b, |k|);
      }
    }
  }

  /** In a compressed tree every node but the root has a stored key at or below it. */
  lemma {:induction false} StoredKeyBelow<T>(t: Trie<T>, k: Key) returns (q: Key)
    requires WellFormed(t) && Compressed(t) && k in t && k != []
    ensures q in Contents(t) && k <= q
    decreases MaxLen(t.Keys) - |k|
  {
    if t[k].leaf.Some? {
      q := k;
    } else {
      assert SoundKids(t, k) && t[k].kids[0] in t;
      q := StoredKeyBelow(t, t[k].kids[0]);
    }
  }

  /** In a compressed tree the nodes are exactly the root, the stored keys and
      the branching points of pairs of stored keys. */
  lemma NodesOfCompressed<T>(t: Trie<T>, k: Key)
    requires WellFormed(t) && Compressed(t)
    ensures k in t <==>
      k == [] || k in Contents(t) || exists a, b :: a in Contents(t) && b in Contents(t) && Lcp(a, b) == k
  {
    if k in t && k != [] && k !in Contents(t) {
      assert SoundKids(t, k) && |t[k].kids| >= 2;
      var x, y := t[k].kids[0], t[k].kids[1];
      assert x[|k|] < y[|k|];
      var a := StoredKeyBelow(t, x);
      var b := StoredKeyBelow(t, y);
      assert a[..|k|] == k == b[..|k|] && a[|k|] == x[|k|] && b[|k|] == y[|k|];
      SharedUnique(a, b, |k|);
    }
    forall a, b | a in Contents(t) && b in Contents(t)
      ensures Lcp(a, b) in t
    {
      BranchingPointsAreNodes(t, [], a, b);
    }
  }

  /** The kids of k are the nodes below it with no node between. */
  lemma KidsAreNearest<T>(t: Trie<T>, k: Key, q: Key)
    requires WellFormed(t) && k in t
    ensures q in t[k].kids <==> q in t && k < q && !exists m :: m in t && k < m < q
  {
    assert SoundKids(t, k);
    if q in t[k].kids {
      forall m | m in t && k < m
        ensures !(m < q)
      {
        var i := WayDown(t, k, m);
      }
    } else if q in t && k < q {
      var i := WayDown(t, k, q);
      assert t[k].kids[i] in t[k].kids && t[k].kids[i] != q;
    }
  }

  lemma KidsAscend<T>(t: Trie<T>, k: Key)
    requires WellFormed(t) && k in t
    ensures Ascending(t[k].kids)
  {
    assert SoundKids(t, k);
    forall i, j | 0 <= i < j < |t[k].kids|
      ensures Before(t[k].kids[i], t[k].kids[j])
    {
      BranchIsBefore(k, t[k].kids[i], t[k].kids[j]);
    }
  }

  /** Two compressed trees that hold the same map are the same tree: same nodes,
      same prefixes, same edges in the same order, same values. */
  lemma ShapeIsDetermined<T>(t: Trie<T>, u: Trie<T>)
    requires WellFormed(t) && Compressed(t) && WellFormed(u) && Compressed(u)
    requires Contents(t) == Contents(u)
    ensures t == u
  {
    forall k
      ensures k in t <==> k in u
    {
      NodesOfCompressed(t, k);
      NodesOfCompressed(u, k);
    }
    forall k | k in t
      ensures t[k].leaf == u[k].leaf && t[k].kids == u[k].kids
    {
      assert k in Contents(t) <==> k in Contents(u);
      forall q
        ensures q in t[k].kids <==> q in u[k].kids
      {
        KidsAreNearest(t, k, q);
        KidsAreNearest(u, k, q);
      }
      KidsAscend(t, k);
      KidsAscend(u, k);
      AscendingIsUnique(t[k].kids, u[k].kids);
    }
    forall k | k in t && k != []
      ensures t[k].prefix == u[k].prefix
    {
      var p, i := Parent(t, k, []);
      assert SoundKids(t, p) && SoundPrefixes(t, p) && SoundKids(u, p) && SoundPrefixes(u, p);
      assert u[p].kids[i] == k;
    }
  }

  // ----- walking -----

  /** The stored keys at and below k in the order of a pre-order walk. */
  ghost function Listing<T>(t: Trie<T>, k: Key): seq<Key>
    requires WellFormed(t) && k in t
    decreases MaxLen(t.Keys) - |k|, |t[k].kids| + 1
  {
    (if t[k].leaf.Some? then [k] else []) + ListKids(t, k, 0)
  }

  ghost function ListKids<T>(t: Trie<T>, k: Key, i: nat): seq<Key>
    requires WellFormed(t) && k in t && i <= |t[k].kids|
    decreases MaxLen(t.Keys) - |k|, |t[k].kids| - i
  {
    if i == |t[k].kids| then []
    else
      assert SoundKids(t, k);
      Listing(t, t[k].kids[i]) + ListKids(t, k, i + 1)
  }

  lemma AscendingConcat(s: seq<Key>, u: seq<Key>)
    requires Ascending(s) && Ascending(u)
    requires forall a, b :: a in s && b in u ==> Before(a, b)
    ensures Ascending(s + u)
  {
  }

  lemma {:induction false} ListingIsSorted<T>(t: Trie<T>, k: Key)
    requires WellFormed(t) && k in t
    ensures forall q :: q in Listing(t, k) <==> q in Contents(t) && k <= q
    ensures Ascending(Listing(t, k))
    decreases MaxLen(t.Keys) - |k|, |t[k].kids| + 1
  {
    ListKidsIsSorted(t, k, 0);
    assert SoundKids(t, k);
    forall q | q in Contents(t) && k <= q
      ensures q in Listing(t, k)
    {
      if |q| > |k| {
        var i := WayDown(t, k, q);
      } else {
        assert q == k;
      }
    }
    forall q | q in ListKids(t, k, 0)
      ensures k < q && Before(k, q)
    {
      PrefixIsBefore(k, q);
    }
    var own := if t[k].leaf.Some? then [k] else [];
    AscendingConcat(own, ListKids(t, k, 0));
    assert Listing(t, k) == own + ListKids(t, k, 0);
  }

  lemma {:induction false} ListKidsIsSorted<T>(t: Trie<T>, k: Key, i: nat)
    requires WellFormed(t) && k in t && i <= |t[k].kids|
    ensures forall q :: q in ListKids(t, k, i) <==>
      q in Contents(t) && exists j :: i <= j < |t[k].kids| && t[k].kids[j] <= q
    ensures Ascending(ListKids(t, k, i))
    decreases MaxLen(t.Keys) - |k|, |t[k].kids| - i
  {
    if i < |t[k].kids| {
      assert SoundKids(t, k);
      var kids := t[k].kids;
      ListingIsSorted(t, kids[i]);
      ListKidsIsSorted(t, k, i + 1);
      forall a, b | a in Listing(t, kids[i]) && b in ListKids(t, k, i + 1)
        ensures Before(a, b)
      {
        var j :| i + 1 <= j < |kids| && kids[j] <= b;
        assert a[|k|] == kids[i][|k|] && b[|k|] == kids[j][|k|];
        BranchIsBefore(k, a, b);
      }
      AscendingConcat(Listing(t, kids[i]), ListKids(t, k, i + 1));
    }
  }

  /** The subsequence of the keys that start with p. */
  function StartingWith(ks: seq<Key>, p: Key): seq<Key> {
    if ks == [] then []
    else (if p <= ks[0] then [ks[0]] else []) + StartingWith(ks[1..], p)
  }

  lemma {:induction false} StartingWithKeepsOrder(ks: seq<Key>, p: Key)
    requires Ascending(ks)
    ensures Ascending(StartingWith(ks, p))
    ensures forall k :: k in StartingWith(ks, p) <==> k in ks && p <= k
  {
    if ks != [] {
      StartingWithKeepsOrder(ks[1..], p);
      assert ks == [ks[0]] + ks[1..];
      assert forall k :: k in ks[1..] ==> Before(ks[0], k);
    }
  }

  /** The keys below the first node at or past p are those of the whole listing that start with p. */
  lemma ListingUnderPrefix<T>(t: Trie<T>, n: Key, p: Key)
    requires WellFormed(t) && n in t && p <= n
    requires forall q :: q in Contents(t) && p <= q ==> n <= q
    ensures Listing(t, n) == StartingWith(Listing(t, []), p)
  {
    ListingIsSorted(t, n);
    ListingIsSorted(t, []);
    StartingWithKeepsOrder(Listing(t, []), p);
    AscendingIsUnique(Listing(t, n), StartingWith(Listing(t, []), p));
  }

  lemma NothingUnderPrefix<T>(t: Trie<T>, p: Key)
    requires WellFormed(t)
    requires forall q :: q in Contents(t) ==> !(p <= q)
    ensures StartingWith(Listing(t, []), p) == []
  {
    ListingIsSorted(t, []);
    StartingWithKeepsOrder(Listing(t, []), p);
    AscendingIsUnique([], StartingWith(Listing(t, []), p));
  }

  // ----- the stored prefixes of a key -----

  /** The prefixes of s shorter than n that m stores, shortest first. */
  function StoredPrefixes<T>(m: map<Key, T>, s: Key, n: nat): seq<Key>
    requires n <= |s| + 1
  {
    if n == 0 then []
    else StoredPrefixes(m, s, n - 1) + if s[..n - 1] in m then [s[..n - 1]] else []
  }

  lemma {:induction false} StoredPrefixesGap<T>(m: map<Key, T>, s: Key, lo: nat, hi: nat)
    requires lo <= hi <= |s| + 1
    requires forall j :: lo <= j < hi ==> s[..j] !in m
    ensures StoredPrefixes(m, s, hi) == StoredPrefixes(m, s, lo)
  {
    if lo < hi {
      StoredPrefixesGap(m, s, lo, hi - 1);
    }
  }

  /** StoredPrefixes lists exactly the stored prefixes, in increasing length. */
  lemma {:induction false} StoredPrefixesIsExact<T>(m: map<Key, T>, s: Key, n: nat)
    requires n <= |s| + 1
    ensures forall k :: k in StoredPrefixes(m, s, n) <==> k in m && k <= s && |k| < n
    ensures forall i, j :: 0 <= i < j < |StoredPrefixes(m, s, n)| ==>
      |StoredPrefixes(m, s, n)[i]| < |StoredPrefixes(m, s, n)[j]|
  {
    if n > 0 {
      StoredPrefixesIsExact(m, s, n - 1);
      forall k | k <= s && |k| == n - 1
        ensures k == s[..n - 1]
      {
      }
    }
  }

  lemma {:induction false} StoredPrefixesGrow<T>(m: map<Key, T>, s: Key, lo: nat, hi: nat)
    requires lo <= hi <= |s| + 1
    ensures StoredPrefixes(m, s, lo) <= StoredPrefixes(m, s, hi)
  {
    if lo < hi {
      StoredPrefixesGrow(m, s, lo, hi - 1);
    }
  }

  /** Where edge i of k does not lie on s up to length hi, no prefix of s beyond k is a node. */
  lemma NoPrefixOnEdge<T>(t: Trie<T>, k: Key, i: nat, s: Key, hi: nat)
    requires WellFormed(t) && k in t && i < |t[k].kids| && k < s && hi <= |s| + 1
    requires k < t[k].kids[i] && t[k].kids[i][|k|] == s[|k|]
    requires |t[k].kids[i]| >= hi || !(t[k].kids[i] <= s)
    ensures forall j :: |k| < j < hi ==> s[..j] !in t
  {
    forall j | |k| < j < hi
      ensures s[..j] !in t
    {
      assert k == s[..j][..|k|];
      if t[k].kids[i] <= s[..j] { PrefixOfPrefix(t[k].kids[i], s, j); }
      EdgeIsBare(t, k, i, s[..j]);
    }
  }

  // ----- the ends of a walk -----

  /** A node that a subtree deletion emptied, or an empty root. */
  ghost predicate DeadEnd<T>(t: Trie<T>, d: Key) {
    d in t && t[d].leaf.None? && t[d].kids == []
  }

  /** Some dead end precedes every stored key. */
  ghost predicate EmptiedFirst<T>(t: Trie<T>) {
    exists d :: DeadEnd(t, d) && forall q :: q in Contents(t) ==> Before(d, q)
  }

  /** Every stored key precedes some dead end. */
  ghost predicate EmptiedLast<T>(t: Trie<T>) {
    exists d :: DeadEnd(t, d) && forall q :: q in Contents(t) ==> Before(q, d)
  }

  lemma NothingBelowDeadEnd<T>(t: Trie<T>, d: Key, q: Key)
    requires WellFormed(t) && d in t && t[d].kids == [] && q in t
    ensures !(d < q)
  {
    if d < q {
      var i := WayDown(t, d, q);
    }
  }

  /** Dead ends come from subtree deletions only: in a compressed tree, none precedes or
      follows all stored keys, unless there are none. */
  lemma CompressedHasNoDeadEnd<T>(t: Trie<T>)
    requires WellFormed(t) && Compressed(t)
    ensures EmptiedFirst(t) <==> Contents(t) == map[]
    ensures EmptiedLast(t) <==> Contents(t) == map[]
  {
    if Contents(t) == map[] {
      if t[[]].kids != [] {
        assert SoundKids(t, []);
        var q := StoredKeyBelow(t, t[[]].kids[0]);
      }
      assert [] !in Contents(t);
      assert DeadEnd(t, []);
    } else {
      var q :| q in Contents(t);
      forall d | DeadEnd(t, d)
        ensures d == [] && q == []
      {
        NothingBelowDeadEnd(t, d, q);
      }
    }
  }

  /** All nodes but k come after it, or lie on the way to it and store nothing. */
  ghost predicate LeadsFirst<T>(t: Trie<T>, k: Key) {
    k in t && forall q :: q in t ==> q == k || Before(k, q) || (q < k && t[q].leaf.None?)
  }

  /** All nodes that are not below k come before it. */
  ghost predicate LeadsLast<T>(t: Trie<T>, k: Key) {
    k in t && forall q :: q in t ==> k <= q || Before(q, k)
  }

  /** The root leads to the first and to the last node. */
  lemma RootLeads<T>(t: Trie<T>)
    requires WellFormed(t)
    ensures LeadsFirst(t, []) && LeadsLast(t, [])
  {
  }

  lemma FirstEdgeLeads<T>(t: Trie<T>, k: Key)
    requires WellFormed(t) && LeadsFirst(t, k) && t[k].leaf.None? && t[k].kids != []
    ensures LeadsFirst(t, t[k].kids[0])
  {
    assert SoundKids(t, k);
    var c := t[k].kids[0];
    forall q | q in t && q <= k
      ensures q < c
    {
      PrefixTransitive(q, k, c);
    }
    forall q | q in t && q != c && !(q < c && t[q].leaf.None?)
      ensures Before(c, q)
    {
      if k < q {
        var j := WayDown(t, k, q);
        if j == 0 {
          PrefixIsBefore(c, q);
        } else {
          BranchIsBefore(k, c, q);
        }
      } else {
        assert q != k && Before(k, q);
        BeforeExtends(k, q, c);
      }
    }
  }

  lemma LastEdgeLeads<T>(t: Trie<T>, k: Key)
    requires WellFormed(t) && LeadsLast(t, k) && t[k].kids != []
    ensures LeadsLast(t, t[k].kids[|t[k].kids| - 1])
  {
    assert SoundKids(t, k);
    var l := |t[k].kids| - 1;
    var c := t[k].kids[l];
    PrefixIsBefore(k, c);
    forall q | q in t && !(c <= q)
      ensures Before(q, c)
    {
      if k < q {
        var j := WayDown(t, k, q);
        BranchIsBefore(k, q, c);
      } else if q != k {
        BeforeIsTransitive(q, k, c);
      }
    }
  }

  lemma FirstEnds<T>(t: Trie<T>, k: Key)
    requires WellFormed(t) && LeadsFirst(t, k) && (t[k].leaf.Some? || t[k].kids == [])
    ensures EmptiedFirst(t) <==> t[k].leaf.None?
  {
    if t[k].leaf.None? {
      assert DeadEnd(t, k);
      forall q | q in Contents(t)
        ensures Before(k, q)
      {
      }
    } else if EmptiedFirst(t) {
      var d :| DeadEnd(t, d) && forall q :: q in Contents(t) ==> Before(d, q);
      NothingBelowDeadEnd(t, d, k);
      BeforeIsTransitive(k, d, k);
      BeforeIsIrreflexive(k);
    }
  }

  lemma LastEnds<T>(t: Trie<T>, k: Key)
    requires WellFormed(t) && LeadsLast(t, k) && t[k].kids == []
    ensures EmptiedLast(t) <==> t[k].leaf.None?
  {
    if t[k].leaf.None? {
      assert DeadEnd(t, k);
      forall q | q in Contents(t)
        ensures Before(q, k)
      {
        NothingBelowDeadEnd(t, k, q);
        assert k <= q ==> k == q;
      }
    } else if EmptiedLast(t) {
      var d :| DeadEnd(t, d) && forall q :: q in Contents(t) ==> Before(q, d);
      NothingBelowDeadEnd(t, k, d);
      assert k <= d ==> k == d;
      BeforeIsTransitive(k, d, k);
      BeforeIsIrreflexive(k);
    }
  }

  // ----- counting -----

  lemma {:induction false} AscendingHasNoRepeats(s: seq<Key>)
    requires Ascending(s)
    ensures |set k | k in s| == |s|
  {
    if s != [] {
      AscendingHasNoRepeats(s[1..]);
      BeforeIsIrreflexive(s[0]);
      assert forall k :: k in s[1..] ==> Before(s[0], k);
      assert (set k | k in s) == (set k | k in s[1..]) + {s[0]};
    } else {
      assert (set k | k in s) == {};
    }
  }

  /** Cutting below k removes as many stored keys as a walk from k lists. */
  lemma PruneCounts<T>(t: Trie<T>, k: Key)
    requires WellFormed(t) && k in t
    ensures |Contents(Prune(t, k))| + |Listing(t, k)| == |Contents(t)|
  {
    PruneKeeps(t, k);
    ListingIsSorted(t, k);
    AscendingHasNoRepeats(Listing(t, k));
    var gone := set q | q in Listing(t, k);
    assert Contents(t).Keys == Contents(Prune(t, k)).Keys + gone;
    assert Contents(Prune(t, k)).Keys * gone == {};
    assert |Contents(t)| == |Contents(t).Keys| && |Contents(Prune(t, k))| == |Contents(Prune(t, k)).Keys|;
  }

  // ----- visitors -----

  /** A visitor is shown the visits made so far, the current one last, and says
      whether to stop.  This is what a walk over xs makes it see, after `seen`. */
  ghost function UntilStop<A>(fn: seq<A> -> bool, seen: seq<A>, xs: seq<A>): (r: (seq<A>, bool))
    ensures !r.1 ==> r.0 == seen + xs
    decreases |xs|
  {
    if xs == [] then (seen, false)
    else if fn(seen + [xs[0]]) then (seen + [xs[0]], true)
    else UntilStop(fn, seen + [xs[0]], xs[1..])
  }

  /** What a visitor is shown of xs: all of it, or as much as ends with the first visit at which
      it says stop. */
  ghost predicate ShownUntilStop<A>(fn: seq<A> -> bool, xs: seq<A>, visited: seq<A>) {
    && visited <= xs && (visited == xs || (visited != [] && fn(visited)))
    && forall n :: 0 < n < |visited| ==> !fn(visited[..n])
  }

  lemma {:induction false} UntilStopIsExact<A>(fn: seq<A> -> bool, seen: seq<A>, xs: seq<A>)
    ensures var (visited, stop) := UntilStop(fn, seen, xs);
      && seen <= visited <= seen + xs
      && (stop ==> |seen| < |visited| && fn(visited))
      && forall n :: |seen| < n <= |visited| && fn(visited[..n]) ==> stop && n == |visited|
    decreases |xs|
  {
    if xs != [] {
      var next := seen + [xs[0]];
      assert next + xs[1..] == seen + xs;
      if !fn(next) {
        UntilStopIsExact(fn, next, xs[1..]);
        var visited := UntilStop(fn, next, xs[1..]).0;
        assert visited[..|next|] == next;
      } else {
        assert next[..|next|] == next;
      }
    }
  }

  lemma {:induction false} ShownIsExact<A>(fn: seq<A> -> bool, xs: seq<A>)
    ensures ShownUntilStop(fn, xs, UntilStop(fn, [], xs).0)
  {
    UntilStopIsExact(fn, [], xs);
    assert [] + xs == xs;
  }

  lemma {:induction false} UntilStopConcat<A>(fn: seq<A> -> bool, seen: seq<A>, xs: seq<A>, ys: seq<A>)
    ensures var r := UntilStop(fn, seen, xs);
      UntilStop(fn, seen, xs + ys) == if r.1 then r else UntilStop(fn, r.0, ys)
    decreases |xs|
  {
    if xs == [] {
      assert xs + ys == ys;
    } else {
      assert (xs + ys)[0] == xs[0] && (xs + ys)[1..] == xs[1..] + ys;
      UntilStopConcat(fn, seen + [xs[0]], xs[1..], ys);
    }
  }

  /** The visitor that lets a walk finish. */
  predicate Never<A>(visits: seq<A>) {
    false
  }

  lemma {:induction false} NeverStops<A>(seen: seq<A>, xs: seq<A>)
    ensures UntilStop(Never<A>, seen, xs) == (seen + xs, false)
    decreases |xs|
  {
    if xs != [] {
      NeverStops(seen + [xs[0]], xs[1..]);
    }
  }

  // ----- entries: keys with their values -----

  /** Those of the keys that m stores, each with its value. */
  function Entries<T>(m: map<Key, T>, ks: seq<Key>): seq<(Key, T)> {
    if ks == [] then []
    else (if ks[0] in m then [(ks[0], m[ks[0]])] else []) + Entries(m, ks[1..])
  }

  lemma ConcatAssociates<A>(xs: seq<A>, ys: seq<A>, zs: seq<A>)
    ensures xs + (ys + zs) == xs + ys + zs
  {
  }

  lemma {:induction false} EntriesConcat<T>(m: map<Key, T>, xs: seq<Key>, ys: seq<Key>)
    ensures Entries(m, xs + ys) == Entries(m, xs) + Entries(m, ys)
  {
    if xs == [] {
      assert xs + ys == ys;
    } else {
      EntriesConcat(m, xs[1..], ys);
      assert (xs + ys)[0] == xs[0] && (xs + ys)[1..] == xs[1..] + ys;
      ConcatAssociates(if xs[0] in m then [(xs[0], m[xs[0]])] else [], Entries(m, xs[1..]), Entries(m, ys));
    }
  }

  lemma {:induction false} EntriesPair<T>(m: map<Key, T>, ks: seq<Key>)
    requires forall k :: k in ks ==> k in m
    ensures |Entries(m, ks)| == |ks|
    ensures forall i :: 0 <= i < |ks| ==> ks[i] in m && Entries(m, ks)[i] == (ks[i], m[ks[i]])
  {
    if ks != [] {
      EntriesPair(m, ks[1..]);
    }
  }

  /** What a complete walk from k shows. */
  ghost function Walked<T>(t: Trie<T>, k: Key): seq<(Key, T)>
    requires WellFormed(t) && k in t
  {
    Entries(Contents(t), Listing(t, k))
  }

  ghost function WalkedKids<T>(t: Trie<T>, k: Key, i: nat): seq<(Key, T)>
    requires WellFormed(t) && k in t && i <= |t[k].kids|
  {
    Entries(Contents(t), ListKids(t, k, i))
  }

  ghost function Own<T>(t: Trie<T>, k: Key): seq<(Key, T)>
    requires k in t
  {
    if t[k].leaf.Some? then [(k, t[k].leaf.value)] else []
  }

  lemma WalkedUnfolds<T>(t: Trie<T>, k: Key)
    requires WellFormed(t) && k in t
    ensures Walked(t, k) == Own(t, k) + WalkedKids(t, k, 0)
  {
    var own := if t[k].leaf.Some? then [k] else [];
    EntriesConcat(Contents(t), own, ListKids(t, k, 0));
    assert t[k].leaf.Some? ==> Entries(Contents(t), [k]) == [(k, t[k].leaf.value)] + Entries(Contents(t), []);
  }

  lemma WalkedKidsUnfolds<T>(t: Trie<T>, k: Key, i: nat)
    requires WellFormed(t) && k in t && i < |t[k].kids|
    ensures t[k].kids[i] in t && k < t[k].kids[i]
    ensures WalkedKids(t, k, i) == Walked(t, t[k].kids[i]) + WalkedKids(t, k, i + 1)
  {
    assert SoundKids(t, k);
    EntriesConcat(Contents(t), Listing(t, t[k].kids[i]), ListKids(t, k, i + 1));
  }

  /** The entries of m whose keys satisfy the condition, each once, in increasing order of keys. */
  ghost predicate SortedEntries<T>(m: map<Key, T>, cond: Key -> bool, es: seq<(Key, T)>) {
    && (forall i, j :: 0 <= i < j < |es| ==> Before(es[i].0, es[j].0))
    && (forall i :: 0 <= i < |es| ==> es[i].0 in m && m[es[i].0] == es[i].1 && cond(es[i].0))
    && forall k :: k in m && cond(k) ==> (k, m[k]) in es
  }

  lemma {:induction false} EntriesAreSorted<T>(m: map<Key, T>, ks: seq<Key>, cond: Key -> bool)
    requires Ascending(ks) && forall k :: k in ks <==> k in m && cond(k)
    ensures SortedEntries(m, cond, Entries(m, ks))
  {
    EntriesPair(m, ks);
    var es := Entries(m, ks);
    forall k | k in m && cond(k)
      ensures (k, m[k]) in es
    {
      var i :| 0 <= i < |ks| && ks[i] == k;
      assert es[i] == (k, m[k]);
    }
  }

  /** A complete walk from a node shows all entries below it. */
  lemma {:induction false} WalkedIsSorted<T>(t: Trie<T>, k: Key)
    requires WellFormed(t) && k in t
    ensures SortedEntries(Contents(t), q => k <= q, Walked(t, k))
  {
    ListingIsSorted(t, k);
    EntriesAreSorted(Contents(t), Listing(t, k), q => k <= q);
  }

  /** A complete walk shows the whole map, each key once, in increasing order. */
  lemma {:induction false} WalkIsTheSortedMap<T>(t: Trie<T>)
    requires WellFormed(t)
    ensures |Walked(t, [])| == |Contents(t)|
    ensures forall i, j :: 0 <= i < j < |Walked(t, [])| ==> Before(Walked(t, [])[i].0, Walked(t, [])[j].0)
    ensures forall e :: e in Walked(t, []) <==> e.0 in Contents(t) && Contents(t)[e.0] == e.1
  {
    var ks := Listing(t, []);
    ListingIsSorted(t, []);
    AscendingHasNoRepeats(ks);
    assert (set k | k in ks) == Contents(t).Keys;
    EntriesPair(Contents(t), ks);
    WalkedIsSorted(t, []);
    forall e: (Key, T) | e.0 in Contents(t) && Contents(t)[e.0] == e.1
      ensures e in Walked(t, [])
    {
      assert e == (e.0, Contents(t)[e.0]);
    }
  }

  lemma WalkStarts<T>(t: Trie<T>, fn: seq<(Key, T)> -> bool, seen: seq<(Key, T)>, k: Key)
    requires WellFormed(t) && k in t
    ensures var r := UntilStop(fn, seen, Own(t, k));
      UntilStop(fn, seen, Walked(t, k)) == if r.1 then r else UntilStop(fn, r.0, WalkedKids(t, k, 0))
  {
    WalkedUnfolds(t, k);
    UntilStopConcat(fn, seen, Own(t, k), WalkedKids(t, k, 0));
  }

  lemma WalkGoesOn<T>(t: Trie<T>, fn: seq<(Key, T)> -> bool, seen: seq<(Key, T)>, k: Key, i: nat)
    requires WellFormed(t) && k in t && i < |t[k].kids|
    ensures t[k].kids[i] in t && k < t[k].kids[i]
    ensures var r := UntilStop(fn, seen, Walked(t, t[k].kids[i]));
      UntilStop(fn, seen, WalkedKids(t, k, i)) == if r.1 then r else UntilStop(fn, r.0, WalkedKids(t, k, i + 1))
  {
    WalkedKidsUnfolds(t, k, i);
    UntilStopConcat(fn, seen, Walked(t, t[k].kids[i]), WalkedKids(t, k, i + 1));
  }

  /** What a complete walk shows, cut down to the keys that start with p. */
  ghost function WalkedUnder<T>(t: Trie<T>, p: Key): seq<(Key, T)>
    requires WellFormed(t)
  {
    Entries(Contents(t), StartingWith(Listing(t, []), p))
  }

  /** It shows all entries whose keys start with p, in increasing order of keys. */
  lemma {:induction false} WalkedUnderIsSorted<T>(t: Trie<T>, p: Key)
    requires WellFormed(t)
    ensures SortedEntries(Contents(t), q => p <= q, WalkedUnder(t, p))
  {
    ListingIsSorted(t, []);
    StartingWithKeepsOrder(Listing(t, []), p);
    EntriesAreSorted(Contents(t), StartingWith(Listing(t, []), p), q => p <= q);
  }

  /** Past a mismatch inside edge i nothing starts with the prefix. */
  lemma NothingOnEdge<T>(t: Trie<T>, k: Key, i: nat, p: Key)
    requires WellFormed(t) && k in t && i < |t[k].kids| && k < p
    requires k < t[k].kids[i] && t[k].kids[i][|k|] == p[|k|]
    requires !(t[k].kids[i] <= p) && !(p <= t[k].kids[i])
    ensures forall q :: q in t ==> !(p <= q)
    ensures WalkedUnder(t, p) == []
  {
    EdgeIsBare(t, k, i, p);
    var c := t[k].kids[i];
    forall q | q in t
      ensures !(p <= q)
    {
      if c <= q && p <= q { PrefixesAgree(c, p, q); }
    }
    NothingUnderPrefix(t, p);
  }

  // ----- the ends of a walk -----

  lemma FirstStep<T>(t: Trie<T>, k: Key)
    requires WellFormed(t) && k in t
    ensures t[k].leaf.Some? ==> Walked(t, k) != [] && Walked(t, k)[0] == (k, t[k].leaf.value)
    ensures t[k].leaf.None? && t[k].kids != [] ==>
      t[k].kids[0] in t && k < t[k].kids[0] && Walked(t, t[k].kids[0]) <= Walked(t, k)
  {
    WalkedUnfolds(t, k);
    assert SoundKids(t, k);
    if t[k].kids != [] {
      WalkedKidsUnfolds(t, k, 0);
    }
  }

  /** The last kid's entries come last. */
  lemma {:induction false} LastKid<T>(t: Trie<T>, k: Key, i: nat)
    requires WellFormed(t) && k in t && i < |t[k].kids|
    ensures var q := t[k].kids[|t[k].kids| - 1];
      q in t && k < q && (Walked(t, q) != [] ==> LastOf(WalkedKids(t, k, i)) == LastOf(Walked(t, q)))
    decreases |t[k].kids| - i
  {
    WalkedKidsUnfolds(t, k, i);
    var rest := WalkedKids(t, k, i + 1);
    if i == |t[k].kids| - 1 {
      assert rest == [];
      assert WalkedKids(t, k, i) == Walked(t, t[k].kids[i]);
    } else {
      LastKid(t, k, i + 1);
      LastOfConcat(Walked(t, t[k].kids[i]), rest);
    }
  }

  lemma LastOfConcat<A>(xs: seq<A>, ys: seq<A>)
    ensures LastOf(xs + ys) == if ys == [] then LastOf(xs) else LastOf(ys)
  {
    assert ys == [] ==> xs + ys == xs;
  }

  lemma LastStep<T>(t: Trie<T>, k: Key)
    requires WellFormed(t) && k in t
    ensures t[k].kids == [] ==> Walked(t, k) == Own(t, k)
    ensures t[k].kids != [] ==> var q := t[k].kids[|t[k].kids| - 1];
      q in t && k < q && (Walked(t, q) != [] ==> LastOf(Walked(t, k)) == LastOf(Walked(t, q)))
  {
    WalkedUnfolds(t, k);
    var kids := WalkedKids(t, k, 0);
    LastOfConcat(Own(t, k), kids);
    if t[k].kids != [] {
      LastKid(t, k, 0);
    } else {
      assert kids == [] && Own(t, k) + kids == Own(t, k);
    }
  }

  /** Where the first edges lead, down to a leaf. */
  ghost function Leftmost<T>(t: Trie<T>, k: Key): Key
    requires WellFormed(t) && k in t
    decreases MaxLen(t.Keys) - |k|
  {
    if t[k].leaf.Some? || t[k].kids == [] then k
    else
      assert SoundKids(t, k);
      Leftmost(t, t[k].kids[0])
  }

  ghost function Rightmost<T>(t: Trie<T>, k: Key): Key
    requires WellFormed(t) && k in t
    decreases MaxLen(t.Keys) - |k|
  {
    if t[k].kids == [] then k
    else
      assert SoundKids(t, k);
      Rightmost(t, t[k].kids[|t[k].kids| - 1])
  }

  lemma {:induction false} LeftmostLeads<T>(t: Trie<T>, k: Key)
    requires WellFormed(t) && LeadsFirst(t, k) && Walked(t, k) <= Walked(t, [])
    ensures var d := Leftmost(t, k);
      && LeadsFirst(t, d) && (t[d].leaf.Some? || t[d].kids == [])
      && (t[d].leaf.Some? ==> FirstOf(Walked(t, [])) == Some((d, t[d].leaf.value)))
    decreases MaxLen(t.Keys) - |k|
  {
    FirstStep(t, k);
    if t[k].leaf.None? && t[k].kids != [] {
      FirstEdgeLeads(t, k);
      LeftmostLeads(t, t[k].kids[0]);
    }
  }

  lemma {:induction false} RightmostLeads<T>(t: Trie<T>, k: Key)
    requires WellFormed(t) && LeadsLast(t, k)
    requires Walked(t, k) != [] ==> LastOf(Walked(t, [])) == LastOf(Walked(t, k))
    ensures var d := Rightmost(t, k);
      && LeadsLast(t, d) && t[d].kids == []
      && (t[d].leaf.Some? ==> LastOf(Walked(t, [])) == Some((d, t[d].leaf.value)))
    decreases MaxLen(t.Keys) - |k|
  {
    LastStep(t, k);
    if t[k].kids != [] {
      LastEdgeLeads(t, k);
      RightmostLeads(t, t[k].kids[|t[k].kids| - 1]);
    }
  }

  /** Where the first edges lead is the first entry of a complete walk, unless an emptied node precedes it. */
  lemma LeftmostIsFirst<T>(t: Trie<T>)
    requires WellFormed(t)
    ensures Leftmost(t, []) in t
    ensures var ans := FirstOf(Own(t, Leftmost(t, [])));
      && (ans.None? <==> EmptiedFirst(t)) && (ans.Some? ==> ans == FirstOf(Walked(t, [])))
      && (Compressed(t) ==> ans == FirstOf(Walked(t, [])) && (ans.None? <==> Contents(t) == map[]))
  {
    RootLeads(t);
    LeftmostLeads(t, []);
    FirstEnds(t, Leftmost(t, []));
    EndsOfCompressed(t);
  }

  lemma RightmostIsLast<T>(t: Trie<T>)
    requires WellFormed(t)
    ensures Rightmost(t, []) in t
    ensures var ans := LastOf(Own(t, Rightmost(t, [])));
      && (ans.None? <==> EmptiedLast(t)) && (ans.Some? ==> ans == LastOf(Walked(t, [])))
      && (Compressed(t) ==> ans == LastOf(Walked(t, [])) && (ans.None? <==> Contents(t) == map[]))
  {
    RootLeads(t);
    RightmostLeads(t, []);
    LastEnds(t, Rightmost(t, []));
    EndsOfCompressed(t);
  }

  // ----- along the path to a key -----

  /** The entries under the prefixes of s shorter than n, shortest first. */
  ghost function Above<T>(t: Trie<T>, s: Key, n: nat): seq<(Key, T)>
    requires n <= |s| + 1
  {
    Entries(Contents(t), StoredPrefixes(Contents(t), s, n))
  }

  /** They are the entries of the stored prefixes, in increasing order of keys. */
  lemma {:induction false} AboveIsSorted<T>(t: Trie<T>, s: Key)
    ensures SortedEntries(Contents(t), q => q <= s, Above(t, s, |s| + 1))
  {
    var ks := StoredPrefixes(Contents(t), s, |s| + 1);
    StoredPrefixesIsExact(Contents(t), s, |s| + 1);
    forall i, j | 0 <= i < j < |ks|
      ensures Before(ks[i], ks[j])
    {
      assert ks[i] in ks && ks[j] in ks;
      PrefixesNest(ks[i], ks[j], s);
      PrefixIsBefore(ks[i], ks[j]);
    }
    EntriesAreSorted(Contents(t), ks, q => q <= s);
  }

  lemma {:induction false} PrefixesNest(a: Key, b: Key, s: Key)
    requires a <= s && b <= s && |a| < |b|
    ensures a < b
  {
    assert s[..|b|][..|a|] == s[..|a|];
  }

  /** Passing node k adds its own entry. */
  lemma AboveStep<T>(t: Trie<T>, s: Key, k: Key)
    requires k in t && k <= s
    ensures Above(t, s, |k| + 1) == Above(t, s, |k|) + Own(t, k)
  {
    assert s[..|k|] == k;
    EntriesConcat(Contents(t), StoredPrefixes(Contents(t), s, |k|), [k]);
    EntriesConcat(Contents(t), StoredPrefixes(Contents(t), s, |k|), []);
    assert t[k].leaf.Some? ==> Entries(Contents(t), [k]) == [(k, t[k].leaf.value)] + Entries(Contents(t), []);
  }

  /** Below edge i of k the path meets no node before the edge's end, or none at all. */
  lemma AboveEdge<T>(t: Trie<T>, s: Key, k: Key, i: nat)
    requires WellFormed(t) && k in t && i < |t[k].kids| && k < s
    requires k < t[k].kids[i] && t[k].kids[i][|k|] == s[|k|]
    ensures t[k].kids[i] <= s ==> Above(t, s, |k| + 1) == Above(t, s, |t[k].kids[i]|)
    ensures !(t[k].kids[i] <= s) ==> Above(t, s, |k| + 1) == Above(t, s, |s| + 1)
  {
    var hi := if t[k].kids[i] <= s then |t[k].kids[i]| else |s| + 1;
    NoPrefixOnEdge(t, k, i, s, hi);
    StoredPrefixesGap(Contents(t), s, |k| + 1, hi);
  }

  lemma AboveEnd<T>(t: Trie<T>, s: Key, k: Key)
    requires k < s && forall q :: q in t ==> !(k + [s[|k|]] <= q)
    ensures Above(t, s, |k| + 1) == Above(t, s, |s| + 1)
  {
    forall j | |k| < j <= |s|
      ensures s[..j] !in t
    {
      assert k + [s[|k|]] <= s[..j];
    }
    StoredPrefixesGap(Contents(t), s, |k| + 1, |s| + 1);
  }

  /** One visit on the path: it goes on from Above(k) to Above(k + 1), and if it stops, it stops for good. */
  lemma PathVisit<T>(t: Trie<T>, fn: seq<(Key, T)> -> bool, s: Key, k: Key, visited: seq<(Key, T)>)
    requires k in t && k <= s && UntilStop(fn, [], Above(t, s, |k|)) == (visited, false)
    ensures var r := UntilStop(fn, visited, Own(t, k));
      UntilStop(fn, [], Above(t, s, |k| + 1)) == r && (r.1 ==> UntilStop(fn, [], Above(t, s, |s| + 1)) == r)
  {
    AboveStep(t, s, k);
    UntilStopConcat(fn, [], Above(t, s, |k|), Own(t, k));
    var m := Contents(t);
    StoredPrefixesGrow(m, s, |k| + 1, |s| + 1);
    var xs, all := StoredPrefixes(m, s, |k| + 1), StoredPrefixes(m, s, |s| + 1);
    assert all == xs + all[|xs|..];
    EntriesConcat(m, xs, all[|xs|..]);
    UntilStopConcat(fn, [], Above(t, s, |k| + 1), Entries(m, all[|xs|..]));
  }

  /** In a compressed tree only the empty map has no first and no last entry to be led to. */
  lemma EndsOfCompressed<T>(t: Trie<T>)
    requires WellFormed(t)
    ensures Compressed(t) ==>
      && (EmptiedFirst(t) <==> Contents(t) == map[]) && (EmptiedLast(t) <==> Contents(t) == map[])
      && (Walked(t, []) == [] <==> Contents(t) == map[])
  {
    if Compressed(t) {
      CompressedHasNoDeadEnd(t);
      WalkIsTheSortedMap(t);
    }
  }

  ghost function FirstOf<A>(xs: seq<A>): Option<A> {
    if xs == [] then None else Some(xs[0])
  }

  ghost function LastOf<A>(xs: seq<A>): Option<A> {
    if xs == [] then None else Some(xs[|xs| - 1])
  }

  // ----- the longest stored prefix -----

  ghost predicate NoPrefix<T>(m: map<Key, T>, s: Key) {
    forall q :: q in m ==> !(q <= s)
  }

  /** k is stored, is a prefix of s, and none that is stored is longer. */
  ghost predicate IsLongestPrefix<T>(m: map<Key, T>, s: Key, k: Key) {
    k in m && k <= s && forall q :: q in m && q <= s ==> |q| <= |k|
  }

  lemma {:induction false} LastEntry<T>(m: map<Key, T>, ks: seq<Key>)
    requires forall k :: k in ks ==> k in m
    ensures LastOf(Entries(m, ks)) == if ks == [] then None else Some((ks[|ks| - 1], m[ks[|ks| - 1]]))
  {
    EntriesPair(m, ks);
  }

  lemma {:induction false} LastStored<T>(m: map<Key, T>, s: Key)
    ensures var ks := StoredPrefixes(m, s, |s| + 1);
      && (forall k :: k in ks ==> k in m)
      && if ks == [] then NoPrefix(m, s) else IsLongestPrefix(m, s, ks[|ks| - 1])
  {
    StoredPrefixesIsExact(m, s, |s| + 1);
    var ks := StoredPrefixes(m, s, |s| + 1);
    forall q | q in m && q <= s
      ensures ks != [] && |q| <= |ks[|ks| - 1]|
    {
      assert q in ks;
      var i :| 0 <= i < |ks| && ks[i] == q;
    }
    assert ks != [] ==> ks[|ks| - 1] in ks;
  }

  lemma {:induction false} LastIsLongest<T>(t: Trie<T>, s: Key)
    ensures var last := LastOf(Above(t, s, |s| + 1));
      && (last.None? <==> NoPrefix(Contents(t), s))
      && (last.Some? ==> IsLongestPrefix(Contents(t), s, last.value.0) && Contents(t)[last.value.0] == last.value.1)
  {
    LastStored(Contents(t), s);
    LastEntry(Contents(t), StoredPrefixes(Contents(t), s, |s| + 1));
  }

  // ----- the subtree under a prefix -----

  /** The nodes that start with s are those at and below k. */
  ghost predicate Covers<T>(t: Trie<T>, k: Key, s: Key) {
    k in t && s <= k && forall q :: q in t && s <= q ==> k <= q
  }

  /** When s ends inside edge i of k, or at its end, the edge leads to all that starts with s. */
  lemma EdgeCovers<T>(t: Trie<T>, k: Key, i: nat, s: Key)
    requires WellFormed(t) && k in t && i < |t[k].kids| && k < s <= t[k].kids[i]
    requires t[k].kids[i] in t && k < t[k].kids[i] && t[k].kids[i][|k|] == s[|k|]
    ensures Covers(t, t[k].kids[i], s)
  {
    if s != t[k].kids[i] { EdgeIsBare(t, k, i, s); }
  }

  lemma CoversAll<T>(t: Trie<T>, k: Key, s: Key)
    requires Covers(t, k, s)
    ensures forall q :: q in Contents(t) ==> (s <= q <==> k <= q)
  {
    forall q | q in Contents(t) && k <= q
      ensures s <= q
    {
      PrefixTransitive(s, k, q);
    }
  }

  /** What merging leaves of a tree at k: nothing happens unless k is a relay. */
  ghost predicate MergedAt<T>(t: Trie<T>, k: Key, u: Trie<T>)
    requires k in t
  {
    if k == [] || t[k].leaf.Some? || |t[k].kids| != 1 then u == t
    else exists p, i: nat :: Relay(t, p, i) && t[p].kids[i] == k && u == Merge(t, p, i)
  }

  /** What deleting the subtree of k leaves: k itself stays, empty, and its parent is
      merged if it is a relay now. */
  ghost predicate PrunedAt<T>(t: Trie<T>, k: Key, u: Trie<T>)
    requires k in t
  {
    if k == [] then u == Prune(t, k)
    else exists p :: p in t && p < k && k in t[p].kids && MergedAt(Prune(t, k), p, u)
  }

  /** What deleting all that starts with s leaves. */
  ghost predicate PrunedUnder<T>(t: Trie<T>, s: Key, u: Trie<T>) {
    if forall q :: q in t ==> !(s <= q) then u == t
    else exists k :: Covers(t, k, s) && PrunedAt(t, k, u)
  }

  /** The node that a subtree deletion empties stays, whatever is merged around it. */
  lemma {:induction false} EmptiedStays<T>(t: Trie<T>, k: Key, u: Trie<T>)
    requires WellFormed(t) && k in t && k != [] && PrunedAt(t, k, u)
    ensures k in u && u[k].leaf.None? && u[k].kids == []
  {
    var p :| p in t && p < k && k in t[p].kids && MergedAt(Prune(t, k), p, u);
  }

  /** Its parent goes if and only if it is a relay: no leaf, and no edge but the one to it. */
  lemma {:induction false} RelayGoes<T>(t: Trie<T>, k: Key, u: Trie<T>, p: Key)
    requires WellFormed(t) && k in t && PrunedAt(t, k, u) && p in t && p < k && k in t[p].kids
    ensures p in u <==> p == [] || t[p].leaf.Some? || |t[p].kids| != 1
  {
    var q :| q in t && q < k && k in t[q].kids && MergedAt(Prune(t, k), q, u);
    var i :| 0 <= i < |t[p].kids| && t[p].kids[i] == k;
    OnlyParent(t, p, i, q);
    assert !(k < p);
  }

  /** A subtree deletion keeps a tree compressed exactly if it deletes the whole tree, or nothing. */
  lemma {:induction false} CompressedAfterPrune<T>(t: Trie<T>, s: Key, u: Trie<T>)
    requires WellFormed(t) && Compressed(t) && PrunedUnder(t, s, u)
    ensures Compressed(u) <==> s == [] || forall q :: q in Contents(t) ==> !(s <= q)
  {
    if exists q :: q in t && s <= q {
      var k :| Covers(t, k, s) && PrunedAt(t, k, u);
      if s == [] {
        assert k <= [];
      } else {
        EmptiedStays(t, k, u);
        var q := StoredKeyBelow(t, k);
        PrefixTransitive(s, k, q);
      }
    }
  }

  /** A tree of which everything is deleted is compressed, whatever it was. */
  lemma {:induction false} AllPruned<T>(t: Trie<T>, u: Trie<T>)
    requires WellFormed(t) && PrunedUnder(t, [], u)
    ensures Compressed(u)
  {
    assert Root in t && Root <= Root;
    var k :| Covers(t, k, []) && PrunedAt(t, k, u);
    assert k <= [];
  }

  lemma {:induction false} AfterPrune<T>(t: Trie<T>, s: Key, u: Trie<T>)
    requires WellFormed(t) && PrunedUnder(t, s, u)
    requires Contents(u) == map q | q in Contents(t) && !(s <= q) :: Contents(t)[q]
    ensures Compressed(t) ==> (Compressed(u) <==> s == [] || |Contents(u)| == |Contents(t)|)
    ensures s == [] ==> Compressed(u)
  {
    if s == [] {
      AllPruned(t, u);
    } else if Compressed(t) {
      CompressedAfterPrune(t, s, u);
      if q :| q in Contents(t) && s <= q {
        SmallerMap(Contents(u), Contents(t), q);
      } else {
        assert Contents(u) == Contents(t);
      }
    }
  }

  lemma {:induction false} SmallerMap<K, T>(m: map<K, T>, n: map<K, T>, k: K)
    requires m.Keys <= n.Keys && k in n && k !in m
    ensures |m| < |n|
  {
    SmallerSet(m.Keys, n.Keys - {k});
    assert |m| == |m.Keys| && |n| == |n.Keys|;
  }

  lemma {:induction false} SmallerSet<K>(a: set<K>, b: set<K>)
    requires a <= b
    ensures |a| <= |b|
  {
    assert b == a + (b - a);
  }

  lemma EntriesBelow<T>(t: Trie<T>, k: Key)
    requires WellFormed(t) && k in t
    ensures |Walked(t, k)| == |Contents(t)| - |Contents(Prune(t, k))|
  {
    ListingIsSorted(t, k);
    EntriesPair(Contents(t), Listing(t, k));
    PruneCounts(t, k);
  }

  lemma OneMoreEntry<A, B>(m: map<A, B>, todo: set<A>, k: A)
    requires k in todo && todo <= m.Keys
    ensures (m - todo)[k := m[k]] == m - (todo - {k})
  {
  }
}

/** The radix tree as a value.  A node is named by its full path, the
    concatenation of the prefixes from the root down to it, so a tree is a finite
    map from paths to cells.  The label of the edge to a kid is the first byte of
    the kid's path beyond its parent's. */
module Trie {
  import opened Wrappers
  import opened Keys

  datatype Cell<+T> = Cell(prefix: Key, leaf: Option<T>, kids: seq<Key>)

  type Trie<T> = map<Key, Cell<T>>

  /** Some kid of k lies on the path to q. */
  ghost predicate Descends<T>(t: Trie<T>, k: Key, q: Key)
    requires k in t
  {
    exists i :: 0 <= i < |t[k].kids| && t[k].kids[i] <= q
  }

  /** The kids of k are nodes below it, and the labels of its edges strictly increase. */
  ghost predicate SoundKids<T>(t: Trie<T>, k: Key)
    requires k in t
  {
    var kids := t[k].kids;
    && (forall i :: 0 <= i < |kids| ==> kids[i] in t && k < kids[i])
    && (forall i, j :: 0 <= i < j < |kids| ==> kids[i][|k|] < kids[j][|k|])
  }

  /** The prefix of a kid of k is the rest of its path. */
  ghost predicate SoundPrefixes<T>(t: Trie<T>, k: Key)
    requires k in t && SoundKids(t, k)
  {
    forall i :: 0 <= i < |t[k].kids| ==> t[t[k].kids[i]].prefix == t[k].kids[i][|k|..]
  }

  /** The weak invariant, which every operation keeps. */
  ghost predicate WellFormed<T>(t: Trie<T>) {
    && [] in t && t[[]].prefix == []
    && (forall k {:trigger SoundKids(t, k)} :: k in t ==> SoundKids(t, k))
    && (forall k {:trigger SoundPrefixes(t, k)} :: k in t ==> SoundPrefixes(t, k))
    && (forall k, q {:trigger Descends(t, k, q)} :: k in t && q in t && k < q ==> Descends(t, k, q))
  }

  /** The strong invariant: no node but the root is a dead end or a mere relay. */
  ghost predicate Compressed<T>(t: Trie<T>) {
    CompressedBut(t, [])
  }

  ghost predicate CompressedBut<T>(t: Trie<T>, m: Key) {
    forall k :: k in t && k != [] && k != m ==> t[k].leaf.Some? || |t[k].kids| >= 2
  }

  /** The finite map a tree stands for. */
  function Contents<T>(t: Trie<T>): map<Key, T> {
    map k | k in t && t[k].leaf.Some? :: t[k].leaf.value
  }

  const Root: Key := []

  function Empty<T>(): Trie<T> {
    map[Root := Cell([], None, [])]
  }

  // ----- where a key can be -----

  /** Every node below k is reached through exactly one kid of k: the one
      labelled with the next byte. */
  lemma WayDown<T>(t: Trie<T>, k: Key, q: Key) returns (i: nat)
    requires WellFormed(t) && k in t && q in t && k < q
    ensures i < |t[k].kids| && k < t[k].kids[i] <= q
    ensures t[k].kids[i] in t && t[k].kids[i][|k|] == q[|k|]
    ensures forall j :: 0 <= j < |t[k].kids| && j != i ==> k < t[k].kids[j] && t[k].kids[j][|k|] != q[|k|]
  {
    assert Descends(t, k, q) && SoundKids(t, k);
    i :| 0 <= i < |t[k].kids| && t[k].kids[i] <= q;
  }

  /** Without an edge for the next byte nothing lies that way. */
  lemma NoWayDown<T>(t: Trie<T>, k: Key, q: Key)
    requires WellFormed(t) && k in t && k < q
    requires SoundKids(t, k)
    requires forall i :: 0 <= i < |t[k].kids| ==> t[k].kids[i][|k|] != q[|k|]
    ensures q !in t
  {
    if q in t {
      var i := WayDown(t, k, q);
    }
  }

  /** Following edge i of k with the rest of a key still to match: either the
      child's prefix is consumed, or the key is not a node. */
  lemma ConsumePrefix<T>(t: Trie<T>, k: Key, i: nat, prefix: Key, search: Key)
    requires WellFormed(t) && k in t && i < |t[k].kids| && search != []
    requires k < t[k].kids[i] == k + prefix && t[k].kids[i][|k|] == search[0]
    ensures prefix <= search ==> k + search == t[k].kids[i] + search[|prefix|..] && t[k].kids[i] in t
    ensures !(prefix <= search) ==> k + search !in t
  {
    assert SoundKids(t, k);
    PrefixesBeyond(k, prefix, search);
    if !(prefix <= search) {
      assert (k + search)[|k|] == search[0];
      EdgeIsBare(t, k, i, k + search);
    }
  }

  // ----- the edits the operations are made of -----

  function SetLeaf<T>(t: Trie<T>, k: Key, leaf: Option<T>): Trie<T>
    requires k in t
  {
    t[k := t[k].(leaf := leaf)]
  }

  lemma SetLeafKeeps<T>(t: Trie<T>, k: Key, leaf: Option<T>)
    requires WellFormed(t) && k in t
    ensures WellFormed(SetLeaf(t, k, leaf))
    ensures Contents(SetLeaf(t, k, leaf)) == if leaf.Some? then Contents(t)[k := leaf.value] else Contents(t) - {k}
    ensures CompressedBut(t, k) && leaf.Some? ==> Compressed(SetLeaf(t, k, leaf))
    ensures Compressed(t) ==> CompressedBut(SetLeaf(t, k, leaf), k)
  {
    var u := SetLeaf(t, k, leaf);
    forall a | a in u
      ensures SoundKids(u, a) && SoundPrefixes(u, a)
    {
      assert SoundKids(t, a) && SoundPrefixes(t, a);
    }
    forall a, b | a in u && b in u && a < b
      ensures Descends(u, a, b)
    {
      assert Descends(t, a, b);
    }
  }

  function Grow<T>(t: Trie<T>, k: Key, i: nat, s: Key, v: T): Trie<T>
    requires k in t && i <= |t[k].kids| && |k| <= |s|
  {
    t[k := t[k].(kids := t[k].kids[..i] + [s] + t[k].kids[i..])][s := Cell(s[|k|..], Some(v), [])]
  }

  /** Position i is where s belongs among the kids of k, and no kid has its label. */
  ghost predicate Vacant<T>(t: Trie<T>, k: Key, i: nat, s: Key)
    requires k in t
  {
    && k < s && i <= |t[k].kids| && SoundKids(t, k)
    && (forall j :: 0 <= j < i ==> t[k].kids[j][|k|] < s[|k|])
    && (forall j :: i <= j < |t[k].kids| ==> t[k].kids[j][|k|] > s[|k|])
  }

  lemma GrowSound<T>(t: Trie<T>, k: Key, i: nat, s: Key, v: T, a: Key)
    requires WellFormed(t) && k in t && Vacant(t, k, i, s) && s !in t && a in Grow(t, k, i, s, v)
    ensures SoundKids(Grow(t, k, i, s, v), a) && SoundPrefixes(Grow(t, k, i, s, v), a)
  {
    if a == k {
      var u := Grow(t, k, i, s, v);
      assert SoundKids(t, k) && SoundPrefixes(t, k);
      assert forall j :: 0 <= j < |u[k].kids| ==>
        u[k].kids[j] == if j < i then t[k].kids[j] else if j == i then s else t[k].kids[j - 1];
    } else if a != s {
      assert SoundKids(t, a) && SoundPrefixes(t, a);
    }
  }

  lemma GrowDescends<T>(t: Trie<T>, k: Key, i: nat, s: Key, v: T, a: Key, b: Key)
    requires WellFormed(t) && k in t && Vacant(t, k, i, s) && s !in t
    requires (a in t || a == s) && (b in t || b == s) && a < b
    ensures Descends(Grow(t, k, i, s, v), a, b)
  {
    var u := Grow(t, k, i, s, v);
    if b == s && a == k {
      assert u[k].kids[i] == s;
    } else if b == s && k < a {
      NoWayDown(t, k, a);
    } else if a == s {
      NoWayDown(t, k, b);
    } else {
      var j := WayDown(t, a, if b == s then k else b);
      assert t[a].kids[j] == u[a].kids[if a == k && i <= j then j + 1 else j];
    }
  }

  lemma GrowKeeps<T>(t: Trie<T>, k: Key, i: nat, s: Key, v: T)
    requires WellFormed(t) && k in t && Vacant(t, k, i, s)
    ensures s !in t
    ensures WellFormed(Grow(t, k, i, s, v))
    ensures Contents(Grow(t, k, i, s, v)) == Contents(t)[s := v]
    ensures CompressedBut(t, k) && t[k].kids != [] ==> Compressed(Grow(t, k, i, s, v))
    ensures Compressed(t) ==> Compressed(Grow(t, k, i, s, v))
  {
    NoWayDown(t, k, s);
    forall a | a in Grow(t, k, i, s, v)
      ensures SoundKids(Grow(t, k, i, s, v), a) && SoundPrefixes(Grow(t, k, i, s, v), a)
    {
      GrowSound(t, k, i, s, v, a);
    }
    forall a, b | a in Grow(t, k, i, s, v) && b in Grow(t, k, i, s, v) && a < b
      ensures Descends(Grow(t, k, i, s, v), a, b)
    {
      GrowDescends(t, k, i, s, v, a, b);
    }
  }

  /** A node m is put on the edge from k to its kid number i. */
  function Split<T>(t: Trie<T>, k: Key, i: nat, m: Key): Trie<T>
    requires k in t && i < |t[k].kids| && t[k].kids[i] in t && |k| <= |m| <= |t[k].kids[i]|
  {
    var q := t[k].kids[i];
    t[k := t[k].(kids := t[k].kids[i := m])][m := Cell(m[|k|..], None, [q])][q := t[q].(prefix := q[|m|..])]
  }

  /** Nothing lies strictly inside an edge. */
  lemma EdgeIsBare<T>(t: Trie<T>, k: Key, i: nat, m: Key)
    requires WellFormed(t) && k in t && i < |t[k].kids| && k < m
    requires k < t[k].kids[i] && t[k].kids[i][|k|] == m[|k|] && !(t[k].kids[i] <= m)
    ensures m !in t
    ensures forall q :: q in t && m <= q ==> t[k].kids[i] <= q
  {
    if m in t {
      var j := WayDown(t, k, m);
    }
    forall q | q in t && m <= q
      ensures t[k].kids[i] <= q
    {
      var j := WayDown(t, k, q);
    }
  }

  lemma SplitSound<T>(t: Trie<T>, k: Key, i: nat, m: Key, a: Key)
    requires WellFormed(t) && k in t && i < |t[k].kids| && SoundKids(t, k) && k < m < t[k].kids[i]
    requires m !in t && a in Split(t, k, i, m)
    ensures SoundKids(Split(t, k, i, m), a) && SoundPrefixes(Split(t, k, i, m), a)
  {
    if a != m {
      assert SoundKids(t, a) && SoundPrefixes(t, a);
      OnlyParent(t, k, i, a);
    }
  }

  lemma SplitDescends<T>(t: Trie<T>, k: Key, i: nat, m: Key, a: Key, b: Key)
    requires WellFormed(t) && k in t && i < |t[k].kids| && SoundKids(t, k) && k < m < t[k].kids[i]
    requires a in Split(t, k, i, m) && b in Split(t, k, i, m) && a < b
    ensures Descends(Split(t, k, i, m), a, b)
  {
    var u := Split(t, k, i, m);
    assert SoundKids(t, k);
    EdgeIsBare(t, k, i, m);
    if a == m {
      assert u[m].kids[0] <= b;
    } else {
      var j := WayDown(t, a, if b == m then t[k].kids[i] else b);
      assert u[a].kids[j] == if a == k && j == i then m else t[a].kids[j];
      if b == m && k < a {
        var l := WayDown(t, k, a);
      }
      if b == m && a < k {
        var l := WayDown(t, a, k);
      }
    }
  }

  lemma SplitKeeps<T>(t: Trie<T>, k: Key, i: nat, m: Key)
    requires WellFormed(t) && k in t && i < |t[k].kids| && SoundKids(t, k) && k < m < t[k].kids[i]
    ensures m !in t
    ensures WellFormed(Split(t, k, i, m))
    ensures Contents(Split(t, k, i, m)) == Contents(t)
    ensures Compressed(t) ==> CompressedBut(Split(t, k, i, m), m)
  {
    assert SoundKids(t, k);
    EdgeIsBare(t, k, i, m);
    forall a | a in Split(t, k, i, m)
      ensures SoundKids(Split(t, k, i, m), a) && SoundPrefixes(Split(t, k, i, m), a)
    {
      SplitSound(t, k, i, m, a);
    }
    forall a, b | a in Split(t, k, i, m) && b in Split(t, k, i, m) && a < b
      ensures Descends(Split(t, k, i, m), a, b)
    {
      SplitDescends(t, k, i, m, a, b);
    }
  }

  /** A kid that holds nothing is unlinked. */
  function Drop<T>(t: Trie<T>, k: Key, i: nat): Trie<T>
    requires k in t && i < |t[k].kids|
  {
    var q := t[k].kids[i];
    var u := t[k := t[k].(kids := t[k].kids[..i] + t[k].kids[i + 1..])];
    u - {q}
  }

  lemma DropDescends<T>(t: Trie<T>, k: Key, i: nat, a: Key, b: Key)
    requires WellFormed(t) && k in t && i < |t[k].kids| && SoundKids(t, k)
    requires t[t[k].kids[i]].leaf == None && t[t[k].kids[i]].kids == []
    requires a in t && b in t && a < b && a != t[k].kids[i] && b != t[k].kids[i]
    ensures Descends(Drop(t, k, i), a, b)
  {
    var q, u := t[k].kids[i], Drop(t, k, i);
    var j := WayDown(t, a, b);
    if a == k && j == i {
      var l := WayDown(t, q, b);
    }
    assert t[a].kids[j] == u[a].kids[if a == k && i < j then j - 1 else j];
  }

  lemma DropSound<T>(t: Trie<T>, k: Key, i: nat, a: Key)
    requires WellFormed(t) && k in t && i < |t[k].kids| && SoundKids(t, k) && a in Drop(t, k, i)
    ensures SoundKids(Drop(t, k, i), a) && SoundPrefixes(Drop(t, k, i), a)
  {
    assert SoundKids(t, a) && SoundPrefixes(t, a);
    OnlyParent(t, k, i, a);
  }

  lemma DropKeeps<T>(t: Trie<T>, k: Key, i: nat)
    requires WellFormed(t) && k in t && i < |t[k].kids| && SoundKids(t, k)
    requires t[t[k].kids[i]].leaf == None && t[t[k].kids[i]].kids == []
    ensures WellFormed(Drop(t, k, i))
    ensures Contents(Drop(t, k, i)) == Contents(t)
    ensures CompressedBut(t, t[k].kids[i]) ==> CompressedBut(Drop(t, k, i), k)
    ensures CompressedBut(t, t[k].kids[i]) && (t[k].leaf.Some? || |t[k].kids| >= 3) ==> Compressed(Drop(t, k, i))
    ensures CompressedBut(t, t[k].kids[i]) && k != [] && t[k].leaf.None? ==> |t[k].kids| >= 2
  {
    forall a | a in Drop(t, k, i)
      ensures SoundKids(Drop(t, k, i), a) && SoundPrefixes(Drop(t, k, i), a)
    {
      DropSound(t, k, i, a);
    }
    forall a, b | a in Drop(t, k, i) && b in Drop(t, k, i) && a < b
      ensures Descends(Drop(t, k, i), a, b)
    {
      DropDescends(t, k, i, a, b);
    }
  }

  /** A node is the kid of one node only. */
  lemma OneParent<T>(t: Trie<T>, k: Key, i: nat, a: Key, j: nat)
    requires WellFormed(t) && k in t && i < |t[k].kids| && a in t && j < |t[a].kids|
    requires t[k].kids[i] == t[a].kids[j]
    ensures k == a && i == j
  {
    assert SoundKids(t, k) && SoundKids(t, a);
    var q := t[k].kids[i];
    assert |a| == |k| ==> a == q[..|a|] == q[..|k|] == k;
    if k < a {
      var l := WayDown(t, k, a);
    } else if a < k {
      var l := WayDown(t, a, k);
    }
  }

  lemma OnlyParent<T>(t: Trie<T>, k: Key, i: nat, a: Key)
    requires WellFormed(t) && k in t && i < |t[k].kids| && a in t
    ensures forall j :: 0 <= j < |t[a].kids| && t[a].kids[j] == t[k].kids[i] ==> a == k && j == i
  {
    forall j | 0 <= j < |t[a].kids| && t[a].kids[j] == t[k].kids[i]
      ensures a == k && j == i
    {
      OneParent(t, k, i, a, j);
    }
  }

  /** Every node but the root has a parent. */
  lemma {:induction false} Parent<T>(t: Trie<T>, q: Key, a: Key) returns (k: Key, i: nat)
    requires WellFormed(t) && a in t && q in t && a < q
    ensures k in t && i < |t[k].kids| && t[k].kids[i] == q
    decreases |q| - |a|
  {
    i := WayDown(t, a, q);
    if t[a].kids[i] == q {
      k := a;
    } else {
      k, i := Parent(t, q, t[a].kids[i]);
    }
  }

  /** A relay node, the kid number i of p, is absorbed into its only kid. */
  function Merge<T>(t: Trie<T>, p: Key, i: nat): Trie<T>
    requires p in t && i < |t[p].kids| && t[p].kids[i] in t && |t[t[p].kids[i]].kids| == 1
    requires t[t[p].kids[i]].kids[0] in t && |p| <= |t[t[p].kids[i]].kids[0]|
  {
    var m := t[p].kids[i];
    var q := t[m].kids[0];
    var u := t[p := t[p].(kids := t[p].kids[i := q])][q := t[q].(prefix := q[|p|..])];
    u - {m}
  }

  /** Kid number i of p is a relay: no leaf, one kid. */
  ghost predicate Relay<T>(t: Trie<T>, p: Key, i: nat) {
    && p in t && i < |t[p].kids| && SoundKids(t, p) && t[t[p].kids[i]].leaf == None
    && SoundKids(t, t[p].kids[i]) && |t[t[p].kids[i]].kids| == 1
  }

  lemma MergeDescends<T>(t: Trie<T>, p: Key, i: nat, a: Key, b: Key)
    requires WellFormed(t) && Relay(t, p, i)
    requires a in t && b in t && a < b && a != t[p].kids[i] && b != t[p].kids[i]
    ensures Descends(Merge(t, p, i), a, b)
  {
    var m, u := t[p].kids[i], Merge(t, p, i);
    var j := WayDown(t, a, b);
    if a == p && j == i {
      var l := WayDown(t, m, b);
      assert u[a].kids[i] == t[m].kids[0] <= b;
    } else {
      assert u[a].kids[j] == t[a].kids[j];
    }
  }

  lemma MergeSound<T>(t: Trie<T>, p: Key, i: nat, a: Key)
    requires WellFormed(t) && Relay(t, p, i) && a in Merge(t, p, i)
    ensures SoundKids(Merge(t, p, i), a) && SoundPrefixes(Merge(t, p, i), a)
  {
    var m := t[p].kids[i];
    assert SoundKids(t, a) && SoundPrefixes(t, a);
    OnlyParent(t, p, i, a);
    OnlyParent(t, m, 0, a);
  }

  lemma MergeKeeps<T>(t: Trie<T>, p: Key, i: nat)
    requires WellFormed(t) && Relay(t, p, i)
    ensures WellFormed(Merge(t, p, i))
    ensures Contents(Merge(t, p, i)) == Contents(t)
    ensures CompressedBut(t, t[p].kids[i]) ==> Compressed(Merge(t, p, i))
  {
    var u := Merge(t, p, i);
    forall a | a in u
      ensures SoundKids(u, a) && SoundPrefixes(u, a)
    {
      MergeSound(t, p, i, a);
    }
    forall a, b | a in u && b in u && a < b
      ensures Descends(u, a, b)
    {
      MergeDescends(t, p, i, a, b);
    }
  }

  /** The subtree of k is cut off and k itself emptied; k stays linked. */
  function Prune<T>(t: Trie<T>, k: Key): Trie<T>
    requires k in t
  {
    map q | q in t && !(k < q) :: if q == k then Cell(t[q].prefix, None, []) else t[q]
  }

  lemma PruneSound<T>(t: Trie<T>, k: Key, a: Key)
    requires WellFormed(t) && k in t && a in Prune(t, k)
    ensures SoundKids(Prune(t, k), a) && SoundPrefixes(Prune(t, k), a)
  {
    assert SoundKids(t, a) && SoundPrefixes(t, a);
    forall j | 0 <= j < |t[a].kids| && a != k
      ensures !(k < t[a].kids[j])
    {
      if k < t[a].kids[j] {
        KidPastNode(t, a, j, k);
      }
    }
  }

  lemma PruneKeeps<T>(t: Trie<T>, k: Key)
    requires WellFormed(t) && k in t
    ensures WellFormed(Prune(t, k))
    ensures Contents(Prune(t, k)) == map q | q in Contents(t) && !(k <= q) :: Contents(t)[q]
  {
    var u := Prune(t, k);
    forall a | a in u
      ensures SoundKids(u, a) && SoundPrefixes(u, a)
    {
      PruneSound(t, k, a);
    }
    forall a, b | a in u && b in u && a < b
      ensures Descends(u, a, b)
    {
      assert Descends(t, a, b);
    }
  }

  lemma KidPastNode<T>(t: Trie<T>, a: Key, j: nat, k: Key)
    requires WellFormed(t) && a in t && j < |t[a].kids| && k in t && k < t[a].kids[j]
    ensures k <= a
  {
    assert SoundKids(t, a);
    var q := t[a].kids[j];
    if |a| < |k| {
      assert a < k by { assert a == q[..|k|][..|a|]; }
      var l := WayDown(t, a, k);
    } else {
      assert k == q[..|a|][..|k|];
    }
  }
}

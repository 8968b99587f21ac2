/** Runs of operations on a radix tree. */
module RadixRuns {
  import opened Wrappers
  import opened Keys
  import opened Trie
  import opened Radix
  import TrieTheory

  datatype Op<+T> = Put(key: Key, val: T) | Del(key: Key) | DelPrefix(key: Key)

  /** What an operation does to a finite map. */
  function Step<T>(m: map<Key, T>, op: Op<T>): map<Key, T> {
    match op
    case Put(k, v) => m[k := v]
    case Del(k) => m - {k}
    case DelPrefix(k) => map q | q in m && !(k <= q) :: m[q]
  }

  function After<T>(m: map<Key, T>, ops: seq<Op<T>>): map<Key, T> {
    if ops == [] then m else Step(After(m, ops[..|ops| - 1]), ops[|ops| - 1])
  }

  /** The operations that keep a compressed tree compressed: all but the deletion of a subtree
      that is neither all of the tree nor empty. */
  ghost predicate Keeps<T>(m: map<Key, T>, op: Op<T>) {
    op.DelPrefix? && op.key != [] ==> forall q :: q in m ==> !(op.key <= q)
  }

  /** What makes sure that a tree is compressed after a run on it: everything was deleted, or it
      was compressed to begin with, and no operation since then failed to keep it so. */
  ghost predicate Plain<T>(compressed: bool, m: map<Key, T>, ops: seq<Op<T>>) {
    if ops == [] then compressed
    else
      var before, op := ops[..|ops| - 1], ops[|ops| - 1];
      op == DelPrefix([]) || (Plain(compressed, m, before) && Keeps(After(m, before), op))
  }

  method Apply<T>(t: Tree<T>, op: Op<T>)
    requires t.Valid()
    modifies t, t.Repr
    ensures t.Valid() && fresh(t.Repr - old(t.Repr)) && t.Map() == Step(old(t.Map()), op)
    ensures old(Compressed(t.V)) ==> (Compressed(t.V) <==> Keeps(old(t.Map()), op))
    ensures op == DelPrefix([]) ==> Compressed(t.V)
  {
    match op
    case Put(k, v) =>
      var _ := t.Insert(k, v);
    case Del(k) =>
      var _ := t.Delete(k);
    case DelPrefix(k) =>
      var _ := t.DeletePrefix(k);
      if old(Compressed(t.V)) {
        TrieTheory.CompressedAfterPrune(old(t.V), k, t.V);
      }
  }

  /** Main result on runs: after any operations in any order the tree holds what a finite
      map would hold, and it is compressed if the last deletion of everything, or the start,
      was followed by operations that keep it so. */
  method ApplyAll<T>(t: Tree<T>, ops: seq<Op<T>>)
    requires t.Valid()
    modifies t, t.Repr
    ensures t.Valid() && fresh(t.Repr - old(t.Repr)) && t.Map() == After(old(t.Map()), ops)
    ensures Plain(old(Compressed(t.V)), old(t.Map()), ops) ==> Compressed(t.V)
    decreases |ops|
  {
    if ops == [] {
      return;
    }
    var n := |ops| - 1;
    ApplyAll(t, ops[..n]);
    Apply(t, ops[n]);
  }

  /** History independence: two such runs that come to the same map leave trees of the same
      shape: the same nodes, prefixes, leaves, and edges in the same order. */
  method TwoRuns<T>(t: Tree<T>, ops: seq<Op<T>>, u: Tree<T>, ops': seq<Op<T>>)
    requires t.Valid() && u.Valid() && t != u && t.Repr !! u.Repr
    requires Plain(Compressed(t.V), t.Map(), ops) && Plain(Compressed(u.V), u.Map(), ops')
    requires After(t.Map(), ops) == After(u.Map(), ops')
    modifies t, t.Repr, u, u.Repr
    ensures t.Valid() && u.Valid() && t.V == u.V && t.size == u.size
  {
    ApplyAll(t, ops);
    assert t.Repr !! u.Repr;
    ApplyBeside(t, u, ops');
    TrieTheory.ShapeIsDetermined(t.V, u.V);
  }

  /** Operations on one tree leave another as it is. */
  method ApplyBeside<T>(t: Tree<T>, u: Tree<T>, ops: seq<Op<T>>)
    requires t.Valid() && u.Valid() && t != u && t.Repr !! u.Repr
    modifies u, u.Repr
    ensures t.Valid() && t.V == old(t.V) && t.size == old(t.size)
    ensures u.Valid() && u.Map() == After(old(u.Map()), ops)
    ensures Plain(old(Compressed(u.V)), old(u.Map()), ops) ==> Compressed(u.V)
  {
    ApplyAll(u, ops);
  }

  const A: Key := [97]
  const B: Key := [98]

  /** The tree that holds x under "a" and y under "b". */
  function TwoKeys<T>(x: T, y: T): Trie<T> {
    map[Root := Cell([], None, [A, B]), A := Cell(A, Some(x), []), B := Cell(B, Some(y), [])]
  }

  lemma TwoKeysIsCompressed<T>(x: T, y: T)
    ensures WellFormed(TwoKeys(x, y)) && Compressed(TwoKeys(x, y)) && Contents(TwoKeys(x, y)) == map[A := x, B := y]
  {
    var t := TwoKeys(x, y);
    assert SoundKids(t, Root) && SoundKids(t, A) && SoundKids(t, B);
    assert Descends(t, Root, A) by { assert t[Root].kids[0] <= A; }
    assert Descends(t, Root, B) by { assert t[Root].kids[1] <= B; }
  }

  lemma {:induction false} PrunedTwoKeys<T>(x: T, y: T, k: Key)
    requires k == A || k == B
    ensures Prune(TwoKeys(x, y), k) == TwoKeys(x, y)[k := Cell(k, None, [])]
  {
    assert !(k < Root) && !(k < A) && !(k < B);
  }

  /** Deleting all that starts with "a", or with "b", leaves its node, empty. */
  lemma {:induction false} DeletedPrefixStays<T>(x: T, y: T, k: Key, u: Trie<T>)
    requires (k == A || k == B) && TrieTheory.PrunedUnder(TwoKeys(x, y), k, u)
    ensures u == TwoKeys(x, y)[k := Cell(k, None, [])]
  {
    var t := TwoKeys(x, y);
    PrunedTwoKeys(x, y, k);
    assert k in t && k <= k;
    var c :| TrieTheory.Covers(t, c, k) && TrieTheory.PrunedAt(t, c, u);
    assert c == k;
    var p :| p in t && p < k && k in t[p].kids && TrieTheory.MergedAt(Prune(t, k), p, u);
    assert p == Root;
  }

  /** Then that node precedes, or follows, the key that is left. */
  lemma EmptiedIsAtEnd<T>(x: T, y: T)
    ensures var u := TwoKeys(x, y)[A := Cell(A, None, [])]; Contents(u) == map[B := y] && TrieTheory.EmptiedFirst(u)
    ensures var u := TwoKeys(x, y)[B := Cell(B, None, [])]; Contents(u) == map[A := x] && TrieTheory.EmptiedLast(u)
  {
    var u, v := TwoKeys(x, y)[A := Cell(A, None, [])], TwoKeys(x, y)[B := Cell(B, None, [])];
    assert Contents(u) == map[B := y] && Contents(v) == map[A := x];
    assert TrieTheory.DeadEnd(u, A) && TrieTheory.DeadEnd(v, B);
    assert Before(A, B);
  }

  method MakeTwoKeys<T>(x: T, y: T) returns (t: Tree<T>)
    ensures fresh(t) && fresh(t.Repr) && t.Valid() && t.V == TwoKeys(x, y)
  {
    t := new Tree();
    var _ := t.Insert(A, x);
    var _ := t.Insert(B, y);
    IsTwoKeys(t.V, x, y);
  }

  lemma {:induction false} IsTwoKeys<T>(t: Trie<T>, x: T, y: T)
    requires WellFormed(t) && Compressed(t) && Contents(t) == map[A := x][B := y]
    ensures t == TwoKeys(x, y)
  {
    TwoKeysIsCompressed(x, y);
    TrieTheory.ShapeIsDetermined(t, TwoKeys(x, y));
  }

  method DeleteOneOf<T>(t: Tree<T>, x: T, y: T, k: Key)
    requires t.Valid() && t.V == TwoKeys(x, y) && (k == A || k == B)
    modifies t, t.Repr
    ensures t.Valid() && t.V == TwoKeys(x, y)[k := Cell(k, None, [])] && !Compressed(t.V)
  {
    var _ := t.DeletePrefix(k);
    DeletedPrefixStays(x, y, k, t.V);
    assert t.V[k].leaf.None?;
  }

  /** A run, of two insertions and a subtree deletion, after which the tree is not compressed,
      a key is stored, and Minimum finds none. */
  method MinimumMissesKey<T>(x: T, y: T) returns (t: Tree<T>, ans: Option<(Key, T)>)
    ensures t.Valid() && t.Map() == map[B := y] && !Compressed(t.V) && ans == None
  {
    t := MakeTwoKeys(x, y);
    DeleteOneOf(t, x, y, A);
    EmptiedIsAtEnd(x, y);
    ans := t.Minimum();
  }

  method MaximumMissesKey<T>(x: T, y: T) returns (t: Tree<T>, ans: Option<(Key, T)>)
    ensures t.Valid() && t.Map() == map[A := x] && !Compressed(t.V) && ans == None
  {
    t := MakeTwoKeys(x, y);
    DeleteOneOf(t, x, y, B);
    EmptiedIsAtEnd(x, y);
    ans := t.Maximum();
  }
}

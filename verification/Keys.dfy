/** Byte strings as the radix tree uses them: prefixes, the first point of
    difference, and the byte order in which the tree is walked.
    `a <= b` and `a < b` on keys are Dafny's prefix and proper prefix. */
module Keys {
  type Byte = b: int | 0 <= b < 256

  type Key = seq<Byte>

  /** The length of the shared prefix, in the mathematical sense. */
  function Shared(a: Key, b: Key): (n: nat)
    ensures n <= |a| && n <= |b|
    ensures a[..n] == b[..n]
    ensures n < |a| && n < |b| ==> a[n] != b[n]
  {
    if a == [] || b == [] || a[0] != b[0] then 0
    else
      var n := 1 + Shared(a[1..], b[1..]);
      assert a[..n] == [a[0]] + a[1..][..n - 1] && b[..n] == [b[0]] + b[1..][..n - 1];
      n
  }

  function Lcp(a: Key, b: Key): Key {
    a[..Shared(a, b)]
  }

  lemma {:induction false} SharedUnique(a: Key, b: Key, n: nat)
    requires n <= |a| && n <= |b| && a[..n] == b[..n]
    requires n < |a| && n < |b| ==> a[n] != b[n]
    ensures Shared(a, b) == n
  {
    if n > 0 {
      assert a[0] == a[..n][0] == b[0];
      assert a[1..][..n - 1] == a[..n][1..] == b[1..][..n - 1];
      SharedUnique(a[1..], b[1..], n - 1);
    }
  }

  /** The order of Go strings: byte by byte, a proper prefix first. */
  predicate Before(a: Key, b: Key) {
    b != [] && (a == [] || a[0] < b[0] || (a[0] == b[0] && Before(a[1..], b[1..])))
  }

  lemma {:induction false} PrefixIsBefore(a: Key, b: Key)
    requires a < b
    ensures Before(a, b)
  {
    if a != [] {
      PrefixIsBefore(a[1..], b[1..]);
    }
  }

  /** Two keys that leave a common prefix k on different bytes are ordered by those bytes. */
  lemma {:induction false} BranchIsBefore(k: Key, a: Key, b: Key)
    requires k < a && k < b && a[|k|] < b[|k|]
    ensures Before(a, b)
  {
    if k != [] {
      BranchIsBefore(k[1..], a[1..], b[1..]);
    }
  }

  lemma {:induction false} BeforeIsTransitive(a: Key, b: Key, c: Key)
    requires Before(a, b) && Before(b, c)
    ensures Before(a, c)
  {
    if a != [] && a[0] == b[0] && b[0] == c[0] {
      BeforeIsTransitive(a[1..], b[1..], c[1..]);
    }
  }

  lemma {:induction false} BeforeIsIrreflexive(a: Key)
    ensures !Before(a, a)
  {
    if a != [] {
      BeforeIsIrreflexive(a[1..]);
    }
  }

  /** A key that precedes another, and is no prefix of it, still does when it is made longer. */
  lemma {:induction false} BeforeExtends(a: Key, b: Key, c: Key)
    requires Before(a, b) && !(a <= b) && a <= c
    ensures Before(c, b)
  {
    if a[0] == b[0] {
      BeforeExtends(a[1..], b[1..], c[1..]);
    }
  }

  /** Strictly increasing lists of keys. */
  ghost predicate Ascending(s: seq<Key>) {
    forall i, j :: 0 <= i < j < |s| ==> Before(s[i], s[j])
  }

  lemma PrefixesBeyond(k: Key, a: Key, b: Key)
    ensures k + a <= k + b <==> a <= b
    ensures k + a < k + b <==> a < b
  {
    assert (k + a)[|k|..] == a && (k + b)[|k|..] == b;
    assert k + a <= k + b ==> a == (k + b)[..|k + a|][|k|..];
  }

  lemma PrefixesAgree(a: Key, b: Key, c: Key)
    requires a <= c && b <= c
    ensures a <= b || b <= a
  {
    if |a| <= |b| {
      assert a == c[..|b|][..|a|];
    } else {
      assert b == c[..|a|][..|b|];
    }
  }

  lemma PrefixOfPrefix(a: Key, c: Key, j: nat)
    requires j <= |c| && a <= c[..j]
    ensures a <= c
  {
    assert c[..j][..|a|] == c[..|a|];
  }

  lemma PrefixTransitive(a: Key, b: Key, c: Key)
    requires a <= b && b <= c
    ensures a <= c
  {
    assert c[..|b|][..|a|] == c[..|a|];
  }

  lemma HasMember(s: seq<Key>)
    requires s != []
    ensures exists k :: k in s
  {
    assert s[0] in s;
  }

  /** A strictly increasing list is determined by the set of its elements. */
  lemma {:induction false} AscendingIsUnique(s: seq<Key>, t: seq<Key>)
    requires Ascending(s) && Ascending(t)
    requires forall k :: k in s <==> k in t
    ensures s == t
  {
    if s == [] {
      if t != [] { HasMember(t); }
    } else {
      assert s[0] in t;
      var j :| 0 <= j < |t| && t[j] == s[0];
      assert t[0] in s;
      var i :| 0 <= i < |s| && s[i] == t[0];
      if j != 0 {
        assert Before(t[0], t[j]);
        if i != 0 {
          assert Before(s[0], s[i]);
          BeforeIsTransitive(s[0], t[0], s[0]);
        }
        BeforeIsIrreflexive(s[0]);
        assert false;
      }
      assert s[0] == t[0];
      forall k
        ensures k in s[1..] <==> k in t[1..]
      {
        BeforeIsIrreflexive(s[0]);
        if k in s[1..] { assert k in t; assert Before(s[0], k); }
        if k in t[1..] { assert k in s; assert Before(t[0], k); }
      }
      AscendingIsUnique(s[1..], t[1..]);
      assert s == [s[0]] + s[1..] && t == [t[0]] + t[1..];
    }
  }

  /** Source form of the shared-prefix computation: scan until the bytes differ. */
  method SharedPrefix(k1: Key, k2: Key) returns (i: nat)
    ensures i == Shared(k1, k2)
  {
    var max := |k1|;
    if |k2| < max {
      max := |k2|;
    }
    i := 0;
    while i < max
      invariant i <= max
      invariant k1[..i] == k2[..i]
    {
      if k1[i] != k2[i] {
        break;
      }
      i := i + 1;
    }
    SharedUnique(k1, k2, i);
  }
}

/** The doubly linked list: nodes keep their identity while the list around them
    changes, and a callback may delete the node it is being shown. */
module List {
  import opened Wrappers

  const TWO_TO_THE_32: int := 0x1_0000_0000

  /** Go's uint32, with wrap-around. */
  type Uint32 = x: int | 0 <= x < TWO_TO_THE_32

  /** x modulo 2 to the 32. */
  function Wrap(x: int): Uint32
    decreases if x < 0 then TWO_TO_THE_32 - x else x
  {
    if x < 0 then Wrap(x + TWO_TO_THE_32)
    else if x < TWO_TO_THE_32 then x
    else Wrap(x - TWO_TO_THE_32)
  }

  lemma {:induction false} WrapIsModulo(x: int)
    ensures Wrap(x) == x % TWO_TO_THE_32
    decreases if x < 0 then TWO_TO_THE_32 - x else x
  {
    if x < 0 {
      WrapIsModulo(x + TWO_TO_THE_32);
    } else if x >= TWO_TO_THE_32 {
      WrapIsModulo(x - TWO_TO_THE_32);
    }
  }

  /** Incrementing and decrementing commute with wrapping. */
  lemma {:induction false} WrapSteps(x: int)
    ensures Wrap(Wrap(x) + 1) == Wrap(x + 1)
    ensures Wrap(Wrap(x) - 1) == Wrap(x - 1)
    decreases if x < 0 then TWO_TO_THE_32 - x else x
  {
    if x < 0 {
      WrapSteps(x + TWO_TO_THE_32);
    } else if x >= TWO_TO_THE_32 {
      WrapSteps(x - TWO_TO_THE_32);
    }
  }

  class Node<T> {
    var next: Node?<T>
    var prev: Node?<T>
    var value: T

    constructor (v: T)
      ensures next == null && prev == null && value == v
    {
      next, prev, value := null, null, v;
    }

    method ChangeValue(v: T)
      modifies this`value
      ensures value == v
    {
      value := v;
    }
  }

  /** What a callback does with the element it is shown: delete it or not, and
      end the iteration with an error or not. */
  datatype Action<+E> = Action(delete: bool, err: Option<E>)

  /** What an iteration comes to: the visits in order, the original positions of
      the elements left, the error that ended it. */
  datatype Result<+T, +E> = Result(visits: seq<(T, Uint32)>, left: seq<nat>, err: Option<E>)

  function Range(lo: nat, hi: nat): (s: seq<nat>)
    requires lo <= hi
  {
    seq(hi - lo, j => lo + j)
  }

  /** Forward iteration over xs from position p on, with i the running index.  The
      callback decides by the visits so far, the current one last. */
  function Forward<T, E>(act: seq<(T, Uint32)> -> Action<E>, seen: seq<(T, Uint32)>, xs: seq<T>, p: nat, i: Uint32): Result<T, E>
    requires p <= |xs|
    decreases |xs| - p
  {
    if p == |xs| then Result(seen, [], None)
    else
      var visits := seen + [(xs[p], i)];
      var a := act(visits);
      var stays := if a.delete then [] else [p];
      if a.err.Some? then Result(visits, stays + Range(p + 1, |xs|), a.err)
      else
        var r := Forward(act, visits, xs, p + 1, Wrap(i + 1));
        r.(left := stays + r.left)
  }

  /** Backward iteration over the first n elements of xs, with i the running index. */
  function Backward<T, E>(act: seq<(T, Uint32)> -> Action<E>, seen: seq<(T, Uint32)>, xs: seq<T>, n: nat, i: Uint32): Result<T, E>
    requires n <= |xs|
    decreases n
  {
    if n == 0 then Result(seen, [], None)
    else
      var last := n - 1;
      var visits := seen + [(xs[last], i)];
      var a := act(visits);
      var stays := if a.delete then [] else [last];
      if a.err.Some? then Result(visits, Range(0, last) + stays, a.err)
      else
        var r := Backward(act, visits, xs, last, Wrap(i - 1));
        r.(left := r.left + stays)
  }

  /** A forward iteration over xs, with p elements visited and `left` kept of them, comes to `whole`. */
  ghost predicate Midway<T, E>(act: seq<(T, Uint32)> -> Action<E>, visits: seq<(T, Uint32)>, xs: seq<T>, p: nat, i: Uint32, left: seq<nat>, whole: Result<T, E>) {
    p <= |xs| && var r := Forward(act, visits, xs, p, i); whole == r.(left := left + r.left)
  }

  lemma ForwardStep<T, E>(act: seq<(T, Uint32)> -> Action<E>, visits: seq<(T, Uint32)>, xs: seq<T>, p: nat, i: Uint32, left: seq<nat>, whole: Result<T, E>)
    requires p < |xs| && Midway(act, visits, xs, p, i, left, whole)
    ensures var visits' := visits + [(xs[p], i)];
      var a := act(visits');
      var left' := if a.delete then left else left + [p];
      if a.err.Some? then whole == Result(visits', left' + Range(p + 1, |xs|), a.err)
      else Midway(act, visits', xs, p + 1, Wrap(i + 1), left', whole)
  {
    var a := act(visits + [(xs[p], i)]);
    var stays := if a.delete then [] else [p];
    var rest := if a.err.Some? then Range(p + 1, |xs|) else Forward(act, visits + [(xs[p], i)], xs, p + 1, Wrap(i + 1)).left;
    assert left + (stays + rest) == (left + stays) + rest;
    assert left + stays == if a.delete then left else left + [p];
  }

  /** A backward iteration over xs, with p elements still to visit and `left` kept of the others. */
  ghost predicate MidwayBack<T, E>(act: seq<(T, Uint32)> -> Action<E>, visits: seq<(T, Uint32)>, xs: seq<T>, p: nat, i: Uint32, left: seq<nat>, whole: Result<T, E>) {
    p <= |xs| && var r := Backward(act, visits, xs, p, i); whole == r.(left := r.left + left)
  }

  lemma BackwardStep<T, E>(act: seq<(T, Uint32)> -> Action<E>, visits: seq<(T, Uint32)>, xs: seq<T>, p: nat, i: Uint32, left: seq<nat>, whole: Result<T, E>)
    requires p < |xs| && MidwayBack(act, visits, xs, p + 1, i, left, whole)
    ensures var visits' := visits + [(xs[p], i)];
      var a := act(visits');
      var left' := if a.delete then left else [p] + left;
      if a.err.Some? then whole == Result(visits', Range(0, p) + left', a.err)
      else MidwayBack(act, visits', xs, p, Wrap(i - 1), left', whole)
  {
    var a := act(visits + [(xs[p], i)]);
    var stays := if a.delete then [] else [p];
    var rest := if a.err.Some? then Range(0, p) else Backward(act, visits + [(xs[p], i)], xs, p, Wrap(i - 1)).left;
    assert (rest + stays) + left == rest + (stays + left);
    assert stays + left == if a.delete then left else [p] + left;
  }

  /** The callback that only looks. */
  function Keep<T, E>(visits: seq<(T, Uint32)>): Action<E> {
    Action(false, None)
  }

  ghost predicate Increasing(s: seq<nat>) {
    forall i, j :: 0 <= i < j < |s| ==> s[i] < s[j]
  }

  lemma IncreasingConcat(s: seq<nat>, t: seq<nat>)
    requires Increasing(s) && Increasing(t) && forall a, b :: a in s && b in t ==> a < b
    ensures Increasing(s + t)
  {
    assert forall i :: 0 <= i < |s| ==> s[i] in s;
    assert forall j :: 0 <= j < |t| ==> t[j] in t;
  }

  /** After what was seen come the elements from position p on, in order. */
  ghost predicate ShowsFrom<T>(visits: seq<(T, Uint32)>, seen: seq<(T, Uint32)>, xs: seq<T>, p: nat) {
    && p <= |xs| && seen <= visits && |visits| <= |seen| + |xs| - p
    && forall q :: p <= q < p + |visits| - |seen| ==> visits[|seen| + q - p].0 == xs[q]
  }

  /** What is left from position p on is what was not both shown and deleted; visit k showed position p. */
  ghost predicate LeavesFrom<T, E>(act: seq<(T, Uint32)> -> Action<E>, visits: seq<(T, Uint32)>, k: nat, p: nat, n: nat, left: seq<nat>) {
    && p <= n && k <= |visits| <= k + n - p && Increasing(left)
    && forall q: nat :: q in left <==> p <= q < n && (k + q - p < |visits| ==> !act(visits[..k + q - p + 1]).delete)
  }

  /** After the first k visits, the iteration ends with the first error that the callback returns, if any. */
  ghost predicate EndsWithFirstError<T, E>(act: seq<(T, Uint32)> -> Action<E>, visits: seq<(T, Uint32)>, k: nat, err: Option<E>) {
    && k <= |visits|
    && (forall n :: k < n < |visits| ==> act(visits[..n]).err.None?)
    && if k < |visits| then err == act(visits).err else err.None?
  }

  lemma {:induction false} LeavesOneMore<T, E>(act: seq<(T, Uint32)> -> Action<E>, visits: seq<(T, Uint32)>, k: nat, p: nat, n: nat, left: seq<nat>)
    requires p < n && LeavesFrom(act, visits, k + 1, p + 1, n, left)
    ensures LeavesFrom(act, visits, k, p, n, (if act(visits[..k + 1]).delete then [] else [p]) + left)
  {
    var first := if act(visits[..k + 1]).delete then [] else [p];
    IncreasingConcat(first, left);
    forall q: nat
      ensures q in first + left <==> p <= q < n && (k + q - p < |visits| ==> !act(visits[..k + q - p + 1]).delete)
    {
      assert q in first + left <==> q in first || q in left;
      assert q in left <==> p + 1 <= q < n && (k + q - p < |visits| ==> !act(visits[..k + q - p + 1]).delete);
    }
  }

  lemma {:induction false} LeavesRest<T, E>(act: seq<(T, Uint32)> -> Action<E>, visits: seq<(T, Uint32)>, p: nat, n: nat)
    requires p <= n
    ensures LeavesFrom(act, visits, |visits|, p, n, Range(p, n))
  {
    forall q: nat
      ensures q in Range(p, n) <==> p <= q < n
    {
      assert p <= q < n ==> Range(p, n)[q - p] == q;
    }
  }

  lemma {:induction false} FirstErrorOneMore<T, E>(act: seq<(T, Uint32)> -> Action<E>, visits: seq<(T, Uint32)>, k: nat, err: Option<E>)
    requires EndsWithFirstError(act, visits, k + 1, err) && act(visits[..k + 1]).err.None?
    ensures EndsWithFirstError(act, visits, k, err)
  {
    assert |visits| == k + 1 ==> visits[..k + 1] == visits;
  }

  lemma {:induction false} ShowsOneMore<T>(visits: seq<(T, Uint32)>, seen: seq<(T, Uint32)>, xs: seq<T>, p: nat, i: Uint32)
    requires p < |xs| && ShowsFrom(visits, seen + [(xs[p], i)], xs, p + 1)
    ensures ShowsFrom(visits, seen, xs, p)
  {
    var before := seen + [(xs[p], i)];
    assert visits[..|before|] == before;
    forall q | p <= q < p + |visits| - |seen|
      ensures visits[|seen| + q - p].0 == xs[q]
    {
      if q == p {
        assert visits[|seen|] == before[|seen|];
      } else {
        assert visits[|before| + q - (p + 1)].0 == xs[q];
      }
    }
  }

  /** What a forward iteration from position p on comes to, after what was seen. */
  ghost predicate Shown<T, E>(act: seq<(T, Uint32)> -> Action<E>, seen: seq<(T, Uint32)>, xs: seq<T>, p: nat, r: Result<T, E>) {
    && ShowsFrom(r.visits, seen, xs, p) && LeavesFrom(act, r.visits, |seen|, p, |xs|, r.left)
    && EndsWithFirstError(act, r.visits, |seen|, r.err) && (r.err.None? ==> |r.visits| == |seen| + |xs| - p)
  }

  lemma {:induction false} ErrorShown<T, E>(act: seq<(T, Uint32)> -> Action<E>, seen: seq<(T, Uint32)>, xs: seq<T>, p: nat, i: Uint32)
    requires p < |xs| && act(seen + [(xs[p], i)]).err.Some?
    ensures var visits := seen + [(xs[p], i)];
      var a := act(visits);
      Shown(act, seen, xs, p, Result(visits, (if a.delete then [] else [p]) + Range(p + 1, |xs|), a.err))
  {
    var visits := seen + [(xs[p], i)];
    LeavesRest(act, visits, p + 1, |xs|);
    assert visits[..|visits|] == visits;
    LeavesOneMore(act, visits, |seen|, p, |xs|, Range(p + 1, |xs|));
    ShowsOneMore(visits, seen, xs, p, i);
  }

  lemma {:induction false} MoreShown<T, E>(act: seq<(T, Uint32)> -> Action<E>, seen: seq<(T, Uint32)>, xs: seq<T>, p: nat, i: Uint32, r: Result<T, E>)
    requires p < |xs| && act(seen + [(xs[p], i)]).err.None? && Shown(act, seen + [(xs[p], i)], xs, p + 1, r)
    ensures Shown(act, seen, xs, p, r.(left := (if act(seen + [(xs[p], i)]).delete then [] else [p]) + r.left))
  {
    var visits := seen + [(xs[p], i)];
    assert r.visits[..|seen| + 1] == visits;
    LeavesOneMore(act, r.visits, |seen|, p, |xs|, r.left);
    FirstErrorOneMore(act, r.visits, |seen|, r.err);
    ShowsOneMore(r.visits, seen, xs, p, i);
  }

  /** A forward iteration shows the elements in order, every one of them unless an error ends it,
      and leaves exactly those it has not both shown and deleted, in their order. */
  lemma {:induction false} ForwardShowsAll<T, E>(act: seq<(T, Uint32)> -> Action<E>, seen: seq<(T, Uint32)>, xs: seq<T>, p: nat, i: Uint32)
    requires p <= |xs|
    ensures Shown(act, seen, xs, p, Forward(act, seen, xs, p, i))
    decreases |xs| - p
  {
    if p < |xs| {
      var visits := seen + [(xs[p], i)];
      if act(visits).err.Some? {
        ErrorShown(act, seen, xs, p, i);
      } else {
        ForwardShowsAll(act, visits, xs, p + 1, Wrap(i + 1));
        MoreShown(act, seen, xs, p, i, Forward(act, visits, xs, p + 1, Wrap(i + 1)));
      }
    } else {
      LeavesRest(act, seen, p, |xs|);
    }
  }

  /** The index each element is shown with is its original position. */
  lemma {:induction false} ForwardIndices<T, E>(act: seq<(T, Uint32)> -> Action<E>, seen: seq<(T, Uint32)>, xs: seq<T>, p: nat, j: nat)
    requires p <= |xs| && |seen| <= j < |Forward(act, seen, xs, p, Wrap(p)).visits|
    ensures seen <= Forward(act, seen, xs, p, Wrap(p)).visits
    ensures Forward(act, seen, xs, p, Wrap(p)).visits[j].1 == Wrap(p + j - |seen|)
    decreases |xs| - p
  {
    var visits := seen + [(xs[p], Wrap(p))];
    if act(visits).err.None? {
      WrapSteps(p);
      if j > |seen| {
        ForwardIndices(act, visits, xs, p + 1, j);
      } else {
        ForwardShowsMore(act, visits, xs, p + 1, Wrap(p + 1));
      }
    }
  }

  lemma {:induction false} ForwardShowsMore<T, E>(act: seq<(T, Uint32)> -> Action<E>, seen: seq<(T, Uint32)>, xs: seq<T>, p: nat, i: Uint32)
    requires p <= |xs|
    ensures seen <= Forward(act, seen, xs, p, i).visits
    decreases |xs| - p
  {
    if p < |xs| && act(seen + [(xs[p], i)]).err.None? {
      ForwardShowsMore(act, seen + [(xs[p], i)], xs, p + 1, Wrap(i + 1));
    }
  }

  /** After what was seen come the first n elements, the last of them first. */
  ghost predicate ShowsBack<T>(visits: seq<(T, Uint32)>, seen: seq<(T, Uint32)>, xs: seq<T>, n: nat) {
    && n <= |xs| && seen <= visits && |visits| <= |seen| + n
    && forall p :: n - (|visits| - |seen|) <= p < n ==> visits[|seen| + n - 1 - p].0 == xs[p]
  }

  /** Visit k showed position n - 1. */
  ghost predicate LeavesBack<T, E>(act: seq<(T, Uint32)> -> Action<E>, visits: seq<(T, Uint32)>, k: nat, n: nat, left: seq<nat>) {
    && k <= |visits| <= k + n && Increasing(left)
    && forall p: nat :: p in left <==> p < n && (k + n - 1 - p < |visits| ==> !act(visits[..k + n - p]).delete)
  }

  lemma {:induction false} LeavesOneBack<T, E>(act: seq<(T, Uint32)> -> Action<E>, visits: seq<(T, Uint32)>, k: nat, n: nat, left: seq<nat>)
    requires LeavesBack(act, visits, k + 1, n, left)
    ensures LeavesBack(act, visits, k, n + 1, left + if act(visits[..k + 1]).delete then [] else [n])
  {
    var more := if act(visits[..k + 1]).delete then [] else [n];
    assert forall p :: p in left ==> p < n;
    IncreasingConcat(left, more);
    forall p: nat
      ensures p in left + more <==> p < n + 1 && (k + n - p < |visits| ==> !act(visits[..k + n + 1 - p]).delete)
    {
      assert p in left + more <==> p in left || p in more;
      assert p in left <==> p < n && (k + 1 + n - 1 - p < |visits| ==> !act(visits[..k + 1 + n - p]).delete);
    }
  }

  lemma {:induction false} LeavesRestBack<T, E>(act: seq<(T, Uint32)> -> Action<E>, visits: seq<(T, Uint32)>, n: nat)
    ensures LeavesBack(act, visits, |visits|, n, Range(0, n))
  {
    forall q: nat
      ensures q in Range(0, n) <==> q < n
    {
      assert q < n ==> Range(0, n)[q] == q;
    }
  }

  lemma {:induction false} ShowsOneBack<T>(visits: seq<(T, Uint32)>, seen: seq<(T, Uint32)>, xs: seq<T>, n: nat, i: Uint32)
    requires n < |xs| && ShowsBack(visits, seen + [(xs[n], i)], xs, n)
    ensures ShowsBack(visits, seen, xs, n + 1)
  {
    var before := seen + [(xs[n], i)];
    assert visits[..|before|] == before;
    forall p | n + 1 - (|visits| - |seen|) <= p < n + 1
      ensures visits[|seen| + n - p].0 == xs[p]
    {
      if p == n {
        assert visits[|seen|] == before[|seen|];
      } else {
        assert visits[|before| + n - 1 - p].0 == xs[p];
      }
    }
  }

  /** What a backward iteration of the first n elements comes to, after what was seen. */
  ghost predicate ShownBack<T, E>(act: seq<(T, Uint32)> -> Action<E>, seen: seq<(T, Uint32)>, xs: seq<T>, n: nat, r: Result<T, E>) {
    && ShowsBack(r.visits, seen, xs, n) && LeavesBack(act, r.visits, |seen|, n, r.left)
    && EndsWithFirstError(act, r.visits, |seen|, r.err) && (r.err.None? ==> |r.visits| == |seen| + n)
  }

  lemma {:induction false} ErrorShownBack<T, E>(act: seq<(T, Uint32)> -> Action<E>, seen: seq<(T, Uint32)>, xs: seq<T>, n: nat, i: Uint32)
    requires n < |xs| && act(seen + [(xs[n], i)]).err.Some?
    ensures var visits := seen + [(xs[n], i)];
      var a := act(visits);
      ShownBack(act, seen, xs, n + 1, Result(visits, Range(0, n) + (if a.delete then [] else [n]), a.err))
  {
    var visits := seen + [(xs[n], i)];
    LeavesRestBack(act, visits, n);
    assert visits[..|visits|] == visits;
    LeavesOneBack(act, visits, |seen|, n, Range(0, n));
    ShowsOneBack(visits, seen, xs, n, i);
  }

  lemma {:induction false} MoreShownBack<T, E>(act: seq<(T, Uint32)> -> Action<E>, seen: seq<(T, Uint32)>, xs: seq<T>, n: nat, i: Uint32, r: Result<T, E>)
    requires n < |xs| && act(seen + [(xs[n], i)]).err.None? && ShownBack(act, seen + [(xs[n], i)], xs, n, r)
    ensures ShownBack(act, seen, xs, n + 1, r.(left := r.left + if act(seen + [(xs[n], i)]).delete then [] else [n]))
  {
    var visits := seen + [(xs[n], i)];
    assert r.visits[..|seen| + 1] == visits;
    LeavesOneBack(act, r.visits, |seen|, n, r.left);
    FirstErrorOneMore(act, r.visits, |seen|, r.err);
    ShowsOneBack(r.visits, seen, xs, n, i);
  }

  /** The same for a backward iteration, which shows the last element first. */
  lemma {:induction false} BackwardShowsAll<T, E>(act: seq<(T, Uint32)> -> Action<E>, seen: seq<(T, Uint32)>, xs: seq<T>, n: nat, i: Uint32)
    requires n <= |xs|
    ensures ShownBack(act, seen, xs, n, Backward(act, seen, xs, n, i))
    decreases n
  {
    if n > 0 {
      var visits := seen + [(xs[n - 1], i)];
      if act(visits).err.Some? {
        ErrorShownBack(act, seen, xs, n - 1, i);
      } else {
        BackwardShowsAll(act, visits, xs, n - 1, Wrap(i - 1));
        MoreShownBack(act, seen, xs, n - 1, i, Backward(act, visits, xs, n - 1, Wrap(i - 1)));
      }
    } else {
      LeavesRestBack(act, seen, n);
    }
  }

  /** Visit j shows position `at`, by an index i that counts down from n - 1. */
  lemma {:induction false} BackwardIndex<T, E>(act: seq<(T, Uint32)> -> Action<E>, seen: seq<(T, Uint32)>, xs: seq<T>, n: nat, i: Uint32, j: nat, at: int)
    requires n <= |xs| && i == Wrap(n - 1) && |seen| <= j < |Backward(act, seen, xs, n, i).visits| && at + j == n - 1 + |seen|
    ensures Backward(act, seen, xs, n, i).visits[j].1 == Wrap(at)
    decreases n
  {
    var last := n - 1;
    var visits := seen + [(xs[last], i)];
    if act(visits).err.None? {
      var next := Wrap(i - 1);
      BackwardShowsMore(act, visits, xs, last, next);
      if j > |seen| {
        assert next == Wrap(last - 1) by { WrapSteps(last); }
        BackwardIndex(act, visits, xs, last, next, j, at);
      } else {
        assert at == last;
      }
    }
  }

  lemma BackwardIndices<T, E>(act: seq<(T, Uint32)> -> Action<E>, seen: seq<(T, Uint32)>, xs: seq<T>, n: nat, j: nat)
    requires n <= |xs| && |seen| <= j < |Backward(act, seen, xs, n, Wrap(n - 1)).visits|
    ensures seen <= Backward(act, seen, xs, n, Wrap(n - 1)).visits
    ensures Backward(act, seen, xs, n, Wrap(n - 1)).visits[j].1 == Wrap(n - 1 - (j - |seen|))
  {
    BackwardShowsMore(act, seen, xs, n, Wrap(n - 1));
    BackwardIndex(act, seen, xs, n, Wrap(n - 1), j, n - 1 - (j - |seen|));
  }

  lemma {:induction false} BackwardShowsMore<T, E>(act: seq<(T, Uint32)> -> Action<E>, seen: seq<(T, Uint32)>, xs: seq<T>, n: nat, i: Uint32)
    requires n <= |xs|
    ensures seen <= Backward(act, seen, xs, n, i).visits
    decreases n
  {
    if n > 0 && act(seen + [(xs[n - 1], i)]).err.None? {
      BackwardShowsMore(act, seen + [(xs[n - 1], i)], xs, n - 1, Wrap(i - 1));
    }
  }

  /** What Array's callback is shown. */
  lemma KeepShows<T, E>(xs: seq<T>)
    ensures var r: Result<T, E> := Forward(Keep<T, E>, [], xs, 0, 0);
      && r.err.None? && r.left == Range(0, |xs|) && |r.visits| == |xs|
      && forall j :: 0 <= j < |xs| ==> r.visits[j] == (xs[j], Wrap(j))
  {
    KeepsAll<T, E>([], xs, 0, 0);
    ForwardShowsAll(Keep<T, E>, [], xs, 0, 0);
    var r: Result<T, E> := Forward(Keep<T, E>, [], xs, 0, 0);
    forall j | 0 <= j < |xs|
      ensures r.visits[j] == (xs[j], Wrap(j))
    {
      ForwardIndices(Keep<T, E>, [], xs, 0, j);
      assert r.visits[0 + j - 0].0 == xs[j];
    }
  }

  lemma {:induction false} KeepsAll<T, E>(seen: seq<(T, Uint32)>, xs: seq<T>, p: nat, i: Uint32)
    requires p <= |xs|
    ensures var r: Result<T, E> := Forward(Keep<T, E>, seen, xs, p, i); r.err.None? && r.left == Range(p, |xs|)
    decreases |xs| - p
  {
    if p < |xs| {
      KeepsAll<T, E>(seen + [(xs[p], i)], xs, p + 1, Wrap(i + 1));
    }
  }

  /** An iteration ended by an error leaves everything it has not shown. */
  lemma {:induction false} ForwardLeavesTheRest<T, E>(act: seq<(T, Uint32)> -> Action<E>, seen: seq<(T, Uint32)>, xs: seq<T>, p: nat, i: Uint32, q: nat)
    requires p <= |xs| && Forward(act, seen, xs, p, i).err.Some?
    requires p + |Forward(act, seen, xs, p, i).visits| - |seen| <= q < |xs|
    ensures q in Forward(act, seen, xs, p, i).left
    decreases |xs| - p
  {
    var visits := seen + [(xs[p], i)];
    if act(visits).err.None? {
      ForwardLeavesTheRest(act, visits, xs, p + 1, Wrap(i + 1), q);
    } else {
      assert Range(p + 1, |xs|)[q - p - 1] == q;
    }
  }

  ghost function ValuesOf<T>(nodes: seq<Node<T>>): (s: seq<T>)
    reads nodes
    ensures |s| == |nodes| && forall i :: 0 <= i < |s| ==> s[i] == nodes[i].value
  {
    seq(|nodes|, i requires 0 <= i < |nodes| reads nodes => nodes[i].value)
  }

  /** nodes is all, cut down to the positions in left. */
  ghost predicate Picks<T>(all: seq<Node<T>>, left: seq<nat>, nodes: seq<Node<T>>) {
    |nodes| == |left| && forall j :: 0 <= j < |left| ==> left[j] < |all| && nodes[j] == all[left[j]]
  }

  lemma PicksAll<T>(all: seq<Node<T>>, nodes: seq<Node<T>>)
    requires Picks(all, Range(0, |all|), nodes)
    ensures nodes == all
  {
  }

  /** nodes is what `left` picks of the first p elements, and all the others. */
  ghost predicate Splits<T>(all: seq<Node<T>>, left: seq<nat>, p: nat, nodes: seq<Node<T>>) {
    && p <= |all| && |nodes| == |left| + |all| - p
    && (forall j {:trigger left[j]} :: 0 <= j < |left| ==> left[j] < p && nodes[j] == all[left[j]])
    && forall k :: p <= k < |all| ==> nodes[|left| + k - p] == all[k]
  }

  lemma SplitsOn<T>(all: seq<Node<T>>, left: seq<nat>, p: nat, nodes: seq<Node<T>>)
    requires Splits(all, left, p, nodes) && p < |all|
    ensures nodes[|left|] == all[p] && (p + 1 < |all| ==> nodes[|left| + 1] == all[p + 1])
    ensures Splits(all, left, p + 1, nodes[..|left|] + nodes[|left| + 1..])
    ensures Splits(all, left + [p], p + 1, nodes)
  {
    assert nodes[|left| + p - p] == all[p] && (p + 1 < |all| ==> nodes[|left| + (p + 1) - p] == all[p + 1]);
  }

  lemma SplitsEnd<T>(all: seq<Node<T>>, left: seq<nat>, p: nat, nodes: seq<Node<T>>)
    requires Splits(all, left, p, nodes)
    ensures Picks(all, left + Range(p, |all|), nodes)
  {
    var full := left + Range(p, |all|);
    forall j | 0 <= j < |full|
      ensures full[j] < |all| && nodes[j] == all[full[j]]
    {
      if j >= |left| {
        var k := p + j - |left|;
        assert full[j] == k && nodes[|left| + k - p] == all[k];
      }
    }
  }

  lemma ForwardEnds<T, E>(act: seq<(T, Uint32)> -> Action<E>, visits: seq<(T, Uint32)>, xs: seq<T>, i: Uint32, left: seq<nat>, whole: Result<T, E>,
                          all: seq<Node<T>>, nodes: seq<Node<T>>)
    requires Midway(act, visits, xs, |xs|, i, left, whole) && Splits(all, left, |all|, nodes)
    ensures whole.visits == visits && whole.err.None? && Picks(all, whole.left, nodes)
  {
    SplitsEnd(all, left, |all|, nodes);
  }

  /** nodes is the first p elements, and what `left` picks of the others. */
  ghost predicate SplitsBack<T>(all: seq<Node<T>>, left: seq<nat>, p: nat, nodes: seq<Node<T>>) {
    && p <= |all| && |nodes| == p + |left|
    && (forall j :: 0 <= j < |left| ==> left[j] < |all| && nodes[p + j] == all[left[j]])
    && nodes[..p] == all[..p]
  }

  lemma SplitsBackOn<T>(all: seq<Node<T>>, left: seq<nat>, p: nat, nodes: seq<Node<T>>)
    requires SplitsBack(all, left, p + 1, nodes)
    ensures nodes[p] == all[p] && (p > 0 ==> nodes[p - 1] == all[p - 1])
    ensures SplitsBack(all, left, p, nodes[..p] + nodes[p + 1..])
    ensures SplitsBack(all, [p] + left, p, nodes)
  {
    assert nodes[p] == nodes[..p + 1][p] == all[..p + 1][p];
    assert nodes[..p] == nodes[..p + 1][..p] == all[..p + 1][..p] == all[..p];
    assert forall j :: 0 <= j < |left| ==> (nodes[..p] + nodes[p + 1..])[p + j] == nodes[p + 1 + j] == all[left[j]];
  }

  lemma SplitsBackEnd<T>(all: seq<Node<T>>, left: seq<nat>, p: nat, nodes: seq<Node<T>>)
    requires SplitsBack(all, left, p, nodes)
    ensures Picks(all, Range(0, p) + left, nodes)
  {
    var full := Range(0, p) + left;
    forall j | 0 <= j < |full|
      ensures full[j] < |all| && nodes[j] == all[full[j]]
    {
      if j < p {
        assert nodes[j] == nodes[..p][j] == all[..p][j];
      } else {
        assert nodes[p + (j - p)] == all[left[j - p]];
      }
    }
  }

  class Generic<T> {
    var Size: Uint32
    var head: Node?<T>
    var tail: Node?<T>
    ghost var Nodes: seq<Node<T>>
    ghost var Place: map<Node<T>, nat>
    ghost var Repr: set<Node<T>>

    /** The node at a position, null beyond either end. */
    ghost function At(i: int): Node?<T>
      reads this`Nodes
    {
      if 0 <= i < |Nodes| then Nodes[i] else null
    }

    /** The node at position i knows its neighbours and occurs nowhere else. */
    ghost predicate Links(i: nat)
      requires i < |Nodes|
      reads this`Nodes, this`Place, this`Repr, Nodes
    {
      && Nodes[i].next == At(i + 1) && Nodes[i].prev == At(i - 1)
      && Nodes[i] in Place && Place[Nodes[i]] == i && Nodes[i] in Repr
    }

    ghost predicate Valid()
      reads this, Nodes
    {
      && (forall i {:trigger Links(i)} :: 0 <= i < |Nodes| ==> Links(i))
      && head == At(0) && tail == At(|Nodes| - 1)
      && Size == Wrap(|Nodes|)
    }

    ghost function Values(): seq<T>
      reads this`Nodes, Nodes
    {
      ValuesOf(Nodes)
    }

    ghost predicate Placed(i: nat)
      requires i < |Nodes|
      reads this`Nodes, this`Place, this`Repr
    {
      Nodes[i] in Place && Place[Nodes[i]] == i && Nodes[i] in Repr
    }

    lemma AllPlaced()
      requires Valid()
      ensures forall i :: 0 <= i < |Nodes| ==> Placed(i)
    {
      forall i | 0 <= i < |Nodes|
        ensures Placed(i)
      {
        assert Links(i);
      }
    }

    /** The links pass by the node at a position. */
    ghost predicate Bypassed(at: nat)
      reads this, Nodes
    {
      && at < |Nodes|
      && head == (if at == 0 then At(1) else At(0)) && tail == (if at == |Nodes| - 1 then At(at - 1) else At(|Nodes| - 1))
      && forall i {:trigger Nodes[i].next} {:trigger Nodes[i].prev} :: 0 <= i < |Nodes| && i != at ==>
        && Nodes[i].next == (if i + 1 == at then At(at + 1) else At(i + 1))
        && Nodes[i].prev == if i == at + 1 then At(at - 1) else At(i - 1)
    }

    /** A node that the links pass by is no longer in the list. */
    ghost method Forget(at: nat)
      requires Bypassed(at) && Size == Wrap(|Nodes| - 1) && forall i :: 0 <= i < |Nodes| ==> Placed(i)
      modifies this`Nodes, this`Place
      ensures Valid() && Nodes == old(Nodes)[..at] + old(Nodes)[at + 1..]
    {
      var was, node := Nodes, Nodes[at];
      Nodes := Nodes[..at] + Nodes[at + 1..];
      Place := map n | n in Place && n != node :: if Place[n] > at then Place[n] - 1 else Place[n];
      forall i | 0 <= i < |Nodes|
        ensures Links(i)
      {
        var j := if i < at then i else i + 1;
        assert old(Placed(j)) && old(Placed(at)) && Nodes[i] == was[j];
      }
    }

    /** The links lead through a new node after the one at a position. */
    ghost predicate Linked(at: nat, node: Node<T>)
      reads this, Nodes, node
    {
      && at < |Nodes| && node.next == At(at + 1) && node.prev == At(at)
      && head == At(0) && tail == (if at == |Nodes| - 1 then node else At(|Nodes| - 1))
      && forall i {:trigger Nodes[i].next} {:trigger Nodes[i].prev} :: 0 <= i < |Nodes| ==>
        && Nodes[i].next == (if i == at then node else At(i + 1))
        && Nodes[i].prev == if i == at + 1 then node else At(i - 1)
    }

    /** A new node that the links lead through is in the list. */
    ghost method Accept(at: nat, node: Node<T>)
      requires Linked(at, node) && Size == Wrap(|Nodes| + 1) && node !in Repr
      requires forall i :: 0 <= i < |Nodes| ==> Placed(i)
      modifies this`Nodes, this`Place, this`Repr
      ensures Valid() && Nodes == old(Nodes)[..at + 1] + [node] + old(Nodes)[at + 1..] && Repr == old(Repr) + {node}
    {
      var was := Nodes;
      Nodes, Repr := Nodes[..at + 1] + [node] + Nodes[at + 1..], Repr + {node};
      Place := (map n | n in Place :: if Place[n] > at then Place[n] + 1 else Place[n])[node := at + 1];
      forall i | 0 <= i < |Nodes|
        ensures Links(i)
      {
        if i != at + 1 {
          var j := if i <= at then i else i - 1;
          assert old(Placed(j)) && Nodes[i] == was[j];
        }
      }
    }

    lemma Once(k: nat)
      requires Valid() && k < |Nodes|
      ensures Links(k)
      ensures forall i :: 0 <= i < |Nodes| && i != k ==> Nodes[i] != Nodes[k]
    {
      assert Links(k);
      forall i | 0 <= i < |Nodes| && i != k
        ensures Nodes[i] != Nodes[k]
      {
        assert Links(i);
      }
    }

    constructor ()
      ensures Valid() && Nodes == [] && Repr == {}
    {
      Size, head, tail := 0, null, null;
      Nodes, Place, Repr := [], map[], {};
    }

    /** Attach obj to the end. */
    method Append(obj: T) returns (node: Node<T>)
      requires Valid()
      modifies this, Repr`next, Repr`prev
      ensures Valid() && fresh(node) && Repr == old(Repr) + {node} && Nodes == old(Nodes) + [node]
      ensures node.value == obj
    {
      ghost var n := |Nodes|;
      WrapSteps(n);
      node := new Node(obj);
      Size := Wrap(Size + 1);
      if tail == null {
        head, tail := node, node;
      } else {
        assert Links(n - 1);
        var oldTail := tail;
        node.prev := oldTail;
        oldTail.next := node;
        tail := node;
      }
      Nodes, Place, Repr := Nodes + [node], Place[node := n], Repr + {node};
      forall i | 0 <= i < |Nodes|
        ensures Links(i)
      {
        if i < n { assert old(Links(i)); }
      }
    }

    /** The neighbours of the node at a position are joined, and the ends of the list moved past it. */
    method Unlink(node: Node<T>, ghost at: nat)
      requires Valid() && at < |Nodes| && Nodes[at] == node
      modifies this`Size, this`head, this`tail, Repr`next, Repr`prev
      ensures Size == Wrap(old(Size) - 1)
      ensures head == if at == 0 then At(1) else old(head)
      ensures tail == if at == |Nodes| - 1 then At(at - 1) else old(tail)
      ensures forall i {:trigger Nodes[i].next} {:trigger Nodes[i].prev} :: 0 <= i < |Nodes| ==>
        && Nodes[i].next == (if i + 1 == at then At(at + 1) else At(i + 1))
        && Nodes[i].prev == if i == at + 1 then At(at - 1) else At(i - 1)
    {
      assert Links(at);
      if at > 0 { Once(at - 1); }
      if at + 1 < |Nodes| { Once(at + 1); }
      var prevNode, nextNode := node.prev, node.next;
      Size := Wrap(Size - 1);
      if prevNode == null && nextNode == null {
        head, tail := null, null;
      } else if prevNode == null {
        head := nextNode;
        nextNode.prev := null;
      } else if nextNode == null {
        tail := prevNode;
        prevNode.next := null;
      } else {
        prevNode.next := nextNode;
        nextNode.prev := prevNode;
      }
      forall i | 0 <= i < |Nodes|
        ensures Nodes[i].next == if i + 1 == at then At(at + 1) else At(i + 1)
        ensures Nodes[i].prev == if i == at + 1 then At(at - 1) else At(i - 1)
      {
        assert old(Links(i));
      }
    }

    /** Unlink a node of the list; nil is ignored.  The node keeps its own links. */
    method Remove(node: Node?<T>, ghost at: nat)
      requires Valid() && (node != null ==> at < |Nodes| && Nodes[at] == node)
      modifies this, Repr`next, Repr`prev
      ensures Valid() && Repr == old(Repr)
      ensures Nodes == if node == null then old(Nodes) else old(Nodes)[..at] + old(Nodes)[at + 1..]
      ensures node != null ==> node.next == old(node.next) && node.prev == old(node.prev)
    {
      if node == null {
        return;
      }
      assert Links(at);
      AllPlaced();
      WrapSteps(|Nodes|);
      Unlink(node, at);
      Forget(at);
    }

    /** Remove and return the first element. */
    method Pop() returns (ans: Option<T>)
      requires Valid()
      modifies this, Repr`next, Repr`prev
      ensures Valid() && Repr == old(Repr) && Nodes == if old(Nodes) == [] then [] else old(Nodes)[1..]
      ensures ans == if old(Nodes) == [] then None else Some(old(Nodes[0].value))
    {
      var first := head;
      if first == null {
        ans := None;
      } else {
        ans := Some(first.value);
        Remove(first, 0);
      }
    }

    /** Insert v after prevNode.  Without a node to insert after, only an empty list takes v;
        emptiness is read off the wrapped size. */
    method Insert(v: T, prevNode: Node?<T>, ghost at: nat) returns (node: Node?<T>)
      requires Valid() && (prevNode != null ==> at < |Nodes| && Nodes[at] == prevNode)
      modifies this, Repr`next, Repr`prev
      ensures Valid()
      ensures node == null <==> prevNode == null && 0 < old(Size)
      ensures node == null ==> Nodes == old(Nodes)
      ensures if node == null then Repr == old(Repr) else fresh(node) && Repr == old(Repr) + {node} && node.value == v
      ensures node != null && prevNode == null ==> Nodes == old(Nodes) + [node]
      ensures prevNode != null ==> Nodes == old(Nodes)[..at + 1] + [node] + old(Nodes)[at + 1..]
    {
      if prevNode == null && 0 < Size {
        return null;
      } else if prevNode == null {
        node := Append(v);
        return;
      }
      node := InsertAfter(v, prevNode, at);
    }

    /** A new node is linked between the node at a position and the next one. */
    method LinkAfter(v: T, prevNode: Node<T>, ghost at: nat) returns (middleNode: Node<T>)
      requires Valid() && at < |Nodes| && Nodes[at] == prevNode
      modifies this`Size, this`tail, Repr`next, Repr`prev
      ensures fresh(middleNode) && middleNode.value == v && middleNode.prev == prevNode && middleNode.next == At(at + 1)
      ensures Size == Wrap(old(Size) + 1) && tail == if at == |Nodes| - 1 then middleNode else old(tail)
      ensures forall i {:trigger Nodes[i].next} {:trigger Nodes[i].prev} :: 0 <= i < |Nodes| ==>
        && Nodes[i].next == (if i == at then middleNode else At(i + 1))
        && Nodes[i].prev == if i == at + 1 then middleNode else At(i - 1)
    {
      Once(at);
      if at + 1 < |Nodes| { Once(at + 1); }
      middleNode := new Node(v);
      Size := Wrap(Size + 1);
      var nextNode := prevNode.next;
      if nextNode == null {
        var oldTail := tail;
        tail := middleNode;
        middleNode.prev := oldTail;
        oldTail.next := middleNode;
      } else {
        middleNode.prev := prevNode;
        middleNode.next := nextNode;
        prevNode.next := middleNode;
        nextNode.prev := middleNode;
      }
      forall i | 0 <= i < |Nodes|
        ensures Nodes[i].next == if i == at then middleNode else At(i + 1)
        ensures Nodes[i].prev == if i == at + 1 then middleNode else At(i - 1)
      {
        assert old(Links(i));
      }
    }

    method InsertAfter(v: T, prevNode: Node<T>, ghost at: nat) returns (middleNode: Node<T>)
      requires Valid() && at < |Nodes| && Nodes[at] == prevNode
      modifies this, Repr`next, Repr`prev
      ensures Valid() && fresh(middleNode) && Repr == old(Repr) + {middleNode} && middleNode.value == v
      ensures Nodes == old(Nodes)[..at + 1] + [middleNode] + old(Nodes)[at + 1..]
    {
      WrapSteps(|Nodes|);
      AllPlaced();
      middleNode := LinkAfter(v, prevNode, at);
      Accept(at, middleNode);
    }

    /** The callback's answer for node, the first of those not yet shown: it stays or goes. */
    method Answer(delete: bool, node: Node<T>, ghost all: seq<Node<T>>, ghost left: seq<nat>, ghost p: nat)
      returns (ghost left': seq<nat>)
      requires Valid() && Splits(all, left, p, Nodes) && p < |all| && node == all[p]
      modifies this, Repr`next, Repr`prev
      ensures Valid() && Repr == old(Repr) && Splits(all, left', p + 1, Nodes) && left' == if delete then left else left + [p]
      ensures node.next == if p + 1 < |all| then all[p + 1] else null
    {
      SplitsOn(all, left, p, Nodes);
      assert Links(|left|);
      if delete {
        Remove(node, |left|);
        left' := left;
      } else {
        left' := left + [p];
      }
    }

    /** Shows the callback the first node not yet shown and does as it says. */
    method Show<E>(act: seq<(T, Uint32)> -> Action<E>, visits: seq<(T, Uint32)>, node: Node<T>, i: Uint32,
                   ghost all: seq<Node<T>>, ghost values: seq<T>, ghost left: seq<nat>, ghost p: nat, ghost whole: Result<T, E>)
      returns (visits': seq<(T, Uint32)>, err: Option<E>, ghost left': seq<nat>)
      requires Valid() && Splits(all, left, p, Nodes) && p < |all| == |values| && node == all[p] && node.value == values[p]
      requires Midway(act, visits, values, p, i, left, whole)
      modifies this, Repr`next, Repr`prev
      ensures Valid() && Repr == old(Repr) && Splits(all, left', p + 1, Nodes)
      ensures node.next == if p + 1 < |all| then all[p + 1] else null
      ensures err.None? ==> Midway(act, visits', values, p + 1, Wrap(i + 1), left', whole)
      ensures err.Some? ==> visits' == whole.visits && err == whole.err && Picks(all, whole.left, Nodes)
    {
      ForwardStep(act, visits, values, p, i, left, whole);
      visits' := visits + [(node.value, i)];
      var a := act(visits');
      left' := Answer(a.delete, node, all, left, p);
      err := a.err;
      SplitsEnd(all, left', p + 1, Nodes);
    }

    /** Shows the callback each element with its index; `visits` is what it was shown. */
    method Iterate<E>(act: seq<(T, Uint32)> -> Action<E>) returns (visits: seq<(T, Uint32)>, err: Option<E>)
      requires Valid()
      modifies this, Repr`next, Repr`prev
      ensures Valid() && Repr == old(Repr)
      ensures var r := Forward(act, [], old(Values()), 0, 0);
        && visits == r.visits && err == r.err && Picks(old(Nodes), r.left, Nodes)
    {
      visits, err := [], None;
      var i: Uint32 := 0;
      var node := head;
      ghost var all, values, left: seq<nat>, p: nat := Nodes, Values(), [], 0;
      ghost var whole := Forward(act, [], values, 0, 0);
      while node != null
        invariant err.None? && p <= |all| && node == (if p < |all| then all[p] else null)
        invariant Valid() && Repr == old(Repr)
        invariant Splits(all, left, p, Nodes) && Midway(act, visits, values, p, i, left, whole)
        decreases |all| - p
      {
        visits, err, left := Show(act, visits, node, i, all, values, left, p, whole);
        if err.Some? {
          return;
        }
        i, p, node := Wrap(i + 1), p + 1, node.next;
      }
      ForwardEnds(act, visits, values, i, left, whole, all, Nodes);
    }

    method ShowLast<E>(act: seq<(T, Uint32)> -> Action<E>, visits: seq<(T, Uint32)>, node: Node<T>, i: Uint32,
                       ghost all: seq<Node<T>>, ghost values: seq<T>, ghost left: seq<nat>, ghost p: nat, ghost whole: Result<T, E>)
      returns (visits': seq<(T, Uint32)>, err: Option<E>, ghost left': seq<nat>)
      requires Valid() && SplitsBack(all, left, p + 1, Nodes) && p < |all| == |values| && node == all[p] && node.value == values[p]
      requires MidwayBack(act, visits, values, p + 1, i, left, whole)
      modifies this, Repr`next, Repr`prev
      ensures Valid() && Repr == old(Repr) && SplitsBack(all, left', p, Nodes)
      ensures node.prev == if p > 0 then all[p - 1] else null
      ensures err.None? ==> MidwayBack(act, visits', values, p, Wrap(i - 1), left', whole)
      ensures err.Some? ==> visits' == whole.visits && err == whole.err && Picks(all, whole.left, Nodes)
    {
      BackwardStep(act, visits, values, p, i, left, whole);
      SplitsBackOn(all, left, p, Nodes);
      assert Links(p);
      visits' := visits + [(node.value, i)];
      var a := act(visits');
      if a.delete {
        Remove(node, p);
        left' := left;
      } else {
        left' := [p] + left;
      }
      err := a.err;
      SplitsBackEnd(all, left', p, Nodes);
    }

    /** Like Iterate, from the last element to the first.  On an empty list the first
        index computed wraps around, and is not used. */
    method IterateReverse<E>(act: seq<(T, Uint32)> -> Action<E>) returns (visits: seq<(T, Uint32)>, err: Option<E>)
      requires Valid()
      modifies this, Repr`next, Repr`prev
      ensures Valid() && Repr == old(Repr)
      ensures var r := Backward(act, [], old(Values()), |old(Nodes)|, Wrap(old(Size) - 1));
        && visits == r.visits && err == r.err && Picks(old(Nodes), r.left, Nodes)
    {
      visits, err := [], None;
      var i: Uint32 := Wrap(Size - 1);
      var node := tail;
      ghost var all, values, left: seq<nat>, p: nat := Nodes, Values(), [], |Nodes|;
      ghost var whole := Backward(act, [], values, |all|, i);
      while node != null
        invariant err.None? && p <= |all| && node == (if p > 0 then all[p - 1] else null)
        invariant Valid() && Repr == old(Repr)
        invariant SplitsBack(all, left, p, Nodes) && MidwayBack(act, visits, values, p, i, left, whole)
        decreases p
      {
        p := p - 1;
        visits, err, left := ShowLast(act, visits, node, i, all, values, left, p, whole);
        if err.Some? {
          return;
        }
        i, node := Wrap(i - 1), node.prev;
      }
      SplitsBackEnd(all, left, 0, Nodes);
    }

    /** The whole sequence of values.  The source panics where the wrapped size is too small for the list. */
    method Array() returns (ans: seq<T>)
      requires Valid() && |Nodes| < TWO_TO_THE_32
      modifies this, Repr`next, Repr`prev
      ensures Valid() && Repr == old(Repr) && Nodes == old(Nodes)
      ensures ans == Values()
    {
      ghost var nodes, values := Nodes, Values();
      var visits, err := Iterate(Keep<T, ()>);
      KeepShows<T, ()>(values);
      PicksAll(nodes, Nodes);
      assert Size == |values|;
      ans := Collect(Size, visits, values);
    }

    /** What the callback of Array does with its visits: each value goes to its index. */
    static method Collect(size: nat, visits: seq<(T, Uint32)>, ghost values: seq<T>) returns (ans: seq<T>)
      requires size == |visits| == |values| < TWO_TO_THE_32
      requires forall j :: 0 <= j < |values| ==> visits[j] == (values[j], Wrap(j))
      ensures ans == values
    {
      if size == 0 {
        return [];
      }
      ans := seq(size, j => visits[0].0);
      for j := 0 to |visits|
        invariant |ans| == size && forall l :: 0 <= l < j ==> ans[l] == values[l]
      {
        ans := ans[visits[j].1 := visits[j].0];
      }
    }

    method Head() returns (ans: Option<T>)
      requires Valid()
      ensures ans == if Values() == [] then None else Some(Values()[0])
    {
      ans := if head == null then None else Some(head.value);
    }

    method Tail() returns (ans: Option<T>)
      requires Valid()
      ensures ans == if Values() == [] then None else Some(Values()[|Values()| - 1])
    {
      ans := if tail == null then None else Some(tail.value);
    }

    /** Changing values, by ChangeValue on handles, leaves the list as it is. */
    twostate lemma OnlyValuesChanged()
      requires old(Valid()) && unchanged(this)
      requires forall n :: n in Nodes ==> n.next == old(n.next) && n.prev == old(n.prev)
      ensures Valid()
    {
      forall i | 0 <= i < |Nodes|
        ensures Links(i)
      {
        assert old(Links(i));
      }
    }
  }
}

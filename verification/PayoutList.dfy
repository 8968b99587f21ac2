/** The pipeline's payout list: a client that keeps a linked list sorted by the
    start of each payout's period. */
module PayoutList {
  import opened Wrappers
  import opened List

  datatype Payout<+D> = Payout(id: string, start: nat, data: D)

  /** s with e put before position k. */
  function Added<D>(s: seq<Payout<D>>, e: Payout<D>, k: nat): seq<Payout<D>>
    requires k <= |s|
  {
    s[..k] + [e] + s[k..]
  }

  /** The list after an insertion, and where the payout now stands; None if it is refused. */
  function Inserted<D>(s: seq<Payout<D>>, e: Payout<D>): Option<(seq<Payout<D>>, nat)> {
    if Wrap(|s|) == 0 || s[|s| - 1].start < e.start then Some((s + [e], |s|))
    else Placed(s, e, 0)
  }

  /** The scan from position i: the first payout that is e itself or starts later. */
  function Placed<D>(s: seq<Payout<D>>, e: Payout<D>, i: nat): Option<(seq<Payout<D>>, nat)>
    requires i <= |s|
    decreases |s| - i
  {
    if i == |s| then None
    else if s[i].id == e.id then Some((s[i := e], i))
    else if e.start < s[i].start then Some((Added(s, e, i), i))
    else Placed(s, e, i + 1)
  }

  ghost predicate Sorted<D>(s: seq<Payout<D>>) {
    forall i, j :: 0 <= i < j < |s| ==> s[i].start <= s[j].start
  }

  ghost predicate UniqueIds<D>(s: seq<Payout<D>>) {
    forall i, j :: 0 <= i < j < |s| ==> s[i].id != s[j].id
  }

  /** e is either new to s or in s with the same start. */
  ghost predicate StartIsFixed<D>(s: seq<Payout<D>>, e: Payout<D>) {
    forall i :: 0 <= i < |s| && s[i].id == e.id ==> s[i].start == e.start
  }

  ghost predicate Has<D>(s: seq<Payout<D>>, id: string) {
    exists i :: 0 <= i < |s| && s[i].id == id
  }

  /** What the scan finds: the first position that stops it, in one of two ways. */
  lemma {:induction false} PlacedAt<D>(s: seq<Payout<D>>, e: Payout<D>, i: nat)
    requires i <= |s|
    ensures Placed(s, e, i).None? ==> forall j :: i <= j < |s| ==> s[j].id != e.id && s[j].start <= e.start
    ensures Placed(s, e, i).Some? ==>
      var (t, k) := Placed(s, e, i).value;
      && i <= k < |s| && (forall j :: i <= j < k ==> s[j].id != e.id && s[j].start <= e.start)
      && if s[k].id == e.id then t == s[k := e] else e.start < s[k].start && t == Added(s, e, k)
    decreases |s| - i
  {
    if i < |s| && s[i].id != e.id && s[i].start <= e.start {
      PlacedAt(s, e, i + 1);
    }
  }

  /** A payout already in the list is replaced where it stands, and nothing else changes. */
  lemma KnownIsReplaced<D>(s: seq<Payout<D>>, e: Payout<D>, k: nat)
    requires |s| < TWO_TO_THE_32 && Sorted(s) && StartIsFixed(s, e) && UniqueIds(s)
    requires k < |s| && s[k].id == e.id
    ensures Inserted(s, e) == Some((s[k := e], k))
    ensures Sorted(s[k := e]) && UniqueIds(s[k := e])
  {
    assert s[k].start <= s[|s| - 1].start;
    PlacedAt(s, e, 0);
    var (t, j) := Placed(s, e, 0).value;
    assert j <= k && s[j].start <= s[k].start;
  }

  /** Its start still belongs where payout k stands. */
  ghost predicate StaysAt<D>(s: seq<Payout<D>>, e: Payout<D>, k: nat)
    requires k < |s|
  {
    (k > 0 ==> s[k - 1].start <= e.start) && e.start <= s[|s| - 1].start
  }

  /** A known payout whose start has changed is replaced where it stands if and only if the new
      start is not before the payouts ahead of it nor after the last one; else it is added a
      second time. */
  lemma {:induction false} KnownIsMoved<D>(s: seq<Payout<D>>, e: Payout<D>, k: nat)
    requires |s| < TWO_TO_THE_32 && Sorted(s) && UniqueIds(s) && k < |s| && s[k].id == e.id
    ensures Inserted(s, e).Some?
    ensures var (t, j) := Inserted(s, e).value;
      if StaysAt(s, e, k) then j == k && t == s[k := e] && UniqueIds(t)
      else j <= |s| && t == Added(s, e, j) && !UniqueIds(t)
  {
    PlacedAt(s, e, 0);
    var (t, j) := Inserted(s, e).value;
    if !StaysAt(s, e, k) {
      if s[|s| - 1].start < e.start {
        assert s + [e] == Added(s, e, |s|);
      } else {
        assert e.start < s[k - 1].start;
        assert j < k;
      }
      assert t[j] == e && t[if k < j then k else k + 1] == s[k];
    } else {
      assert forall i :: 0 <= i < k ==> s[i].start <= s[k - 1].start;
    }
  }

  lemma AddedPair<D>(s: seq<Payout<D>>, e: Payout<D>, k: nat, i: nat, j: nat)
    requires k <= |s| && Sorted(s) && !Has(s, e.id) && i < j <= |s|
    requires k > 0 ==> s[k - 1].start <= e.start
    requires k < |s| ==> e.start <= s[k].start
    ensures Added(s, e, k)[i].start <= Added(s, e, k)[j].start
    ensures UniqueIds(s) ==> Added(s, e, k)[i].id != Added(s, e, k)[j].id
  {
    var x := if i < k then i else i - 1;
    var y := if j < k then j else j - 1;
    assert i != k ==> Added(s, e, k)[i] == s[x] && s[x].id != e.id;
    assert j != k ==> Added(s, e, k)[j] == s[y] && s[y].id != e.id;
    assert i != k && j != k ==> s[x].start <= s[y].start;
    assert j == k ==> s[x].start <= s[k - 1].start;
    assert i == k ==> s[k].start <= s[y].start;
  }

  /** Adding e at a position its start belongs to keeps the order. */
  lemma AddedKeepsOrder<D>(s: seq<Payout<D>>, e: Payout<D>, k: nat)
    requires k <= |s| && Sorted(s) && !Has(s, e.id)
    requires k > 0 ==> s[k - 1].start <= e.start
    requires k < |s| ==> e.start <= s[k].start
    ensures Sorted(Added(s, e, k)) && (UniqueIds(s) ==> UniqueIds(Added(s, e, k)))
    ensures multiset(Added(s, e, k)) == multiset(s) + multiset{e}
  {
    assert s == s[..k] + s[k..];
    forall i, j | 0 <= i < j < |Added(s, e, k)|
      ensures Added(s, e, k)[i].start <= Added(s, e, k)[j].start
      ensures UniqueIds(s) ==> Added(s, e, k)[i].id != Added(s, e, k)[j].id
    {
      AddedPair(s, e, k, i, j);
    }
  }

  /** A new payout is refused exactly when it ties with the tail; otherwise it is
      added once, nothing is lost or duplicated, and the order is kept. */
  lemma NewIsAddedOnce<D>(s: seq<Payout<D>>, e: Payout<D>)
    requires |s| < TWO_TO_THE_32 && Sorted(s) && !Has(s, e.id)
    ensures Inserted(s, e).None? <==> s != [] && s[|s| - 1].start == e.start
    ensures Inserted(s, e).Some? ==>
      var (t, k) := Inserted(s, e).value;
      && k <= |s| && t == Added(s, e, k) && multiset(t) == multiset(s) + multiset{e}
      && Sorted(t) && (UniqueIds(s) ==> UniqueIds(t))
  {
    PlacedAt(s, e, 0);
    if Inserted(s, e).Some? {
      var k := Inserted(s, e).value.1;
      if k < |s| { assert s[k].start <= s[|s| - 1].start; }
      assert s + [e] == Added(s, e, |s|);
      AddedKeepsOrder(s, e, k);
    }
  }

  /** Insert a payout, or replace it; null means it was refused. */
  method OnPayoutInsert<D>(list: Generic<Payout<D>>, pwd: Payout<D>) returns (node: Node?<Payout<D>>, ghost k: nat)
    requires list.Valid()
    modifies list, list.Repr
    ensures list.Valid() && fresh(list.Repr - old(list.Repr))
    ensures node == null <==> Inserted(old(list.Values()), pwd).None?
    ensures node == null ==> list.Nodes == old(list.Nodes) && list.Values() == old(list.Values())
    ensures node != null ==> Inserted(old(list.Values()), pwd) == Some((list.Values(), k))
    ensures node != null ==> k < |list.Nodes| && list.Nodes[k] == node
  {
    ghost var values := list.Values();
    if list.Size == 0 {
      node := list.Append(pwd);
      k := |values|;
      assert list.Values() == values + [pwd];
      return;
    }
    var tail := list.tail;
    if tail.value.start < pwd.start {
      node := list.Append(pwd);
      k := |values|;
      assert list.Values() == values + [pwd];
      return;
    }
    node, k := list.head, 0;
    while node != null
      invariant k <= |values| && node == list.At(k)
      invariant Inserted(values, pwd) == Placed(values, pwd, k)
      modifies {}
      decreases |values| - k
    {
      assert list.Links(k);
      if node.value.id == pwd.id || pwd.start < node.value.start {
        break;
      }
      node, k := node.next, k + 1;
    }
    if node == null {
      return;
    }
    if node.value.id == pwd.id {
      Overwrite(list, node, pwd, k);
    } else {
      PutBefore(list, node, pwd, k);
    }
  }

  /** Moving an entry one place back makes room for another. */
  lemma AddedBefore<D>(s: seq<Payout<D>>, e: Payout<D>, k: nat)
    requires k < |s|
    ensures Added(s, s[k], k + 1)[k := e] == Added(s, e, k)
  {
  }

  /** pwd takes over the handle at position k; what the handle held moves to a new node behind it. */
  method PutBefore<D>(list: Generic<Payout<D>>, node: Node<Payout<D>>, pwd: Payout<D>, ghost k: nat)
    requires list.Valid() && k < |list.Nodes| && list.Nodes[k] == node
    modifies list, list.Repr
    ensures list.Valid() && fresh(list.Repr - old(list.Repr))
    ensures list.Values() == Added(old(list.Values()), pwd, k) && list.Nodes[k] == node
  {
    assert list.Links(k);
    var displaced := list.Insert(node.value, node, k);
    AddedBefore(old(list.Values()), pwd, k);
    assert list.Values() == Added(old(list.Values()), node.value, k + 1);
    Overwrite(list, node, pwd, k);
  }

  /** The handle at position k now holds pwd. */
  method Overwrite<D>(list: Generic<Payout<D>>, node: Node<Payout<D>>, pwd: Payout<D>, ghost k: nat)
    requires list.Valid() && k < |list.Nodes| && list.Nodes[k] == node
    modifies node`value
    ensures list.Valid() && list.Values() == old(list.Values())[k := pwd]
  {
    list.Once(k);
    node.ChangeValue(pwd);
    list.OnlyValuesChanged();
  }
}

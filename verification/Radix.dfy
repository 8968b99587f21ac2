/** The radix tree on the heap, operation by operation, tied to the value model
    of module Trie by ghost fields: V is the tree as a value and At maps every
    path of V to the node object that stands there. */
module Radix {
  import opened Wrappers
  import opened Keys
  import opened Trie
  import opened TrieTheory

  datatype LeafNode<+T> = LeafNode(key: Key, val: T)

  datatype Edge<T> = Edge(tag: Byte, node: Node<T>)

  ghost predicate Sorted<T>(edges: seq<Edge<T>>) {
    forall i, j :: 0 <= i < j < |edges| ==> edges[i].tag < edges[j].tag
  }

  /** Node n shows cell c of path k, where `at` says which node stands at each path. */
  ghost predicate Shows<T>(n: Node<T>, k: Key, c: Cell<T>, at: map<Key, Node<T>>)
    reads n
  {
    && n.path == k && n.prefix == c.prefix
    && n.leaf == (if c.leaf.Some? then Some(LeafNode(k, c.leaf.value)) else None)
    && EdgesShow(n.edges, k, c.kids, at)
  }

  ghost predicate EdgesShow<T>(edges: seq<Edge<T>>, k: Key, kids: seq<Key>, at: map<Key, Node<T>>) {
    && |edges| == |kids|
    && forall i :: 0 <= i < |kids| ==> |k| < |kids[i]| && kids[i] in at && edges[i] == Edge(kids[i][|k|], at[kids[i]])
  }

  lemma EdgesShowInsert<T>(edges: seq<Edge<T>>, k: Key, kids: seq<Key>, at: map<Key, Node<T>>, i: nat, s: Key, n: Node<T>)
    requires EdgesShow(edges, k, kids, at) && i <= |edges| && |k| < |s| && s !in at
    ensures EdgesShow(edges[..i] + [Edge(s[|k|], n)] + edges[i..], k, kids[..i] + [s] + kids[i..], at[s := n])
  {
  }

  lemma EdgesShowUpdate<T>(edges: seq<Edge<T>>, k: Key, kids: seq<Key>, at: map<Key, Node<T>>, i: nat, s: Key, n: Node<T>)
    requires EdgesShow(edges, k, kids, at) && i < |edges| && |k| < |s| && s !in kids
    ensures EdgesShow(edges[i := Edge(s[|k|], n)], k, kids[i := s], at[s := n])
  {
  }

  /** A position among the sorted edges is the same position among the kids. */
  lemma VacantAt<T>(t: Trie<T>, k: Key, edges: seq<Edge<T>>, at: map<Key, Node<T>>, idx: nat, s: Key)
    requires k in t && k < s && SoundKids(t, k) && EdgesShow(edges, k, t[k].kids, at) && idx <= |edges|
    requires forall j :: 0 <= j < idx ==> edges[j].tag < s[|k|]
    requires forall j :: idx <= j < |edges| ==> edges[j].tag > s[|k|]
    ensures Vacant(t, k, idx, s)
  {
    assert forall j :: 0 <= j < |edges| ==> t[k].kids[j][|k|] == edges[j].tag;
  }

  class Node<T> {
    var leaf: Option<LeafNode<T>>
    var prefix: Key
    var edges: seq<Edge<T>>
    ghost var path: Key

    constructor (leaf: Option<LeafNode<T>>, prefix: Key, ghost path: Key)
      ensures this.leaf == leaf && this.prefix == prefix && this.path == path && edges == []
    {
      this.leaf, this.prefix, this.path, edges := leaf, prefix, path, [];
    }

    /** The first position whose label is not below the given one. */
    method Search(tag: Byte) returns (idx: nat)
      requires Sorted(edges)
      ensures idx <= |edges|
      ensures forall i :: 0 <= i < idx ==> edges[i].tag < tag
      ensures forall i :: idx <= i < |edges| ==> edges[i].tag >= tag
    {
      idx := 0;
      var hi := |edges|;
      while idx < hi
        invariant idx <= hi <= |edges|
        invariant forall i :: 0 <= i < idx ==> edges[i].tag < tag
        invariant forall i :: hi <= i < |edges| ==> edges[i].tag >= tag
      {
        var mid := (idx + hi) / 2;
        if edges[mid].tag >= tag {
          hi := mid;
        } else {
          idx := mid + 1;
        }
      }
    }

    method AddEdge(e: Edge<T>) returns (ghost idx: nat)
      requires Sorted(edges)
      requires forall i :: 0 <= i < |edges| ==> edges[i].tag != e.tag
      modifies this`edges
      ensures idx <= |old(edges)| && edges == old(edges)[..idx] + [e] + old(edges)[idx..]
      ensures forall i :: 0 <= i < idx ==> old(edges)[i].tag < e.tag
      ensures forall i :: idx <= i < |old(edges)| ==> old(edges)[i].tag > e.tag
    {
      var at := Search(e.tag);
      idx := at;
      edges := edges[..at] + [e] + edges[at..];
    }

    /** Where no edge has the label the source panics; then nothing has changed. */
    method UpdateEdge(tag: Byte, node: Node<T>) returns (panics: bool)
      requires Sorted(edges)
      modifies this`edges
      ensures panics <==> forall j :: 0 <= j < |old(edges)| ==> old(edges)[j].tag != tag
      ensures panics ==> edges == old(edges)
      ensures forall j :: 0 <= j < |old(edges)| && old(edges)[j].tag == tag ==> edges == old(edges)[j := Edge(tag, node)]
    {
      var idx := Search(tag);
      if idx < |edges| && edges[idx].tag == tag {
        edges := edges[idx := edges[idx].(node := node)];
        return false;
      }
      return true;
    }

    method GetEdge(tag: Byte) returns (node: Node?<T>, ghost i: nat)
      requires Sorted(edges)
      ensures node == null ==> forall j :: 0 <= j < |edges| ==> edges[j].tag != tag
      ensures node != null ==> i < |edges| && edges[i] == Edge(tag, node)
    {
      var idx := Search(tag);
      i := idx;
      if idx < |edges| && edges[idx].tag == tag {
        return edges[idx].node, i;
      }
      return null, i;
    }

    method DelEdge(tag: Byte, ghost i: nat)
      requires Sorted(edges)
      modifies this`edges
      ensures (i < |old(edges)| && old(edges)[i].tag == tag) ==> edges == old(edges)[..i] + old(edges)[i + 1..]
      ensures (forall j :: 0 <= j < |old(edges)| ==> old(edges)[j].tag != tag) ==> edges == old(edges)
    {
      var idx := Search(tag);
      if idx < |edges| && edges[idx].tag == tag {
        edges := edges[..idx] + edges[idx + 1..];
      }
    }

    /** This node takes over the contents of its first child. */
    method MergeChild()
      requires |edges| > 0 && edges[0].node != this
      modifies this`prefix, this`leaf, this`edges
      ensures prefix == old(prefix) + old(edges)[0].node.prefix
      ensures leaf == old(edges)[0].node.leaf
      ensures edges == old(edges)[0].node.edges
    {
      var child := edges[0].node;
      prefix := prefix + child.prefix;
      leaf := child.leaf;
      edges := child.edges;
    }
  }

  class Tree<T> {
    var root: Node<T>
    var size: int
    ghost var V: Trie<T>
    ghost var At: map<Key, Node<T>>
    ghost var Repr: set<Node<T>>

    ghost predicate NodeOk(k: Key)
      reads this`V, this`At, this`Repr, Repr
      requires k in V && k in At
    {
      At[k] in Repr && Shows(At[k], k, V[k], At)
    }

    /** The heap shows V. */
    ghost predicate Shown()
      reads this`V, this`At, this`Repr, this`root, Repr
    {
      && V.Keys == At.Keys && Root in V && root == At[Root]
      && forall k {:trigger NodeOk(k)} :: k in V ==> NodeOk(k)
    }

    ghost predicate Linked()
      reads this`V, this`At, this`Repr, this`root, Repr
    {
      WellFormed(V) && Shown()
    }

    ghost predicate Valid()
      reads this, Repr
    {
      Linked() && size == |Contents(V)|
    }

    ghost function Map(): map<Key, T>
      reads this`V
    {
      Contents(V)
    }

    constructor ()
      ensures Valid() && fresh(Repr)
      ensures V == Empty() && Map() == map[] && Compressed(V)
    {
      root := new Node(None, [], []);
      size := 0;
      V := Empty();
      new;
      At, Repr := map[Root := root], {root};
    }

    /** The edges of a node are sorted like the kids they show. */
    lemma EdgesSorted(k: Key)
      requires Linked() && k in V
      ensures SoundKids(V, k) && SoundPrefixes(V, k) && Sorted(At[k].edges)
    {
      assert NodeOk(k) && SoundKids(V, k) && SoundPrefixes(V, k);
      assert forall i :: 0 <= i < |At[k].edges| ==> At[k].edges[i].tag == V[k].kids[i][|k|];
    }

    /** One step of a search: where the edge for the next byte leads. */
    method Follow(n: Node<T>, search: Key, ghost k: Key) returns (c: Node?<T>, ghost i: nat)
      requires Linked() && k in V && n == At[k] && search != []
      ensures Sorted(n.edges) && SoundKids(V, k)
      ensures c == null ==> forall j :: 0 <= j < |n.edges| ==> n.edges[j].tag != search[0]
      ensures c == null ==> forall q :: q in V ==> !(k + [search[0]] <= q)
      ensures c != null ==> i < |V[k].kids| && V[k].kids[i] in V && c == At[V[k].kids[i]] && c in Repr
      ensures c != null ==> k < V[k].kids[i] == k + c.prefix && V[k].kids[i][|k|] == search[0]
    {
      EdgesSorted(k);
      assert NodeOk(k);
      c, i := n.GetEdge(search[0]);
      if c == null {
        assert forall j :: 0 <= j < |V[k].kids| ==> V[k].kids[j][|k|] == n.edges[j].tag;
        forall q | k + [search[0]] <= q
          ensures q !in V
        {
          assert q[|k|] == (k + [search[0]])[|k|];
          NoWayDown(V, k, q);
        }
      } else {
        assert n.edges[i] == Edge(V[k].kids[i][|k|], At[V[k].kids[i]]);
        assert NodeOk(V[k].kids[i]);
      }
    }

    method Get(s: Key) returns (ans: Option<T>)
      requires Valid()
      ensures ans == if s in Map() then Some(Map()[s]) else None
    {
      var n, search := root, s;
      ghost var k := [];
      while true
        invariant k in V && n == At[k] && s == k + search
        decreases |search|
      {
        if |search| == 0 {
          assert s == k && NodeOk(k);
          if n.leaf.Some? {
            return Some(n.leaf.value.val);
          }
          break;
        }
        var c, i := Follow(n, search, k);
        assert k + [search[0]] <= s;
        if c == null {
          break;
        }
        n := c;
        ghost var q := V[k].kids[i];
        ConsumePrefix(V, k, i, n.prefix, search);
        if n.prefix <= search {
          search := search[|n.prefix|..];
          k := q;
        } else {
          break;
        }
      }
      return None;
    }

    /** The paths tell the nodes apart. */
    lemma Distinct(k: Key)
      requires Shown() && k in V
      ensures NodeOk(k)
      ensures forall a :: a in V && a != k ==> At[a] != At[k]
    {
      assert NodeOk(k);
      forall a | a in V && a != k
        ensures At[a] != At[k]
      {
        assert NodeOk(a);
      }
    }

    /** Cell a is as it was, and so is the node that shows it. */
    twostate predicate Kept(new a: Key)
      requires a in V && a in At
      reads this, At[a]
    {
      && a in old(V) && a in old(At)
      && V[a] == old(V[a]) && At[a] == old(At[a]) && unchanged(At[a])
      && forall i :: 0 <= i < |V[a].kids| ==>
        V[a].kids[i] in At && V[a].kids[i] in old(At) && At[V[a].kids[i]] == old(At)[V[a].kids[i]]
    }

    /** After an edit it is enough to look at the nodes it touched. */
    twostate lemma Relinked(new touched: set<Key>)
      requires old(Shown()) && V.Keys == At.Keys && Root in V && root == At[Root] && old(Repr) <= Repr
      requires forall a {:trigger NodeOk(a)} :: a in V && a in touched ==> NodeOk(a)
      requires forall a {:trigger Kept(a)} :: a in V && a !in touched ==> Kept(a)
      ensures Shown()
    {
      forall a | a in V
        ensures NodeOk(a)
      {
        if a !in touched {
          assert Kept(a);
          assert old(NodeOk(a));
        }
      }
    }

    // ----- edits of the heap and of V together -----

    /** The rest of a key, `search`, leaves the tree inside edge i of p, which leads to n. */
    ghost predicate Diverges(p: Node<T>, n: Node<T>, search: Key, common: nat, k: Key, i: nat)
      requires k in V && k in At
      reads this`V, this`At, p, n
    {
      && p == At[k] && Sorted(p.edges) && i < |V[k].kids| && V[k].kids[i] in V && V[k].kids[i] in At
      && n == At[V[k].kids[i]] && k < V[k].kids[i] == k + n.prefix && search != [] && V[k].kids[i][|k|] == search[0]
      && 0 < common < |n.prefix| && common <= |search| && search[..common] == n.prefix[..common]
      && (common < |search| ==> search[common] != n.prefix[common])
    }

    method WriteLeaf(n: Node<T>, leaf: Option<LeafNode<T>>, ghost k: Key)
      requires Shown() && k in V && n == At[k] && (leaf.Some? ==> leaf.value.key == k)
      modifies this`V, n`leaf
      ensures Shown() && n.leaf == leaf
      ensures V == SetLeaf(old(V), k, if leaf.Some? then Some(leaf.value.val) else None)
    {
      Distinct(k);
      n.leaf := leaf;
      V := SetLeaf(V, k, if leaf.Some? then Some(leaf.value.val) else None);
      forall a | a in V && a != k
        ensures Kept(a)
      {
        assert old(NodeOk(a));
      }
      Relinked({k});
    }

    method LinkChild(p: Node<T>, s: Key, v: T, search: Key, ghost k: Key) returns (ghost idx: nat)
      requires Shown() && k in V && p == At[k] && search != [] && s == k + search && s !in V
      requires Sorted(p.edges) && forall j :: 0 <= j < |p.edges| ==> p.edges[j].tag != search[0]
      modifies this`V, this`At, this`Repr, p`edges
      ensures Shown() && fresh(Repr - old(Repr))
      ensures idx <= |old(V)[k].kids| && V == Grow(old(V), k, idx, s, v)
      ensures EdgesShow(old(p.edges), k, old(V)[k].kids, old(At))
      ensures forall j :: 0 <= j < idx ==> old(p.edges)[j].tag < search[0]
      ensures forall j :: idx <= j < |old(p.edges)| ==> old(p.edges)[j].tag > search[0]
    {
      Distinct(k);
      var n := new Node(Some(LeafNode(s, v)), search, s);
      ghost var edges := p.edges;
      idx := p.AddEdge(Edge(search[0], n));
      EdgesShowInsert(edges, k, V[k].kids, At, idx, s, n);
      V, At, Repr := Grow(V, k, idx, s, v), At[s := n], Repr + {n};
      forall a | a in V && a !in {s, k}
        ensures Kept(a)
      {
        assert old(NodeOk(a));
      }
      Relinked({s, k});
    }

    /** A new node takes the first `common` bytes of the prefix of n, the child of p. */
    method CutEdge(p: Node<T>, n: Node<T>, search: Key, common: nat, ghost i: nat, ghost m: Key)
      returns (child: Node<T>)
      requires 0 < common < |n.prefix| && common <= |search|
      requires Sorted(p.edges) && i < |p.edges| && p.edges[i].tag == search[0]
      modifies p`edges, n`prefix
      ensures fresh(child) && p.edges == old(p.edges)[i := Edge(search[0], child)] && n.prefix == old(n.prefix)[common..]
      ensures child.leaf == None && child.prefix == search[..common] && child.path == m
      ensures child.edges == [Edge(old(n.prefix)[common], n)]
    {
      child := new Node(None, search[..common], m);
      var panics := p.UpdateEdge(search[0], child);
      assert !panics;
      ghost var z := child.AddEdge(Edge(n.prefix[common], n));
      n.prefix := n.prefix[common..];
    }

    /** Node k keeps its path and leaf, and its prefix or its edges. */
    twostate predicate SameBut(new k: Key, prefixToo: bool, edgesToo: bool)
      requires k in At
      reads this, At[k]
    {
      && k in old(At) && At[k] == old(At[k])
      && At[k].path == old(At[k].path) && At[k].leaf == old(At[k].leaf)
      && (prefixToo ==> At[k].prefix == old(At[k].prefix))
      && (edgesToo ==> At[k].edges == old(At[k].edges))
    }

    twostate lemma SplitShown(new k: Key, new i: nat, new m: Key)
      requires old(Shown()) && k in old(V) && i < |old(V)[k].kids| && old(V)[k].kids[i] in old(V)
      requires k < m < old(V)[k].kids[i] && m !in old(V) && old(Repr) <= Repr && root == old(root)
      requires V == Split(old(V), k, i, m) && m in At && At == old(At)[m := At[m]] && At[m] in Repr
      requires forall a :: a in old(At) && a != k && a != old(V)[k].kids[i] ==> unchanged(At[a])
      requires SameBut(k, true, false) && i < |old(At[k].edges)|
      requires At[k].edges == old(At[k].edges)[i := Edge(m[|k|], At[m])]
      requires old(V)[k].kids[i] in At && SameBut(old(V)[k].kids[i], false, true)
      requires At[old(V)[k].kids[i]].prefix == old(V)[k].kids[i][|m|..]
      requires At[m].edges == [Edge(old(V)[k].kids[i][|m|], At[old(V)[k].kids[i]])]
      requires At[m].path == m && At[m].prefix == m[|k|..] && At[m].leaf == None
      ensures Shown()
    {
      var q := old(V)[k].kids[i];
      assert old(NodeOk(k));
      assert old(NodeOk(q));
      EdgesShowUpdate(old(At[k].edges), k, old(V)[k].kids, old(At), i, m, At[m]);
      forall a | a in V
        ensures NodeOk(a)
      {
        if a != m { assert old(NodeOk(a)); }
      }
    }

    method SplitEdge(p: Node<T>, n: Node<T>, search: Key, common: nat, ghost k: Key, ghost i: nat)
      returns (child: Node<T>)
      requires Shown() && k in V && Diverges(p, n, search, common, k, i) && k + search[..common] !in V
      modifies this`V, this`At, this`Repr, p`edges, n`prefix
      ensures Shown() && fresh(Repr - old(Repr))
      ensures i < |old(V)[k].kids| && old(V)[k].kids[i] in old(V) && |k + search[..common]| <= |old(V)[k].kids[i]|
      ensures V == Split(old(V), k, i, k + search[..common])
      ensures child == At[k + search[..common]] && fresh(child)
      ensures |child.edges| == 1 && child.edges[0].tag == old(n.prefix)[common]
    {
      ghost var m, q := k + search[..common], V[k].kids[i];
      Distinct(k);
      Distinct(q);
      assert q[|m|..] == n.prefix[common..];
      child := CutEdge(p, n, search, common, i, m);
      V, At, Repr := Split(V, k, i, m), At[m := child], Repr + {child};
      SplitShown(k, i, m);
    }

    twostate lemma DropShown(new k: Key, new i: nat)
      requires old(Shown()) && k in old(V) && i < |old(V)[k].kids| && root == old(root) && Repr == old(Repr)
      requires k < old(V)[k].kids[i]
      requires forall a, j :: a in old(V) && 0 <= j < |old(V)[a].kids| && (a, j) != (k, i) ==>
        old(V)[a].kids[j] != old(V)[k].kids[i]
      requires V == Drop(old(V), k, i) && At == old(At) - {old(V)[k].kids[i]}
      requires forall a :: a in old(At) && a != k ==> unchanged(old(At)[a])
      requires k in At && SameBut(k, true, false) && i < |old(At[k].edges)|
      requires At[k].edges == old(At[k].edges)[..i] + old(At[k].edges)[i + 1..]
      ensures Shown()
    {
      assert old(NodeOk(k));
      forall a | a in V
        ensures NodeOk(a)
      {
        assert old(NodeOk(a));
      }
    }

    /** Unlink kid number i of node p. */
    method UnlinkChild(p: Node<T>, tag: Byte, ghost k: Key, ghost i: nat)
      requires Linked() && k in V && p == At[k] && i < |V[k].kids| && k < V[k].kids[i] && V[k].kids[i][|k|] == tag
      requires V[k].kids[i] in V && V[V[k].kids[i]].kids == []
      modifies this`V, this`At, p`edges
      ensures Shown() && V == Drop(old(V), k, i) && At == old(At) - {old(V)[k].kids[i]}
    {
      Distinct(k);
      EdgesSorted(k);
      forall a, j | a in V && 0 <= j < |V[a].kids| && (a, j) != (k, i)
        ensures V[a].kids[j] != V[k].kids[i]
      {
        OnlyParent(V, k, i, a);
      }
      p.DelEdge(tag, i);
      V, At := Drop(V, k, i), At - {V[k].kids[i]};
      DropShown(k, i);
    }

    twostate lemma MergeShown(new p: Key, new i: nat)
      requires old(Shown()) && Relay(old(V), p, i) && root == old(root) && Repr == old(Repr)
      requires old(WellFormed(V)) && V == Merge(old(V), p, i)
      requires var m := old(V)[p].kids[i]; var c := old(V)[m].kids[0];
        && m in old(At) && c in old(At) && At == old(At)[c := old(At)[m]] - {m}
        && old(At)[m].path == c && old(At)[m].prefix == old(At[m].prefix) + old(At[c].prefix)
        && old(At)[m].leaf == old(At[c].leaf) && old(At)[m].edges == old(At[c].edges)
      requires forall a :: a in old(At) && a != old(V)[p].kids[i] ==> unchanged(old(At)[a])
      ensures Shown()
    {
      forall a | a in V
        ensures NodeOk(a)
      {
        MergeShownAt(p, i, a);
      }
    }

    twostate lemma MergeShownAt(new p: Key, new i: nat, new a: Key)
      requires old(Shown()) && Relay(old(V), p, i) && root == old(root) && Repr == old(Repr)
      requires old(WellFormed(V)) && V == Merge(old(V), p, i)
      requires var m := old(V)[p].kids[i]; var c := old(V)[m].kids[0];
        && m in old(At) && c in old(At) && At == old(At)[c := old(At)[m]] - {m}
        && old(At)[m].path == c && old(At)[m].prefix == old(At[m].prefix) + old(At[c].prefix)
        && old(At)[m].leaf == old(At[c].leaf) && old(At)[m].edges == old(At[c].edges)
      requires forall a :: a in old(At) && a != old(V)[p].kids[i] ==> unchanged(old(At)[a])
      requires a in V
      ensures NodeOk(a)
    {
      var m := old(V)[p].kids[i];
      var c := old(V)[m].kids[0];
      assert old(NodeOk(m)) && old(NodeOk(c)) && old(NodeOk(p));
      assert SoundPrefixes(old(V), p) && SoundPrefixes(old(V), m);
      assert old(NodeOk(a));
      OnlyParent(old(V), p, i, a);
      OnlyParent(old(V), m, 0, a);
    }

    /** Node n, kid number i of p, absorbs its only kid. */
    method Absorb(n: Node<T>, ghost p: Key, ghost i: nat)
      requires Linked() && Relay(V, p, i) && n == At[V[p].kids[i]]
      modifies this`V, this`At, n
      ensures Shown() && V == Merge(old(V), p, i)
      ensures At == old(At)[old(V)[old(V)[p].kids[i]].kids[0] := n] - {old(V)[p].kids[i]}
    {
      ghost var m := V[p].kids[i];
      ghost var c := V[m].kids[0];
      Distinct(m);
      Distinct(c);
      n.MergeChild();
      n.path := c;
      V, At := Merge(V, p, i), At[c := n] - {m};
      MergeShown(p, i);
    }

    twostate lemma PruneShown(new k: Key)
      requires old(Shown()) && k in old(V) && WellFormed(old(V)) && root == old(root) && Repr == old(Repr)
      requires V == Prune(old(V), k) && At == map q | q in old(At) && !(k < q) :: old(At)[q]
      requires At[k].path == k && At[k].prefix == old(At[k].prefix) && At[k].leaf == None && At[k].edges == []
      requires forall a :: a in old(At) && a != k ==> unchanged(old(At)[a])
      ensures Shown()
    {
      forall a | a in V
        ensures NodeOk(a)
      {
        assert old(NodeOk(a));
        if a != k { PruneSound(old(V), k, a); }
      }
    }

    /** Empty node n and cut everything below it. */
    method CutBelow(n: Node<T>, ghost k: Key)
      requires Linked() && k in V && n == At[k]
      modifies this`V, this`At, n`leaf, n`edges
      ensures Shown() && V == Prune(old(V), k)
      ensures forall a :: a in old(V) && !(k < a) ==> a in V && At[a] == old(At)[a]
    {
      Distinct(k);
      if n.leaf.Some? {
        n.leaf := None;
      }
      n.edges := [];
      V, At := Prune(V, k), map q | q in At && !(k < q) :: At[q];
      PruneShown(k);
    }

    // ----- Insert -----

    /** Store, replace or clear the leaf of node n. */
    method PutLeaf(n: Node<T>, leaf: Option<LeafNode<T>>, ghost k: Key)
      requires Linked() && k in V && n == At[k] && (leaf.Some? ==> leaf.value.key == k)
      modifies this`V, n`leaf
      ensures Linked() && n.leaf == leaf
      ensures V == SetLeaf(old(V), k, if leaf.Some? then Some(leaf.value.val) else None)
      ensures Map() == if leaf.Some? then old(Map())[k := leaf.value.val] else old(Map()) - {k}
      ensures leaf.Some? && old(CompressedBut(V, k)) ==> Compressed(V)
      ensures old(Compressed(V)) ==> CompressedBut(V, k)
    {
      SetLeafKeeps(V, k, if leaf.Some? then Some(leaf.value.val) else None);
      WriteLeaf(n, leaf, k);
    }

    /** The search loop of Insert: how far down s matches, and how it fails to go on. */
    method Locate(s: Key)
      returns (parent: Node<T>, n: Node?<T>, search: Key, common: nat, ghost k: Key, ghost i: nat)
      requires Linked()
      ensures k in V && parent == At[k] && s == k + search
      ensures search == [] ==> n == parent
      ensures parent in Repr && (n != null ==> n in Repr)
      ensures search != [] && n == null ==>
        s !in V && forall j :: 0 <= j < |parent.edges| ==> parent.edges[j].tag != search[0]
      ensures search != [] && n != null ==> Diverges(parent, n, search, common, k, i)
    {
      parent, n, search, common := root, root, s, 0;
      k, i := [], 0;
      assert NodeOk(k);
      while |search| != 0
        invariant k in V && parent == At[k] && s == k + search
        invariant parent in Repr && (|search| == 0 ==> n == parent)
        decreases |search|
      {
        n, i := Follow(parent, search, k);
        if n == null {
          assert k + [search[0]] <= s;
          break;
        }
        ConsumePrefix(V, k, i, n.prefix, search);
        common := SharedPrefix(search, n.prefix);
        if common != |n.prefix| {
          assert Diverges(parent, n, search, common, k, i);
          break;
        }
        assert s == V[k].kids[i] + search[common..];
        search := search[common..];
        parent, k := n, V[k].kids[i];
      }
    }

    /** The key ends at node n: its value is replaced, or stored for the first time. */
    method Arrive(n: Node<T>, s: Key, v: T) returns (ans: Option<T>)
      requires Valid() && s in V && n == At[s]
      modifies this`V, this`size, n`leaf
      ensures Valid() && Map() == old(Map())[s := v]
      ensures ans == if s in old(Map()) then Some(old(Map())[s]) else None
      ensures old(Compressed(V)) ==> Compressed(V)
    {
      assert NodeOk(s);
      if n.leaf.Some? {
        ans := Some(n.leaf.value.val);
        PutLeaf(n, Some(n.leaf.value.(val := v)), s);
      } else {
        ans, size := None, size + 1;
        PutLeaf(n, Some(LeafNode(s, v)), s);
      }
    }

    /** Hang a new leaf for s below node p, where `search` is what is left of s. */
    method AddChild(p: Node<T>, s: Key, v: T, search: Key, ghost k: Key)
      requires Linked() && k in V && p == At[k] && search != [] && s == k + search && s !in V
      requires forall j :: 0 <= j < |p.edges| ==> p.edges[j].tag != search[0]
      modifies this`V, this`At, this`Repr, p`edges
      ensures Linked() && fresh(Repr - old(Repr)) && Map() == old(Map())[s := v]
      ensures old(CompressedBut(V, k)) && old(V[k].kids) != [] ==> Compressed(V)
      ensures old(Compressed(V)) ==> Compressed(V)
    {
      EdgesSorted(k);
      ghost var t, edges, at := V, p.edges, At;
      ghost var idx := LinkChild(p, s, v, search, k);
      VacantAt(t, k, edges, at, idx, s);
      GrowKeeps(t, k, idx, s, v);
    }

    /** The key leaves the tree inside the edge from p to its child n. */
    method SplitAndAdd(p: Node<T>, n: Node<T>, s: Key, v: T, search: Key, common: nat, ghost k: Key, ghost i: nat)
      requires Linked() && k in V && Diverges(p, n, search, common, k, i) && s == k + search
      modifies this`V, this`At, this`Repr, p`edges, n`prefix
      ensures Linked() && fresh(Repr - old(Repr)) && Map() == old(Map())[s := v]
      ensures old(Compressed(V)) ==> Compressed(V)
      ensures s !in old(V)
    {
      ghost var t, m := V, k + search[..common];
      SplitKeeps(t, k, i, m);
      assert !(n.prefix <= search);
      ConsumePrefix(t, k, i, n.prefix, search);
      var child := SplitEdge(p, n, search, common, k, i);
      if |search| == common {
        assert s == m;
        PutLeaf(child, Some(LeafNode(s, v)), m);
      } else {
        assert s == m + search[common..];
        AddChild(child, s, v, search[common..], m);
      }
    }

    method AddNew(p: Node<T>, n: Node?<T>, s: Key, v: T, search: Key, common: nat, ghost k: Key, ghost i: nat)
      requires Linked() && k in V && p == At[k] && search != [] && s == k + search
      requires n == null ==> s !in V && forall j :: 0 <= j < |p.edges| ==> p.edges[j].tag != search[0]
      requires n != null ==> Diverges(p, n, search, common, k, i)
      modifies this`V, this`At, this`Repr, p, if n == null then {} else {n}
      ensures Linked() && fresh(Repr - old(Repr)) && Map() == old(Map())[s := v]
      ensures old(Compressed(V)) ==> Compressed(V)
      ensures s !in old(V)
    {
      if n == null {
        AddChild(p, s, v, search, k);
      } else {
        SplitAndAdd(p, n, s, v, search, common, k, i);
      }
    }

    /** A new key is added, and counted. */
    method AddLeaf(p: Node<T>, n: Node?<T>, s: Key, v: T, search: Key, common: nat, ghost k: Key, ghost i: nat)
      requires Valid() && k in V && p == At[k] && search != [] && s == k + search
      requires n == null ==> s !in V && forall j :: 0 <= j < |p.edges| ==> p.edges[j].tag != search[0]
      requires n != null ==> Diverges(p, n, search, common, k, i)
      modifies this`V, this`At, this`Repr, this`size, p, if n == null then {} else {n}
      ensures Valid() && fresh(Repr - old(Repr)) && Map() == old(Map())[s := v]
      ensures old(Compressed(V)) ==> Compressed(V)
      ensures s !in old(Map())
    {
      size := size + 1;
      AddNew(p, n, s, v, search, common, k, i);
    }

    /** Returns the previous value, if the key was there. */
    method Insert(s: Key, v: T) returns (ans: Option<T>)
      requires Valid()
      modifies this, Repr
      ensures Valid() && fresh(Repr - old(Repr))
      ensures Map() == old(Map())[s := v]
      ensures ans == if s in old(Map()) then Some(old(Map())[s]) else None
      ensures old(Compressed(V)) ==> Compressed(V)
    {
      var parent, n, search, common, k, i := Locate(s);
      if |search| == 0 {
        assert s == k;
        ans := Arrive(n, s, v);
        assert Repr - old(Repr) == {};
      } else {
        ans := None;
        AddLeaf(parent, n, s, v, search, common, k, i);
      }
    }

    // ----- Delete -----

    /** If node x, other than the root, has no leaf and one edge, it takes over its child. */
    method MergeIfRelay(x: Node<T>, ghost k: Key)
      requires Linked() && k in V && x == At[k] && x in Repr
      modifies this`V, this`At, x
      ensures Linked() && Map() == old(Map()) && MergedAt(old(V), k, V)
      ensures old(CompressedBut(V, k)) && (k == [] || old(V[k].leaf.Some?) || old(V[k].kids) != []) ==> Compressed(V)
      ensures forall a :: a in old(V) && a < k ==> a in V && At[a] == old(At)[a]
    {
      Distinct(k);
      if x != root && |x.edges| == 1 && x.leaf.None? {
        ghost var p, i := Parent(V, k, []);
        assert SoundKids(V, p) && SoundKids(V, k);
        MergeKeeps(V, p, i);
        assert Relay(V, p, i);
        Absorb(x, p, i);
      }
    }

    /** Node n has just lost its leaf: it leaves the tree, or becomes one with its
        only child, or stays because it branches. */
    method Unhook(parent: Node<T>, n: Node<T>, tag: Byte, ghost p: Key, ghost i: nat, ghost s: Key)
      requires Linked() && s in V && n == At[s] && V[s].leaf == None
      requires p in V && parent == At[p] && i < |V[p].kids| && V[p].kids[i] == s && p < s && s[|p|] == tag
      modifies this`V, this`At, Repr
      ensures Linked() && Map() == old(Map())
      ensures p in V && parent == At[p]
      ensures old(CompressedBut(V, s)) ==>
        CompressedBut(V, p) && (p == [] || V[p].leaf.Some? || V[p].kids != [])
    {
      assert NodeOk(s);
      assert NodeOk(p);
      if |n.edges| == 0 {
        assert SoundKids(V, p);
        DropKeeps(V, p, i);
        UnlinkChild(parent, tag, p, i);
      } else {
        MergeIfRelay(n, s);
      }
    }

    /** k was reached through edge i of parent, which stands at p; at the root there is no parent. */
    ghost predicate Trail(parent: Node?<T>, tag: Byte, p: Key, k: Key, i: nat)
      reads this`V, this`At
    {
      && (parent == null <==> k == [])
      && (parent != null ==>
        p in V && p in At && parent == At[p] && i < |V[p].kids| && V[p].kids[i] == k && p < k && k[|p|] == tag)
    }

    /** Restore the shape around n, whose leaf is gone; its parent may now be a relay too. */
    method Tidy(parent: Node?<T>, n: Node<T>, tag: Byte, ghost p: Key, ghost i: nat, ghost s: Key)
      requires Linked() && s in V && n == At[s] && V[s].leaf == None
      requires Trail(parent, tag, p, s, i)
      modifies this`V, this`At, Repr
      ensures Linked() && Map() == old(Map())
      ensures old(CompressedBut(V, s)) ==> Compressed(V)
    {
      if parent != null {
        Unhook(parent, n, tag, p, i, s);
        assert NodeOk(p);
        MergeIfRelay(parent, p);
      }
    }

    /** The steps of Delete once node n, which holds the leaf to go, is found. */
    method Remove(parent: Node?<T>, n: Node<T>, tag: Byte, ghost p: Key, ghost i: nat, ghost s: Key)
      returns (ans: T)
      requires Linked() && s in V && n == At[s] && n.leaf.Some?
      requires Trail(parent, tag, p, s, i)
      modifies this`V, this`At, Repr
      ensures Linked()
      ensures s in old(Map()) && ans == old(Map())[s] && Map() == old(Map()) - {s} && |Map()| == |old(Map())| - 1
      ensures old(Compressed(V)) ==> Compressed(V)
    {
      assert NodeOk(s);
      ans := n.leaf.value.val;
      PutLeaf(n, None, s);
      Tidy(parent, n, tag, p, i, s);
    }

    /** The leaf of s is removed, and counted. */
    method TakeLeaf(parent: Node?<T>, n: Node<T>, tag: Byte, ghost p: Key, ghost i: nat, ghost s: Key)
      returns (ans: T)
      requires Valid() && s in V && n == At[s] && n.leaf.Some?
      requires Trail(parent, tag, p, s, i)
      modifies this`V, this`At, this`size, Repr
      ensures Valid()
      ensures s in old(Map()) && ans == old(Map())[s] && Map() == old(Map()) - {s}
      ensures old(Compressed(V)) ==> Compressed(V)
    {
      size := size - 1;
      ans := Remove(parent, n, tag, p, i, s);
    }

    /** The search loop of Delete: the node that holds the leaf of s, or null if there is none. */
    method Track(s: Key) returns (parent: Node?<T>, tag: Byte, n: Node?<T>, ghost p: Key, ghost i: nat)
      requires Linked()
      ensures n == null ==> s !in Map()
      ensures n != null ==> s in V && n == At[s] && n.leaf.Some? && Trail(parent, tag, p, s, i)
    {
      parent, tag, n := null, 0, root;
      var search := s;
      ghost var k := [];
      p, i := [], 0;
      while true
        invariant k in V && n == At[k] && s == k + search
        invariant Trail(parent, tag, p, k, i)
        decreases |search|
      {
        if |search| == 0 {
          assert s == k && NodeOk(k);
          if n.leaf.None? {
            n := null;
          }
          return;
        }
        parent, tag, p := n, search[0], k;
        n, i := Follow(n, search, k);
        assert k + [search[0]] <= s;
        if n == null {
          return;
        }
        ConsumePrefix(V, k, i, n.prefix, search);
        if !(n.prefix <= search) {
          n := null;
          return;
        }
        search, k := search[|n.prefix|..], V[k].kids[i];
      }
    }

    /** Returns the value that was deleted, if the key was there. */
    method Delete(s: Key) returns (ans: Option<T>)
      requires Valid()
      modifies this`V, this`At, this`size, Repr
      ensures Valid()
      ensures Map() == old(Map()) - {s}
      ensures ans == if s in old(Map()) then Some(old(Map())[s]) else None
      ensures old(Compressed(V)) ==> Compressed(V)
    {
      var parent, tag, n, p, i := Track(s);
      if n == null {
        return None;
      }
      var v := TakeLeaf(parent, n, tag, p, i, s);
      return Some(v);
    }

    // ----- walks: V, the value shown, says what a complete walk visits -----

    method VisitLeaf(n: Node<T>, fn: seq<(Key, T)> -> bool, seen: seq<(Key, T)>, ghost k: Key)
      returns (visited: seq<(Key, T)>, stop: bool)
      requires Linked() && k in V && n == At[k]
      ensures (visited, stop) == UntilStop(fn, seen, Own(V, k))
    {
      assert NodeOk(k);
      visited, stop := seen, false;
      if n.leaf.Some? {
        visited := visited + [(n.leaf.value.key, n.leaf.value.val)];
        stop := fn(visited);
      }
    }

    /** Pre-order walk from node n, after the visits in `seen`; tells whether the visitor stopped it. */
    method RecursiveWalk(n: Node<T>, fn: seq<(Key, T)> -> bool, seen: seq<(Key, T)>, ghost k: Key)
      returns (visited: seq<(Key, T)>, stop: bool)
      requires Linked() && k in V && n == At[k]
      ensures (visited, stop) == UntilStop(fn, seen, Walked(V, k))
      decreases MaxLen(V.Keys) - |k|
    {
      assert NodeOk(k);
      WalkStarts(V, fn, seen, k);
      visited, stop := VisitLeaf(n, fn, seen, k);
      if stop {
        return;
      }
      var i := 0;
      while i < |n.edges|
        invariant i <= |n.edges| && !stop
        invariant UntilStop(fn, seen, Walked(V, k)) == UntilStop(fn, visited, WalkedKids(V, k, i))
      {
        WalkGoesOn(V, fn, visited, k, i);
        visited, stop := RecursiveWalk(n.edges[i].node, fn, visited, V[k].kids[i]);
        if stop {
          return;
        }
        i := i + 1;
      }
    }

    /** Visits the whole map in increasing key order, up to the first visit at which fn says stop. */
    method Walk(fn: seq<(Key, T)> -> bool) returns (visited: seq<(Key, T)>)
      requires Valid()
      ensures visited == UntilStop(fn, [], Walked(V, [])).0
      ensures ShownUntilStop(fn, Walked(V, []), visited) && SortedEntries(Map(), q => [] <= q, Walked(V, []))
    {
      var stop;
      visited, stop := RecursiveWalk(root, fn, [], []);
      ShownIsExact(fn, Walked(V, []));
      WalkedIsSorted(V, []);
    }

    /** Visits in the same order the keys that start with the prefix. */
    method WalkPrefix(prefix: Key, fn: seq<(Key, T)> -> bool) returns (visited: seq<(Key, T)>)
      requires Valid()
      ensures visited == UntilStop(fn, [], WalkedUnder(V, prefix)).0
      ensures ShownUntilStop(fn, WalkedUnder(V, prefix), visited)
      ensures SortedEntries(Map(), q => prefix <= q, WalkedUnder(V, prefix))
    {
      visited := WalkUnder(prefix, fn);
      ShownIsExact(fn, WalkedUnder(V, prefix));
      WalkedUnderIsSorted(V, prefix);
    }

    /** The loop of WalkPrefix. */
    method WalkUnder(prefix: Key, fn: seq<(Key, T)> -> bool) returns (visited: seq<(Key, T)>)
      requires Linked()
      ensures visited == UntilStop(fn, [], WalkedUnder(V, prefix)).0
    {
      var n, search, stop := root, prefix, false;
      ghost var k := [];
      while true
        invariant k in V && n == At[k] && prefix == k + search
        decreases |search|
      {
        if |search| == 0 {
          assert prefix == k;
          ListingUnderPrefix(V, k, prefix);
          visited, stop := RecursiveWalk(n, fn, [], k);
          return;
        }
        var c, i := Follow(n, search, k);
        assert k + [search[0]] <= prefix && prefix[|k|] == search[0];
        if c == null {
          NothingUnderPrefix(V, prefix);
          return [];
        }
        n := c;
        ghost var q := V[k].kids[i];
        ConsumePrefix(V, k, i, n.prefix, search);
        PrefixesBeyond(k, n.prefix, search);
        PrefixesBeyond(k, search, n.prefix);
        if n.prefix <= search {
          search, k := search[|n.prefix|..], q;
          continue;
        }
        if search <= n.prefix {
          EdgeIsBare(V, k, i, prefix);
          ListingUnderPrefix(V, q, prefix);
          visited, stop := RecursiveWalk(n, fn, [], q);
          return;
        }
        NothingOnEdge(V, k, i, prefix);
        return [];
      }
    }

    /** Visits the stored prefixes of the path, shortest first, up to the first visit at which fn says stop. */
    method WalkPath(path: Key, fn: seq<(Key, T)> -> bool) returns (visited: seq<(Key, T)>)
      requires Valid()
      ensures visited == UntilStop(fn, [], Above(V, path, |path| + 1)).0
      ensures ShownUntilStop(fn, Above(V, path, |path| + 1), visited)
      ensures SortedEntries(Map(), q => q <= path, Above(V, path, |path| + 1))
    {
      visited := WalkAbove(path, fn);
      ShownIsExact(fn, Above(V, path, |path| + 1));
      AboveIsSorted(V, path);
    }

    /** The loop of WalkPath. */
    method WalkAbove(path: Key, fn: seq<(Key, T)> -> bool) returns (visited: seq<(Key, T)>)
      requires Linked()
      ensures visited == UntilStop(fn, [], Above(V, path, |path| + 1)).0
    {
      var n, search, stop := root, path, false;
      ghost var k := [];
      visited := [];
      while true
        invariant k in V && n == At[k] && path == k + search
        invariant UntilStop(fn, [], Above(V, path, |k|)) == (visited, false)
        decreases |search|
      {
        PathVisit(V, fn, path, k, visited);
        visited, stop := VisitLeaf(n, fn, visited, k);
        if stop || |search| == 0 {
          return;
        }
        var c, i := Follow(n, search, k);
        if c == null {
          AboveEnd(V, path, k);
          return;
        }
        n := c;
        AboveEdge(V, path, k, i);
        ConsumePrefix(V, k, i, n.prefix, search);
        PrefixesBeyond(k, n.prefix, search);
        if n.prefix <= search {
          search, k := search[|n.prefix|..], V[k].kids[i];
        } else {
          break;
        }
      }
    }

    /** The last entry that WalkPath could visit: that of the longest stored prefix of s, if there is one. */
    method LongestPrefix(s: Key) returns (last: Option<(Key, T)>)
      requires Valid()
      ensures last == LastOf(Above(V, s, |s| + 1))
      ensures last.None? <==> NoPrefix(Map(), s)
      ensures last.Some? ==> IsLongestPrefix(Map(), s, last.value.0) && Map()[last.value.0] == last.value.1
    {
      last := LastAbove(s);
      LastIsLongest(V, s);
    }

    /** The loop of LongestPrefix. */
    method LastAbove(s: Key) returns (last: Option<(Key, T)>)
      requires Valid()
      ensures last == LastOf(Above(V, s, |s| + 1))
    {
      last := None;
      var n, search := root, s;
      ghost var k := [];
      while true
        invariant k in V && n == At[k] && s == k + search
        invariant last == LastOf(Above(V, s, |k|))
        decreases |search|
      {
        assert NodeOk(k);
        AboveStep(V, s, k);
        if n.leaf.Some? {
          last := Some((n.leaf.value.key, n.leaf.value.val));
        }
        if |search| == 0 {
          break;
        }
        var c, i := Follow(n, search, k);
        if c == null {
          AboveEnd(V, s, k);
          break;
        }
        n := c;
        AboveEdge(V, s, k, i);
        ConsumePrefix(V, k, i, n.prefix, search);
        PrefixesBeyond(k, n.prefix, search);
        if n.prefix <= search {
          search, k := search[|n.prefix|..], V[k].kids[i];
        } else {
          break;
        }
      }
    }

    /** The first entry of a complete walk, unless an emptied node precedes it. */
    method Minimum() returns (ans: Option<(Key, T)>)
      requires Valid()
      ensures ans.None? <==> EmptiedFirst(V)
      ensures ans.Some? ==> ans == FirstOf(Walked(V, []))
      ensures Compressed(V) ==> ans == FirstOf(Walked(V, [])) && (ans.None? <==> Map() == map[])
    {
      var n := root;
      ghost var k := [];
      LeftmostIsFirst(V);
      while true
        invariant k in V && n == At[k] && Leftmost(V, k) == Leftmost(V, [])
        decreases MaxLen(V.Keys) - |k|
      {
        assert NodeOk(k) && SoundKids(V, k);
        if n.leaf.Some? {
          return Some((n.leaf.value.key, n.leaf.value.val));
        }
        if |n.edges| > 0 {
          n, k := n.edges[0].node, V[k].kids[0];
        } else {
          break;
        }
      }
      return None;
    }

    /** The last entry of a complete walk, unless an emptied node follows it. */
    method Maximum() returns (ans: Option<(Key, T)>)
      requires Valid()
      ensures ans.None? <==> EmptiedLast(V)
      ensures ans.Some? ==> ans == LastOf(Walked(V, []))
      ensures Compressed(V) ==> ans == LastOf(Walked(V, [])) && (ans.None? <==> Map() == map[])
    {
      var n := root;
      ghost var k := [];
      RightmostIsLast(V);
      while true
        invariant k in V && n == At[k] && Rightmost(V, k) == Rightmost(V, [])
        decreases MaxLen(V.Keys) - |k|
      {
        assert NodeOk(k) && SoundKids(V, k);
        var num := |n.edges|;
        if num > 0 {
          n, k := n.edges[num - 1].node, V[k].kids[num - 1];
          continue;
        }
        if n.leaf.Some? {
          return Some((n.leaf.value.key, n.leaf.value.val));
        }
        break;
      }
      return None;
    }

    // ----- whole maps -----

    /** The entries of m whose keys are not in todo. */
    static function Without(m: map<Key, T>, todo: set<Key>): (r: map<Key, T>)
      ensures todo == {} ==> r == m
      ensures todo == m.Keys ==> r == map[]
    {
      m - todo
    }

    /** One round of Fill: the entry of k is added. */
    method FillOne(m: map<Key, T>, k: Key, ghost todo: set<Key>)
      requires Valid() && Compressed(V) && k in todo && todo <= m.Keys && Map() == Without(m, todo)
      modifies this, Repr
      ensures Valid() && fresh(Repr - old(Repr))
      ensures Map() == Without(m, todo - {k}) && Compressed(V)
    {
      OneMoreEntry(m, todo, k);
      var previous := Insert(k, m[k]);
    }

    /** Insert every entry of m, in whatever order Go ranges over it. */
    method Fill(m: map<Key, T>)
      requires Valid() && Map() == map[] && Compressed(V)
      modifies this, Repr
      ensures Valid() && fresh(Repr - old(Repr))
      ensures Map() == m && Compressed(V)
    {
      var todo := m.Keys;
      while todo != {}
        invariant Valid() && fresh(Repr - old(Repr)) && Compressed(V)
        invariant todo <= m.Keys && Map() == Without(m, todo)
        decreases todo
      {
        var k :| k in todo;
        FillOne(m, k, todo);
        todo := todo - {k};
      }
    }

    static method NewFromMap(m: map<Key, T>) returns (t: Tree<T>)
      ensures fresh(t) && fresh(t.Repr) && t.Valid() && t.Map() == m && Compressed(t.V)
    {
      t := new Tree();
      t.Fill(m);
    }

    method ToMap() returns (out: map<Key, T>)
      requires Valid()
      ensures out == Map()
    {
      var visited := Walk(Never<(Key, T)>);
      NeverStops([], Walked(V, []));
      WalkIsTheSortedMap(V);
      out := Collect(visited, Map());
    }

    /** What the visitor of ToMap has gathered at the end. */
    static method Collect(visited: seq<(Key, T)>, ghost m: map<Key, T>) returns (out: map<Key, T>)
      requires forall e :: e in visited <==> e.0 in m && m[e.0] == e.1
      ensures out == m
    {
      out := map[];
      for i := 0 to |visited|
        invariant forall k :: k in out ==> k in m && out[k] == m[k]
        invariant forall j :: 0 <= j < i ==> visited[j].0 in out
      {
        assert visited[i] in visited;
        out := out[visited[i].0 := visited[i].1];
      }
      forall k | k in m
        ensures k in out
      {
        assert (k, m[k]) in visited;
      }
    }

    method Len() returns (n: int)
      requires Valid()
      ensures n == |Map()|
    {
      n := size;
    }

    // ----- DeletePrefix -----

    /** n, at k, is the root, or stands below parent, at p. */
    ghost predicate Below(parent: Node?<T>, p: Key, n: Node<T>, k: Key)
      reads this`V, this`At
    {
      && k in V && k in At && n == At[k] && (parent == null <==> k == [])
      && (parent != null ==> p in V && p in At && parent == At[p] && p < k && k in V[p].kids)
    }

    /** Key exhaustion: everything at and below n goes; n itself stays linked, empty. */
    method DeleteBelow(parent: Node?<T>, n: Node<T>, ghost p: Key, ghost k: Key) returns (count: nat)
      requires Valid() && Below(parent, p, n, k)
      modifies this`V, this`At, this`size, Repr
      ensures Valid() && count == |old(Map())| - |Map()| && PrunedAt(old(V), k, V)
      ensures Map() == map q | q in old(Map()) && !(k <= q) :: old(Map())[q]
    {
      var visited, stop := RecursiveWalk(n, Never<(Key, T)>, [], k);
      NeverStops([], Walked(V, k));
      count, size := |visited|, size - |visited|;
      EmptyOut(parent, n, p, k);
    }

    method EmptyOut(parent: Node?<T>, n: Node<T>, ghost p: Key, ghost k: Key)
      requires Linked() && Below(parent, p, n, k)
      modifies this`V, this`At, Repr
      ensures Linked() && |Map()| == |old(Map())| - |Walked(old(V), k)| && PrunedAt(old(V), k, V)
      ensures Map() == map q | q in old(Map()) && !(k <= q) :: old(Map())[q]
    {
      assert NodeOk(k);
      PruneKeeps(V, k);
      EntriesBelow(V, k);
      CutBelow(n, k);
      if parent != null {
        assert NodeOk(p);
        MergeIfRelay(parent, p);
      }
    }

    /** The child that leads to all that starts with s, if any, and what is left to match there. */
    method Towards(n: Node<T>, prefix: Key, ghost s: Key, ghost k: Key)
      returns (child: Node?<T>, rest: Key, ghost c: Key)
      requires Linked() && k in V && n == At[k] && prefix != [] && s == k + prefix
      ensures child == null ==> forall q :: q in V ==> !(s <= q)
      ensures child != null ==> Below(n, k, child, c) && child in Repr && |rest| < |prefix|
      ensures child != null ==> if rest == [] then Covers(V, c, s) else s == c + rest
    {
      ghost var i;
      child, i := Follow(n, prefix, k);
      assert k + [prefix[0]] <= s && s[|k|] == prefix[0];
      rest, c := [], [];
      if child == null {
        return;
      }
      c := V[k].kids[i];
      PrefixesBeyond(k, child.prefix, prefix);
      PrefixesBeyond(k, prefix, child.prefix);
      if !(prefix <= child.prefix) && !(child.prefix <= prefix) {
        NothingOnEdge(V, k, i, s);
        return null, rest, c;
      }
      rest := if |child.prefix| > |prefix| then prefix[|prefix|..] else prefix[|child.prefix|..];
      if rest == [] {
        EdgeCovers(V, k, i, s);
      }
    }

    /** n, below parent, stands at k.  What is left of the prefix s to match is `prefix`. */
    method DeletePrefixFrom(parent: Node?<T>, n: Node<T>, prefix: Key, ghost s: Key, ghost p: Key, ghost k: Key)
      returns (count: nat)
      requires Valid() && Below(parent, p, n, k)
      requires if prefix == [] then Covers(V, k, s) else s == k + prefix
      modifies this`V, this`At, this`size, Repr
      ensures Valid() && count == |old(Map())| - |Map()| && PrunedUnder(old(V), s, V)
      ensures Map() == map q | q in old(Map()) && !(s <= q) :: old(Map())[q]
      decreases |prefix|
    {
      if |prefix| == 0 {
        CoversAll(V, k, s);
        count := DeleteBelow(parent, n, p, k);
        return;
      }
      var child, rest, c := Towards(n, prefix, s, k);
      if child == null {
        return 0;
      }
      count := DeletePrefixFrom(n, child, rest, s, k, c);
    }

    /** Deletes every key that starts with s; returns how many there were. */
    method DeletePrefix(s: Key) returns (count: nat)
      requires Valid()
      modifies this`V, this`At, this`size, Repr
      ensures Valid() && count == |old(Map())| - |Map()| && PrunedUnder(old(V), s, V)
      ensures Map() == map q | q in old(Map()) && !(s <= q) :: old(Map())[q]
      ensures old(Compressed(V)) ==> (Compressed(V) <==> s == [] || count == 0)
      ensures s == [] ==> Compressed(V)
    {
      count := DeletePrefixFrom(null, root, s, s, [], []);
      AfterPrune(old(V), s, V);
    }

    // ----- history independence -----

    /** Two trees that were only inserted into and deleted from, in any order, and hold
        the same map, have the same nodes with the same prefixes, leaves and edge labels. */
    lemma SameShape(other: Tree<T>)
      requires Valid() && Compressed(V) && other.Valid() && Compressed(other.V)
      requires Map() == other.Map()
      ensures V == other.V && size == other.size && At.Keys == other.At.Keys
      ensures forall k :: k in At ==>
        && At[k].prefix == other.At[k].prefix && At[k].leaf == other.At[k].leaf
        && |At[k].edges| == |other.At[k].edges|
        && forall i :: 0 <= i < |At[k].edges| ==> At[k].edges[i].tag == other.At[k].edges[i].tag
    {
      ShapeIsDetermined(V, other.V);
      forall k | k in At
        ensures NodeOk(k) && other.NodeOk(k)
      {
      }
    }
  }
}

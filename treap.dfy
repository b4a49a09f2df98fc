/**
 * A treap used as an ordered map from integer keys to values: a binary search
 * tree on keys that is at the same time a max-heap on node priorities.
 *
 * The tree is a value (`Tree`); the map object `Treap` holds its root in a
 * field that its methods reassign. `Split`, `Merge` and the path updates are
 * the recursive helpers of the map object, written as functions on trees.
 * The map a tree stands for is read through `Get`, the lookup `t[k]` performs.
 */
module Treap {
  import opened Wrappers

  /** A node holds a key, a value, a priority and two subtrees; `Leaf` is `None`. */
  datatype Tree<V> = Leaf | Node(left: Tree<V>, key: int, value: V, priority: int, right: Tree<V>)

  /** The exception raised for a key that is not in the map. */
  datatype TreapError = KeyError(key: int)

  function Keys<V>(t: Tree<V>): set<int>
  {
    match t
    case Leaf => {}
    case Node(l, k, _, _, r) => Keys(l) + {k} + Keys(r)
  }

  /** Every node as a (key, value, priority) triple, in in-order position. */
  function Items<V>(t: Tree<V>): seq<(int, V, int)>
  {
    match t
    case Leaf => []
    case Node(l, k, v, p, r) => Items(l) + [(k, v, p)] + Items(r)
  }

  /** In-order traversal: the keys `inorder_iter` yields. */
  function Inorder<V>(t: Tree<V>): seq<int>
  {
    match t
    case Leaf => []
    case Node(l, k, _, _, r) => Inorder(l) + [k] + Inorder(r)
  }

  /** Reverse in-order traversal: the keys `reverse_inorder_iter` yields. */
  function ReverseInorder<V>(t: Tree<V>): seq<int>
  {
    match t
    case Leaf => []
    case Node(l, k, _, _, r) => ReverseInorder(r) + [k] + ReverseInorder(l)
  }

  /** The shape of a tree with its keys and priorities, forgetting the values. */
  function Erase<V>(t: Tree<V>): Tree<()>
  {
    match t
    case Leaf => Leaf
    case Node(l, k, _, p, r) => Node(Erase(l), k, (), p, Erase(r))
  }

  ghost predicate AllAtMost<V>(t: Tree<V>, k: int)
  {
    forall x :: x in Keys(t) ==> x <= k
  }

  ghost predicate AllAbove<V>(t: Tree<V>, k: int)
  {
    forall x :: x in Keys(t) ==> k < x
  }

  /** Every key of `l` is smaller than every key of `r`. */
  ghost predicate Separated<V>(l: Tree<V>, r: Tree<V>)
  {
    forall a, b :: a in Keys(l) && b in Keys(r) ==> a < b
  }

  /** Binary-search-tree order: left keys < node key < right keys, everywhere. */
  ghost predicate IsBst<V>(t: Tree<V>)
  {
    match t
    case Leaf => true
    case Node(l, k, _, _, r) =>
      IsBst(l) && IsBst(r) && (forall x :: x in Keys(l) ==> x < k) && AllAbove(r, k)
  }

  /** The root of `t`, if any, has priority at most `p`. */
  predicate PriorityAtMost<V>(t: Tree<V>, p: int)
  {
    t.Leaf? || t.priority <= p
  }

  /** Heap order: no child has a higher priority than its parent. */
  ghost predicate IsHeap<V>(t: Tree<V>)
  {
    match t
    case Leaf => true
    case Node(l, _, _, p, r) => IsHeap(l) && IsHeap(r) && PriorityAtMost(l, p) && PriorityAtMost(r, p)
  }

  ghost predicate Valid<V>(t: Tree<V>)
  {
    IsBst(t) && IsHeap(t)
  }

  /** A priority no lower than either root. */
  function TopPriority<V>(l: Tree<V>, r: Tree<V>): int
  {
    if l.Leaf? && r.Leaf? then 0
    else if l.Leaf? then r.priority
    else if r.Leaf? || l.priority > r.priority then l.priority
    else r.priority
  }

  function Reverse(s: seq<int>): seq<int>
  {
    if s == [] then [] else Reverse(s[1..]) + [s[0]]
  }

  ghost predicate StrictlyIncreasing(s: seq<int>)
  {
    forall i, j :: 0 <= i < j < |s| ==> s[i] < s[j]
  }

  /**
   * The search `get_node` performs: follow the path that key comparisons
   * choose, and return the subtree rooted at the node holding `k`.
   */
  function Find<V>(t: Tree<V>, k: int): (r: Option<Tree<V>>)
    ensures r.Some? ==> r.value.Node? && r.value.key == k
    ensures IsBst(t) ==> (r.Some? <==> k in Keys(t))
  {
    match t
    case Leaf => None
    case Node(l, key, _, _, rt) =>
      if k == key then Some(t)
      else if k < key then Find(l, k)
      else Find(rt, k)
  }

  /** The value `t[k]` reads: the value of the node `Find` reaches, if any. */
  function Get<V>(t: Tree<V>, k: int): Option<V>
  {
    if Find(t, k).Some? then Some(Find(t, k).value.value) else None
  }

  /**
   * Splits a tree at `k`. A key equal to `k` goes to the LEFT part: the left
   * part holds the keys <= k and the right part the keys > k.
   */
  function Split<V>(t: Tree<V>, k: int): (r: (Tree<V>, Tree<V>))
    ensures Keys(r.0) + Keys(r.1) == Keys(t)
    ensures Items(r.0) + Items(r.1) == Items(t)
  {
    match t
    case Leaf => (Leaf, Leaf)
    case Node(l, key, v, p, rt) =>
      if k < key then
        var (a, b) := Split(l, k);
        (a, Node(b, key, v, p, rt))
      else
        var (a, b) := Split(rt, k);
        (Node(l, key, v, p, a), b)
  }

  /** Splitting a heap-ordered tree gives two heap-ordered trees whose roots are no higher. */
  lemma {:induction false} SplitKeepsHeap<V>(t: Tree<V>, k: int, q: int)
    requires IsHeap(t) && PriorityAtMost(t, q)
    ensures IsHeap(Split(t, k).0) && IsHeap(Split(t, k).1)
    ensures PriorityAtMost(Split(t, k).0, q) && PriorityAtMost(Split(t, k).1, q)
  {
    match t
    case Leaf =>
    case Node(l, key, v, p, rt) =>
      if k < key { SplitKeepsHeap(l, k, p); } else { SplitKeepsHeap(rt, k, p); }
  }

  /** Splitting a search tree at `k` gives two search trees: keys <= k on the left, keys > k on the right. */
  lemma {:induction false} SplitKeepsOrder<V>(t: Tree<V>, k: int)
    requires IsBst(t)
    ensures IsBst(Split(t, k).0) && IsBst(Split(t, k).1)
    ensures AllAtMost(Split(t, k).0, k) && AllAbove(Split(t, k).1, k)
  {
    match t
    case Leaf =>
    case Node(l, key, v, p, rt) =>
      if k < key { SplitKeepsOrder(l, k); } else { SplitKeepsOrder(rt, k); }
  }

  /** A lookup in `t` is answered by the left part for keys <= k and by the right part otherwise. */
  lemma {:induction false} SplitGet<V>(t: Tree<V>, k: int, j: int)
    ensures Get(t, j) == if j <= k then Get(Split(t, k).0, j) else Get(Split(t, k).1, j)
  {
    match t
    case Leaf =>
    case Node(l, key, v, p, rt) =>
      if k < key { SplitGet(l, k, j); } else { SplitGet(rt, k, j); }
  }

  /**
   * Merges two trees, keeping the in-order sequence of nodes `l ++ r`. The root with the
   * strictly higher priority stays on top; on a tie the right root wins.
   */
  function Merge<V>(l: Tree<V>, r: Tree<V>): (m: Tree<V>)
    decreases l, r
    ensures Keys(m) == Keys(l) + Keys(r)
    ensures Items(m) == Items(l) + Items(r)
  {
    if r.Leaf? then l
    else if l.Leaf? then r
    else if l.priority > r.priority then
      var m := Merge(l.right, r);
      assert Items(l) + Items(r) == Items(l.left) + [(l.key, l.value, l.priority)] + (Items(l.right) + Items(r));
      Node(l.left, l.key, l.value, l.priority, m)
    else
      var m := Merge(l, r.left);
      assert Items(l) + Items(r) == (Items(l) + Items(r.left)) + [(r.key, r.value, r.priority)] + Items(r.right);
      Node(m, r.key, r.value, r.priority, r.right)
  }

  /** Merging two heaps gives a heap whose root is no higher than any bound on both roots. */
  lemma {:induction false} MergeKeepsHeap<V>(l: Tree<V>, r: Tree<V>, q: int)
    decreases l, r
    requires IsHeap(l) && IsHeap(r) && PriorityAtMost(l, q) && PriorityAtMost(r, q)
    ensures IsHeap(Merge(l, r)) && PriorityAtMost(Merge(l, r), q)
  {
    if r.Leaf? || l.Leaf? {
    } else if l.priority > r.priority {
      MergeKeepsHeap(l.right, r, l.priority);
    } else {
      MergeKeepsHeap(l, r.left, r.priority);
    }
  }

  /** Merging two search trees whose keys are separated gives a search tree. */
  lemma {:induction false} MergeKeepsOrder<V>(l: Tree<V>, r: Tree<V>)
    decreases l, r
    requires IsBst(l) && IsBst(r) && Separated(l, r)
    ensures IsBst(Merge(l, r))
  {
    if r.Leaf? || l.Leaf? {
    } else if l.priority > r.priority {
      assert Keys(l.right) <= Keys(l);
      MergeKeepsOrder(l.right, r);
      var m := Merge(l.right, r);
      assert forall x :: x in Keys(m) ==> x in Keys(l.right) || x in Keys(r);
      assert l.key in Keys(l);
    } else {
      assert Keys(r.left) <= Keys(r);
      MergeKeepsOrder(l, r.left);
      var m := Merge(l, r.left);
      assert forall x :: x in Keys(m) ==> x in Keys(l) || x in Keys(r.left);
      assert r.key in Keys(r);
    }
  }

  /** After merging separated search trees, a key of `l` is looked up in `l`, any other in `r`. */
  lemma {:induction false} MergeGet<V>(l: Tree<V>, r: Tree<V>, j: int)
    decreases l, r
    requires IsBst(l) && IsBst(r) && Separated(l, r)
    ensures Get(Merge(l, r), j) == if j in Keys(l) then Get(l, j) else Get(r, j)
  {
    if r.Leaf? || l.Leaf? {
    } else if l.priority > r.priority {
      assert l.key in Keys(l);
      assert Keys(l.right) <= Keys(l);
      if j > l.key {
        MergeGet(l.right, r, j);
      } else if j < l.key {
        assert j !in Keys(r) by {
          assert forall b :: b in Keys(r) ==> l.key < b;
        }
      }
    } else {
      assert r.key in Keys(r);
      assert Keys(r.left) <= Keys(r);
      if j < r.key {
        MergeGet(l, r.left, j);
      } else {
        assert j !in Keys(l) by {
          assert forall a :: a in Keys(l) ==> a < r.key;
        }
      }
    }
  }

  /** Merging separated valid treaps gives a valid treap standing for the union of their maps. */
  lemma MergeValid<V>(l: Tree<V>, r: Tree<V>)
    requires Valid(l) && Valid(r) && Separated(l, r)
    ensures Valid(Merge(l, r))
    ensures PriorityAtMost(Merge(l, r), TopPriority(l, r))
    ensures forall j :: Get(Merge(l, r), j) == if j in Keys(l) then Get(l, j) else Get(r, j)
  {
    MergeKeepsHeap(l, r, TopPriority(l, r));
    MergeKeepsOrder(l, r);
    forall j ensures Get(Merge(l, r), j) == if j in Keys(l) then Get(l, j) else Get(r, j) {
      MergeGet(l, r, j);
    }
  }

  /** Overwrites the value of the node that `Find` reaches; keys, priorities and shape stay. */
  function SetValue<V>(t: Tree<V>, k: int, v: V): (r: Tree<V>)
    ensures Erase(r) == Erase(t)
    ensures Keys(r) == Keys(t)
    ensures forall p :: PriorityAtMost(t, p) ==> PriorityAtMost(r, p)
  {
    match t
    case Leaf => Leaf
    case Node(l, key, val, p, rt) =>
      if k == key then Node(l, key, v, p, rt)
      else if k < key then Node(SetValue(l, k, v), key, val, p, rt)
      else Node(l, key, val, p, SetValue(rt, k, v))
  }

  /** Overwriting keeps both orders. */
  lemma {:induction false} SetValueKeepsValid<V>(t: Tree<V>, k: int, v: V)
    requires Valid(t)
    ensures Valid(SetValue(t, k, v))
  {
    match t
    case Leaf =>
    case Node(l, key, val, p, rt) =>
      if k < key { SetValueKeepsValid(l, k, v); }
      else if k > key { SetValueKeepsValid(rt, k, v); }
  }

  /** After overwriting, `k` reads `v` if the search found it; every other key reads as before. */
  lemma {:induction false} SetValueGet<V>(t: Tree<V>, k: int, v: V, j: int)
    ensures Get(SetValue(t, k, v), j) == if j == k && Find(t, k).Some? then Some(v) else Get(t, j)
  {
    match t
    case Leaf =>
    case Node(l, key, val, p, rt) =>
      if k < key { SetValueGet(l, k, v, j); }
      else if k > key { SetValueGet(rt, k, v, j); }
  }

  /** Inserting a key that is absent: split at it, then merge the new node in between. */
  function InsertAbsent<V>(t: Tree<V>, k: int, v: V, priority: int): (r: Tree<V>)
    ensures Keys(r) == Keys(t) + {k}
    ensures Items(r) == Items(Split(t, k).0) + [(k, v, priority)] + Items(Split(t, k).1)
  {
    var s := Split(t, k);
    var single := Node(Leaf, k, v, priority, Leaf);
    assert Items(single) == [(k, v, priority)];
    assert Keys(single) == Keys(single.left) + {k} + Keys(single.right);
    Merge(Merge(s.0, single), s.1)
  }

  /**
   * Merging `a`, then a one-node tree `n`, then `b`, where all keys of `a` are
   * below the key of `n` and all keys of `b` above it.
   */
  lemma MergeAround<V>(a: Tree<V>, n: Tree<V>, b: Tree<V>)
    requires Valid(a) && Valid(b) && n.Node? && n.left.Leaf? && n.right.Leaf?
    requires AllAtMost(a, n.key) && n.key !in Keys(a) && AllAbove(b, n.key)
    ensures Valid(Merge(Merge(a, n), b))
    ensures forall j :: Get(Merge(Merge(a, n), b), j) == if j == n.key then Some(n.value) else if j < n.key then Get(a, j) else Get(b, j)
  {
    assert Keys(n) == {n.key};
    assert Separated(a, n);
    MergeValid(a, n);
    var m := Merge(a, n);
    assert Separated(m, b);
    MergeValid(m, b);
    forall j ensures Get(Merge(m, b), j) == if j == n.key then Some(n.value) else if j < n.key then Get(a, j) else Get(b, j) {
      if j !in Keys(a) && j < n.key { assert Find(a, j).None?; }
      if j <= n.key { assert j !in Keys(b); assert Find(b, j).None?; }
    }
  }

  /** Inserting an absent key into a valid treap keeps it valid and adds exactly that entry. */
  lemma InsertAbsentAdds<V>(t: Tree<V>, k: int, v: V, priority: int)
    requires Valid(t) && k !in Keys(t)
    ensures Valid(InsertAbsent(t, k, v, priority))
    ensures forall j :: Get(InsertAbsent(t, k, v, priority), j) == if j == k then Some(v) else Get(t, j)
  {
    var s := Split(t, k);
    SplitKeepsOrder(t, k);
    SplitKeepsHeap(t, k, TopPriority(t, t));
    var single := Node(Leaf, k, v, priority, Leaf);
    MergeAround(s.0, single, s.1);
    assert InsertAbsent(t, k, v, priority) == Merge(Merge(s.0, single), s.1);
    forall j ensures Get(InsertAbsent(t, k, v, priority), j) == if j == k then Some(v) else Get(t, j) {
      SplitGet(t, k, j);
    }
  }

  /**
   * The subtree found at `k` is replaced by the merge of its two children; the
   * nodes on the path to it are rebuilt around the new child.
   */
  function RemoveKey<V>(t: Tree<V>, k: int): (r: Tree<V>)
    ensures Find(t, k).None? ==> r == t
  {
    match t
    case Leaf => Leaf
    case Node(l, key, v, p, rt) =>
      if k == key then Merge(l, rt)
      else if k < key then Node(RemoveKey(l, k), key, v, p, rt)
      else Node(l, key, v, p, RemoveKey(rt, k))
  }

  /** Removing from a valid treap keeps it valid, drops key `k` and no other key. */
  lemma {:induction false} RemoveKeyKeepsValid<V>(t: Tree<V>, k: int, q: int)
    requires Valid(t) && PriorityAtMost(t, q)
    ensures Valid(RemoveKey(t, k)) && PriorityAtMost(RemoveKey(t, k), q)
    ensures Keys(RemoveKey(t, k)) == Keys(t) - {k}
  {
    match t
    case Leaf =>
    case Node(l, key, v, p, rt) =>
      if k == key {
        assert Separated(l, rt);
        MergeValid(l, rt);
        MergeKeepsHeap(l, rt, p);
      } else if k < key {
        RemoveKeyKeepsValid(l, k, p);
      } else {
        RemoveKeyKeepsValid(rt, k, p);
      }
  }

  /** After removal, `k` is absent and every other key reads as before. */
  lemma {:induction false} RemoveKeyGet<V>(t: Tree<V>, k: int, j: int)
    requires IsBst(t)
    ensures Get(RemoveKey(t, k), j) == if j == k then None else Get(t, j)
  {
    match t
    case Leaf =>
    case Node(l, key, v, p, rt) =>
      if k == key {
        assert Separated(l, rt);
        MergeGet(l, rt, j);
      } else if k < key {
        RemoveKeyGet(l, k, j);
      } else {
        RemoveKeyGet(rt, k, j);
      }
  }

  /** Splitting puts a key equal to the pivot on the left side. */
  lemma SplitPivotGoesLeft<V>(t: Tree<V>, k: int)
    requires IsBst(t) && k in Keys(t)
    ensures k in Keys(Split(t, k).0) && k !in Keys(Split(t, k).1)
  {
    SplitKeepsOrder(t, k);
  }

  /** On equal root priorities, `Merge` keeps the right root on top. */
  lemma MergeTieKeepsRightRoot<V>(l: Tree<V>, r: Tree<V>)
    requires l.Node? && r.Node? && l.priority == r.priority
    ensures Merge(l, r).Node? && Merge(l, r).key == r.key && Merge(l, r).priority == r.priority
  {
  }

  /** The in-order keys of a search tree are exactly its keys, strictly ascending. */
  lemma {:induction false} InorderSorted<V>(t: Tree<V>)
    requires IsBst(t)
    ensures StrictlyIncreasing(Inorder(t))
    ensures forall x :: x in Inorder(t) <==> x in Keys(t)
  {
    match t
    case Leaf =>
    case Node(l, k, _, _, r) =>
      InorderSorted(l);
      InorderSorted(r);
      var s := Inorder(t);
      var nl := |Inorder(l)|;
      forall i, j | 0 <= i < j < |s| ensures s[i] < s[j] {
        if i < nl {
          assert s[i] == Inorder(l)[i];
          assert s[i] in Keys(l);
          if j > nl {
            assert s[j] == Inorder(r)[j - nl - 1];
            assert s[j] in Keys(r);
          }
        } else if i == nl {
          assert s[j] == Inorder(r)[j - nl - 1];
          assert s[j] in Keys(r);
        }
      }
  }

  lemma {:induction false} ReverseAppend(a: seq<int>, b: seq<int>)
    ensures Reverse(a + b) == Reverse(b) + Reverse(a)
  {
    if a == [] {
      assert a + b == b;
    } else {
      assert (a + b)[1..] == a[1..] + b;
      ReverseAppend(a[1..], b);
    }
  }

  /** Reverse traversal yields exactly the reverse of the in-order traversal. */
  lemma {:induction false} ReverseInorderIsReverse<V>(t: Tree<V>)
    ensures ReverseInorder(t) == Reverse(Inorder(t))
  {
    match t
    case Leaf =>
    case Node(l, k, _, _, r) =>
      ReverseInorderIsReverse(l);
      ReverseInorderIsReverse(r);
      ReverseAppend(Inorder(l) + [k], Inorder(r));
      ReverseAppend(Inorder(l), [k]);
      assert Reverse([k]) == [k] by {
        assert [k][1..] == [];
      }
  }

  /** A strictly increasing sequence has no repeated element, so its length is its number of elements. */
  lemma {:induction false} DistinctLength(s: seq<int>)
    requires StrictlyIncreasing(s)
    ensures |set x | x in s| == |s|
  {
    if s != [] {
      DistinctLength(s[1..]);
      var rest := set x | x in s[1..];
      assert (set x | x in s) == rest + {s[0]};
      assert s[0] !in rest;
    }
  }

  /** In a search tree the number of traversed keys is the number of distinct keys. */
  lemma TraversalFacts<V>(t: Tree<V>)
    ensures IsBst(t) ==> StrictlyIncreasing(Inorder(t)) && (forall x :: x in Inorder(t) <==> x in Keys(t))
    ensures IsBst(t) ==> |Inorder(t)| == |Keys(t)|
  {
    if IsBst(t) {
      InorderSorted(t);
      DistinctLength(Inorder(t));
      assert (set x | x in Inorder(t)) == Keys(t);
    }
  }

  /** The map object: `root` is the only state, replaced by every update. */
  class Treap<V> {
    var root: Tree<V>

    constructor (root: Tree<V>)
      ensures this.root == root
    {
      this.root := root;
    }

    /** `get_node`: walks down from the root and returns the subtree at `k`, or None. */
    method GetNode(k: int) returns (n: Option<Tree<V>>)
      ensures n == Find(root, k)
      ensures n.Some? ==> n.value.Node? && n.value.key == k
      ensures IsBst(root) ==> (n.Some? <==> k in Keys(root))
    {
      var node := root;
      while node.Node?
        invariant Find(node, k) == Find(root, k)
        decreases node
      {
        if k == node.key {
          return Some(node);
        } else if k < node.key {
          node := node.left;
        } else {
          node := node.right;
        }
      }
      return None;
    }

    /** `t[k]`: the value at `k`, or KeyError exactly when the search finds no node. */
    method GetItem(k: int) returns (r: Result<V, TreapError>)
      ensures r.Err? <==> Get(root, k).None?
      ensures r.Err? ==> r.error == KeyError(k)
      ensures r.Ok? ==> Get(root, k) == Some(r.value)
      ensures IsBst(root) ==> (r.Ok? <==> k in Keys(root))
    {
      var node := GetNode(k);
      if node.None? {
        return Err(KeyError(k));
      }
      return Ok(node.value.value);
    }

    /** `k in t`: true exactly when `t[k]` does not raise. */
    method Contains(k: int) returns (b: bool)
      ensures b <==> Get(root, k).Some?
      ensures IsBst(root) ==> (b <==> k in Keys(root))
    {
      var r := GetItem(k);
      b := r.Ok?;
    }

    /**
     * `insert(node, k, v)`: the presence test searches `root`, not `node`.
     * When `k` is present its value is overwritten in place and the old root is
     * returned; otherwise `node` is split at `k` and the new node merged in.
     */
    method Insert(node: Tree<V>, k: int, v: V, priority: int) returns (r: Tree<V>)
      modifies this
      ensures Find(old(root), k).Some? ==> root == SetValue(old(root), k, v) && r == root
      ensures Find(old(root), k).None? ==> root == old(root) && r == InsertAbsent(node, k, v, priority)
    {
      var found := GetNode(k);
      if found.Some? {
        root := SetValue(root, k, v);
        return root;
      }
      r := InsertAbsent(node, k, v, priority);
    }

    /**
     * `t[k] = v` with the node priority chosen by the caller (the source draws
     * it uniformly from 1 .. 2^31 - 1).
     */
    method SetItem(k: int, v: V, priority: int)
      requires 1 <= priority <= 0x7FFF_FFFF
      modifies this
      ensures Find(old(root), k).Some? ==> root == SetValue(old(root), k, v)
      ensures Find(old(root), k).None? ==> root == InsertAbsent(old(root), k, v, priority)
      ensures Valid(old(root)) ==> Valid(root) && Keys(root) == Keys(old(root)) + {k}
      ensures Valid(old(root)) ==> forall j :: Get(root, j) == if j == k then Some(v) else Get(old(root), j)
    {
      ghost var t := root;
      root := Insert(root, k, v, priority);
      if Valid(t) {
        if Find(t, k).Some? {
          SetValueKeepsValid(t, k, v);
          forall j ensures Get(root, j) == if j == k then Some(v) else Get(t, j) {
            SetValueGet(t, k, v, j);
          }
        } else {
          InsertAbsentAdds(t, k, v, priority);
        }
      }
    }

    /** `del t[k]`: KeyError when absent, otherwise the node at `k` is replaced by the merge of its children. */
    method DelItem(k: int) returns (r: Result<(), TreapError>)
      modifies this
      ensures r.Err? <==> Find(old(root), k).None?
      ensures r.Err? ==> r.error == KeyError(k) && root == old(root)
      ensures r.Ok? ==> root == RemoveKey(old(root), k)
      ensures Valid(old(root)) ==> Valid(root) && Keys(root) == Keys(old(root)) - {k}
      ensures Valid(old(root)) ==> forall j :: Get(root, j) == if j == k then None else Get(old(root), j)
    {
      var node := root;
      while node.Node? && node.key != k
        invariant Find(node, k) == Find(root, k)
        decreases node
      {
        if k < node.key {
          node := node.left;
        } else {
          node := node.right;
        }
      }
      if node.Leaf? {
        return Err(KeyError(k));
      }
      if Valid(root) {
        RemoveKeyKeepsValid(root, k, TopPriority(root, root));
        forall j ensures Get(RemoveKey(root, k), j) == if j == k then None else Get(root, j) {
          RemoveKeyGet(root, k, j);
        }
      }
      root := RemoveKey(root, k);
      return Ok(());
    }

    /** `len(t)`: the number of keys the traversal yields, which is the number of distinct keys. */
    function Len(): (n: nat)
      reads this
      ensures IsBst(root) ==> n == |Keys(root)|
    {
      TraversalFacts(root); |Inorder(root)|
    }

    /** `iter(t)`: the keys in ascending order. */
    function Iter(): (s: seq<int>)
      reads this
      ensures IsBst(root) ==> StrictlyIncreasing(s) && (forall x :: x in s <==> x in Keys(root))
    {
      TraversalFacts(root); Inorder(root)
    }

    /** `reversed(t)`: the exact reverse of `iter(t)`. */
    function Reversed(): (s: seq<int>)
      reads this
      ensures s == Reverse(Iter())
    {
      ReverseInorderIsReverse(root); ReverseInorder(root)
    }
  }
}

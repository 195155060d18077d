/**
 * Which trees put and delete leave, told by their traversals and their nodes. The keys in order and the entries in
 * pre-order determine a search tree, so these facts fix the shapes.
 */
module TreeShapes {
  import opened Wrappers
  import opened CStrings
  import opened SearchTree

  /** after is before without one occurrence of p; all others keep their order. */
  ghost predicate DropsOne<T>(before: seq<T>, p: T, after: seq<T>) {
    exists i :: 0 <= i < |before| && before[i] == p && after == before[..i] + before[i + 1..]
  }

  // ---------- Delete ----------

  lemma DropInside(a: seq<Pair>, b: seq<Pair>, p: Pair, b': seq<Pair>, c: seq<Pair>)
    requires DropsOne(b, p, b')
    ensures DropsOne(a + b + c, p, a + b' + c)
  {
    var i :| 0 <= i < |b| && b[i] == p && b' == b[..i] + b[i + 1..];
    var s := a + b + c;
    assert s[|a| + i] == p;
    assert s[..|a| + i] == a + b[..i] && s[|a| + i + 1..] == b[i + 1..] + c;
    assert a + b' + c == s[..|a| + i] + s[|a| + i + 1..];
  }

  /** Taking out the lowest node takes the first key. */
  lemma {:induction false} LowestIsFirst(t: Tree)
    requires t.Node?
    ensures InOrder(t) == [Lowest(t).key] + InOrder(RemoveLowest(t))
  {
    if t.left.Node? {
      LowestIsFirst(t.left);
      var a, b, c := [Lowest(t).key], InOrder(RemoveLowest(t.left)), [t.key] + InOrder(t.right);
      assert InOrder(t) == a + b + c && InOrder(RemoveLowest(t)) == b + c;
    }
  }

  /** It leaves all other entries in their pre-order. */
  lemma {:induction false} LowestTaken(t: Tree)
    requires t.Node?
    ensures DropsOne(PreOrder(t), Pair(Lowest(t).key, Lowest(t).value), PreOrder(RemoveLowest(t)))
  {
    hide DropsOne, Lowest, PreOrder, RemoveLowest;
    var p := Pair(t.key, t.value);
    LowestParts(t);
    if t.left.Leaf? {
      DropFirst(p, PreOrder(t.right));
    } else {
      LowestTaken(t.left);
      DropInside([p], PreOrder(t.left), Pair(Lowest(t).key, Lowest(t).value), PreOrder(RemoveLowest(t.left)),
                 PreOrder(t.right));
    }
  }

  lemma LowestParts(t: Tree)
    requires t.Node?
    ensures var p := Pair(t.key, t.value);
            if t.left.Leaf? then Lowest(t) == t && RemoveLowest(t) == t.right && PreOrder(t) == [p] + PreOrder(t.right)
            else
              && Lowest(t) == Lowest(t.left) && PreOrder(t) == [p] + PreOrder(t.left) + PreOrder(t.right)
              && PreOrder(RemoveLowest(t)) == [p] + PreOrder(RemoveLowest(t.left)) + PreOrder(t.right)
  {
  }

  lemma DropFirst(p: Pair, ps: seq<Pair>)
    ensures DropsOne([p] + ps, p, ps)
  {
    var s := [p] + ps;
    assert s[0] == p && ps == s[..0] + s[1..];
  }

  /**
   * Deleting the key of the root. A lone child takes its place; of two children, the left one stays where it is, and
   * the entry with the next higher key comes to the root while all others on the right keep their arrangement.
   */
  lemma RemovedAtRoot(l: Tree, k: CString, v: Data, r: Tree)
    ensures var t := Remove(Node(l, k, v, r), Some(k));
            && (l.Leaf? ==> t == r)
            && (r.Leaf? ==> t == l)
            && (l.Node? && r.Node? ==>
                  && t.Node? && t.left == l
                  && InOrder(r) == [t.key] + InOrder(t.right)
                  && DropsOne(PreOrder(r), Pair(t.key, t.value), PreOrder(t.right)))
  {
    if r.Node? {
      LowestIsFirst(r);
      LowestTaken(r);
    }
  }

  /** Deleting a key below a node, or one that is absent, leaves the node and its other subtree as they are. */
  lemma RemovedBelow(l: Tree, k: CString, v: Data, r: Tree, key: Option<CString>)
    ensures Remove(Leaf, key) == Leaf
    ensures key.None? || Less(key.value, k) ==> Remove(Node(l, k, v, r), key) == Node(Remove(l, key), k, v, r)
    ensures key.Some? && Less(k, key.value) ==> Remove(Node(l, k, v, r), key) == Node(l, k, v, Remove(r, key))
  {
    KeyCompareAntisymmetric(key, Some(k));
  }

  // ---------- Put ----------

  /** Putting hangs a leaf, overwrites the entry of the node with the key, or leaves the node and one subtree alone. */
  lemma InsertedBelow(l: Tree, k: CString, v: Data, r: Tree, key: CString, value: Data)
    ensures Insert(Leaf, key, value) == Node(Leaf, key, value, Leaf)
    ensures Insert(Node(l, k, v, r), k, value) == Node(l, k, value, r)
    ensures Less(key, k) ==> Insert(Node(l, k, v, r), key, value) == Node(Insert(l, key, value), k, v, r)
    ensures Less(k, key) ==> Insert(Node(l, k, v, r), key, value) == Node(l, k, v, Insert(r, key, value))
  {
    KeyCompareAntisymmetric(Some(key), Some(k));
  }

  // ---------- Height and pre-order ----------

  lemma DepthBelow(l: Tree, k: CString, v: Data, r: Tree, x: CString)
    requires Ordered(Node(l, k, v, r))
    ensures x == k ==> SearchDepth(Node(l, k, v, r), x) == 0
    ensures x in Keys(l) ==> SearchDepth(Node(l, k, v, r), x) == 1 + SearchDepth(l, x)
    ensures x in Keys(r) ==> SearchDepth(Node(l, k, v, r), x) == 1 + SearchDepth(r, x)
  {
    KeyCompareAntisymmetric(Some(x), Some(k));
  }

  /** The height is the greatest number of links from the root to a key. */
  lemma {:induction false} HeightIsDeepest(t: Tree)
    requires Ordered(t)
    ensures forall k :: k in Keys(t) ==> SearchDepth(t, k) <= Height(t)
    ensures t.Node? ==> exists k :: k in Keys(t) && SearchDepth(t, k) == Height(t)
    ensures t.Leaf? ==> Height(t) == -1
  {
    match t
    case Leaf =>
    case Node(l, k, v, r) =>
      HeightIsDeepest(l);
      HeightIsDeepest(r);
      var deepest := k;
      if l.Node? && Height(l) >= Height(r) {
        deepest :| deepest in Keys(l) && SearchDepth(l, deepest) == Height(l);
      } else if r.Node? && Height(r) >= Height(l) {
        deepest :| deepest in Keys(r) && SearchDepth(r, deepest) == Height(r);
      }
      hide SearchDepth;
      forall x | x in Keys(t)
        ensures SearchDepth(t, x) <= Height(t)
      {
        DepthBelow(l, k, v, r, x);
      }
      DepthBelow(l, k, v, r, deepest);
      assert deepest in Keys(t) && SearchDepth(t, deepest) == Height(t);
  }

  /** In pre-order the root comes first, then the left subtree, then the right one. */
  lemma PreOrderParts(l: Tree, k: CString, v: Data, r: Tree)
    ensures var ps := PreOrder(Node(l, k, v, r));
            && |ps| == 1 + Size(l) + Size(r)
            && ps[0] == Pair(k, v) && ps[1..1 + Size(l)] == PreOrder(l) && ps[1 + Size(l)..] == PreOrder(r)
    ensures PreOrder(Leaf) == []
  {
    PreOrderSize(l);
    PreOrderSize(r);
  }

  lemma {:induction false} PreOrderSize(t: Tree)
    ensures |PreOrder(t)| == Size(t)
  {
    match t
    case Leaf =>
    case Node(l, _, _, r) =>
      PreOrderSize(l);
      PreOrderSize(r);
  }
}

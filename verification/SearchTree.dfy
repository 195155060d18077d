/**
 * Binary search trees as values: what the nodes of a tree_t look like, without their addresses.
 * Insert and Remove give the exact shape that tree_put and tree_del leave behind.
 */
module SearchTree {
  import opened Wrappers
  import opened CStrings

  type Data = seq<byte>

  datatype Tree = Leaf | Node(left: Tree, key: CString, value: Data, right: Tree)

  // ---------- Content ----------

  function Keys(t: Tree): set<CString> {
    match t
    case Leaf => {}
    case Node(l, k, _, r) => Keys(l) + {k} + Keys(r)
  }

  ghost predicate Ordered(t: Tree) {
    match t
    case Leaf => true
    case Node(l, k, _, r) =>
      && Ordered(l) && Ordered(r)
      && (forall x :: x in Keys(l) ==> Less(x, k))
      && (forall x :: x in Keys(r) ==> Less(k, x))
  }

  /** The finite map that a search tree stands for. */
  function MapOf(t: Tree): (m: map<CString, Data>)
    ensures m.Keys == Keys(t)
  {
    match t
    case Leaf => map[]
    case Node(l, k, v, r) => MapOf(l) + MapOf(r) + map[k := v]
  }

  function Lookup(t: Tree, key: Option<CString>): Option<Data> {
    match t
    case Leaf => None
    case Node(l, k, v, r) =>
      var c := KeyCompare(key, Some(k));
      if c == 0 then Some(v) else if c < 0 then Lookup(l, key) else Lookup(r, key)
  }

  lemma {:induction false} LookupInMap(t: Tree, key: Option<CString>)
    requires Ordered(t)
    ensures Lookup(t, key) ==
            if key.Some? && key.value in MapOf(t) then Some(MapOf(t)[key.value]) else None
  {
    match t
    case Leaf =>
    case Node(l, k, v, r) =>
      LookupInMap(l, key);
      LookupInMap(r, key);
      KeyCompareAntisymmetric(key, Some(k));
  }

  // ---------- Put ----------

  function Insert(t: Tree, key: CString, value: Data): Tree {
    match t
    case Leaf => Node(Leaf, key, value, Leaf)
    case Node(l, k, v, r) =>
      var c := KeyCompare(Some(key), Some(k));
      if c == 0 then Node(l, key, value, r)
      else if c < 0 then Node(Insert(l, key, value), k, v, r)
      else Node(l, k, v, Insert(r, key, value))
  }

  lemma {:induction false} InsertKeepsOrder(t: Tree, key: CString, value: Data)
    requires Ordered(t)
    ensures Keys(Insert(t, key, value)) == Keys(t) + {key}
    ensures Ordered(Insert(t, key, value))
  {
    match t
    case Leaf =>
    case Node(l, k, v, r) =>
      KeyCompareAntisymmetric(Some(key), Some(k));
      if Less(key, k) {
        InsertKeepsOrder(l, key, value);
      } else if key != k {
        InsertKeepsOrder(r, key, value);
      }
  }

  lemma {:induction false} LookupAfterInsert(t: Tree, key: CString, value: Data, x: Option<CString>)
    ensures Lookup(Insert(t, key, value), x) == if x == Some(key) then Some(value) else Lookup(t, x)
  {
    match t
    case Leaf =>
    case Node(l, k, v, r) =>
      LookupAfterInsert(l, key, value, x);
      LookupAfterInsert(r, key, value, x);
  }

  lemma InsertInMap(t: Tree, key: CString, value: Data, x: CString)
    requires Ordered(t)
    ensures x in MapOf(Insert(t, key, value)) <==> x in MapOf(t)[key := value]
    ensures x in MapOf(Insert(t, key, value)) ==> MapOf(Insert(t, key, value))[x] == MapOf(t)[key := value][x]
  {
    hide Insert, Keys, Lookup, MapOf, Ordered;
    InsertKeepsOrder(t, key, value);
    LookupAfterInsert(t, key, value, Some(x));
    LookupInMap(t, Some(x));
    LookupInMap(Insert(t, key, value), Some(x));
  }

  /** Putting a key changes the map at that key only and keeps the search order. */
  lemma InsertUpdatesMap(t: Tree, key: CString, value: Data)
    requires Ordered(t)
    ensures Ordered(Insert(t, key, value))
    ensures MapOf(Insert(t, key, value)) == MapOf(t)[key := value]
  {
    hide Insert, Keys, MapOf, Ordered;
    InsertKeepsOrder(t, key, value);
    forall x: CString
      ensures x in MapOf(Insert(t, key, value)) <==> x in MapOf(t)[key := value]
      ensures x in MapOf(Insert(t, key, value)) ==> MapOf(Insert(t, key, value))[x] == MapOf(t)[key := value][x]
    {
      InsertInMap(t, key, value, x);
    }
  }

  // ---------- Delete ----------

  function Lowest(t: Tree): (m: Tree)
    requires t.Node?
    ensures m.Node?
  {
    if t.left.Leaf? then t else Lowest(t.left)
  }

  function RemoveLowest(t: Tree): Tree
    requires t.Node?
  {
    if t.left.Leaf? then t.right else Node(RemoveLowest(t.left), t.key, t.value, t.right)
  }

  /** What takes the place of a removed node: a lone child, or the lowest node of the right subtree. */
  function Join(l: Tree, r: Tree): Tree {
    if l.Leaf? then r
    else if r.Leaf? then l
    else Node(l, Lowest(r).key, Lowest(r).value, RemoveLowest(r))
  }

  function Remove(t: Tree, key: Option<CString>): Tree {
    match t
    case Leaf => Leaf
    case Node(l, k, v, r) =>
      var c := KeyCompare(key, Some(k));
      if c == 0 then Join(l, r)
      else if c < 0 then Node(Remove(l, key), k, v, r)
      else Node(l, k, v, Remove(r, key))
  }

  lemma {:induction false} LowestIsLeast(t: Tree)
    requires t.Node? && Ordered(t)
    ensures var m := Lowest(t).key;
            && m in Keys(t)
            && Keys(RemoveLowest(t)) == Keys(t) - {m}
            && Ordered(RemoveLowest(t))
            && forall x :: x in Keys(RemoveLowest(t)) ==> Less(m, x)
  {
    var m := Lowest(t).key;
    if t.left.Node? {
      LowestIsLeast(t.left);
      forall x | x in Keys(t.right)
        ensures Less(m, x)
      {
        LessTransitive(m, t.key, x);
      }
    }
  }

  lemma JoinKeepsOrder(l: Tree, k: CString, v: Data, r: Tree)
    requires Ordered(Node(l, k, v, r))
    ensures Keys(Join(l, r)) == Keys(l) + Keys(r)
    ensures k !in Keys(l) + Keys(r)
    ensures Ordered(Join(l, r))
  {
    if l.Node? && r.Node? {
      LowestIsLeast(r);
      forall x | x in Keys(l)
        ensures Less(x, Lowest(r).key)
      {
        LessTransitive(x, k, Lowest(r).key);
      }
    }
  }

  lemma {:induction false} RemoveKeepsOrder(t: Tree, key: Option<CString>)
    requires Ordered(t)
    ensures Keys(Remove(t, key)) == if key.Some? then Keys(t) - {key.value} else Keys(t)
    ensures Ordered(Remove(t, key))
  {
    match t
    case Leaf =>
    case Node(l, k, v, r) =>
      hide Join;
      if key == Some(k) {
        JoinKeepsOrder(l, k, v, r);
      } else if KeyCompare(key, Some(k)) < 0 {
        RemoveKeepsOrder(l, key);
        NotAbove(key, k, r);
      } else {
        RemoveKeepsOrder(r, key);
        KeyCompareAntisymmetric(key, Some(k));
        NotBelow(key, k, l);
      }
  }

  lemma NotAbove(key: Option<CString>, k: CString, r: Tree)
    requires KeyCompare(key, Some(k)) < 0 && forall x :: x in Keys(r) ==> Less(k, x)
    ensures key.Some? ==> key.value !in Keys(r) && key.value != k
  {
    KeyCompareAntisymmetric(key, Some(k));
  }

  lemma NotBelow(key: Option<CString>, k: CString, l: Tree)
    requires KeyCompare(key, Some(k)) > 0 && forall x :: x in Keys(l) ==> Less(x, k)
    ensures key.Some? ==> key.value !in Keys(l) && key.value != k
  {
  }

  lemma {:induction false} LookupMissing(t: Tree, x: CString)
    requires x !in Keys(t)
    ensures Lookup(t, Some(x)) == None
  {
    match t
    case Leaf =>
    case Node(l, _, _, r) =>
      LookupMissing(l, x);
      LookupMissing(r, x);
  }

  lemma {:induction false} LookupAfterRemoveLowest(t: Tree, x: Option<CString>)
    requires t.Node? && Ordered(t)
    ensures var m := Lowest(t);
            Lookup(t, x) == if x == Some(m.key) then Some(m.value) else Lookup(RemoveLowest(t), x)
    ensures KeyCompare(x, Some(Lowest(t).key)) < 0 ==> Lookup(RemoveLowest(t), x) == None
  {
    LowestIsLeast(t);
    var m := Lowest(t).key;
    KeyCompareAntisymmetric(x, Some(t.key));
    if t.left.Node? {
      LowestIsLeast(t.left);
      LookupAfterRemoveLowest(t.left, x);
      assert Less(m, t.key);
      if KeyCompare(x, Some(m)) < 0 {
        KeyCompareTransitive(x, Some(m), Some(t.key));
      }
    } else if x.Some? && KeyCompare(x, Some(t.key)) <= 0 {
      assert x.value !in Keys(t.right);
      LookupMissing(t.right, x.value);
    } else if x.None? {
      LookupInMap(t.right, x);
    }
  }

  lemma LookupAfterJoin(l: Tree, k: CString, v: Data, r: Tree, x: CString)
    requires Ordered(Node(l, k, v, r))
    ensures Lookup(Join(l, r), Some(x)) == if x == k then None else Lookup(Node(l, k, v, r), Some(x))
  {
    KeyCompareAntisymmetric(Some(x), Some(k));
    if !Less(x, k) {
      assert x !in Keys(l);
      LookupMissing(l, x);
    }
    if !Less(k, x) {
      assert x !in Keys(r);
      LookupMissing(r, x);
    }
    if l.Node? && r.Node? {
      LowestIsLeast(r);
      LookupAfterJoinBoth(l, k, r, x);
    }
  }

  lemma LookupAfterJoinBoth(l: Tree, k: CString, r: Tree, x: CString)
    requires l.Node? && r.Node? && Ordered(r) && Less(k, Lowest(r).key)
    requires !Less(x, k) ==> Lookup(l, Some(x)) == None
    ensures Lookup(Join(l, r), Some(x)) == if Less(x, k) || x == k then Lookup(l, Some(x)) else Lookup(r, Some(x))
  {
    var m := Lowest(r).key;
    LookupAfterRemoveLowest(r, Some(x));
    KeyCompareAntisymmetric(Some(x), Some(m));
    if Less(x, k) {
      LessTransitive(x, k, m);
    }
  }

  lemma {:induction false} LookupAfterRemove(t: Tree, key: Option<CString>, x: CString)
    requires Ordered(t)
    ensures Lookup(Remove(t, key), Some(x)) == if key == Some(x) then None else Lookup(t, Some(x))
  {
    match t
    case Leaf =>
    case Node(l, k, v, r) =>
      if key == Some(k) {
        LookupAfterJoin(l, k, v, r, x);
      } else {
        LookupAfterRemove(l, key, x);
        LookupAfterRemove(r, key, x);
      }
  }

  lemma RemoveInMap(t: Tree, key: Option<CString>, x: CString)
    requires Ordered(t) && Ordered(Remove(t, key))
    ensures x in MapOf(Remove(t, key)) <==> x in MapOf(t) && key != Some(x)
    ensures x in MapOf(Remove(t, key)) ==> MapOf(Remove(t, key))[x] == MapOf(t)[x]
  {
    hide Keys, Lookup, MapOf, Ordered, Remove;
    LookupAfterRemove(t, key, x);
    LookupInMap(t, Some(x));
    LookupInMap(Remove(t, key), Some(x));
  }

  /** Deleting a key changes the map at that key only and keeps the search order. */
  lemma RemoveShrinksMap(t: Tree, key: Option<CString>)
    requires Ordered(t)
    ensures Ordered(Remove(t, key))
    ensures MapOf(Remove(t, key)) == if key.Some? then MapOf(t) - {key.value} else MapOf(t)
  {
    RemoveKeepsOrder(t, key);
    hide Keys, MapOf, Ordered, Remove;
    forall x: CString
      ensures x in MapOf(Remove(t, key)) <==> x in MapOf(t) && key != Some(x)
      ensures x in MapOf(Remove(t, key)) ==> MapOf(Remove(t, key))[x] == MapOf(t)[x]
    {
      RemoveInMap(t, key, x);
    }
  }

  // ---------- Size and height ----------

  function Max(a: int, b: int): int { if a > b then a else b }

  function Size(t: Tree): nat {
    match t
    case Leaf => 0
    case Node(l, _, _, r) => Size(l) + 1 + Size(r)
  }

  function Height(t: Tree): (h: int)
    ensures h >= -1
  {
    match t
    case Leaf => -1
    case Node(l, _, _, r) => 1 + Max(Height(l), Height(r))
  }

  lemma {:induction false} SizeCountsKeys(t: Tree)
    requires Ordered(t)
    ensures Size(t) == |Keys(t)| == |MapOf(t)|
  {
    match t
    case Leaf =>
    case Node(l, k, _, r) =>
      SizeCountsKeys(l);
      SizeCountsKeys(r);
      assert Keys(l) !! {k} !! Keys(r) by {
        forall x | x in Keys(l) && x in Keys(r)
          ensures false
        {
          LessTransitive(x, k, x);
        }
      }
      assert |MapOf(t)| == |MapOf(t).Keys|;
  }

  function Pow2(n: nat): nat { if n == 0 then 1 else 2 * Pow2(n - 1) }

  lemma Pow2Monotone(a: nat, b: nat)
    requires a <= b
    ensures Pow2(a) <= Pow2(b)
    decreases b
  {
    if a < b { Pow2Monotone(a, b - 1); }
  }

  /** A tree of height h has at least h + 1 nodes (a chain) and at most 2^(h+1) - 1 (a full tree). */
  lemma {:induction false} HeightBoundsSize(t: Tree)
    ensures Height(t) + 1 <= Size(t) <= Pow2(Height(t) + 1) - 1
  {
    match t
    case Leaf =>
    case Node(l, _, _, r) =>
      HeightBoundsSize(l);
      HeightBoundsSize(r);
      Pow2Monotone(Height(l) + 1, Height(t));
      Pow2Monotone(Height(r) + 1, Height(t));
  }

  /** How many links a search for key follows before it finds the key or a missing child. */
  function SearchDepth(t: Tree, key: CString): nat {
    match t
    case Leaf => 0
    case Node(l, k, _, r) =>
      var c := KeyCompare(Some(key), Some(k));
      if c == 0 then 0 else 1 + SearchDepth(if c < 0 then l else r, key)
  }

  lemma {:induction false} InsertGrowsSize(t: Tree, key: CString, value: Data)
    requires Ordered(t)
    ensures Size(Insert(t, key, value)) == if key in Keys(t) then Size(t) else Size(t) + 1
  {
    match t
    case Leaf =>
    case Node(l, k, v, r) =>
      InsertGrowsSize(l, key, value);
      InsertGrowsSize(r, key, value);
      KeyCompareAntisymmetric(Some(key), Some(k));
  }

  lemma {:induction false} InsertGrowsHeight(t: Tree, key: CString, value: Data)
    requires Ordered(t)
    ensures Height(Insert(t, key, value)) ==
            if key in Keys(t) then Height(t) else Max(Height(t), SearchDepth(t, key))
  {
    match t
    case Leaf =>
    case Node(l, k, v, r) =>
      InsertGrowsHeight(l, key, value);
      InsertGrowsHeight(r, key, value);
      KeyCompareAntisymmetric(Some(key), Some(k));
  }

  /** A running maximum over insertion depths is the height: nothing has to be recomputed on put. */
  lemma InsertGrowth(t: Tree, key: CString, value: Data)
    requires Ordered(t)
    ensures Size(Insert(t, key, value)) == if key in Keys(t) then Size(t) else Size(t) + 1
    ensures Height(Insert(t, key, value)) ==
            if key in Keys(t) then Height(t) else Max(Height(t), SearchDepth(t, key))
  {
    InsertGrowsSize(t, key, value);
    InsertGrowsHeight(t, key, value);
  }

  lemma {:induction false} RemoveLowestShrinks(t: Tree)
    requires t.Node?
    ensures Size(RemoveLowest(t)) == Size(t) - 1
  {
    if t.left.Node? { RemoveLowestShrinks(t.left); }
  }

  lemma {:induction false} RemoveShrinks(t: Tree, key: CString)
    requires Ordered(t) && key in Keys(t)
    ensures Size(Remove(t, Some(key))) == Size(t) - 1
  {
    match t
    case Node(l, k, v, r) =>
      KeyCompareAntisymmetric(Some(key), Some(k));
      if key == k {
        if r.Node? { RemoveLowestShrinks(r); }
      } else if Less(key, k) {
        RemoveShrinks(l, key);
      } else {
        RemoveShrinks(r, key);
      }
  }

  // ---------- Traversals ----------

  function InOrder(t: Tree): (ks: seq<CString>)
    ensures |ks| == Size(t)
  {
    match t
    case Leaf => []
    case Node(l, k, _, r) => InOrder(l) + [k] + InOrder(r)
  }

  ghost predicate Ascending(ks: seq<CString>) {
    forall i, j :: 0 <= i < j < |ks| ==> Less(ks[i], ks[j])
  }

  lemma AscendingConcat(a: seq<CString>, k: CString, b: seq<CString>)
    requires Ascending(a) && Ascending(b)
    requires forall x :: x in a ==> Less(x, k)
    requires forall x :: x in b ==> Less(k, x)
    ensures Ascending(a + [k] + b)
  {
    var s := a + [k] + b;
    forall i, j | 0 <= i < j < |s|
      ensures Less(s[i], s[j])
    {
      if i < |a| < j {
        LessTransitive(a[i], k, b[j - |a| - 1]);
      }
    }
  }

  /** The in-order walk lists every key once, in strictly ascending order. */
  lemma {:induction false} InOrderAscends(t: Tree)
    requires Ordered(t)
    ensures Ascending(InOrder(t))
    ensures forall x :: x in InOrder(t) <==> x in Keys(t)
  {
    match t
    case Leaf =>
    case Node(l, k, _, r) =>
      InOrderAscends(l);
      InOrderAscends(r);
      AscendingConcat(InOrder(l), k, InOrder(r));
  }

  datatype Pair = Pair(key: CString, value: Data)

  function PreOrder(t: Tree): (ps: seq<Pair>)
    ensures |ps| == Size(t)
  {
    match t
    case Leaf => []
    case Node(l, k, v, r) => [Pair(k, v)] + PreOrder(l) + PreOrder(r)
  }

  /** Puts the pairs one after the other, first pair first. */
  function InsertAll(t: Tree, ps: seq<Pair>): Tree
    decreases |ps|
  {
    if ps == [] then t else InsertAll(Insert(t, ps[0].key, ps[0].value), ps[1..])
  }

  lemma {:induction false} PreOrderKeys(t: Tree)
    ensures forall p :: p in PreOrder(t) ==> p.key in Keys(t)
  {
    match t
    case Leaf =>
    case Node(l, _, _, r) =>
      PreOrderKeys(l);
      PreOrderKeys(r);
  }

  lemma {:induction false} InsertAllConcat(t: Tree, ps: seq<Pair>, qs: seq<Pair>)
    ensures InsertAll(t, ps + qs) == InsertAll(InsertAll(t, ps), qs)
    decreases |ps|
  {
    if ps == [] {
      assert ps + qs == qs;
    } else {
      assert (ps + qs)[1..] == ps[1..] + qs;
      InsertAllConcat(Insert(t, ps[0].key, ps[0].value), ps[1..], qs);
    }
  }

  lemma {:induction false} InsertAllLeft(l: Tree, k: CString, v: Data, r: Tree, ps: seq<Pair>)
    requires forall p :: p in ps ==> Less(p.key, k)
    ensures InsertAll(Node(l, k, v, r), ps) == Node(InsertAll(l, ps), k, v, r)
    decreases |ps|
  {
    if ps != [] {
      assert ps[0] in ps;
      InsertAllLeft(Insert(l, ps[0].key, ps[0].value), k, v, r, ps[1..]);
    }
  }

  lemma {:induction false} InsertAllRight(l: Tree, k: CString, v: Data, r: Tree, ps: seq<Pair>)
    requires forall p :: p in ps ==> Less(k, p.key)
    ensures InsertAll(Node(l, k, v, r), ps) == Node(l, k, v, InsertAll(r, ps))
    decreases |ps|
  {
    if ps != [] {
      assert ps[0] in ps;
      KeyCompareAntisymmetric(Some(k), Some(ps[0].key));
      InsertAllRight(l, k, v, Insert(r, ps[0].key, ps[0].value), ps[1..]);
    }
  }

  /** Putting the pre-order listing of a search tree into an empty tree rebuilds the very same shape. */
  lemma {:induction false} PreOrderRebuilds(t: Tree)
    requires Ordered(t)
    ensures InsertAll(Leaf, PreOrder(t)) == t
  {
    match t
    case Leaf =>
    case Node(l, k, v, r) =>
      PreOrderKeys(l);
      PreOrderKeys(r);
      PreOrderRebuilds(l);
      PreOrderRebuilds(r);
      var a, b := PreOrder(l), PreOrder(r);
      assert PreOrder(t) == [Pair(k, v)] + (a + b);
      assert PreOrder(t)[1..] == a + b;
      InsertAllConcat(Node(Leaf, k, v, Leaf), a, b);
      InsertAllLeft(Leaf, k, v, Leaf, a);
      InsertAllRight(l, k, v, Leaf, b);
  }
}

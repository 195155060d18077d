/**
 * The binary search tree of tree.c on the heap: nodes linked by mutable child pointers, searched through
 * pointers to pointers and relinked in place. A ghost shape records which node sits where.
 */
module HeapTree {
  import opened Wrappers
  import opened CStrings
  import opened SearchTree
  import opened Sequences

  class TreeNode {
    var key: CString
    var block: array<byte>
    var left: TreeNode?
    var right: TreeNode?

    constructor (key: CString, block: array<byte>)
      ensures this.key == key && this.block == block && left == null && right == null
    {
      this.key, this.block, left, right := key, block, null, null;
    }
  }

  // ---------- Shapes: a tree of values together with the nodes and blocks that store it ----------

  datatype Shape =
    | Nil
    | Branch(left: Shape, node: TreeNode, block: array<byte>, key: CString, value: Data, right: Shape)

  ghost function Erase(s: Shape): Tree {
    match s
    case Nil => Leaf
    case Branch(l, _, _, k, v, r) => Node(Erase(l), k, v, Erase(r))
  }

  ghost function Nodes(s: Shape): set<TreeNode> {
    match s
    case Nil => {}
    case Branch(l, n, _, _, _, r) => Nodes(l) + {n} + Nodes(r)
  }

  ghost function Footprint(s: Shape): (fp: set<object>)
    ensures Nodes(s) <= fp
  {
    match s
    case Nil => {}
    case Branch(l, n, b, _, _, r) => Footprint(l) + {n, b} + Footprint(r)
  }

  /** The heap below pointer p is exactly shape s: no node and no block is shared. */
  ghost predicate Linked(s: Shape, p: TreeNode?)
    reads Footprint(s)
  {
    match s
    case Nil => p == null
    case Branch(l, n, b, k, v, r) =>
      && p == n && n.key == k && n.block == b && b[..] == v
      && {n, b} !! Footprint(l) && {n, b} !! Footprint(r) && Footprint(l) !! Footprint(r)
      && Linked(l, n.left) && Linked(r, n.right)
  }

  // ---------- Slots: the places a pointer to a pointer can designate ----------

  datatype Slot = RootOf(store: TreeStore) | LeftOf(node: TreeNode) | RightOf(node: TreeNode)

  ghost function Owner(slot: Slot): object {
    match slot
    case RootOf(t) => t
    case LeftOf(n) => n
    case RightOf(n) => n
  }

  function Read(slot: Slot): TreeNode?
    reads Owner(slot)
  {
    match slot
    case RootOf(t) => t.root
    case LeftOf(n) => n.left
    case RightOf(n) => n.right
  }

  /** Every field of the slot's owner is as before, except perhaps the pointer in the slot itself. */
  twostate predicate OnlySlot(slot: Slot)
    reads Owner(slot)
  {
    match slot
    case RootOf(t) =>
      t.size == old(t.size) && t.height == old(t.height) && t.shape == old(t.shape) && t.Repr == old(t.Repr)
    case LeftOf(n) => n.key == old(n.key) && n.block == old(n.block) && n.right == old(n.right)
    case RightOf(n) => n.key == old(n.key) && n.block == old(n.block) && n.left == old(n.left)
  }

  method Write(slot: Slot, p: TreeNode?)
    modifies Owner(slot)
    ensures Read(slot) == p && OnlySlot(slot)
  {
    match slot
    case RootOf(t) => t.root := p;
    case LeftOf(n) => n.left := p;
    case RightOf(n) => n.right := p;
  }

  // ---------- Contexts: everything around a slot, seen from the slot outwards ----------

  datatype Ctx =
    | Top(slot: Slot)
    | InLeft(node: TreeNode, block: array<byte>, key: CString, value: Data, right: Shape, up: Ctx)
    | InRight(left: Shape, node: TreeNode, block: array<byte>, key: CString, value: Data, up: Ctx)

  ghost function CtxFootprint(c: Ctx): set<object> {
    match c
    case Top(slot) => {Owner(slot)}
    case InLeft(n, b, _, _, r, up) => {n, b} + Footprint(r) + CtxFootprint(up)
    case InRight(l, n, b, _, _, up) => {n, b} + Footprint(l) + CtxFootprint(up)
  }

  ghost function Hole(c: Ctx): (slot: Slot)
    ensures Owner(slot) in CtxFootprint(c)
  {
    match c
    case Top(slot) => slot
    case InLeft(n, _, _, _, _, _) => LeftOf(n)
    case InRight(_, n, _, _, _, _) => RightOf(n)
  }

  ghost function Outer(c: Ctx): (slot: Slot)
    ensures Owner(slot) in CtxFootprint(c)
  {
    match c
    case Top(slot) => slot
    case InLeft(_, _, _, _, _, up) => Outer(up)
    case InRight(_, _, _, _, _, up) => Outer(up)
  }

  /** The heap around the hole is as recorded; nothing is said about the pointer in the hole. */
  ghost predicate LinkedCtx(c: Ctx)
    reads CtxFootprint(c)
  {
    match c
    case Top(_) => true
    case InLeft(n, b, k, v, r, up) =>
      && n.key == k && n.block == b && b[..] == v
      && {n, b} !! Footprint(r) && {n, b} + Footprint(r) !! CtxFootprint(up)
      && Linked(r, n.right) && Read(Hole(up)) == n && LinkedCtx(up)
    case InRight(l, n, b, k, v, up) =>
      && n.key == k && n.block == b && b[..] == v
      && {n, b} !! Footprint(l) && {n, b} + Footprint(l) !! CtxFootprint(up)
      && Linked(l, n.left) && Read(Hole(up)) == n && LinkedCtx(up)
  }

  ghost function Plug(c: Ctx, s: Shape): Shape {
    match c
    case Top(_) => s
    case InLeft(n, b, k, v, r, up) => Plug(up, Branch(s, n, b, k, v, r))
    case InRight(l, n, b, k, v, up) => Plug(up, Branch(l, n, b, k, v, s))
  }

  /** Shape s hangs in the hole of context c. */
  ghost predicate Hangs(c: Ctx, s: Shape)
    reads CtxFootprint(c), Footprint(s)
  {
    LinkedCtx(c) && Footprint(s) !! CtxFootprint(c) && Linked(s, Read(Hole(c)))
  }

  lemma {:induction false} PlugLinked(c: Ctx, s: Shape)
    requires Hangs(c, s)
    ensures Linked(Plug(c, s), Read(Outer(c)))
    decreases c
  {
    match c
    case Top(_) =>
    case InLeft(n, b, k, v, r, up) => PlugLinked(up, Branch(s, n, b, k, v, r));
    case InRight(l, n, b, k, v, up) => PlugLinked(up, Branch(l, n, b, k, v, s));
  }

  lemma {:induction false} PlugFootprint(c: Ctx, s: Shape)
    ensures Footprint(Plug(c, s)) + {Owner(Outer(c))} == Footprint(s) + CtxFootprint(c)
    ensures Nodes(s) <= Nodes(Plug(c, s))
    decreases c
  {
    match c
    case Top(_) =>
    case InLeft(n, b, k, v, r, up) => PlugFootprint(up, Branch(s, n, b, k, v, r));
    case InRight(l, n, b, k, v, up) => PlugFootprint(up, Branch(l, n, b, k, v, s));
  }

  lemma {:induction false} PlugApart(c: Ctx, s: Shape)
    requires LinkedCtx(c) && Footprint(s) !! CtxFootprint(c)
    ensures Owner(Outer(c)) !in Footprint(Plug(c, s))
    decreases c
  {
    match c
    case Top(_) =>
    case InLeft(n, b, k, v, r, up) => PlugApart(up, Branch(s, n, b, k, v, r));
    case InRight(l, n, b, k, v, up) => PlugApart(up, Branch(l, n, b, k, v, s));
  }

  ghost function DownLeft(c: Ctx, s: Shape): Ctx
    requires s.Branch?
  {
    InLeft(s.node, s.block, s.key, s.value, s.right, c)
  }

  ghost function DownRight(c: Ctx, s: Shape): Ctx
    requires s.Branch?
  {
    InRight(s.left, s.node, s.block, s.key, s.value, c)
  }

  /** Following a child pointer moves the node into the context. */
  lemma Descend(c: Ctx, s: Shape)
    requires Hangs(c, s) && s.Branch?
    ensures Read(Hole(c)) == s.node && s.node.key == s.key
    ensures Hangs(DownLeft(c, s), s.left) && Plug(DownLeft(c, s), s.left) == Plug(c, s)
    ensures Hangs(DownRight(c, s), s.right) && Plug(DownRight(c, s), s.right) == Plug(c, s)
  {
  }

  ghost function CtxNodes(c: Ctx): set<TreeNode> {
    match c
    case Top(_) => {}
    case InLeft(n, _, _, _, r, up) => {n} + Nodes(r) + CtxNodes(up)
    case InRight(l, n, _, _, _, up) => {n} + Nodes(l) + CtxNodes(up)
  }

  lemma {:induction false} PlugNodes(c: Ctx, s: Shape)
    ensures Nodes(Plug(c, s)) == Nodes(s) + CtxNodes(c)
    ensures CtxNodes(c) <= CtxFootprint(c)
    decreases c
  {
    match c
    case Top(_) =>
    case InLeft(n, b, k, v, r, up) => PlugNodes(up, Branch(s, n, b, k, v, r));
    case InRight(l, n, b, k, v, up) => PlugNodes(up, Branch(l, n, b, k, v, s));
  }

  // ---------- Search paths ----------

  /** A search for the key goes through the hole of this context. */
  ghost predicate OnPath(c: Ctx, key: Option<CString>) {
    match c
    case Top(_) => true
    case InLeft(_, _, k, _, _, up) => KeyCompare(key, Some(k)) < 0 && OnPath(up, key)
    case InRight(_, _, _, k, _, up) => KeyCompare(key, Some(k)) > 0 && OnPath(up, key)
  }

  lemma {:induction false} PlugLookup(c: Ctx, s: Shape, key: Option<CString>)
    requires OnPath(c, key)
    ensures Lookup(Erase(Plug(c, s)), key) == Lookup(Erase(s), key)
    decreases c
  {
    match c
    case Top(_) =>
    case InLeft(n, b, k, v, r, up) => PlugLookup(up, Branch(s, n, b, k, v, r), key);
    case InRight(l, n, b, k, v, up) => PlugLookup(up, Branch(l, n, b, k, v, s), key);
  }

  /** The node that a search for the key arrives at, if any. */
  ghost function NodeAt(s: Shape, key: Option<CString>): set<TreeNode> {
    match s
    case Nil => {}
    case Branch(l, n, _, k, _, r) =>
      var c := KeyCompare(key, Some(k));
      if c == 0 then {n} else NodeAt(if c < 0 then l else r, key)
  }

  lemma {:induction false} PlugNodeAt(c: Ctx, s: Shape, key: Option<CString>)
    requires OnPath(c, key)
    ensures NodeAt(Plug(c, s), key) == NodeAt(s, key)
    decreases c
  {
    match c
    case Top(_) =>
    case InLeft(n, b, k, v, r, up) => PlugNodeAt(up, Branch(s, n, b, k, v, r), key);
    case InRight(l, n, b, k, v, up) => PlugNodeAt(up, Branch(l, n, b, k, v, s), key);
  }

  /** Putting below the hole is putting in the whole tree. */
  lemma {:induction false} PlugInsert(c: Ctx, s: Shape, s': Shape, key: CString, value: Data)
    requires OnPath(c, Some(key)) && Erase(s') == Insert(Erase(s), key, value)
    ensures Erase(Plug(c, s')) == Insert(Erase(Plug(c, s)), key, value)
    decreases c
  {
    match c
    case Top(_) =>
    case InLeft(n, b, k, v, r, up) =>
      PlugInsert(up, Branch(s, n, b, k, v, r), Branch(s', n, b, k, v, r), key, value);
    case InRight(l, n, b, k, v, up) =>
      PlugInsert(up, Branch(l, n, b, k, v, s), Branch(l, n, b, k, v, s'), key, value);
  }

  /** Removing below the hole is removing from the whole tree. */
  lemma {:induction false} PlugRemove(c: Ctx, s: Shape, s': Shape, key: Option<CString>)
    requires OnPath(c, key) && Erase(s') == Remove(Erase(s), key)
    ensures Erase(Plug(c, s')) == Remove(Erase(Plug(c, s)), key)
    decreases c
  {
    match c
    case Top(_) =>
    case InLeft(n, b, k, v, r, up) =>
      PlugRemove(up, Branch(s, n, b, k, v, r), Branch(s', n, b, k, v, r), key);
    case InRight(l, n, b, k, v, up) =>
      PlugRemove(up, Branch(l, n, b, k, v, s), Branch(l, n, b, k, v, s'), key);
  }

  /** The hole lies on the leftmost path. */
  ghost predicate LeftSpine(c: Ctx) {
    c.Top? || (c.InLeft? && LeftSpine(c.up))
  }

  lemma {:induction false} PlugLowest(c: Ctx, s: Shape, s': Shape)
    requires LeftSpine(c) && s.Branch? && Erase(s') == RemoveLowest(Erase(s))
    ensures Plug(c, s).Branch?
    ensures Lowest(Erase(Plug(c, s))) == Lowest(Erase(s))
    ensures Erase(Plug(c, s')) == RemoveLowest(Erase(Plug(c, s)))
    decreases c
  {
    match c
    case Top(_) =>
    case InLeft(n, b, k, v, r, up) =>
      PlugLowest(up, Branch(s, n, b, k, v, r), Branch(s', n, b, k, v, r));
  }

  // ---------- Relinking ----------

  /** Points the slot at p, the root of shape s, which then hangs in the context of the slot. */
  method Fill(slot: Slot, p: TreeNode?, ghost c: Ctx, ghost s: Shape)
    requires slot == Hole(c) && LinkedCtx(c) && Linked(s, p) && Footprint(s) !! CtxFootprint(c)
    modifies Owner(slot)
    ensures OnlySlot(slot) && Read(slot) == p && Hangs(c, s)
  {
    assert allocated(Footprint(s)) && allocated(CtxFootprint(c));
    if c.InLeft? {
      assert allocated(Footprint(c.right)) && allocated(CtxFootprint(c.up));
    } else if c.InRight? {
      assert allocated(Footprint(c.left)) && allocated(CtxFootprint(c.up));
    }
    Write(slot, p);
  }

  /** Replaces the entry of a node. */
  method Overwrite(node: TreeNode, key: CString, block: array<byte>, ghost c: Ctx, ghost s: Shape)
    returns (ghost s': Shape)
    requires Hangs(c, s) && s.Branch? && s.node == node
    requires block !in Footprint(s) && block !in CtxFootprint(c)
    modifies node
    ensures s' == Branch(s.left, node, block, key, block[..], s.right) && Hangs(c, s')
  {
    assert allocated(Footprint(s.left)) && allocated(Footprint(s.right)) && allocated(CtxFootprint(c));
    node.key := key;
    node.block := block;
    s' := Branch(s.left, node, block, key, block[..], s.right);
  }

  /** The lowest node below node.right, and the slot that points at it. */
  method FindLowest(node: TreeNode, ghost right: Shape)
    returns (slot: Slot, successor: TreeNode, ghost ctx: Ctx, ghost low: Shape)
    requires right.Branch? && node !in Footprint(right) && Linked(right, node.right)
    ensures low.Branch? && successor == low.node && low.left.Nil?
    ensures slot == Hole(ctx) && Outer(ctx) == RightOf(node) && LeftSpine(ctx)
    ensures Plug(ctx, low) == right && Hangs(ctx, low)
  {
    slot, successor := RightOf(node), node.right;
    ctx, low := Top(slot), right;
    while successor.left != null
      invariant low.Branch? && successor == low.node
      invariant slot == Hole(ctx) && Outer(ctx) == RightOf(node) && LeftSpine(ctx)
      invariant Plug(ctx, low) == right && Hangs(ctx, low)
      decreases low
    {
      Descend(ctx, low);
      slot := LeftOf(successor);
      successor := successor.left;
      ctx, low := DownLeft(ctx, low), low.left;
    }
    assert Linked(low.left, successor.left);
  }

  lemma {:induction false} HoleOwner(c: Ctx)
    ensures Owner(Hole(c)) in CtxNodes(c) + {Owner(Outer(c))}
  {
  }

  lemma DetachedFootprint(c: Ctx, low: Shape)
    requires low.Branch? && low.left.Nil? && Hangs(c, low)
    ensures Footprint(Plug(c, low)) == Footprint(Plug(c, low.right)) + {low.node, low.block}
    ensures {low.node, low.block} !! Footprint(Plug(c, low.right))
  {
    PlugFootprint(c, low);
    PlugFootprint(c, low.right);
    PlugApart(c, low);
    PlugApart(c, low.right);
  }

  /** What the detached node leaves behind when its right child takes its place in the hole. */
  lemma PlugDetached(c: Ctx, low: Shape)
    requires LeftSpine(c) && low.Branch? && low.left.Nil? && Hangs(c, low)
    ensures var rest := Plug(c, low.right);
            && Plug(c, low).Branch?
            && Erase(low) == Lowest(Erase(Plug(c, low)))
            && Erase(rest) == RemoveLowest(Erase(Plug(c, low)))
            && Nodes(rest) == Nodes(Plug(c, low)) - {low.node} && low.node in Nodes(Plug(c, low))
            && Footprint(Plug(c, low)) == Footprint(rest) + {low.node, low.block}
            && {low.node, low.block} !! Footprint(rest)
  {
    DetachedFootprint(c, low);
    PlugLowest(c, low, low.right);
    PlugNodes(c, low);
    PlugNodes(c, low.right);
  }

  /** Unhooks the lowest node below node.right; its right child takes its place. */
  method DetachLowest(node: TreeNode, ghost right: Shape)
    returns (successor: TreeNode, ghost low: Shape, ghost rest: Shape)
    requires right.Branch? && node !in Footprint(right) && Linked(right, node.right)
    modifies node, Nodes(right)
    ensures node.key == old(node.key) && node.block == old(node.block) && node.left == old(node.left)
    ensures low.Branch? && low.node == successor && low.left.Nil?
    ensures successor.key == low.key && successor.block == low.block && low.block[..] == low.value
    ensures Erase(low) == Node(Leaf, low.key, low.value, Erase(low.right)) == Lowest(Erase(right))
    ensures Erase(rest) == RemoveLowest(Erase(right))
    ensures Linked(rest, node.right)
    ensures Footprint(right) == Footprint(rest) + {successor, low.block} && {successor, low.block} !! Footprint(rest)
    ensures Nodes(rest) == Nodes(right) - {successor} && successor in Nodes(right)
  {
    var slot; ghost var ctx;
    slot, successor, ctx, low := FindLowest(node, right);
    PlugDetached(ctx, low);
    PlugNodes(ctx, low);
    HoleOwner(ctx);
    assert Linked(low.right, successor.right);
    Fill(slot, successor.right, ctx, low.right);
    PlugLinked(ctx, low.right);
    rest := Plug(ctx, low.right);
  }

  /** Gives the node of shape s the children it should have. */
  method Adopt(n: TreeNode, l: TreeNode?, r: TreeNode?, ghost s: Shape)
    requires s.Branch? && n == s.node && n.key == s.key && n.block == s.block && s.block[..] == s.value
    requires Linked(s.left, l) && Linked(s.right, r)
    requires {n, s.block} !! Footprint(s.left) && {n, s.block} !! Footprint(s.right)
    requires Footprint(s.left) !! Footprint(s.right)
    modifies n
    ensures Linked(s, n)
  {
    assert allocated(Footprint(s.left)) && allocated(Footprint(s.right));
    n.left := l;
    n.right := r;
  }

  /** The lowest node of the right subtree takes over both subtrees of a node with two children. */
  method PromoteSuccessor(node: TreeNode, ghost sub: Shape) returns (successor: TreeNode, ghost sub': Shape)
    requires sub.Branch? && sub.left.Branch? && sub.right.Branch? && Linked(sub, node)
    modifies Nodes(sub)
    ensures Linked(sub', successor)
    ensures Erase(sub') == Join(Erase(sub.left), Erase(sub.right))
    ensures Footprint(sub) == Footprint(sub') + {sub.node, sub.block}
    ensures {sub.node, sub.block} !! Footprint(sub')
    ensures Nodes(sub') == Nodes(sub) - {sub.node}
  {
    assert allocated(Footprint(sub.left));
    ghost var low, rest;
    successor, low, rest := DetachLowest(node, sub.right);
    assert Linked(sub.left, node.left);
    sub' := Branch(sub.left, low.node, low.block, low.key, low.value, rest);
    Adopt(successor, node.left, node.right, sub');
  }

  /**
   * Takes the node in the slot out of the tree and puts the appropriate descendant in its place. The other
   * nodes below the slot stay the same objects.
   */
  method UnlinkNode(slot: Slot, ghost ctx: Ctx, ghost sub: Shape) returns (ghost sub': Shape)
    requires slot == Hole(ctx) && sub.Branch? && Hangs(ctx, sub)
    modifies Owner(slot), Nodes(sub)
    ensures OnlySlot(slot)
    ensures Hangs(ctx, sub')
    ensures Erase(sub') == Join(Erase(sub.left), Erase(sub.right))
    ensures Footprint(sub) == Footprint(sub') + {sub.node, sub.block}
    ensures {sub.node, sub.block} !! Footprint(sub')
    ensures Nodes(sub') == Nodes(sub) - {sub.node}
  {
    assert allocated(Footprint(sub)) && allocated(CtxFootprint(ctx));
    var replacement;
    replacement, sub' := Replacement(Read(slot), sub);
    Fill(slot, replacement, ctx, sub');
  }

  /** What takes the place of the node: nothing, its only child, or its successor, which has taken over its children. */
  method Replacement(node: TreeNode, ghost sub: Shape) returns (replacement: TreeNode?, ghost sub': Shape)
    requires sub.Branch? && Linked(sub, node)
    modifies Nodes(sub)
    ensures Linked(sub', replacement)
    ensures Erase(sub') == Join(Erase(sub.left), Erase(sub.right))
    ensures Footprint(sub) == Footprint(sub') + {sub.node, sub.block}
    ensures {sub.node, sub.block} !! Footprint(sub')
    ensures Nodes(sub') == Nodes(sub) - {sub.node}
  {
    assert Linked(sub.left, node.left) && Linked(sub.right, node.right);
    if node.left == null && node.right == null {
      return null, Nil;
    } else if node.left == null {
      return node.right, sub.right;
    } else if node.right == null {
      return node.left, sub.left;
    } else {
      replacement, sub' := PromoteSuccessor(node, sub);
    }
  }

  /** The height of the tree below the node, recomputed from scratch. */
  function ComputeHeight(node: TreeNode?, ghost s: Shape): (h: int)
    requires Linked(s, node)
    reads Footprint(s)
    ensures h == Height(Erase(s))
    decreases s
  {
    if node == null then -1
    else
      var l := ComputeHeight(node.left, s.left);
      var r := ComputeHeight(node.right, s.right);
      1 + Max(l, r)
  }

  /** The in-order walk of the tree stands in the list at index i. */
  ghost predicate Lists(all: seq<CString>, i: nat, t: Tree)
    decreases t
  {
    match t
    case Leaf => i <= |all|
    case Node(l, k, _, r) =>
      var mid := i + Size(l);
      Lists(all, i, l) && mid < |all| && all[mid] == k && Lists(all, mid + 1, r)
  }

  lemma RegroupKeys(a: seq<CString>, l: seq<CString>, k: CString, r: seq<CString>, b: seq<CString>)
    ensures a + (l + [k] + r) + b == a + l + ([k] + r + b) == (a + l + [k]) + r + b
    ensures (a + l + ([k] + r + b))[|a| + |l|] == k
  {
    assert a + (l + [k] + r) + b == a + l + ([k] + r + b);
    assert a + l + ([k] + r + b) == (a + l + [k]) + r + b;
  }

  lemma {:induction false} InOrderLists(a: seq<CString>, t: Tree, b: seq<CString>)
    ensures Lists(a + InOrder(t) + b, |a|, t)
    decreases t
  {
    match t
    case Leaf =>
    case Node(l, k, _, r) =>
      var c, d := [k] + InOrder(r) + b, a + InOrder(l) + [k];
      InOrderLists(a, l, c);
      InOrderLists(d, r, b);
      RegroupKeys(a, InOrder(l), k, InOrder(r), b);
  }

  lemma Opened(s: Shape, node: TreeNode)
    requires Linked(s, node)
    ensures s.Branch? && node == s.node && node.key == s.key
    ensures Linked(s.left, node.left) && Linked(s.right, node.right)
    ensures Footprint(s) == Footprint(s.left) + {s.node, s.block} + Footprint(s.right)
  {
  }

  lemma ListClosed(all: seq<CString>, i: nat, s: Shape)
    requires Linked(s, null) && Lists(all, i, Erase(s))
    ensures Size(Erase(s)) == 0 && i <= |all|
  {
  }

  lemma ListOpened(all: seq<CString>, i: nat, s: Shape)
    requires s.Branch? && Lists(all, i, Erase(s))
    ensures var mid := i + Size(Erase(s.left));
            && Lists(all, i, Erase(s.left)) && mid < |all| && all[mid] == s.key && Lists(all, mid + 1, Erase(s.right))
    ensures Size(Erase(s)) == Size(Erase(s.left)) + 1 + Size(Erase(s.right))
  {
  }

  /**
   * Copies the keys below the node, lowest first, into the array from nextIndex on, and gives the index after the
   * last one. The ghost lists say which key every position of the array is meant for.
   */
  method CollectKeys(node: TreeNode?, keys: array<Option<CString>>, nextIndex: nat,
                     ghost s: Shape, ghost all: seq<CString>, ghost wanted: seq<Option<CString>>)
    returns (end: nat)
    requires Linked(s, node) && keys !in Footprint(s)
    requires Lists(all, nextIndex, Erase(s)) && |all| <= |wanted| == keys.Length
    requires forall i :: 0 <= i < |all| ==> wanted[i] == Some(all[i])
    modifies keys
    ensures end == nextIndex + Size(Erase(s)) <= |all|
    ensures Filled(old(keys[..]), keys[..], nextIndex, end, wanted)
    decreases s
  {
    hide Erase, Filled, Footprint, Linked, Lists, Size;
    end := nextIndex;
    if node == null {
      ListClosed(all, nextIndex, s);
      NoneFilled(keys[..], nextIndex, wanted);
    } else {
      Opened(s, node);
      ListOpened(all, nextIndex, s);
      assert allocated(Footprint(s)) && allocated(Footprint(s.left)) && allocated(Footprint(s.right));
      var right := node.right;
      ghost var keys0 := keys[..];
      assert Linked(s.left, node.left) && Linked(s.right, right);
      end := CollectKeys(node.left, keys, end, s.left, all, wanted);
      ghost var keys1, middle := keys[..], end;
      keys[end] := Some(node.key);
      end := end + 1;
      ghost var keys2 := keys[..];
      OneFilled(keys1, middle, wanted);
      assert Linked(s.right, right);
      end := CollectKeys(right, keys, end, s.right, all, wanted);
      FilledJoin(keys0, keys1, keys2, nextIndex, middle, middle + 1, wanted);
      FilledJoin(keys0, keys2, keys[..], nextIndex, middle + 1, end, wanted);
    }
  }

  lemma WalkLists(t: Tree)
    ensures Lists(InOrder(t), 0, t) && |InOrder(t)| == Size(t)
  {
    InOrderLists([], t, []);
    assert [] + InOrder(t) + [] == InOrder(t);
  }

  /** What the array should hold in the end: all keys, then NULL. */
  ghost function Wanted(all: seq<CString>): (wanted: seq<Option<CString>>)
    ensures NullTerminated(wanted, all)
  {
    seq(|all| + 1, i requires 0 <= i <= |all| => if i < |all| then Some(all[i]) else None)
  }

  lemma KeysWanted(before: seq<Option<CString>>, keys: seq<Option<CString>>, all: seq<CString>)
    requires Filled(before, keys, 0, |all|, Wanted(all))
    ensures |keys| == |all| + 1 && NullTerminated(keys[|all| := None], all)
  {
  }

  method CopyBlock(block: array<byte>) returns (copy: array<byte>)
    ensures fresh(copy) && copy[..] == block[..]
  {
    copy := new byte[block.Length](i requires 0 <= i < block.Length reads block => block[i]);
  }

  class TreeStore {
    var root: TreeNode?
    var size: int
    var height: int
    ghost var shape: Shape
    ghost var Repr: set<object>

    /** The linked nodes form a search tree, and the cached size and height are right. */
    ghost predicate Valid()
      reads this, Repr
    {
      && Repr == {this} + Footprint(shape) && this !in Footprint(shape)
      && Linked(shape, root)
      && Ordered(Tree())
      && size == Size(Tree())
      && height == Height(Tree())
    }

    ghost function Tree(): Tree
      reads this
    {
      Erase(shape)
    }

    constructor ()
      ensures Valid() && Tree() == Leaf && fresh(Repr)
    {
      root, size, height, shape, Repr := null, 0, -1, Nil, {this};
    }

    /** tree_put: refuses a missing key or value, else stores copies of both. */
    method Put(key: Option<CString>, value: array?<byte>) returns (r: int)
      requires Valid()
      modifies Repr
      ensures Valid() && fresh(Repr - old(Repr))
      ensures r == if key.None? || value == null then -1 else 0
      ensures r == -1 ==> shape == old(shape)
      ensures r == 0 ==> Tree() == Insert(old(Tree()), key.value, old(value[..]))
    {
      if key.None? || value == null {
        return -1;
      }
      assert allocated(Footprint(shape));
      var copiedValue := CopyBlock(value);
      if root == null {
        root := new TreeNode(key.value, copiedValue);
        size := 1;
        height := 0;
        shape := Branch(Nil, root, copiedValue, key.value, copiedValue[..], Nil);
        Repr := {this, root, copiedValue};
      } else {
        PutBelow(key.value, copiedValue);
      }
      r := 0;
    }

    /** Follows the search path of key to a node with that key or to the missing child where it belongs. */
    method WalkTo(key: CString)
      returns (found: bool, slot: Slot, depth: nat, ghost ctx: Ctx, ghost sub: Shape)
      requires Valid() && root != null
      ensures slot == Hole(ctx) && Outer(ctx) == RootOf(this) && OnPath(ctx, Some(key))
      ensures Plug(ctx, sub) == shape && Hangs(ctx, sub)
      ensures found <==> Read(slot) != null
      ensures if found then sub.key == key else sub.Nil? && depth == SearchDepth(Tree(), key)
    {
      var current := root;
      slot, depth, ctx, sub := RootOf(this), 0, Top(RootOf(this)), shape;
      while true
        invariant sub.Branch? && current == sub.node == Read(slot) && OnPath(ctx, Some(key))
        invariant slot == Hole(ctx) && Outer(ctx) == RootOf(this)
        invariant Plug(ctx, sub) == shape && Hangs(ctx, sub)
        invariant depth + SearchDepth(Erase(sub), key) == SearchDepth(Tree(), key)
        decreases sub
      {
        var comparison := KeyCompare(Some(key), Some(current.key));
        if comparison == 0 {
          return true, slot, depth, ctx, sub;
        }
        Descend(ctx, sub);
        if comparison < 0 {
          slot := LeftOf(current);
          ctx, sub := DownLeft(ctx, sub), sub.left;
        } else {
          slot := RightOf(current);
          ctx, sub := DownRight(ctx, sub), sub.right;
        }
        depth := depth + 1;
        if Read(slot) == null {
          return false, slot, depth, ctx, sub;
        }
        current := Read(slot);
      }
    }

    /** tree_put below an existing root: replaces the entry with an equal key, or hangs a new node. */
    method PutBelow(key: CString, block: array<byte>)
      requires Valid() && root != null && block !in Repr
      modifies Repr
      ensures Valid() && fresh(Repr - old(Repr) - {block})
      ensures Tree() == Insert(old(Tree()), key, old(block[..]))
    {
      var found, slot, depth; ghost var ctx, sub;
      found, slot, depth, ctx, sub := WalkTo(key);
      PlugFootprint(ctx, sub);
      PlugLookup(ctx, sub, Some(key));
      InsertFacts(Tree(), key, block[..]);
      if found {
        ReplaceAt(slot, key, block, ctx, sub);
      } else {
        HangAt(slot, depth, key, block, ctx, sub);
      }
    }

    /** Overwrites the entry of the node in the slot, which already has the key. */
    method ReplaceAt(slot: Slot, key: CString, block: array<byte>, ghost ctx: Ctx, ghost sub: Shape)
      requires slot == Hole(ctx) && Outer(ctx) == RootOf(this) && OnPath(ctx, Some(key))
      requires Hangs(ctx, sub) && sub.Branch? && sub.key == key
      requires block !in Footprint(sub) && block !in CtxFootprint(ctx)
      modifies this, sub.node
      ensures this !in Footprint(shape) && Linked(shape, root)
      ensures Tree() == Insert(Erase(Plug(ctx, sub)), key, old(block[..]))
      ensures size == old(size) && height == old(height)
      ensures Repr == {this} + Footprint(shape) && Repr <= Footprint(sub) + {block} + CtxFootprint(ctx)
    {
      hide Height, Insert, Ordered, Size;
      InsertAtRoot(Erase(sub), key, block[..]);
      ghost var sub' := Overwrite(Read(slot), key, block, ctx, sub);
      Regrown(ctx, sub, sub', key, block[..]);
      Reshape(Plug(ctx, sub'));
    }

    /** Records t as the shape of the linked nodes. */
    ghost method Reshape(t: Shape)
      requires Linked(t, root) && this !in Footprint(t)
      modifies this`shape, this`Repr
      ensures shape == t && Linked(shape, root) && Repr == {this} + Footprint(t)
    {
      shape, Repr := t, {this} + Footprint(t);
    }

    /** Hangs a new node in the empty slot. */
    method HangAt(slot: Slot, depth: nat, key: CString, block: array<byte>, ghost ctx: Ctx, ghost sub: Shape)
      requires slot == Hole(ctx) && Outer(ctx) == RootOf(this) && OnPath(ctx, Some(key))
      requires Hangs(ctx, sub) && sub.Nil? && block !in CtxFootprint(ctx)
      modifies this, Owner(slot)
      ensures this !in Footprint(shape) && Linked(shape, root)
      ensures size == old(size) + 1 && height == Max(depth, old(height))
      ensures Tree() == Insert(Erase(Plug(ctx, sub)), key, old(block[..]))
      ensures Repr == {this} + Footprint(shape) && fresh(Repr - CtxFootprint(ctx) - {block})
    {
      assert allocated(CtxFootprint(ctx));
      var node := new TreeNode(key, block);
      ghost var sub' := Branch(Nil, node, block, key, block[..], Nil);
      Fill(slot, node, ctx, sub');
      Regrown(ctx, sub, sub', key, block[..]);
      Grow(depth, Plug(ctx, sub'));
    }

    /** The slot of the node with the given key, or None. */
    method FindSlot(key: Option<CString>) returns (slot: Option<Slot>, ghost ctx: Ctx, ghost sub: Shape)
      requires Valid()
      ensures Outer(ctx) == RootOf(this) && OnPath(ctx, key)
      ensures Plug(ctx, sub) == shape && Hangs(ctx, sub)
      ensures slot == if sub.Branch? then Some(Hole(ctx)) else None
      ensures sub.Branch? ==> key == Some(sub.key)
    {
      var pointerToCurrent := RootOf(this);
      var current := Read(pointerToCurrent);
      ctx, sub := Top(RootOf(this)), shape;
      while current != null
        invariant current == Read(pointerToCurrent) && pointerToCurrent == Hole(ctx)
        invariant Outer(ctx) == RootOf(this) && OnPath(ctx, key)
        invariant Plug(ctx, sub) == shape && Hangs(ctx, sub)
        decreases sub
      {
        Descend(ctx, sub);
        var comparison := KeyCompare(key, Some(current.key));
        if comparison == 0 {
          return Some(pointerToCurrent), ctx, sub;
        } else if comparison < 0 {
          pointerToCurrent := LeftOf(current);
          ctx, sub := DownLeft(ctx, sub), sub.left;
        } else {
          pointerToCurrent := RightOf(current);
          ctx, sub := DownRight(ctx, sub), sub.right;
        }
        current := Read(pointerToCurrent);
      }
      slot := None;
    }

    /** tree_get: a fresh copy of the stored bytes, or an empty block when the key is absent. */
    method Get(key: Option<CString>) returns (value: array<byte>)
      requires Valid()
      ensures fresh(value)
      ensures value[..] == if key.Some? && key.value in MapOf(Tree()) then MapOf(Tree())[key.value] else []
    {
      LookupInMap(Tree(), key);
      if root == null {
        value := new byte[0];
        return;
      }
      var slot; ghost var ctx, sub;
      slot, ctx, sub := FindSlot(key);
      PlugLookup(ctx, sub, key);
      if slot == None {
        value := new byte[0];
        return;
      }
      value := CopyBlock(Read(slot.value).block);
    }

    /** tree_del: -1 for an empty tree only; deleting an absent key from a non-empty tree gives 0. */
    method Del(key: Option<CString>) returns (r: int)
      requires Valid()
      modifies Repr
      ensures Valid() && Repr <= old(Repr)
      ensures r == if old(Tree()) == Leaf then -1 else 0
      ensures Tree() == Remove(old(Tree()), key)
      ensures Nodes(shape) == old(Nodes(shape)) - NodeAt(old(shape), key)
    {
      if root == null {
        return -1;
      }
      var slot; ghost var ctx, sub;
      slot, ctx, sub := FindSlot(key);
      if slot == None {
        PlugRemove(ctx, sub, sub, key);
        PlugNodeAt(ctx, sub, key);
      } else {
        RemoveAt(slot.value, key, ctx, sub);
      }
      r := 0;
    }

    /** Deletes the node in the slot, which has the given key. */
    method RemoveAt(slot: Slot, key: Option<CString>, ghost ctx: Ctx, ghost sub: Shape)
      requires Valid() && slot == Hole(ctx) && Outer(ctx) == RootOf(this) && OnPath(ctx, key)
      requires Plug(ctx, sub) == shape && Hangs(ctx, sub) && sub.Branch? && key == Some(sub.key)
      modifies Repr
      ensures Valid() && Repr <= old(Repr)
      ensures Tree() == Remove(old(Tree()), key)
      ensures old(Tree()) != Leaf
      ensures Nodes(shape) == old(Nodes(shape)) - NodeAt(old(shape), key)
    {
      RemoveFacts(ctx, sub, key);
      hide Hangs, Height, Join, Linked, LinkedCtx, Ordered, Plug, Remove, Size;
      ghost var sub' := UnlinkNode(slot, ctx, sub);
      Removed(ctx, sub, sub', key);
      Shrink(Plug(ctx, sub'));
    }

    /** Counts a removed node and recomputes the height; t is the new shape. */
    method Shrink(ghost t: Shape)
      requires Linked(t, root) && this !in Footprint(t)
      modifies this
      ensures shape == t && Linked(shape, root) && Repr == {this} + Footprint(t)
      ensures size == old(size) - 1 && height == Height(Erase(t))
    {
      assert allocated(Footprint(t));
      size := size - 1;
      height := ComputeHeight(root, t);
      Reshape(t);
    }

    /** tree_get_keys: the keys in ascending order, then one NULL, in an array with no room to spare. */
    method GetKeys() returns (keys: array<Option<CString>>)
      requires Valid()
      ensures fresh(keys) && NullTerminated(keys[..], InOrder(Tree()))
    {
      assert allocated(Footprint(shape));
      ghost var all := InOrder(Tree());
      ghost var wanted := Wanted(all);
      WalkLists(Tree());
      keys := new Option<CString>[size + 1](_ => None);
      ghost var before := keys[..];
      var last := CollectKeys(root, keys, 0, shape, all, wanted);
      KeysWanted(before, keys[..], all);
      keys[last] := None;
    }

    /** Counts a new node that was hung at the given depth; t is the new shape. */
    method Grow(depth: nat, ghost t: Shape)
      requires Linked(t, root) && this !in Footprint(t)
      modifies this
      ensures shape == t && Linked(shape, root) && Repr == {this} + Footprint(t)
      ensures size == old(size) + 1 && height == Max(depth, old(height))
    {
      assert allocated(Footprint(t));
      size := size + 1;
      height := Max(depth, height);
      Reshape(t);
    }
  }

  lemma Regrown(c: Ctx, s: Shape, s': Shape, key: CString, value: Data)
    requires Hangs(c, s') && OnPath(c, Some(key)) && Erase(s') == Insert(Erase(s), key, value)
    ensures var t := Plug(c, s');
            && Linked(t, Read(Outer(c)))
            && Owner(Outer(c)) !in Footprint(t)
            && Erase(t) == Insert(Erase(Plug(c, s)), key, value)
            && Footprint(t) + {Owner(Outer(c))} == Footprint(s') + CtxFootprint(c)
  {
    PlugInsert(c, s, s', key, value);
    PlugLinked(c, s');
    PlugFootprint(c, s');
    PlugApart(c, s');
  }

  lemma Shrunk(c: Ctx, s: Shape, s': Shape, key: Option<CString>)
    requires Hangs(c, s') && OnPath(c, key) && s.Branch? && key == Some(s.key)
    requires Erase(s') == Join(Erase(s.left), Erase(s.right))
    ensures var t := Plug(c, s');
            && Linked(t, Read(Outer(c)))
            && Owner(Outer(c)) !in Footprint(t)
            && Erase(t) == Remove(Erase(Plug(c, s)), key)
            && Footprint(t) + {Owner(Outer(c))} == Footprint(s') + CtxFootprint(c)
  {
    PlugRemove(c, s, s', key);
    PlugLinked(c, s');
    PlugFootprint(c, s');
    PlugApart(c, s');
  }

  lemma RemoveFacts(c: Ctx, s: Shape, key: Option<CString>)
    requires OnPath(c, key) && s.Branch? && key == Some(s.key) && Ordered(Erase(Plug(c, s)))
    ensures var t := Erase(Plug(c, s));
            && t != Leaf
            && Ordered(Remove(t, key))
            && Size(Remove(t, key)) == Size(t) - 1
    ensures Footprint(Plug(c, s)) + {Owner(Outer(c))} == Footprint(s) + CtxFootprint(c)
    ensures Nodes(s) <= Nodes(Plug(c, s))
  {
    var t := Erase(Plug(c, s));
    PlugLookup(c, s, key);
    LookupInMap(t, key);
    RemoveKeepsOrder(t, key);
    RemoveShrinks(t, s.key);
    PlugFootprint(c, s);
  }

  lemma NodesShrunk(c: Ctx, s: Shape, s': Shape, key: Option<CString>)
    requires OnPath(c, key) && s.Branch? && key == Some(s.key)
    requires s.node !in CtxFootprint(c) && Nodes(s') == Nodes(s) - {s.node}
    ensures Nodes(Plug(c, s')) == Nodes(Plug(c, s)) - NodeAt(Plug(c, s), key)
  {
    PlugNodes(c, s);
    PlugNodes(c, s');
    PlugNodeAt(c, s, key);
  }

  /** All that unlinking the node at the root of s does to the whole tree. */
  lemma Removed(c: Ctx, s: Shape, s': Shape, key: Option<CString>)
    requires Hangs(c, s') && OnPath(c, key) && s.Branch? && key == Some(s.key) && s.node !in CtxFootprint(c)
    requires Erase(s') == Join(Erase(s.left), Erase(s.right)) && Nodes(s') == Nodes(s) - {s.node}
    requires Footprint(s') <= Footprint(s) && Ordered(Erase(Plug(c, s)))
    ensures var t, t' := Plug(c, s), Plug(c, s');
            && Linked(t', Read(Outer(c))) && Owner(Outer(c)) !in Footprint(t') && Footprint(t') <= Footprint(t)
            && Erase(t') == Remove(Erase(t), key) && Ordered(Erase(t')) && Size(Erase(t')) == Size(Erase(t)) - 1
            && Nodes(t') == Nodes(t) - NodeAt(t, key)
  {
    RemoveFacts(c, s, key);
    Shrunk(c, s, s', key);
    NodesShrunk(c, s, s', key);
  }

  lemma InsertAtRoot(t: Tree, key: CString, value: Data)
    requires t.Node? && t.key == key
    ensures Insert(t, key, value) == Node(t.left, key, value, t.right)
  {
  }

  lemma InsertFacts(t: Tree, key: CString, value: Data)
    requires Ordered(t)
    ensures var t' := Insert(t, key, value);
            && Ordered(t')
            && if Lookup(t, Some(key)).Some? then Size(t') == Size(t) && Height(t') == Height(t)
               else Size(t') == Size(t) + 1 && Height(t') == Max(Height(t), SearchDepth(t, key))
  {
    LookupInMap(t, Some(key));
    InsertKeepsOrder(t, key, value);
    InsertGrowth(t, key, value);
  }
}

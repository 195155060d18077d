/**
 * serialization.c for trees: the entries in pre-order, each with its length in front. The tree that is rebuilt from
 * the bytes by repeated tree_put has the very same shape.
 */
module TreeSerialization {
  import opened Wrappers
  import opened CStrings
  import opened Conversions
  import opened Wire
  import opened HostInts
  import opened Codec
  import opened Buffers
  import opened SearchTree
  import opened HeapTree
  import opened Sequences

  // ---------- Blocks with their length in front ----------

  predicate LengthsFit(blocks: seq<seq<byte>>) {
    forall b :: b in blocks ==> |b| < TWO_31
  }

  function Join(blocks: seq<seq<byte>>): seq<byte>
    requires LengthsFit(blocks)
  {
    if blocks == [] then [] else ToMemory(|blocks[0]|) + blocks[0] + Join(blocks[1..])
  }

  /** The length and the bytes of the first block; None if they do not lie within the buffer. */
  function FirstBlock(bs: seq<byte>): (p: Option<Parsed<seq<byte>>>)
    ensures p.Some? ==> |p.value.rest| < |bs|
  {
    if |bs| < SIZE_OF_INT then None
    else
      var length := FromMemory(bs[..SIZE_OF_INT]);
      if length < 0 || SIZE_OF_INT + length > |bs| then None
      else
        Some(Parsed(bs[SIZE_OF_INT..SIZE_OF_INT + length], bs[SIZE_OF_INT + length..]))
  }

  function Split(bs: seq<byte>): Option<seq<seq<byte>>>
    decreases |bs|
  {
    if bs == [] then Some([])
    else
      match FirstBlock(bs)
      case None => None
      case Some(p) =>
        match Split(p.rest)
        case None => None
        case Some(blocks) => Some([p.value] + blocks)
  }

  lemma FirstBlockFound(block: seq<byte>, rest: seq<byte>)
    requires |block| < TWO_31
    ensures FirstBlock(ToMemory(|block|) + block + rest) == Some(Parsed(block, rest))
  {
    var bs := ToMemory(|block|) + block + rest;
    FromToMemory(|block|);
    assert bs[..SIZE_OF_INT] == ToMemory(|block|);
    assert bs[SIZE_OF_INT..SIZE_OF_INT + |block|] == block;
    assert bs[SIZE_OF_INT + |block|..] == rest;
  }

  lemma {:induction false} SplitJoined(blocks: seq<seq<byte>>)
    requires LengthsFit(blocks)
    ensures Split(Join(blocks)) == Some(blocks)
  {
    if blocks != [] {
      FirstBlockFound(blocks[0], Join(blocks[1..]));
      SplitJoined(blocks[1..]);
      assert [blocks[0]] + blocks[1..] == blocks;
    }
  }

  // ---------- What the bytes of a tree say ----------

  function RecordOf(p: Pair): EntryRecord {
    EntryRecord(Some(p.key), Some(p.value))
  }

  function Blocks(ps: seq<Pair>): (bs: seq<seq<byte>>)
    ensures |bs| == |ps|
    ensures forall i :: 0 <= i < |ps| ==> bs[i] == EntryBytes(RecordOf(ps[i]))
  {
    seq(|ps|, i requires 0 <= i < |ps| => EntryBytes(RecordOf(ps[i])))
  }

  predicate EntriesFit(ps: seq<Pair>) {
    forall p :: p in ps ==> EntrySize(EntryToMsg(RecordOf(p))) < TWO_31
  }

  lemma BlocksFit(ps: seq<Pair>)
    requires EntriesFit(ps)
    ensures LengthsFit(Blocks(ps))
  {
    forall i | 0 <= i < |ps|
      ensures |Blocks(ps)[i]| < TWO_31
    {
      assert ps[i] in ps;
      EntryFits(EntryToMsg(RecordOf(ps[i])));
    }
  }

  function TreeBytes(ps: seq<Pair>): seq<byte>
    requires EntriesFit(ps)
  {
    BlocksFit(ps);
    Join(Blocks(ps))
  }

  /** The bytes themselves: for every entry its length, lowest byte first, and then its bytes. */
  lemma TreeBytesForm(ps: seq<Pair>)
    requires EntriesFit(ps)
    ensures ps == [] ==> TreeBytes(ps) == []
    ensures ps != [] ==>
              var entry := EntryBytes(RecordOf(ps[0]));
              var n := |entry|;
              && EntriesFit(ps[1..])
              && TreeBytes(ps) ==
                 [n % 0x100, n / 0x100 % 0x100, n / 0x1_0000 % 0x100, n / 0x100_0000] + entry + TreeBytes(ps[1..])
  {
    hide EntryBytes, EntrySize, ToMemory;
    BlocksFit(ps);
    if ps != [] {
      BlocksFit(ps[1..]);
      assert Blocks(ps)[0] == EntryBytes(RecordOf(ps[0])) && Blocks(ps)[0] in Blocks(ps);
      assert Blocks(ps)[1..] == Blocks(ps[1..]);
      MemoryBytes(|EntryBytes(RecordOf(ps[0]))|);
    }
  }

  /** The entries in the blocks; None if one of them cannot be unpacked. */
  function EntriesOf(blocks: seq<seq<byte>>): Option<seq<EntryRecord>> {
    if blocks == [] then Some([])
    else
      var entry, others := EntryOf(blocks[0]), EntriesOf(blocks[1..]);
      if entry.None? || others.None? then None else Some([entry.value] + others.value)
  }

  function ReadEntries(bs: seq<byte>): Option<seq<EntryRecord>> {
    match Split(bs)
    case None => None
    case Some(blocks) => EntriesOf(blocks)
  }

  /** The tree after putting the entries in order; entries without key or value are refused. */
  function PutAll(t: Tree, es: seq<EntryRecord>): Tree
    decreases |es|
  {
    if es == [] then t
    else
      var e := es[0];
      PutAll(if e.key.None? || e.value.None? then t else Insert(t, e.key.value, e.value.value), es[1..])
  }

  function RecordsOf(ps: seq<Pair>): seq<EntryRecord> {
    if ps == [] then [] else [RecordOf(ps[0])] + RecordsOf(ps[1..])
  }

  lemma {:induction false} EntriesFound(ps: seq<Pair>)
    ensures EntriesOf(Blocks(ps)) == Some(RecordsOf(ps))
  {
    if ps != [] {
      EntriesFound(ps[1..]);
      assert Blocks(ps)[1..] == Blocks(ps[1..]);
      EntryReturns(RecordOf(ps[0]));
    }
  }

  /** Entries are put one after the other; one without key or value is passed over. */
  lemma PutAllForm(t: Tree, e: EntryRecord, es: seq<EntryRecord>)
    ensures PutAll(t, []) == t
    ensures e.key.None? || e.value.None? ==> PutAll(t, [e] + es) == PutAll(t, es)
    ensures e.key.Some? && e.value.Some? ==> PutAll(t, [e] + es) == PutAll(Insert(t, e.key.value, e.value.value), es)
  {
    assert ([e] + es)[1..] == es;
  }

  lemma {:induction false} PutAllInserts(t: Tree, ps: seq<Pair>)
    ensures PutAll(t, RecordsOf(ps)) == InsertAll(t, ps)
    decreases |ps|
  {
    if ps != [] {
      PutAllInserts(Insert(t, ps[0].key, ps[0].value), ps[1..]);
      assert RecordsOf(ps)[1..] == RecordsOf(ps[1..]);
    }
  }

  /**
   * Decoding the bytes of a search tree puts its entries, in pre-order, into an empty tree, and that gives the very
   * same tree: same shape, keys and values, and so the same size and height.
   */
  lemma TreeRoundTrip(t: Tree)
    requires Ordered(t) && EntriesFit(PreOrder(t))
    ensures var entries := ReadEntries(TreeBytes(PreOrder(t)));
            entries.Some? && PutAll(Leaf, entries.value) == t
  {
    var ps := PreOrder(t);
    BlocksFit(ps);
    SplitJoined(Blocks(ps));
    EntriesFound(ps);
    PutAllInserts(Leaf, ps);
    PreOrderRebuilds(t);
  }

  /** Two search trees with the same bytes are the same tree. */
  lemma SameBytesSameTree(a: Tree, b: Tree)
    requires Ordered(a) && EntriesFit(PreOrder(a)) && Ordered(b) && EntriesFit(PreOrder(b))
    requires TreeBytes(PreOrder(a)) == TreeBytes(PreOrder(b))
    ensures a == b
  {
    TreeRoundTrip(a);
    TreeRoundTrip(b);
  }

  /** Only the empty tree has no bytes. */
  lemma EmptyTreeHasNoBytes(t: Tree)
    requires EntriesFit(PreOrder(t))
    ensures TreeBytes(PreOrder(t)) == [] <==> t == Leaf
  {
    BlocksFit(PreOrder(t));
  }

  // ---------- Encoding ----------

  /** The bytes of an entry that is small enough for its size to be an int. */
  predicate IsBlockOf(block: seq<byte>, e: EntryRecord) {
    block == EntryBytes(e) && EntrySize(EntryToMsg(e)) < TWO_31
  }

  /** The blocks hold the entries of t in pre-order from position at on. */
  ghost predicate Listed(blocks: seq<seq<byte>>, at: nat, t: Tree)
    decreases t
  {
    match t
    case Leaf => at <= |blocks|
    case Node(l, k, v, r) =>
      && at < |blocks| && IsBlockOf(blocks[at], EntryRecord(Some(k), Some(v)))
      && Listed(blocks, at + 1, l) && Listed(blocks, at + 1 + Size(l), r)
  }

  /** all lists the entries of t in pre-order from position at on. */
  ghost predicate PairsListed(all: seq<Pair>, at: nat, t: Tree)
    decreases t
  {
    match t
    case Leaf => at <= |all|
    case Node(l, k, v, r) =>
      && at < |all| && all[at] == Pair(k, v)
      && PairsListed(all, at + 1, l) && PairsListed(all, at + 1 + Size(l), r)
  }

  lemma {:induction false} PreOrderListed(a: seq<Pair>, t: Tree, b: seq<Pair>)
    ensures PairsListed(a + PreOrder(t) + b, |a|, t)
    ensures |PreOrder(t)| == Size(t)
    decreases t
  {
    match t
    case Leaf =>
    case Node(l, k, v, r) =>
      var p := Pair(k, v);
      RegroupPairs(a, p, PreOrder(l), PreOrder(r), b);
      PreOrderListed(a + [p], l, PreOrder(r) + b);
      PreOrderListed(a + [p] + PreOrder(l), r, b);
  }

  lemma RegroupPairs(a: seq<Pair>, p: Pair, l: seq<Pair>, r: seq<Pair>, b: seq<Pair>)
    ensures a + ([p] + l + r) + b == (a + [p]) + l + (r + b) == (a + [p] + l) + r + b
    ensures (a + ([p] + l + r) + b)[|a|] == p
  {
  }

  lemma {:induction false} BlocksListed(all: seq<Pair>, at: nat, t: Tree)
    requires PairsListed(all, at, t) && EntriesFit(all)
    ensures Listed(Blocks(all), at, t)
    decreases t
  {
    hide EntryBytes, EntrySize;
    match t
    case Leaf =>
    case Node(l, k, v, r) =>
      BlocksListed(all, at + 1, l);
      BlocksListed(all, at + 1 + Size(l), r);
      assert all[at] in all;
  }

  function Lengths(blocks: seq<seq<byte>>): (lens: seq<int>)
    ensures |lens| == |blocks| && forall i :: 0 <= i < |blocks| ==> lens[i] == |blocks[i]|
  {
    seq(|blocks|, i requires 0 <= i < |blocks| => |blocks[i]|)
  }

  /** Puts the bytes of the entries below the node, and their lengths, into the arrays from nextIndex on. */
  method CollectEntryBufs(node: TreeNode?, entriesBufs: array<seq<byte>>, lenEntriesBufs: array<int>, nextIndex: nat,
                          ghost s: Shape, ghost blocks: seq<seq<byte>>)
    returns (end: nat)
    requires Linked(s, node) && entriesBufs !in Footprint(s) && lenEntriesBufs !in Footprint(s)
    requires Listed(blocks, nextIndex, Erase(s)) && |blocks| == entriesBufs.Length == lenEntriesBufs.Length
    modifies entriesBufs, lenEntriesBufs
    ensures end == nextIndex + Size(Erase(s)) <= |blocks|
    ensures Filled(old(entriesBufs[..]), entriesBufs[..], nextIndex, end, blocks)
    ensures Filled(old(lenEntriesBufs[..]), lenEntriesBufs[..], nextIndex, end, Lengths(blocks))
    decreases s
  {
    hide Erase, Filled, Footprint, IsBlockOf, Linked, Listed, Size;
    end := nextIndex;
    if node == null {
      BlocksClosed(blocks, nextIndex, s);
      NoneFilled(entriesBufs[..], nextIndex, blocks);
      NoneFilled(lenEntriesBufs[..], nextIndex, Lengths(blocks));
    } else {
      Opened(s, node);
      BlocksOpened(blocks, nextIndex, s, node);
      assert allocated(Footprint(s)) && allocated(Footprint(s.left)) && allocated(Footprint(s.right));
      var left, right := node.left, node.right;
      ghost var bufs0, lens0 := entriesBufs[..], lenEntriesBufs[..];
      EncodeNode(node, entriesBufs, lenEntriesBufs, end, blocks);
      end := end + 1;
      ghost var bufs1, lens1 := entriesBufs[..], lenEntriesBufs[..];
      assert Linked(s.left, left) && Linked(s.right, right);
      end := CollectEntryBufs(left, entriesBufs, lenEntriesBufs, end, s.left, blocks);
      ghost var bufs2, lens2, middle := entriesBufs[..], lenEntriesBufs[..], end;
      assert Linked(s.right, right);
      end := CollectEntryBufs(right, entriesBufs, lenEntriesBufs, end, s.right, blocks);
      FilledJoin(bufs1, bufs2, entriesBufs[..], nextIndex + 1, middle, end, blocks);
      FilledJoin(bufs0, bufs1, entriesBufs[..], nextIndex, nextIndex + 1, end, blocks);
      FilledJoin(lens1, lens2, lenEntriesBufs[..], nextIndex + 1, middle, end, Lengths(blocks));
      FilledJoin(lens0, lens1, lenEntriesBufs[..], nextIndex, nextIndex + 1, end, Lengths(blocks));
    }
  }

  lemma BlocksClosed(blocks: seq<seq<byte>>, at: nat, s: Shape)
    requires Linked(s, null) && Listed(blocks, at, Erase(s))
    ensures Size(Erase(s)) == 0 && at <= |blocks|
  {
  }

  lemma BlocksOpened(blocks: seq<seq<byte>>, at: nat, s: Shape, node: TreeNode)
    requires Linked(s, node) && Listed(blocks, at, Erase(s))
    ensures at < |blocks| && IsBlockOf(blocks[at], EntryRecord(Some(node.key), Some(node.block[..])))
    ensures Listed(blocks, at + 1, Erase(s.left)) && Listed(blocks, at + 1 + Size(Erase(s.left)), Erase(s.right))
    ensures Size(Erase(s)) == Size(Erase(s.left)) + 1 + Size(Erase(s.right))
  {
    hide IsBlockOf;
  }

  /** The entry of one node. */
  method EncodeNode(node: TreeNode, entriesBufs: array<seq<byte>>, lenEntriesBufs: array<int>, index: nat,
                    ghost blocks: seq<seq<byte>>)
    requires index < |blocks| == entriesBufs.Length == lenEntriesBufs.Length
    requires IsBlockOf(blocks[index], EntryRecord(Some(node.key), Some(node.block[..])))
    modifies entriesBufs, lenEntriesBufs
    ensures Filled(old(entriesBufs[..]), entriesBufs[..], index, index + 1, blocks)
    ensures Filled(old(lenEntriesBufs[..]), lenEntriesBufs[..], index, index + 1, Lengths(blocks))
  {
    var size, buffer := EntryToBuffer(Some(EntryRecord(Some(node.key), Some(node.block[..]))));
    lenEntriesBufs[index] := size;
    entriesBufs[index] := buffer[..];
  }

  /** tree_to_buffer: -1 without a tree; the empty tree gives a buffer of length 0. */
  method TreeToBuffer(tree: TreeStore?) returns (size: int, buffer: array?<byte>)
    requires tree != null ==>
               tree.Valid() && EntriesFit(PreOrder(tree.Tree())) && |TreeBytes(PreOrder(tree.Tree()))| < TWO_31
    ensures buffer == null <==> tree == null
    ensures tree == null ==> size == -1
    ensures tree != null ==> fresh(buffer) && size == buffer.Length && buffer[..] == TreeBytes(PreOrder(tree.Tree()))
  {
    if tree == null {
      return -1, null;
    }
    var entriesBufs, lenEntriesBufs := EncodeEntries(tree);
    BlocksFit(PreOrder(tree.Tree()));
    size := TotalLength(entriesBufs, lenEntriesBufs);
    buffer := Concatenate(entriesBufs, lenEntriesBufs, size);
  }

  /** The bytes of all entries in pre-order, and their lengths. */
  method EncodeEntries(tree: TreeStore) returns (blocks: seq<seq<byte>>, lens: array<int>)
    requires tree.Valid() && EntriesFit(PreOrder(tree.Tree()))
    ensures fresh(lens) && blocks == Blocks(PreOrder(tree.Tree()))
    ensures lens.Length == |blocks| && forall i :: 0 <= i < |blocks| ==> lens[i] == |blocks[i]|
  {
    hide *;
    ghost var t := tree.Tree();
    ghost var expected := Blocks(PreOrder(t));
    TreeListed(t);
    TreeAtHand(tree);
    var entriesBufs := new seq<byte>[tree.size](_ => []);
    lens := new int[tree.size];
    ghost var bufs0, lens0 := entriesBufs[..], lens[..];
    var end := CollectEntryBufs(tree.root, entriesBufs, lens, 0, tree.shape, expected);
    AllFilled(bufs0, entriesBufs[..], end, expected);
    AllFilled(lens0, lens[..], end, Lengths(expected));
    blocks := entriesBufs[..];
  }

  lemma TreeListed(t: Tree)
    requires EntriesFit(PreOrder(t))
    ensures Listed(Blocks(PreOrder(t)), 0, t) && |PreOrder(t)| == Size(t)
  {
    PreOrderListed([], t, []);
    assert [] + PreOrder(t) + [] == PreOrder(t);
    BlocksListed(PreOrder(t), 0, t);
  }

  lemma TreeAtHand(tree: TreeStore)
    requires tree.Valid()
    ensures Linked(tree.shape, tree.root) && tree.size == Size(tree.Tree()) && tree.Tree() == Erase(tree.shape)
    ensures allocated(Footprint(tree.shape))
  {
  }

  /** The first loop of tree_to_buffer: how many bytes all entries take together. */
  method TotalLength(blocks: seq<seq<byte>>, lens: array<int>) returns (total: int)
    requires LengthsFit(blocks)
    requires lens.Length == |blocks| && forall i :: 0 <= i < |blocks| ==> lens[i] == |blocks[i]|
    ensures total == |Join(blocks)|
  {
    total := 0;
    for i := 0 to lens.Length
      invariant LengthsFit(blocks[i..])
      invariant total + |Join(blocks[i..])| == |Join(blocks)|
    {
      assert blocks[i..][0] == blocks[i] && blocks[i..][1..] == blocks[i + 1..];
      total := total + SIZE_OF_INT;
      total := total + lens[i];
    }
  }

  /** memcpy into the buffer at the given offset. */
  method CopyTo(buffer: array<byte>, offset: nat, bytes: seq<byte>)
    requires offset + |bytes| <= buffer.Length
    modifies buffer
    ensures buffer[..offset] == old(buffer[..offset])
    ensures buffer[..offset + |bytes|] == old(buffer[..offset]) + bytes
  {
    for i := 0 to |bytes|
      invariant buffer[..offset] == old(buffer[..offset])
      invariant buffer[offset..offset + i] == bytes[..i]
    {
      buffer[offset + i] := bytes[i];
    }
    assert buffer[..offset + |bytes|] == buffer[..offset] + buffer[offset..offset + |bytes|];
  }

  /** The second loop of tree_to_buffer: writes every length and its entry, and fills the buffer exactly. */
  method Concatenate(blocks: seq<seq<byte>>, lens: array<int>, size: nat) returns (buffer: array<byte>)
    requires LengthsFit(blocks) && size == |Join(blocks)|
    requires lens.Length == |blocks| && forall i :: 0 <= i < |blocks| ==> lens[i] == |blocks[i]|
    ensures fresh(buffer) && buffer[..] == Join(blocks)
  {
    buffer := new byte[size];
    var currentIndex := 0;
    for i := 0 to lens.Length
      invariant LengthsFit(blocks[..i]) && LengthsFit(blocks[i..])
      invariant currentIndex == |Join(blocks[..i])| && currentIndex + |Join(blocks[i..])| == size
      invariant buffer[..currentIndex] == Join(blocks[..i])
    {
      JoinNext(blocks, i);
      CopyEntry(buffer, currentIndex, lens[i], blocks[i]);
      currentIndex := currentIndex + SIZE_OF_INT + lens[i];
    }
    assert blocks[..|blocks|] == blocks;
  }

  /** Writes a length and the entry of that length. */
  method CopyEntry(buffer: array<byte>, offset: nat, len: nat, entry: seq<byte>)
    requires len == |entry| < TWO_31 && offset + SIZE_OF_INT + len <= buffer.Length
    modifies buffer
    ensures buffer[..offset + SIZE_OF_INT + len] == old(buffer[..offset]) + ToMemory(len) + entry
  {
    var bytes := ToMemory(len);
    CopyTo(buffer, offset, bytes);
    CopyTo(buffer, offset + SIZE_OF_INT, entry);
  }

  lemma JoinNext(blocks: seq<seq<byte>>, i: nat)
    requires LengthsFit(blocks) && i < |blocks|
    ensures Join(blocks[..i + 1]) == Join(blocks[..i]) + ToMemory(|blocks[i]|) + blocks[i]
    ensures |Join(blocks[i..])| == SIZE_OF_INT + |blocks[i]| + |Join(blocks[i + 1..])|
  {
    assert blocks[i..][0] == blocks[i] && blocks[i..][1..] == blocks[i + 1..];
    assert blocks[..i + 1] == blocks[..i] + [blocks[i]];
    JoinLast(blocks[..i], blocks[i]);
  }

  lemma {:induction false} JoinLast(blocks: seq<seq<byte>>, last: seq<byte>)
    requires LengthsFit(blocks) && |last| < TWO_31
    ensures Join(blocks + [last]) == Join(blocks) + ToMemory(|last|) + last
  {
    hide ToMemory;
    if blocks == [] {
      assert [last][1..] == [];
    } else {
      var first, rest := ToMemory(|blocks[0]|) + blocks[0], Join(blocks[1..]);
      calc {
        Join(blocks + [last]);
        { assert (blocks + [last])[1..] == blocks[1..] + [last]; }
        first + Join(blocks[1..] + [last]);
        { JoinLast(blocks[1..], last); }
        first + (rest + ToMemory(|last|) + last);
        { Regroup(first, rest + ToMemory(|last|), last); }
        first + (rest + ToMemory(|last|)) + last;
        { Regroup(first, rest, ToMemory(|last|)); }
        Join(blocks) + ToMemory(|last|) + last;
      }
    }
  }

  // ---------- Decoding ----------

  /** buffer_to_tree: NULL without a buffer or without bytes, so the encoding of the empty tree is not accepted. */
  method BufferToTree(buffer: array?<byte>, size: int) returns (tree: TreeStore?)
    requires buffer != null && size > 0 ==> size <= buffer.Length && ReadEntries(buffer[..size]).Some?
    ensures tree == null <==> buffer == null || size <= 0
    ensures tree != null ==>
              && fresh(tree) && tree.Valid() && fresh(tree.Repr)
              && tree.Tree() == PutAll(Leaf, ReadEntries(buffer[..size]).value)
  {
    if buffer == null || size <= 0 {
      return null;
    }
    var built := new TreeStore();
    var currentIndex := 0;
    ghost var all := ReadEntries(buffer[..size]).value;
    while currentIndex < size
      invariant 0 <= currentIndex <= size
      invariant built.Valid() && fresh(built.Repr)
      invariant ReadEntries(buffer[currentIndex..size]).Some?
      invariant PutAll(built.Tree(), ReadEntries(buffer[currentIndex..size]).value) == PutAll(Leaf, all)
    {
      currentIndex := PutNext(built, buffer, currentIndex, size);
    }
    NothingLeft(built.Tree(), buffer[size..size]);
    tree := built;
  }

  /** The body of the loop: puts the entry at the given offset into the tree, and gives the offset behind it. */
  method PutNext(tree: TreeStore, buffer: array<byte>, offset: nat, size: nat) returns (next: nat)
    requires tree.Valid() && buffer !in tree.Repr
    requires offset < size <= buffer.Length && ReadEntries(buffer[offset..size]).Some?
    modifies tree.Repr
    ensures tree.Valid() && fresh(tree.Repr - old(tree.Repr))
    ensures offset < next <= size && ReadEntries(buffer[next..size]).Some?
    ensures PutAll(tree.Tree(), ReadEntries(buffer[next..size]).value) ==
            PutAll(old(tree.Tree()), ReadEntries(buffer[offset..size]).value)
  {
    var entry, lenEntry := NextEntry(buffer, offset, size);
    next := offset + SIZE_OF_INT + lenEntry;
    PutEntry(tree, entry, ReadEntries(buffer[next..size]).value);
  }

  lemma NothingLeft(t: Tree, bs: seq<byte>)
    requires bs == []
    ensures ReadEntries(bs) == Some([]) && PutAll(t, []) == t
  {
  }

  /** tree_put ignores an entry without key or value, and its result is not looked at. */
  method PutEntry(tree: TreeStore, entry: EntryRecord, ghost others: seq<EntryRecord>)
    requires tree.Valid()
    modifies tree.Repr
    ensures tree.Valid() && fresh(tree.Repr - old(tree.Repr))
    ensures PutAll(tree.Tree(), others) == PutAll(old(tree.Tree()), [entry] + others)
  {
    var value := EntryValue(entry);
    var r := tree.Put(entry.key, value);
    assert ([entry] + others)[1..] == others;
  }

  /** Reads the length at the given offset and the entry behind it. */
  method NextEntry(buffer: array<byte>, offset: nat, size: nat) returns (entry: EntryRecord, lenEntry: nat)
    requires offset < size <= buffer.Length && ReadEntries(buffer[offset..size]).Some?
    ensures offset + SIZE_OF_INT + lenEntry <= size
    ensures var next := ReadEntries(buffer[offset + SIZE_OF_INT + lenEntry..size]);
            next.Some? && ReadEntries(buffer[offset..size]).value == [entry] + next.value
  {
    hide ReadEntries, EntryOf, FromMemory;
    FirstEntry(buffer[offset..size]);
    SubSlice(buffer[..], offset, size, 0, SIZE_OF_INT);
    lenEntry := FromMemory(buffer[offset..offset + SIZE_OF_INT]);
    SubSlice(buffer[..], offset, size, SIZE_OF_INT, SIZE_OF_INT + lenEntry);
    SubSlice(buffer[..], offset, size, SIZE_OF_INT + lenEntry, size - offset);
    var read := BufferToEntry(buffer, offset + SIZE_OF_INT, lenEntry);
    entry := read.value;
  }

  lemma SubSlice(s: seq<byte>, lo: nat, hi: nat, i: nat, j: nat)
    requires i <= j <= hi - lo && hi <= |s|
    ensures s[lo..hi][i..j] == s[lo + i..lo + j]
  {
    assert forall k :: 0 <= k < j - i ==> s[lo..hi][i..j][k] == s[lo + i..lo + j][k];
  }

  /** The value of the decoded entry, in a block of its own. */
  method EntryValue(e: EntryRecord) returns (value: array?<byte>)
    ensures value == null <==> e.value.None?
    ensures value != null ==> fresh(value) && value[..] == e.value.value
  {
    if e.value.None? {
      return null;
    }
    value := FillExactly(e.value.value, |e.value.value|);
  }

  /** Readable bytes start with the length and the bytes of a readable entry. */
  lemma FirstEntry(bs: seq<byte>)
    requires bs != [] && ReadEntries(bs).Some?
    ensures |bs| >= SIZE_OF_INT
    ensures var length := FromMemory(bs[..SIZE_OF_INT]);
            && 0 <= length && SIZE_OF_INT + length <= |bs|
            && EntryOf(bs[SIZE_OF_INT..SIZE_OF_INT + length]).Some?
            && ReadEntries(bs[SIZE_OF_INT + length..]).Some?
            && ReadEntries(bs).value ==
               [EntryOf(bs[SIZE_OF_INT..SIZE_OF_INT + length]).value] + ReadEntries(bs[SIZE_OF_INT + length..]).value
  {
    var p := FirstBlock(bs).value;
    var blocks := Split(bs).value;
    assert blocks == [p.value] + Split(p.rest).value;
    assert blocks[1..] == Split(p.rest).value;
  }

  /** Encoding a non-empty tree and decoding the buffer gives a tree of the same shape, size and height. */
  method Reload(tree: TreeStore) returns (copy: TreeStore?)
    requires tree.Valid() && EntriesFit(PreOrder(tree.Tree())) && |TreeBytes(PreOrder(tree.Tree()))| < TWO_31
    ensures copy == null <==> tree.Tree() == Leaf
    ensures copy != null ==>
              && fresh(copy) && copy.Valid() && fresh(copy.Repr)
              && copy.Tree() == tree.Tree() && copy.size == tree.size && copy.height == tree.height
  {
    var size, buffer := TreeToBuffer(tree);
    TreeRoundTrip(tree.Tree());
    EmptyTreeHasNoBytes(tree.Tree());
    assert buffer[..size] == buffer[..];
    copy := BufferToTree(buffer, size);
  }
}

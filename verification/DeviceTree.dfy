/** The search of the flattened device tree, proved to be a depth-first search of the tree that the structure block
    encodes (section 5.4 of the Devicetree Specification, release v0.2). */
module DeviceTrees {
  import opened Common

  const FDT_BEGIN_NODE: bv32 := 1
  const FDT_END_NODE: bv32 := 2
  const FDT_PROP: bv32 := 3
  const FDT_NOP: bv32 := 4
  const FDT_END: bv32 := 9
  const DT_STRING_MAXSIZE := 128

  /** A byte, kept in a word. */
  type Byte = b: bv32 | b <= 0xff

  /** A C string without its terminator. */
  type Text = s: seq<Byte> | forall k :: 0 <= k < |s| ==> s[k] != 0

  // ---------------------------------------------------------------- words and bytes

  function BigToLittle(big: bv32): bv32 {
    ((big & 0xff00_0000) >> 24) | ((big & 0x00ff_0000) >> 8) | ((big & 0x0000_ff00) << 8) | ((big & 0x0000_00ff) << 24)
  }

  /** Byte k, in memory order, of a word read by the little-endian processor. */
  function MemByte(w: bv32, k: nat): Byte
    requires k < 4
  {
    if k == 0 then w & 0xff else if k == 1 then (w >> 8) & 0xff else if k == 2 then (w >> 16) & 0xff
      else (w >> 24) & 0xff
  }

  /** The big-endian cell made of four bytes in memory order. */
  function Pack(b0: Byte, b1: Byte, b2: Byte, b3: Byte): bv32 {
    (b0 << 24) | (b1 << 16) | (b2 << 8) | b3
  }

  lemma BigToLittleInvolutive(w: bv32)
    ensures BigToLittle(BigToLittle(w)) == w
  {}

  /** Swapping turns the four bytes of a memory word into the cell they encode. */
  lemma SwappedBytes(w: bv32, b0: Byte, b1: Byte, b2: Byte, b3: Byte)
    requires BigToLittle(w) == Pack(b0, b1, b2, b3)
    ensures MemByte(w, 0) == b0 && MemByte(w, 1) == b1 && MemByte(w, 2) == b2 && MemByte(w, 3) == b3
    ensures BigToLittle(w) & 0xff == b3
  {}

  // ---------------------------------------------------------------- the abstract tree and its encoding

  datatype Node = Node(name: Text, items: seq<Item>)

  datatype Item =
    | Nop
    | Prop(len: bv32, nameOff: bv32, value: seq<bv32>)
    | Child(node: Node)

  /** What reading a NUL-terminated text at index k yields. */
  function CharAt(s: Text, k: nat): Byte {
    if k < |s| then s[k] else 0
  }

  /** The cells of a NUL-terminated name padded to a whole number of words. */
  function {:induction false} NameCells(name: Text): (r: seq<bv32>)
    ensures |r| == |name| / 4 + 1
    decreases |name|
  {
    if |name| >= 4 then [Pack(name[0], name[1], name[2], name[3])] + NameCells(name[4..])
    else [Pack(CharAt(name, 0), CharAt(name, 1), CharAt(name, 2), 0)]
  }

  function Tag(item: Item): bv32 {
    match item case Nop => FDT_NOP case Prop(_, _, _) => FDT_PROP case Child(_) => FDT_BEGIN_NODE
  }

  function EncodeItems(items: seq<Item>): seq<bv32>
    decreases items, 0
  {
    if items == [] then [] else EncodeItem(items[0]) + EncodeItems(items[1..])
  }

  function EncodeNode(n: Node): (r: seq<bv32>)
    ensures |r| >= 3 && r[0] == FDT_BEGIN_NODE
    decreases n, 1
  {
    [FDT_BEGIN_NODE] + NameCells(n.name) + (EncodeItems(n.items) + [FDT_END_NODE])
  }

  function EncodeItem(item: Item): (r: seq<bv32>)
    ensures |r| >= 1 && r[0] == Tag(item)
    decreases item, 2
  {
    match item
    case Nop => [FDT_NOP]
    case Prop(len, nameOff, value) => [FDT_PROP, len, nameOff] + value
    case Child(node) => EncodeNode(node)
  }

  /** The text that starts at byte `at` of a block and ends before the next NUL. */
  function TextAt(block: seq<Byte>, at: nat): Text
    decreases |block| - at
  {
    if at >= |block| || block[at] == 0 then [] else [block[at]] + TextAt(block, at + 1)
  }

  lemma TwoLetters()
    ensures NameCells([0x61, 0x62]) == [0x6162_0000]
  {}

  lemma EncodedChild(child: Node)
    requires child == Node([0x61, 0x62], [])
    ensures EncodeItems([Nop, Child(child)]) == [4, 1, 0x6162_0000, 2]
  {
    TwoLetters();
    assert EncodeItems([]) == [];
    assert EncodeNode(child) == [1, 0x6162_0000, 2];
    assert [Child(child)][1..] == [];
    assert EncodeItems([Child(child)]) == [1, 0x6162_0000, 2];
    assert [Nop, Child(child)][1..] == [Child(child)];
  }

  /** The cells of a node with a property, a cell to skip, and a child of two letters, with the end of the block. */
  lemma EncodedExample()
    ensures EncodeNode(Node([], [Prop(4, 7, [0xdeadbeef]), Nop, Child(Node([0x61, 0x62], []))])) + [FDT_END]
         == [1, 0, 3, 4, 7, 0xdeadbeef, 4, 1, 0x6162_0000, 2, 2, 9]
  {
    var child := Node([0x61, 0x62], []);
    assert NameCells([]) == [0];
    EncodedChild(child);
    var items := [Prop(4, 7, [0xdeadbeef]), Nop, Child(child)];
    assert items[1..] == [Nop, Child(child)];
    assert EncodeItems(items) == [3, 4, 7, 0xdeadbeef, 4, 1, 0x6162_0000, 2];
  }

  /** In memory the bytes of a cell stand high-order first, and the little-endian processor reads them swapped. */
  lemma SwapExample()
    ensures BigToLittle(0x1122_3344) == 0x4433_2211 && Pack(0x11, 0x22, 0x33, 0x44) == 0x1122_3344
    ensures MemByte(0x4433_2211, 0) == 0x11 && MemByte(0x4433_2211, 3) == 0x44
  {}

  ghost predicate ItemsOk(items: seq<Item>, strings: seq<Byte>)
    decreases items, 0
  {
    items != [] ==> ItemOk(items[0], strings) && ItemsOk(items[1..], strings)
  }

  /** Names fit the buffers of the search, and every value has the words its length calls for. */
  ghost predicate NodeOk(n: Node, strings: seq<Byte>)
    decreases n, 1
  {
    |n.name| < DT_STRING_MAXSIZE && ItemsOk(n.items, strings)
  }

  ghost predicate ItemOk(item: Item, strings: seq<Byte>)
    decreases item, 2
  {
    match item
    case Nop => true
    case Prop(len, nameOff, value) =>
      && len as int + 3 < 0x1_0000_0000
      && |value| == (len as int + 3) / 4
      && |TextAt(strings, nameOff as int)| < DT_STRING_MAXSIZE
      && nameOff as int + |TextAt(strings, nameOff as int)| < |strings|
    case Child(node) => NodeOk(node, strings)
  }

  // ---------------------------------------------------------------- what the search should find

  /** A property of the tree: the word index of its length cell, the name of its node, and its own name. */
  datatype Entry = Entry(at: nat, node: Text, prop: Text)

  function EntriesOfItems(items: seq<Item>, name: Text, at: nat, strings: seq<Byte>): seq<Entry>
    decreases items, 0
  {
    if items == [] then []
    else
      var rest := EntriesOfItems(items[1..], name, at + |EncodeItem(items[0])|, strings);
      EntriesOfItem(items[0], name, at, strings) + rest
  }

  /** The properties of a node encoded from word `at` on, in document order. */
  function EntriesOfNode(n: Node, at: nat, strings: seq<Byte>): seq<Entry>
    decreases n, 1
  {
    EntriesOfItems(n.items, n.name, at + 1 + |NameCells(n.name)|, strings)
  }

  function EntriesOfItem(item: Item, name: Text, at: nat, strings: seq<Byte>): seq<Entry>
    decreases item, 2
  {
    match item
    case Nop => []
    case Prop(len, nameOff, value) => [Entry(at + 1, name, TextAt(strings, nameOff as int))]
    case Child(node) => EntriesOfNode(node, at, strings)
  }

  ghost predicate AllWithin(entries: seq<Entry>, lo: nat, hi: nat) {
    forall k :: 0 <= k < |entries| ==> lo < entries[k].at < hi
  }

  ghost predicate AllPositive(entries: seq<Entry>) {
    forall k :: 0 <= k < |entries| ==> entries[k].at > 0
  }

  predicate Wanted(e: Entry, node: Option<Text>, prop: Text) {
    (node.None? || node.value == e.node) && e.prop == prop
  }

  /** The word index of the first wanted property, 0 for none. */
  function {:induction false} FirstWanted(entries: seq<Entry>, node: Option<Text>, prop: Text): (r: nat)
    ensures r != 0 ==> exists k :: 0 <= k < |entries| && entries[k].at == r && Wanted(entries[k], node, prop)
                                   && forall j :: 0 <= j < k ==> !Wanted(entries[j], node, prop)
    ensures AllPositive(entries) ==>
              (r == 0 <==> forall k :: 0 <= k < |entries| ==> !Wanted(entries[k], node, prop))
  {
    if entries == [] then 0
    else if Wanted(entries[0], node, prop) then entries[0].at
    else
      var r := FirstWanted(entries[1..], node, prop);
      assert r != 0 ==> exists k :: 1 <= k < |entries| && entries[k].at == r && Wanted(entries[k], node, prop)
                                    && forall j :: 0 <= j < k ==> !Wanted(entries[j], node, prop) by {
        if r != 0 {
          var k :| 0 <= k < |entries[1..]| && entries[1..][k].at == r && Wanted(entries[1..][k], node, prop)
                   && forall j :: 0 <= j < k ==> !Wanted(entries[1..][j], node, prop);
          assert entries[k + 1] == entries[1..][k];
          assert forall j :: 0 <= j < k + 1 ==> !Wanted(entries[j], node, prop);
        }
      }
      r
  }

  function FirstNonzero(a: nat, b: nat): nat {
    if a != 0 then a else b
  }

  lemma NoneWanted(node: Option<Text>, prop: Text)
    ensures FirstWanted([], node, prop) == 0
  {}

  lemma FirstWantedStep(entries: seq<Entry>, node: Option<Text>, prop: Text)
    requires entries != []
    ensures FirstWanted(entries, node, prop)
         == if Wanted(entries[0], node, prop) then entries[0].at else FirstWanted(entries[1..], node, prop)
  {
    hide Wanted;
  }

  lemma {:induction false} FirstWantedAppend(a: seq<Entry>, b: seq<Entry>, node: Option<Text>, prop: Text)
    requires AllPositive(a)
    ensures FirstWanted(a + b, node, prop)
         == FirstNonzero(FirstWanted(a, node, prop), FirstWanted(b, node, prop))
  {
    hide Wanted, FirstWanted;
    if a == [] {
      assert a + b == b;
      NoneWanted(node, prop);
    } else {
      FirstWantedAppend(a[1..], b, node, prop);
      assert (a + b)[1..] == a[1..] + b && (a + b)[0] == a[0];
      FirstWantedStep(a, node, prop);
      FirstWantedStep(a + b, node, prop);
    }
  }

  /** What the search answers: the first property with the name asked for, in a node with the name asked for, if one
      was. */
  lemma FirstWantedIs(entries: seq<Entry>, node: Option<Text>, prop: Text, r: nat)
    requires r == FirstWanted(entries, node, prop) && AllPositive(entries)
    ensures r != 0 ==>
              exists k :: 0 <= k < |entries| && entries[k].at == r && entries[k].prop == prop
                && (node.Some? ==> entries[k].node == node.value)
                && forall j :: 0 <= j < k ==> entries[j].prop != prop || (node.Some? && entries[j].node != node.value)
    ensures r == 0 ==>
              forall j :: 0 <= j < |entries| ==>
                  entries[j].prop != prop || (node.Some? && entries[j].node != node.value)
  {
    if r != 0 {
      var k :| 0 <= k < |entries| && entries[k].at == r && Wanted(entries[k], node, prop)
               && forall j :: 0 <= j < k ==> !Wanted(entries[j], node, prop);
      assert forall j :: 0 <= j < k ==> entries[j].prop != prop || (node.Some? && entries[j].node != node.value) by {
        assert forall j :: 0 <= j < k ==> !Wanted(entries[j], node, prop);
      }
    } else {
      assert forall j :: 0 <= j < |entries| ==> !Wanted(entries[j], node, prop);
    }
  }

  /** The same property in a node and in its child: each entry carries the name of the node it stands in. */
  lemma EntriesExample()
    ensures EntriesOfNode(Node([], [Prop(0, 0, []), Child(Node([0x61, 0x62], [Prop(0, 0, [])]))]), 0, [0x78, 0])
         == [Entry(3, [], [0x78]), Entry(8, [0x61, 0x62], [0x78])]
  {
    var strings: seq<Byte> := [0x78, 0];
    assert TextAt(strings, 1) == [];
    assert TextAt(strings, 0) == [0x78];
    var inner := Node([0x61, 0x62], [Prop(0, 0, [])]);
    assert inner.items[1..] == [];
    assert EntriesOfItems(inner.items, [0x61, 0x62], 7, strings) == [Entry(8, [0x61, 0x62], [0x78])];
    assert EntriesOfNode(inner, 5, strings) == [Entry(8, [0x61, 0x62], [0x78])];
    assert [Child(inner)][1..] == [];
    assert EntriesOfItems([Child(inner)], [], 5, strings) == [Entry(8, [0x61, 0x62], [0x78])];
    var items := [Prop(0, 0, []), Child(inner)];
    assert items[1..] == [Child(inner)];
    assert EntriesOfItems(items, [], 2, strings) == [Entry(3, [], [0x78]), Entry(8, [0x61, 0x62], [0x78])];
  }

  lemma {:induction false} ItemWithin(item: Item, name: Text, at: nat, strings: seq<Byte>)
    ensures AllWithin(EntriesOfItem(item, name, at, strings), at, at + |EncodeItem(item)|)
    decreases item, 2
  {
    match item
    case Child(node) => ItemsWithin(node.items, node.name, at + 1 + |NameCells(node.name)|, strings);
    case _ =>
  }

  /** Every property found lies among the words of the items searched. */
  lemma {:induction false} ItemsWithin(items: seq<Item>, name: Text, at: nat, strings: seq<Byte>)
    ensures AllWithin(EntriesOfItems(items, name, at, strings), at, at + |EncodeItems(items)|)
    decreases items, 0
  {
    if items != [] {
      ItemWithin(items[0], name, at, strings);
      ItemsWithin(items[1..], name, at + |EncodeItem(items[0])|, strings);
    }
  }

  // ---------------------------------------------------------------- the memory image

  /** The words of memory from i on hold these cells. */
  ghost predicate At(tree: seq<bv32>, i: nat, cells: seq<bv32>) {
    i + |cells| <= |tree| && forall k :: 0 <= k < |cells| ==> BigToLittle(tree[i + k]) == cells[k]
  }

  /** Every block of cells can be laid out in memory. */
  lemma StoredIsAt(tree: seq<bv32>, cells: seq<bv32>)
    requires |tree| == |cells| && forall k :: 0 <= k < |cells| ==> tree[k] == BigToLittle(cells[k])
    ensures At(tree, 0, cells)
  {
    hide BigToLittle;
    forall k | 0 <= k < |cells| ensures BigToLittle(tree[0 + k]) == cells[k] {
      BigToLittleInvolutive(cells[k]);
    }
  }

  lemma AtSplit(tree: seq<bv32>, i: nat, a: seq<bv32>, b: seq<bv32>)
    requires At(tree, i, a + b)
    ensures At(tree, i, a) && At(tree, i + |a|, b)
  {
    assert forall k :: 0 <= k < |a| ==> (a + b)[k] == a[k];
    forall k | 0 <= k < |b| ensures BigToLittle(tree[i + |a| + k]) == b[k] {
      assert (a + b)[|a| + k] == b[k];
    }
  }

  /** An index found is where the memory holds a property of that name. */
  ghost predicate IsProperty(tree: seq<bv32>, strings: seq<Byte>, e: Entry) {
    && 0 < e.at < |tree| - 1
    && BigToLittle(tree[e.at - 1]) == FDT_PROP
    && TextAt(strings, BigToLittle(tree[e.at + 1]) as int) == e.prop
  }

  ghost predicate AllProperties(tree: seq<bv32>, strings: seq<Byte>, entries: seq<Entry>) {
    forall k :: 0 <= k < |entries| ==> IsProperty(tree, strings, entries[k])
  }

  lemma {:induction false} ItemIsProperty(tree: seq<bv32>, item: Item, name: Text, at: nat, strings: seq<Byte>)
    requires At(tree, at, EncodeItem(item))
    ensures AllProperties(tree, strings, EntriesOfItem(item, name, at, strings))
    decreases item, 2
  {
    hide BigToLittle, TextAt;
    match item
    case Nop =>
    case Prop(len, nameOff, value) =>
      assert BigToLittle(tree[at + 0]) == EncodeItem(item)[0];
      assert BigToLittle(tree[at + 2]) == EncodeItem(item)[2];
    case Child(node) =>
      var a, b := [FDT_BEGIN_NODE] + NameCells(node.name), EncodeItems(node.items);
      assert EncodeNode(node) == a + b + [FDT_END_NODE];
      AtSplit(tree, at, a + b, [FDT_END_NODE]);
      AtSplit(tree, at, a, b);
      ItemsAreProperties(tree, node.items, node.name, at + 1 + |NameCells(node.name)|, strings);
  }

  lemma {:induction false} ItemsAreProperties(tree: seq<bv32>, items: seq<Item>, name: Text, at: nat,
                                              strings: seq<Byte>)
    requires At(tree, at, EncodeItems(items))
    ensures AllProperties(tree, strings, EntriesOfItems(items, name, at, strings))
    decreases items, 0
  {
    hide BigToLittle, TextAt, At, EncodeItem;
    if items != [] {
      AtSplit(tree, at, EncodeItem(items[0]), EncodeItems(items[1..]));
      ItemIsProperty(tree, items[0], name, at, strings);
      ItemsAreProperties(tree, items[1..], name, at + |EncodeItem(items[0])|, strings);
    }
  }

  function MemBytes(tree: seq<bv32>): (r: seq<Byte>)
    ensures |r| == 4 * |tree|
    ensures forall p :: 0 <= p < |r| ==> r[p] == MemByte(tree[p / 4], p % 4)
  {
    seq(4 * |tree|, p requires 0 <= p < 4 * |tree| => MemByte(tree[p / 4], p % 4))
  }

  /** Reading a name cell by cell: four bytes that are not NUL, then the rest. */
  lemma WordOfName(tree: seq<bv32>, i: nat, b0: Byte, b1: Byte, b2: Byte, b3: Byte)
    requires i < |tree| && BigToLittle(tree[i]) == Pack(b0, b1, b2, b3)
    ensures var m := MemBytes(tree);
            m[4 * i] == b0 && m[4 * i + 1] == b1 && m[4 * i + 2] == b2 && m[4 * i + 3] == b3
  {
    SwappedBytes(tree[i], b0, b1, b2, b3);
  }

  /** The last word of a name is the first whose last byte is NUL. */
  predicate EndsName(tree: seq<bv32>, j: nat)
    requires j < |tree|
  {
    BigToLittle(tree[j]) & 0xff == 0
  }

  lemma LastByte(tree: seq<bv32>, i: nat, b0: Byte, b1: Byte, b2: Byte, b3: Byte)
    requires i < |tree| && BigToLittle(tree[i]) == Pack(b0, b1, b2, b3)
    ensures EndsName(tree, i) <==> b3 == 0
  {
    SwappedBytes(tree[i], b0, b1, b2, b3);
  }

  lemma TextOfFour(m: seq<Byte>, p: nat, name: Text)
    requires |name| >= 4 && p + 4 <= |m|
    requires m[p] == name[0] && m[p + 1] == name[1] && m[p + 2] == name[2] && m[p + 3] == name[3]
    ensures TextAt(m, p) == name[..4] + TextAt(m, p + 4)
  {
    assert TextAt(m, p + 3) == [m[p + 3]] + TextAt(m, p + 4);
    assert TextAt(m, p + 2) == [m[p + 2]] + TextAt(m, p + 3);
    assert TextAt(m, p + 1) == [m[p + 1]] + TextAt(m, p + 2);
    assert TextAt(m, p) == [m[p]] + TextAt(m, p + 1);
  }

  lemma {:induction false} TextOf(m: seq<Byte>, p: nat, name: Text)
    requires p + |name| < |m|
    requires forall k :: 0 <= k < |name| ==> m[p + k] == name[k]
    requires m[p + |name|] == 0
    ensures TextAt(m, p) == name
    decreases |name|
  {
    if |name| > 0 {
      assert m[p + 0] == name[0];
      assert forall k :: 0 <= k < |name| - 1 ==> m[p + 1 + k] == name[1..][k];
      TextOf(m, p + 1, name[1..]);
    }
  }

  ghost predicate EndsAt(tree: seq<bv32>, i: nat, last: nat) {
    last < |tree| && forall j {:trigger EndsName(tree, j)} :: i <= j <= last ==> (EndsName(tree, j) <==> j == last)
  }

  lemma ShortText(m: seq<Byte>, p: nat, name: Text)
    requires |name| < 4 && p + 4 <= |m|
    requires m[p] == CharAt(name, 0) && m[p + 1] == CharAt(name, 1) && m[p + 2] == CharAt(name, 2) && m[p + 3] == 0
    ensures TextAt(m, p) == name
  {
    hide TextAt;
    TextOf(m, p, name);
  }

  lemma ShortCell(tree: seq<bv32>, i: nat, name: Text)
    requires At(tree, i, NameCells(name)) && |name| < 4
    ensures i < |tree| && BigToLittle(tree[i]) == Pack(CharAt(name, 0), CharAt(name, 1), CharAt(name, 2), 0)
  {
    hide BigToLittle, Pack;
    assert BigToLittle(tree[i + 0]) == NameCells(name)[0];
  }

  lemma ShortWord(tree: seq<bv32>, i: nat, name: Text, b0: Byte, b1: Byte, b2: Byte)
    requires i < |tree| && BigToLittle(tree[i]) == Pack(b0, b1, b2, 0) && |name| < 4
    requires b0 == CharAt(name, 0) && b1 == CharAt(name, 1) && b2 == CharAt(name, 2)
    ensures TextAt(MemBytes(tree), 4 * i) == name && EndsName(tree, i)
  {
    hide BigToLittle, MemByte, Pack, EndsName, TextAt, CharAt;
    WordOfName(tree, i, b0, b1, b2, 0);
    LastByte(tree, i, b0, b1, b2, 0);
    ShortText(MemBytes(tree), 4 * i, name);
  }

  /** A name of up to three characters fills one word. */
  lemma ShortName(tree: seq<bv32>, i: nat, name: Text)
    requires At(tree, i, NameCells(name)) && |name| < 4
    ensures TextAt(MemBytes(tree), 4 * i) == name && 4 * i + |name| < 4 * |tree|
    ensures EndsAt(tree, i, i)
  {
    hide BigToLittle, MemByte, Pack, MemBytes, EndsName, TextAt, CharAt, At, NameCells;
    ShortCell(tree, i, name);
    ShortWord(tree, i, name, CharAt(name, 0), CharAt(name, 1), CharAt(name, 2));
  }

  /** The characters of an encoded name are read back as the name, and its last word is its first with a zero last
      byte. */
  lemma {:induction false} NameReadsBack(tree: seq<bv32>, i: nat, name: Text)
    requires At(tree, i, NameCells(name))
    ensures TextAt(MemBytes(tree), 4 * i) == name && 4 * i + |name| < 4 * |tree|
    ensures EndsAt(tree, i, i + |name| / 4)
    decreases |name|
  {
    hide BigToLittle, MemByte, Pack, MemBytes, EndsName, TextAt;
    if |name| < 4 {
      ShortName(tree, i, name);
    } else {
      var cells := NameCells(name);
      assert BigToLittle(tree[i + 0]) == cells[0];
      WordOfName(tree, i, name[0], name[1], name[2], name[3]);
      LastByte(tree, i, name[0], name[1], name[2], name[3]);
      AtSplit(tree, i, [cells[0]], NameCells(name[4..]));
      NameReadsBack(tree, i + 1, name[4..]);
      TextOfFour(MemBytes(tree), 4 * i, name);
    }
  }

  // ---------------------------------------------------------------- strings

  /** strncmp is zero: no difference before the limit or the common end. */
  predicate Agree(a: Text, b: Text, n: nat) {
    forall k :: 0 <= k < n && k <= |a| ==> CharAt(a, k) == CharAt(b, k)
  }

  /** When either text is shorter than the limit, the bounded comparison is equality. */
  lemma AgreeIsEquality(a: Text, b: Text, n: nat)
    requires |a| < n || |b| < n
    ensures Agree(a, b, n) <==> a == b
  {
    if Agree(a, b, n) {
      assert CharAt(a, |a|) == 0 && CharAt(b, |b|) == 0;
      assert |a| <= |b|;
      assert |a| < n ==> CharAt(a, |a|) == CharAt(b, |a|);
      assert forall k :: 0 <= k < |a| ==> a[k] == CharAt(a, k) == CharAt(b, k) == b[k];
    }
  }

  method Strncmp(a: Text, b: Text, n: nat) returns (zero: bool)
    ensures zero <==> Agree(a, b, n)
  {
    var i := 0;
    while i < n
      invariant 0 <= i <= n && i <= |a|
      invariant forall k :: 0 <= k < i ==> CharAt(a, k) == CharAt(b, k)
    {
      if CharAt(a, i) != CharAt(b, i) { return false; }
      if CharAt(a, i) == 0 { return true; }
      i := i + 1;
    }
    return true;
  }

  lemma {:induction false} CharsOfText(m: seq<Byte>, at: nat, k: nat)
    requires k <= |TextAt(m, at)| && at + |TextAt(m, at)| < |m|
    ensures m[at + k] == CharAt(TextAt(m, at), k)
    decreases k
  {
    if k > 0 {
      CharsOfText(m, at + 1, k - 1);
    }
  }

  /** Copies at most n - 1 characters of the terminated text at `at`. */
  method Strlcpy(m: seq<Byte>, at: nat, n: nat) returns (dest: Text)
    requires n > 0 && at + |TextAt(m, at)| < |m|
    ensures dest == if |TextAt(m, at)| < n then TextAt(m, at) else TextAt(m, at)[..n - 1]
  {
    hide TextAt;
    dest := [];
    var i := 0;
    ghost var t := TextAt(m, at);
    while i < n - 1
      invariant 0 <= i <= n - 1 && i <= |t|
      invariant dest == t[..i]
    {
      CharsOfText(m, at, i);
      if m[at + i] == 0 { break; }
      dest := dest + [m[at + i]];
      i := i + 1;
    }
  }

  // ---------------------------------------------------------------- one step of the search

  /** Words i on hold the items that are left of a node, and its end. */
  ghost predicate ItemsAt(tree: seq<bv32>, i: nat, rest: seq<Item>, end: bv32) {
    At(tree, i, EncodeItems(rest) + [end])
  }

  /** The three parts of an encoded node in memory. */
  lemma NodeParts(tree: seq<bv32>, i: nat, n: Node)
    requires At(tree, i, EncodeNode(n))
    ensures At(tree, i + 1, NameCells(n.name))
    ensures ItemsAt(tree, i + 1 + |NameCells(n.name)|, n.items, FDT_END_NODE)
    ensures |EncodeNode(n)| == 2 + |NameCells(n.name)| + |EncodeItems(n.items)|
  {
    var a, b, c := [FDT_BEGIN_NODE], NameCells(n.name), EncodeItems(n.items) + [FDT_END_NODE];
    assert EncodeNode(n) == a + b + c;
    AtSplit(tree, i, a + b, c);
    AtSplit(tree, i, a, b);
  }

  /** The cell at the front of the items that remain tells what the next one is. */
  lemma FirstCell(tree: seq<bv32>, i: nat, rest: seq<Item>, end: bv32)
    requires ItemsAt(tree, i, rest, end)
    ensures i + |EncodeItems(rest)| < |tree|
    ensures BigToLittle(tree[i]) == if rest == [] then end else Tag(rest[0])
  {
    var cells := EncodeItems(rest) + [end];
    assert BigToLittle(tree[i + 0]) == cells[0];
    if rest != [] {
      assert cells[0] == EncodeItem(rest[0])[0];
    }
  }

  lemma FirstItem(tree: seq<bv32>, i: nat, rest: seq<Item>, end: bv32, strings: seq<Byte>)
    requires rest != [] && ItemsAt(tree, i, rest, end) && ItemsOk(rest, strings)
    ensures At(tree, i, EncodeItem(rest[0])) && ItemOk(rest[0], strings)
    ensures ItemsAt(tree, i + |EncodeItem(rest[0])|, rest[1..], end) && ItemsOk(rest[1..], strings)
    ensures |EncodeItems(rest)| == |EncodeItem(rest[0])| + |EncodeItems(rest[1..])|
  {
    var a, b := EncodeItem(rest[0]), EncodeItems(rest[1..]) + [end];
    assert EncodeItems(rest) + [end] == a + b;
    AtSplit(tree, i, a, b);
  }

  /** The first wanted property among items encoded from word `at` on. */
  function Found(items: seq<Item>, name: Text, at: nat, strings: seq<Byte>, node: Option<Text>, prop: Text): nat {
    FirstWanted(EntriesOfItems(items, name, at, strings), node, prop)
  }

  lemma ItemPositive(item: Item, name: Text, at: nat, strings: seq<Byte>)
    ensures AllPositive(EntriesOfItem(item, name, at, strings))
  {
    ItemWithin(item, name, at, strings);
  }

  lemma EntriesSplit(rest: seq<Item>, name: Text, at: nat, strings: seq<Byte>)
    requires rest != []
    ensures EntriesOfItems(rest, name, at, strings)
         == EntriesOfItem(rest[0], name, at, strings)
           + EntriesOfItems(rest[1..], name, at + |EncodeItem(rest[0])|, strings)
  {
    hide EntriesOfItem, EncodeItem, EncodeItems, TextAt, AllWithin;
  }

  /** What the search still has to find: the answer of the first item if it has one, else that of the others. */
  lemma FirstOf(rest: seq<Item>, name: Text, at: nat, strings: seq<Byte>, node: Option<Text>, prop: Text)
    requires rest != []
    ensures Found(rest, name, at, strings, node, prop)
         == FirstNonzero(FirstWanted(EntriesOfItem(rest[0], name, at, strings), node, prop),
                         Found(rest[1..], name, at + |EncodeItem(rest[0])|, strings, node, prop))
  {
    hide FirstWanted, EntriesOfItem, EntriesOfItems, AllPositive, EncodeItem, EncodeItems, TextAt, AllWithin;
    ItemPositive(rest[0], name, at, strings);
    EntriesSplit(rest, name, at, strings);
    FirstWantedAppend(EntriesOfItem(rest[0], name, at, strings),
                      EntriesOfItems(rest[1..], name, at + |EncodeItem(rest[0])|, strings), node, prop);
  }

  /** A property found lies among the words searched, so its index survives the conversion to a signed word. */
  lemma FoundWithin(items: seq<Item>, name: Text, at: nat, strings: seq<Byte>, node: Option<Text>, prop: Text)
    ensures Found(items, name, at, strings, node, prop) == 0
         || at < Found(items, name, at, strings, node, prop) < at + |EncodeItems(items)|
  {
    ItemsWithin(items, name, at, strings);
  }

  function AsItems(roots: seq<Node>): (items: seq<Item>)
    ensures |items| == |roots| && forall k :: 0 <= k < |roots| ==> items[k] == Child(roots[k])
  {
    seq(|roots|, k requires 0 <= k < |roots| => Child(roots[k]))
  }

  /** Words i on hold these root nodes, and the end of the block. */
  ghost predicate RootsAt(tree: seq<bv32>, i: nat, roots: seq<Node>, strings: seq<Byte>) {
    ItemsAt(tree, i, AsItems(roots), FDT_END) && ItemsOk(AsItems(roots), strings)
  }

  /** The first wanted property under root nodes encoded from word `at` on. */
  function FoundUnder(roots: seq<Node>, at: nat, strings: seq<Byte>, node: Option<Text>, prop: Text): nat {
    Found(AsItems(roots), [], at, strings, node, prop)
  }

  lemma FoundInBlock(tree: seq<bv32>, roots: seq<Node>, strings: seq<Byte>, node: Option<Text>, prop: Text)
    requires RootsAt(tree, 0, roots, strings)
    ensures FoundUnder(roots, 0, strings, node, prop) < |tree|
  {
    hide BigToLittle;
    FirstCell(tree, 0, AsItems(roots), FDT_END);
    FoundWithin(AsItems(roots), [], 0, strings, node, prop);
  }

  lemma NothingLeft(name: Text, at: nat, strings: seq<Byte>, node: Option<Text>, prop: Text)
    ensures Found([], name, at, strings, node, prop) == 0 && EncodeItems([]) == []
  {}

  lemma NoRoots(at: nat, strings: seq<Byte>, node: Option<Text>, prop: Text)
    ensures FoundUnder([], at, strings, node, prop) == 0
  {
    assert AsItems([]) == [];
    NothingLeft([], at, strings, node, prop);
  }

  /** An unsigned word returned as a signed one. */
  function Signed(x: nat): int {
    if x < 0x8000_0000 then x else x - 0x1_0000_0000
  }

  lemma NodeAnswer(n: Node, at: nat, strings: seq<Byte>, node: Option<Text>, prop: Text)
    ensures FirstWanted(EntriesOfNode(n, at, strings), node, prop)
         == Found(n.items, n.name, at + 1 + |NameCells(n.name)|, strings, node, prop)
  {}

  lemma NopAnswer(name: Text, at: nat, strings: seq<Byte>, node: Option<Text>, prop: Text)
    ensures FirstWanted(EntriesOfItem(Nop, name, at, strings), node, prop) == 0
  {}

  lemma PropEntry(item: Item, name: Text, at: nat, strings: seq<Byte>, node: Option<Text>, prop: Text)
    requires item.Prop?
    ensures FirstWanted(EntriesOfItem(item, name, at, strings), node, prop)
         == if (node.None? || node.value == name) && TextAt(strings, item.nameOff as int) == prop then at + 1 else 0
  {
    var e := Entry(at + 1, name, TextAt(strings, item.nameOff as int));
    assert [e][1..] == [];
    assert FirstWanted([e], node, prop) == if Wanted(e, node, prop) then e.at else FirstWanted([], node, prop);
  }

  lemma RootCell(tree: seq<bv32>, i: nat, roots: seq<Node>, strings: seq<Byte>)
    requires RootsAt(tree, i, roots, strings)
    ensures i < |tree| && BigToLittle(tree[i]) == if roots == [] then FDT_END else FDT_BEGIN_NODE
  {
    hide BigToLittle;
    FirstCell(tree, i, AsItems(roots), FDT_END);
  }

  /** One root node: what the search has to find is in it, or in the nodes after it. */
  lemma RootStep(tree: seq<bv32>, i: nat, roots: seq<Node>, strings: seq<Byte>, node: Option<Text>, prop: Text)
    requires RootsAt(tree, i, roots, strings) && roots != []
    ensures var n := roots[0];
            && At(tree, i, EncodeNode(n)) && NodeOk(n, strings)
            && RootsAt(tree, i + |EncodeNode(n)|, roots[1..], strings)
            && FoundUnder(roots, i, strings, node, prop)
            == FirstNonzero(FirstWanted(EntriesOfNode(n, i, strings), node, prop),
                            FoundUnder(roots[1..], i + |EncodeNode(n)|, strings, node, prop))
  {
    hide At, ItemsAt, Found, FirstWanted, EntriesOfNode, BigToLittle, ItemsOk;
    assert AsItems(roots)[1..] == AsItems(roots[1..]);
    FirstItem(tree, i, AsItems(roots), FDT_END, strings);
    FirstOf(AsItems(roots), [], i, strings, node, prop);
  }

  // ---------------------------------------------------------------- the search

  /** The structure block in memory words, the strings block, and what the header says of them. */
  class Tree {
    const valid: bool
    const tree: seq<bv32>
    const strings: seq<Byte>
    const offStruct: nat
    const totalSize: nat

    constructor (valid: bool, tree: seq<bv32>, strings: seq<Byte>, offStruct: nat, totalSize: nat)
      ensures this.valid == valid && this.tree == tree && this.strings == strings
      ensures this.offStruct == offStruct && this.totalSize == totalSize
    {
      this.valid, this.tree, this.strings := valid, tree, strings;
      this.offStruct, this.totalSize := offStruct, totalSize;
    }

    /** Reads one property, whose FDT_PROP cell is just before word i. */
    method ParseProp(i: nat, current: Text, node: Option<Text>, prop: Text, ghost item: Item)
      returns (result: nat, i': nat)
      requires item.Prop? && ItemOk(item, strings) && |current| < DT_STRING_MAXSIZE
      requires i > 0 && At(tree, i - 1, EncodeItem(item))
      ensures result == FirstWanted(EntriesOfItem(item, current, i - 1, strings), node, prop)
      ensures result == 0 ==> i' == i - 1 + |EncodeItem(item)|
    {
      var start := i;
      i' := i;
      assert EncodeItem(item)[1] == item.len && EncodeItem(item)[2] == item.nameOff;
      var length := BigToLittle(tree[i']);
      assert length == item.len;
      i' := i' + 1;
      var offset := BigToLittle(tree[i']);
      assert offset == item.nameOff;
      var name := Strlcpy(strings, offset as int, DT_STRING_MAXSIZE);
      PropEntry(item, current, i - 1, strings, node, prop);
      var here := true;
      if node.Some? {
        AgreeIsEquality(node.value, current, DT_STRING_MAXSIZE);
        here := Strncmp(node.value, current, DT_STRING_MAXSIZE);
      }
      if here {
        AgreeIsEquality(name, prop, DT_STRING_MAXSIZE);
        var same := Strncmp(name, prop, DT_STRING_MAXSIZE);
        if same { return start, i'; }
      }
      i' := i' + 1;
      var words := (length as int + 3) / 4;
      var j := 0;
      while j < words
        invariant 0 <= j <= words && i' == i + 2 + j
      {
        i' := i' + 1;
        j := j + 1;
      }
      return 0, i';
    }

    /** Skips to the end of a padded name. */
    method SkipName(i: nat, ghost name: Text) returns (i': nat)
      requires At(tree, i, NameCells(name))
      ensures i' == i + |NameCells(name)|
    {
      NameReadsBack(tree, i, name);
      i' := i;
      while true
        invariant i <= i' <= i + |name| / 4
        decreases i + |name| / 4 - i'
      {
        var last := EndsName(tree, i');
        i' := i' + 1;
        if last { break; }
      }
    }

    /** The cells of a node behind its name, item by item, up to FDT_END_NODE. */
    method ParseItems(i: nat, current: Text, node: Option<Text>, prop: Text, ghost n: Node)
      returns (result: nat, i': nat)
      requires ItemsAt(tree, i, n.items, FDT_END_NODE) && ItemsOk(n.items, strings)
      requires current == n.name && |n.name| < DT_STRING_MAXSIZE
      ensures result == Found(n.items, n.name, i, strings, node, prop)
      ensures result == 0 ==> i' == i + |EncodeItems(n.items)| + 1
      decreases n, 0
    {
      hide BigToLittle, FirstWanted, EntriesOfItems, EntriesOfNode, At, ItemsAt, Found, EncodeItems, EncodeNode,
           ItemsOk;
      ghost var k, rest := 0, n.items;
      i' := i;
      while true
        invariant 0 <= k <= |n.items| && rest == n.items[k..]
        invariant ItemsOk(rest, strings) && ItemsAt(tree, i', rest, FDT_END_NODE)
        invariant i' + |EncodeItems(rest)| == i + |EncodeItems(n.items)|
        invariant Found(rest, n.name, i', strings, node, prop) == Found(n.items, n.name, i, strings, node, prop)
        decreases |n.items| - k
      {
        FirstCell(tree, i', rest, FDT_END_NODE);
        var cell := BigToLittle(tree[i']);
        if rest != [] {
          FirstItem(tree, i', rest, FDT_END_NODE, strings);
          FirstOf(rest, n.name, i', strings, node, prop);
        }
        if cell == FDT_NOP {
          NopAnswer(n.name, i', strings, node, prop);
          i' := i' + 1;
          k, rest := k + 1, rest[1..];
          continue;
        }
        if cell == FDT_PROP {
          i' := i' + 1;
          result, i' := ParseProp(i', current, node, prop, rest[0]);
          if result > 0 { return; }
          k, rest := k + 1, rest[1..];
        } else if cell == FDT_BEGIN_NODE {
          result, i' := ParseNode(i', node, prop, rest[0].node);
          if result > 0 { return; }
          k, rest := k + 1, rest[1..];
        } else {
          assert rest == [];
          NothingLeft(n.name, i', strings, node, prop);
          i' := i' + 1;
          break;
        }
      }
      result := 0;
    }

    /** Searches the node whose FDT_BEGIN_NODE cell is expected at word i; anything else there is refused. */
    method ParseNode(i: nat, node: Option<Text>, prop: Text, ghost n: Node) returns (result: nat, i': nat)
      requires i < |tree|
      requires BigToLittle(tree[i]) == FDT_BEGIN_NODE ==> At(tree, i, EncodeNode(n)) && NodeOk(n, strings)
      ensures BigToLittle(tree[i]) != FDT_BEGIN_NODE ==> result == 0xffff_ffff && i' == i + 1
      ensures BigToLittle(tree[i]) == FDT_BEGIN_NODE ==>
                && result == FirstWanted(EntriesOfNode(n, i, strings), node, prop)
                && (result == 0 ==> i' == i + |EncodeNode(n)|)
      decreases n, 1
    {
      hide BigToLittle, FirstWanted, EntriesOfItems, EntriesOfNode, NameCells, At, ItemsAt, TextAt, MemBytes, Found,
           EncodeItems, EncodeNode, ItemsOk;
      if BigToLittle(tree[i]) != FDT_BEGIN_NODE {
        return 0xffff_ffff, i + 1;
      }
      NodeParts(tree, i, n);
      NameReadsBack(tree, i + 1, n.name);
      var current := Strlcpy(MemBytes(tree), 4 * (i + 1), DT_STRING_MAXSIZE);
      assert current == n.name;
      i' := SkipName(i + 1, n.name);
      NodeAnswer(n, i, strings, node, prop);
      result, i' := ParseItems(i', current, node, prop, n);
    }

    /** The first property called prop, in a node called node unless that is None; ENOENT when there is none.
        A conforming block has one root; the loop of the search accepts any number. */
    method FindNodeProp(node: Option<Text>, prop: Text, ghost roots: seq<Node>) returns (result: int)
      requires valid ==> RootsAt(tree, 0, roots, strings)
      requires offStruct + 4 * |tree| <= totalSize < 0x1_0000_0000
      ensures !valid ==> result == -ENODEV
      ensures valid && roots == [] ==> result == -1
      ensures valid && roots != [] ==>
                var found := FoundUnder(roots, 0, strings, node, prop);
                result == if found > 0 then found else -ENOENT
    {
      hide BigToLittle, FirstWanted, At, RootsAt, FoundUnder, EncodeItems, EncodeNode, EntriesOfNode, NodeOk;
      if !valid { return -ENODEV; }
      ghost var rest := roots;
      var i := 0;
      RootCell(tree, i, rest, strings);
      FoundInBlock(tree, roots, strings, node, prop);
      while true
        invariant RootsAt(tree, i, rest, strings) && (rest == [] ==> roots == [])
        invariant i < |tree| && BigToLittle(tree[i]) == if rest == [] then FDT_END else FDT_BEGIN_NODE
        invariant FoundUnder(rest, i, strings, node, prop) == FoundUnder(roots, 0, strings, node, prop)
        decreases |rest|
      {
        if rest != [] { RootStep(tree, i, rest, strings, node, prop); }
        var found, next := ParseNode(i, node, prop, if rest == [] then Node([], []) else rest[0]);
        if found > 0 { return Signed(found); }
        i := next;
        rest := rest[1..];
        RootCell(tree, i, rest, strings);
        if BigToLittle(tree[i]) == FDT_END { break; }
        if offStruct + i * 4 > totalSize { break; }
      }
      NoRoots(i, strings, node, prop);
      return -ENOENT;
    }

    /** The first value cell of the property found at word start. */
    method PropInt(start: nat, ghost item: Item) returns (result: int, value: bv32)
      requires item.Prop? && item.value != []
      requires start > 0 && At(tree, start - 1, EncodeItem(item))
      ensures result == if valid then 0 else -ENODEV
      ensures valid ==> value == item.value[0]
    {
      if !valid { return -ENODEV, 0; }
      assert EncodeItem(item)[3] == item.value[0];
      return 0, BigToLittle(tree[start + 2]);
    }
  }
}

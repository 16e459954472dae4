/** Building, freeing and reading back the node trees handed to libmpv
    (mpvcontroller.cpp): `convertInput`, `freeInputNode`, `assign` and
    `copyNodeValue`, over an explicit heap whose every allocation may fail. */
module Nodes {
  import opened Native

  type Byte = n: int | 0 <= n < 256 witness 0

  const QSIZE_MAX := 0x7fff_ffff_ffff_ffff

  /** A QByteArray: its length fits a `qsizetype`. */
  type ByteString = s: seq<Byte> | |s| <= QSIZE_MAX witness []

  /** A heap address; 0 is the null pointer. */
  type Addr = nat

  datatype Node =
    | NoneNode
    | StringNode(text: Addr)
    | FlagNode(flag: int)
    | Int64Node(value: int)
    | DoubleNode(number: Number)
    | BytesNode(bytes: Addr)
    | ArrayNode(list: Addr)
    | MapNode(list: Addr)

  /** What one allocation holds. A text is kept without its terminating zero. */
  datatype Cell =
    | Text(chars: seq<Byte>)
    | ByteArray(data: Addr, size: nat)
    | Data(content: seq<Byte>)
    | List(num: int, values: Addr, keys: Addr)
    | Values(nodes: seq<Node>)
    | Keys(texts: seq<Addr>)

  type Cells = map<Addr, Cell>

  /** The variants an application passes in. Map entries come in key order. */
  datatype Value =
    | Invalid
    | Str(text: seq<Byte>)
    | Bool(truth: bool)
    | Int(integer: int)
    | Real(number: Number)
    | Bytes(data: ByteString)
    | StrList(texts: seq<seq<Byte>>)
    | VarList(items: seq<Value>)
    | VarMap(entries: seq<Entry>)
    | Unsupported

  datatype Entry = Entry(key: seq<Byte>, value: Value)

  /** The variants read back. */
  datatype Copy =
    | NoCopy
    | StrCopy(text: seq<Byte>)
    | BoolCopy(truth: bool)
    | IntCopy(integer: int)
    | RealCopy(number: Number)
    | BytesCopy(data: seq<Byte>)
    | ListCopy(items: seq<Copy>)
    | MapCopy(entries: map<seq<Byte>, Copy>)

  // ----- what a value means to libmpv -----

  /** The text up to its first zero byte. */
  function CString(text: seq<Byte>): seq<Byte> {
    if text == [] || text[0] == 0 then [] else [text[0]] + CString(text[1..])
  }

  /** Two's complement of 64 bits. */
  function Int64(n: int): int {
    (n + 0x8000_0000_0000_0000) % 0x1_0000_0000_0000_0000 - 0x8000_0000_0000_0000
  }

  /** The value as libmpv gets to see it. */
  function Normalized(v: Value): Copy {
    match v
    case Invalid => NoCopy
    case Str(text) => StrCopy(CString(text))
    case Bool(truth) => BoolCopy(truth)
    case Int(n) => IntCopy(Int64(n))
    case Real(x) => RealCopy(x)
    case Bytes(data) => BytesCopy(data)
    case StrList(texts) => ListCopy(seq(|texts|, i requires 0 <= i < |texts| => StrCopy(CString(texts[i]))))
    case VarList(items) => ListCopy(seq(|items|, i requires 0 <= i < |items| => Normalized(items[i])))
    case VarMap(entries) => MapCopy(NormalizedEntries(entries))
    case Unsupported => NoCopy
  }

  function NormalizedEntries(entries: seq<Entry>): map<seq<Byte>, Copy> {
    if entries == [] then map[]
    else
      var last := entries[|entries| - 1];
      NormalizedEntries(entries[..|entries| - 1])[CString(last.key) := Normalized(last.value)]
  }

  /** Every part of the value has a node form. */
  predicate Supported(v: Value) {
    match v
    case StrList(texts) => |texts| <= INT32_MAX
    case VarList(items) => |items| <= INT32_MAX && forall i :: 0 <= i < |items| ==> Supported(items[i])
    case VarMap(entries) => |entries| <= INT32_MAX && forall i :: 0 <= i < |entries| ==> Supported(entries[i].value)
    case Unsupported => false
    case _ => true
  }

  // ----- trees in the heap -----

  /** What a node owns, part by part; a part not allocated yet is 0. */
  datatype Shape =
    | Leaf
    | TextShape(text: Addr)
    | BytesShape(header: Addr, data: Addr)
    | ListShape(header: Addr, values: Addr, keys: Addr, texts: seq<Addr>, items: seq<Shape>)

  function Own(a: Addr): set<Addr> {
    if a == 0 then {} else {a}
  }

  function FootTexts(texts: seq<Addr>): set<Addr> {
    if texts == [] then {} else FootTexts(texts[..|texts| - 1]) + Own(texts[|texts| - 1])
  }

  /** The cells a tree owns. */
  function Foot(shape: Shape): set<Addr> {
    match shape
    case Leaf => {}
    case TextShape(a) => Own(a)
    case BytesShape(header, data) => Own(header) + Own(data)
    case ListShape(header, values, keys, texts, items) =>
      Own(header) + Own(values) + Own(keys) + FootTexts(texts) + FootAll(items)
  }

  function FootAll(items: seq<Shape>): set<Addr> {
    if items == [] then {} else FootAll(items[..|items| - 1]) + Foot(items[|items| - 1])
  }

  predicate DistinctTexts(texts: seq<Addr>) {
    texts == [] || (DistinctTexts(texts[..|texts| - 1])
                    && (texts[|texts| - 1] == 0 || texts[|texts| - 1] !in FootTexts(texts[..|texts| - 1])))
  }

  /** No cell is owned twice. */
  predicate Separate(shape: Shape) {
    match shape
    case Leaf => true
    case TextShape(_) => true
    case BytesShape(header, data) => header == 0 || header != data
    case ListShape(header, values, keys, texts, items) =>
      && (header == 0 ==> values == 0 && keys == 0 && texts == [] && items == [])
      && Own(header) !! Own(values) !! Own(keys) !! FootTexts(texts) !! FootAll(items)
      && DistinctTexts(texts) && SeparateAll(items)
  }

  predicate SeparateAll(items: seq<Shape>) {
    items == [] || (SeparateAll(items[..|items| - 1]) && Separate(items[|items| - 1])
                    && FootAll(items[..|items| - 1]) !! Foot(items[|items| - 1]))
  }

  predicate TextAt(cells: Cells, a: Addr) {
    a == 0 || (a in cells && cells[a].Text?)
  }

  /** The list structure of a node, without its children. */
  predicate ListFits(cells: Cells, node: Node, header: Addr, values: Addr, keys: Addr, texts: seq<Addr>, count: nat) {
    && (node == ArrayNode(header) || node == MapNode(header))
    && (node.ArrayNode? ==> keys == 0)
    && (header == 0 ==> values == 0 && keys == 0)
    && (header != 0 ==> header in cells && cells[header].List?
                        && cells[header].values == values && cells[header].keys == keys)
    && (values == 0 ==> count == 0)
    && (values != 0 ==> values in cells && cells[values].Values?
                        && |cells[values].nodes| == count == cells[header].num)
    && (keys == 0 ==> texts == [])
    && (keys != 0 ==> keys in cells && cells[keys] == Keys(texts) && |texts| == cells[header].num
                      && forall i :: 0 <= i < |texts| ==> TextAt(cells, texts[i]))
  }

  /** The node is the root of a tree of the given shape. */
  predicate Represents(cells: Cells, node: Node, shape: Shape)
    decreases shape
  {
    match shape
    case Leaf => node.NoneNode? || node.FlagNode? || node.Int64Node? || node.DoubleNode?
    case TextShape(a) => node == StringNode(a) && TextAt(cells, a)
    case BytesShape(header, data) =>
      node == BytesNode(header)
      && (header == 0 ==> data == 0)
      && (header != 0 ==> header in cells && cells[header].ByteArray? && cells[header].data == data)
      && (data != 0 ==> data in cells && cells[data].Data? && |cells[data].content| == cells[header].size)
    case ListShape(header, values, keys, texts, items) =>
      ListFits(cells, node, header, values, keys, texts, |items|)
      && (values != 0 ==>
            forall i :: 0 <= i < |items| ==> Represents(cells, cells[values].nodes[i], items[i]))
  }

  /** What reading the tree back yields (`copyNodeValue`). */
  function Decoded(cells: Cells, node: Node, shape: Shape): Copy
    requires Represents(cells, node, shape)
    decreases shape
  {
    match shape
    case Leaf => DecodedLeaf(node)
    case TextShape(a) => StrCopy(TextOf(cells, a))
    case BytesShape(header, data) => DecodedBytes(cells, header, data)
    case ListShape(header, values, keys, texts, items) =>
      if header == 0 || cells[header].num < 0 then NoCopy
      else if cells[header].num != 0 && (values == 0 || (node.MapNode? && keys == 0)) then NoCopy
      else
        var copies := seq(|items|, i requires 0 <= i < |items| => Decoded(cells, cells[values].nodes[i], items[i]));
        if node.ArrayNode? then ListCopy(copies)
        else MapCopy(Paired(cells, if keys == 0 then [] else texts, copies))
  }

  function DecodedLeaf(node: Node): Copy {
    match node
    case FlagNode(flag) => BoolCopy(flag != 0)
    case Int64Node(n) => IntCopy(n)
    case DoubleNode(x) => RealCopy(x)
    case _ => NoCopy
  }

  function TextOf(cells: Cells, a: Addr): seq<Byte>
    requires TextAt(cells, a)
  {
    if a == 0 then [] else cells[a].chars
  }

  function DecodedBytes(cells: Cells, header: Addr, data: Addr): Copy
    requires Represents(cells, BytesNode(header), BytesShape(header, data))
  {
    if header == 0 || (data == 0 && cells[header].size != 0) || cells[header].size > QSIZE_MAX then NoCopy
    else BytesCopy(if data == 0 then [] else cells[data].content)
  }

  /** Inserting the entries one after another; a repeated key keeps the last value. */
  function Paired(cells: Cells, texts: seq<Addr>, copies: seq<Copy>): map<seq<Byte>, Copy>
    requires |texts| == |copies| && forall i :: 0 <= i < |texts| ==> TextAt(cells, texts[i])
  {
    if texts == [] then map[]
    else
      var last := |texts| - 1;
      Paired(cells, texts[..last], copies[..last])[TextOf(cells, texts[last]) := copies[last]]
  }

  lemma {:induction false} FootOfItem(items: seq<Shape>, i: nat)
    requires i < |items|
    ensures Foot(items[i]) <= FootAll(items)
  {
    if i < |items| - 1 { FootOfItem(items[..|items| - 1], i); }
  }

  lemma {:induction false} FootOfText(texts: seq<Addr>, i: nat)
    requires i < |texts|
    ensures Own(texts[i]) <= FootTexts(texts)
  {
    if i < |texts| - 1 { FootOfText(texts[..|texts| - 1], i); }
  }

  /** A tree does not depend on cells it does not own. */
  lemma {:induction false} Frame(a: Cells, b: Cells, node: Node, shape: Shape)
    requires Represents(a, node, shape)
    requires forall x :: x in Foot(shape) && x in a ==> x in b && b[x] == a[x]
    ensures Represents(b, node, shape)
    ensures Decoded(b, node, shape) == Decoded(a, node, shape)
    decreases shape
  {
    match shape
    case ListShape(header, values, keys, texts, items) =>
      forall i | 0 <= i < |texts| ensures TextAt(b, texts[i]) && TextOf(b, texts[i]) == TextOf(a, texts[i]) {
        FootOfText(texts, i);
      }
      assert ListFits(b, node, header, values, keys, texts, |items|);
      forall i | 0 <= i < |items|
        ensures Represents(b, b[values].nodes[i], items[i])
        ensures Decoded(b, b[values].nodes[i], items[i]) == Decoded(a, a[values].nodes[i], items[i])
      {
        FootOfItem(items, i);
        Frame(a, b, a[values].nodes[i], items[i]);
      }
      FramePaired(a, b, node, shape);
    case _ =>
  }

  lemma FramePaired(a: Cells, b: Cells, node: Node, shape: Shape)
    requires shape.ListShape? && Represents(a, node, shape) && Represents(b, node, shape)
    requires shape.header != 0 ==> b[shape.header] == a[shape.header]
    requires forall i :: 0 <= i < |shape.texts| ==> TextOf(b, shape.texts[i]) == TextOf(a, shape.texts[i])
    requires forall i :: 0 <= i < |shape.items| ==>
                           Decoded(b, b[shape.values].nodes[i], shape.items[i])
                           == Decoded(a, a[shape.values].nodes[i], shape.items[i])
    ensures Decoded(b, node, shape) == Decoded(a, node, shape)
  {
    var items, texts := shape.items, shape.texts;
    if shape.header != 0 && shape.values != 0 {
      var was := seq(|items|, i requires 0 <= i < |items| => Decoded(a, a[shape.values].nodes[i], items[i]));
      var now := seq(|items|, i requires 0 <= i < |items| => Decoded(b, b[shape.values].nodes[i], items[i]));
      assert was == now;
      if node.MapNode? && shape.keys != 0 { SamePairs(a, b, texts, was); }
    }
  }

  lemma {:induction false} SamePairs(a: Cells, b: Cells, texts: seq<Addr>, copies: seq<Copy>)
    requires |texts| == |copies|
    requires forall i :: 0 <= i < |texts| ==> TextAt(a, texts[i]) && TextAt(b, texts[i])
    requires forall i :: 0 <= i < |texts| ==> TextOf(b, texts[i]) == TextOf(a, texts[i])
    ensures Paired(b, texts, copies) == Paired(a, texts, copies)
  {
    if texts != [] { SamePairs(a, b, texts[..|texts| - 1], copies[..|texts| - 1]); }
  }

  /** A represented tree's cells are in the heap. */
  lemma {:induction false} FootInHeap(cells: Cells, node: Node, shape: Shape)
    requires Represents(cells, node, shape)
    ensures Foot(shape) <= cells.Keys
    decreases shape
  {
    match shape
    case ListShape(header, values, keys, texts, items) =>
      if values != 0 { FootAllInHeap(cells, cells[values].nodes, items); }
      TextsInHeap(cells, texts);
    case _ =>
  }

  lemma {:induction false} FootAllInHeap(cells: Cells, nodes: seq<Node>, items: seq<Shape>)
    requires |nodes| == |items| && forall i :: 0 <= i < |items| ==> Represents(cells, nodes[i], items[i])
    ensures FootAll(items) <= cells.Keys
    decreases items
  {
    if items != [] {
      FootAllInHeap(cells, nodes[..|items| - 1], items[..|items| - 1]);
      FootInHeap(cells, nodes[|items| - 1], items[|items| - 1]);
    }
  }

  lemma {:induction false} TextsInHeap(cells: Cells, texts: seq<Addr>)
    requires forall i :: 0 <= i < |texts| ==> TextAt(cells, texts[i])
    ensures FootTexts(texts) <= cells.Keys
  {
    if texts != [] { TextsInHeap(cells, texts[..|texts| - 1]); }
  }
}

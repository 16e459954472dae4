/** `convertInput`, `freeInputNode`, `copyNodeValue` and the `MpvInputNode` that
    owns one tree (mpvcontroller.cpp). Converting a QString, QByteArray or list
    may also throw before it allocates; every such point throws at will here. */
module NodeConversion {
  import opened Native
  import opened Nodes
  import opened NodeMemory

  // ----- what a conversion is to produce -----

  /** A QStringList is converted as the list of its strings. */
  function ItemsOf(v: Value): seq<Value>
    requires v.StrList? || v.VarList?
  {
    if v.VarList? then v.items else seq(|v.texts|, i requires 0 <= i < |v.texts| => Str(v.texts[i]))
  }

  function Higher(a: nat, b: nat): nat {
    if a < b then b else a
  }

  function Height(v: Value): nat {
    match v
    case StrList(texts) => 1
    case VarList(items) => 1 + HeightAll(items)
    case VarMap(entries) => 1 + HeightEntries(entries)
    case _ => 0
  }

  function HeightAll(items: seq<Value>): nat {
    if items == [] then 0 else Higher(HeightAll(items[..|items| - 1]), Height(items[|items| - 1]))
  }

  function HeightEntries(entries: seq<Entry>): nat {
    if entries == [] then 0 else Higher(HeightEntries(entries[..|entries| - 1]), Height(entries[|entries| - 1].value))
  }

  lemma {:induction false} ItemIsLower(items: seq<Value>, i: nat)
    requires i < |items|
    ensures Height(items[i]) <= HeightAll(items)
  {
    if i < |items| - 1 { ItemIsLower(items[..|items| - 1], i); }
  }

  lemma {:induction false} EntryIsLower(entries: seq<Entry>, i: nat)
    requires i < |entries|
    ensures Height(entries[i].value) <= HeightEntries(entries)
  {
    if i < |entries| - 1 { EntryIsLower(entries[..|entries| - 1], i); }
  }

  lemma {:induction false} StringsAreLow(items: seq<Value>)
    requires forall i :: 0 <= i < |items| ==> items[i].Str?
    ensures HeightAll(items) == 0
  {
    if items != [] { StringsAreLow(items[..|items| - 1]); }
  }

  ghost predicate AllSupported(items: seq<Value>) {
    |items| <= INT32_MAX && forall i :: 0 <= i < |items| ==> Supported(items[i])
  }

  ghost predicate EntriesSupported(entries: seq<Entry>) {
    |entries| <= INT32_MAX && forall i :: 0 <= i < |entries| ==> Supported(entries[i].value)
  }

  ghost function NormalizedAll(items: seq<Value>): Copy {
    ListCopy(seq(|items|, i requires 0 <= i < |items| => Normalized(items[i])))
  }

  lemma ListMeansItems(v: Value)
    requires v.StrList? || v.VarList?
    ensures Normalized(v) == NormalizedAll(ItemsOf(v))
    ensures Supported(v) <==> AllSupported(ItemsOf(v))
    ensures HeightAll(ItemsOf(v)) < Height(v)
  {
    if v.StrList? {
      StringsAreLow(ItemsOf(v));
      assert Normalized(v).items == NormalizedAll(ItemsOf(v)).items;
    }
  }

  /** The first `n` elements of an array tree read as the first `n` items. */
  ghost predicate Matches(cells: Cells, node: Node, shape: Shape, items: seq<Value>, n: nat)
    requires Represents(cells, node, shape)
  {
    && shape.ListShape? && node == ArrayNode(shape.header)
    && shape.header != 0 && shape.values != 0 && |shape.items| == |items|
    && (forall j :: 0 <= j < n && j < |items| ==>
                      Decoded(cells, cells[shape.values].nodes[j], shape.items[j]) == Normalized(items[j]))
    && forall j :: n <= j < |items| ==> cells[shape.values].nodes[j] == NoneNode && shape.items[j] == Leaf
  }

  lemma MatchedReadsBack(cells: Cells, node: Node, shape: Shape, items: seq<Value>)
    requires Represents(cells, node, shape) && Matches(cells, node, shape, items, |items|)
    ensures Decoded(cells, node, shape) == NormalizedAll(items)
  {
    var copies := seq(|shape.items|, i requires 0 <= i < |shape.items| =>
        Decoded(cells, cells[shape.values].nodes[i], shape.items[i]));
    assert copies == NormalizedAll(items).items;
  }

  /** The first `m` keys and `n` values of a map tree read as those of the entries. */
  ghost predicate MatchesMap(cells: Cells, node: Node, shape: Shape, entries: seq<Entry>, m: nat, n: nat)
    requires Represents(cells, node, shape)
  {
    && shape.ListShape? && node == MapNode(shape.header)
    && shape.header != 0 && shape.values != 0 && shape.keys != 0
    && |shape.items| == |shape.texts| == |entries|
    && (forall j :: 0 <= j < m && j < |entries| ==> TextOf(cells, shape.texts[j]) == CString(entries[j].key))
    && (forall j :: m <= j < |entries| ==> shape.texts[j] == 0)
    && (forall j :: 0 <= j < n && j < |entries| ==>
                      Decoded(cells, cells[shape.values].nodes[j], shape.items[j]) == Normalized(entries[j].value))
    && forall j :: n <= j < |entries| ==> cells[shape.values].nodes[j] == NoneNode && shape.items[j] == Leaf
  }

  /** The copies of a map's elements, paired with its keys, are the map. */
  lemma CopiesDecode(cells: Cells, node: Node, shape: Shape, copies: seq<Copy>)
    requires Represents(cells, node, shape) && node.MapNode? && shape.header != 0 && |copies| == |shape.items|
    requires 0 <= cells[shape.header].num == |copies|
    requires shape.values == 0 || shape.keys == 0 ==> cells[shape.header].num == 0
    requires forall j :: 0 <= j < |copies| ==>
                           copies[j] == Decoded(cells, cells[shape.values].nodes[j], shape.items[j])
    ensures Decoded(cells, node, shape) == MapCopy(Paired(cells, if shape.keys == 0 then [] else shape.texts, copies))
  {
    assert copies == seq(|shape.items|, j requires 0 <= j < |shape.items| =>
        Decoded(cells, cells[shape.values].nodes[j], shape.items[j]));
  }

  /** A list conversion that has done its first `i` items. */
  ghost predicate ListInProgress(before: Cells, cells: Cells, p: Place, shape: Shape, values: Addr,
                                 items: seq<Value>, i: nat) {
    && Grown(before, cells, p, shape)
    && Matches(cells, NodeAt(cells, p), shape, items, i)
    && shape.values == values
    && forall j :: 0 <= j < i && j < |items| ==> Supported(items[j])
  }

  /** A map conversion that has done its first `i` entries. */
  ghost predicate MapInProgress(before: Cells, cells: Cells, p: Place, shape: Shape, values: Addr, keys: Addr,
                                entries: seq<Entry>, i: nat) {
    && Grown(before, cells, p, shape)
    && MatchesMap(cells, NodeAt(cells, p), shape, entries, i, i)
    && shape.values == values && shape.keys == keys
    && forall j :: 0 <= j < i && j < |entries| ==> Supported(entries[j].value)
  }

  lemma {:induction false} PairedIsNormalized(cells: Cells, texts: seq<Addr>, copies: seq<Copy>, entries: seq<Entry>)
    requires |texts| == |copies| == |entries|
    requires forall i :: 0 <= i < |texts| ==>
               TextAt(cells, texts[i]) && TextOf(cells, texts[i]) == CString(entries[i].key)
    requires forall i :: 0 <= i < |texts| ==> copies[i] == Normalized(entries[i].value)
    ensures Paired(cells, texts, copies) == NormalizedEntries(entries)
  {
    if texts != [] {
      var last := |texts| - 1;
      PairedIsNormalized(cells, texts[..last], copies[..last], entries[..last]);
    }
  }

  lemma MatchedMapReadsBack(cells: Cells, node: Node, shape: Shape, entries: seq<Entry>)
    requires Represents(cells, node, shape) && MatchesMap(cells, node, shape, entries, |entries|, |entries|)
    ensures Decoded(cells, node, shape) == MapCopy(NormalizedEntries(entries))
  {
    var copies := seq(|shape.items|, i requires 0 <= i < |shape.items| =>
        Decoded(cells, cells[shape.values].nodes[i], shape.items[i]));
    PairedIsNormalized(cells, shape.texts, copies, entries);
  }

  /** Once the elements are gone, the three blocks of the list itself remain. */
  lemma ListRemains(before: Cells, now: Cells, node: Node, shape: Shape, i: nat)
    requires shape.ListShape? && shape.header != 0 && Represents(before, node, shape) && Separate(shape)
    requires Cleared(before, now, shape, i, i) && before[shape.header].num <= i && 0 !in now
    ensures Own(shape.header) + Own(shape.values) + Own(shape.keys) <= now.Keys
    ensures now - Own(shape.keys) - Own(shape.values) - Own(shape.header) == before - Foot(shape)
  {
    assert Upto(shape.texts, i) == shape.texts && Upto(shape.items, i) == shape.items;
  }

  lemma {:induction false} Unused(cells: set<Addr>) returns (a: Addr)
    ensures a != 0 && a !in cells && forall x :: x in cells ==> x < a
  {
    a := 1;
    if cells != {} {
      var x :| x in cells;
      var b := Unused(cells - {x});
      a := Higher(b, x + 1);
      forall y | y in cells ensures y < a {
        assert y == x || y in cells - {x};
      }
    }
  }

  /** An empty list of `n`, all blocks allocated. */
  ghost predicate Begun(cells: Cells, node: Node, isMap: bool, list: Addr, n: nat, shape: Shape) {
    && shape.ListShape? && shape.header == list != 0 && shape.values != 0 && (isMap ==> shape.keys != 0)
    && node == (if isMap then MapNode(list) else ArrayNode(list))
    && list in cells && cells[list] == List(n, shape.values, shape.keys)
    && shape.values in cells && cells[shape.values] == Values(seq(n, _ => NoneNode))
    && shape.items == seq(n, _ => Leaf)
    && shape.texts == if isMap then seq(n, _ => 0) else []
  }

  /** A list of `n` whose elements are still to come. */
  ghost function BareShape(list: Addr, n: nat, values: Addr, keys: Addr): Shape {
    ListShape(list, values, keys, if keys == 0 then [] else seq(n, _ => 0), seq(n, _ => Leaf))
  }

  lemma BareStands(cells: Cells, node: Node, list: Addr, n: nat, values: Addr, keys: Addr)
    requires node == MapNode(list) || (node == ArrayNode(list) && keys == 0)
    requires list != 0 && values != 0 && list != values && keys != list && keys != values
    requires list in cells && cells[list] == List(n, values, keys)
    requires values in cells && cells[values] == Values(seq(n, _ => NoneNode))
    requires keys != 0 ==> keys in cells && cells[keys] == Keys(seq(n, _ => 0))
    ensures Represents(cells, node, BareShape(list, n, values, keys)) && Separate(BareShape(list, n, values, keys))
    ensures Foot(BareShape(list, n, values, keys)) == {list, values} + Own(keys)
  {
    Bare(n);
  }

  lemma ItemConverted(middle: Cells, after: Cells, node: Node, shape: Shape, items: seq<Value>, i: nat, s: Shape)
    requires i < |items| && Represents(middle, node, shape) && Matches(middle, node, shape, items, i)
    requires SlotFilled(middle, after, node, shape, i, s)
    requires Represents(after, node, shape.(items := shape.items[i := s]))
    requires Decoded(after, after[shape.values].nodes[i], s) == Normalized(items[i])
    ensures Matches(after, node, shape.(items := shape.items[i := s]), items, i + 1)
  {
  }

  lemma EntryConverted(middle: Cells, after: Cells, node: Node, shape: Shape, entries: seq<Entry>, i: nat, s: Shape)
    requires i < |entries| && Represents(middle, node, shape) && Separate(shape)
    requires MatchesMap(middle, node, shape, entries, i + 1, i)
    requires SlotFilled(middle, after, node, shape, i, s)
    requires Represents(after, node, shape.(items := shape.items[i := s]))
    requires Decoded(after, after[shape.values].nodes[i], s) == Normalized(entries[i].value)
    ensures MatchesMap(after, node, shape.(items := shape.items[i := s]), entries, i + 1, i + 1)
  {
    forall j | 0 <= j < |shape.texts| ensures TextOf(after, shape.texts[j]) == TextOf(middle, shape.texts[j]) {
      FootOfText(shape.texts, j);
    }
  }

  lemma KeyConverted(before: Cells, middle: Cells, after: Cells, p: Place, shape: Shape,
                     entries: seq<Entry>, i: nat, t: Addr)
    requires Grown(before, middle, p, shape) && i < |entries| && t != 0 && t !in middle
    requires MatchesMap(middle, NodeAt(middle, p), shape, entries, i, i)
    requires after == middle[t := Text(CString(entries[i].key))][shape.keys := Keys(shape.texts[i := t])]
    requires Grown(before, after, p, shape.(texts := shape.texts[i := t]))
    ensures MatchesMap(after, NodeAt(after, p), shape.(texts := shape.texts[i := t]), entries, i + 1, i)
  {
    assert shape.keys in Foot(shape);
    FootInHeap(middle, NodeAt(middle, p), shape);
    KeyKeepsItems(middle, after, NodeAt(middle, p), shape);
    forall j | 0 <= j < |shape.texts| && j != i
      ensures TextOf(after, shape.texts[j]) == TextOf(middle, shape.texts[j])
    {
      FootOfText(shape.texts, j);
    }
  }

  // ----- the memory -----

  class Memory {
    var cells: Cells

    constructor ()
      ensures cells == map[]
    {
      cells := map[];
    }

    /** `new` or `qstrdup`: 0 stands for std::bad_alloc. */
    method Allocate(cell: Cell) returns (a: Addr)
      modifies this
      ensures a == 0 ==> cells == old(cells)
      ensures a != 0 ==> a !in old(cells) && cells == old(cells)[a := cell]
    {
      var fails: bool := *;
      if fails { return 0; }
      ghost var unused := Unused(cells.Keys);
      assert unused != 0 && unused !in cells;
      a :| a != 0 && a !in cells;
      cells := cells[a := cell];
    }

    /** `delete` or `delete[]`; deleting null does nothing. */
    method Delete(a: Addr)
      requires a == 0 || a in cells
      requires 0 !in cells
      modifies this
      ensures cells == old(cells) - Own(a)
    {
      if a != 0 { cells := cells - {a}; }
    }

    method SetNode(p: Place, node: Node)
      requires ValidPlace(cells, p)
      modifies this
      ensures cells == Put(old(cells), p, node)
    {
      cells := Put(cells, p, node);
    }

    /** mpvcontroller.cpp, `freeInputNode`. */
    method FreeInputNode(p: Place, ghost shape: Shape)
      requires ValidPlace(cells, p) && 0 !in cells
      requires Represents(cells, NodeAt(cells, p), shape) && Separate(shape) && p.block !in Foot(shape)
      modifies this
      ensures cells == Put(old(cells), p, NoneNode) - Foot(shape)
      decreases shape, 2
    {
      var node := NodeAt(cells, p);
      match node {
        case StringNode(text) => Delete(text);
        case ArrayNode(list) => if list != 0 { FreeList(list, node, shape); }
        case MapNode(list) => if list != 0 { FreeList(list, node, shape); }
        case BytesNode(bytes) =>
          if bytes != 0 {
            Delete(cells[bytes].data);
            Delete(bytes);
          }
        case _ =>
      }
      SetNode(p, NoneNode);
    }

    /** One round of the loop over a list: its key, then its value. */
    method FreeElement(values: Addr, keys: Addr, i: nat, ghost before: Cells, ghost node: Node, ghost shape: Shape)
      requires shape.ListShape? && shape.header != 0 && values == shape.values && keys == shape.keys
      requires Represents(before, node, shape) && Separate(shape) && i < before[shape.header].num
      requires 0 !in cells && Cleared(before, cells, shape, i, i)
      modifies this
      ensures 0 !in cells && Cleared(before, cells, shape, i + 1, i + 1)
      decreases shape, 0
    {
      if keys != 0 {
        NextKey(before, cells, node, shape, i);
        Delete(cells[keys].texts[i]);
      }
      assert Cleared(before, cells, shape, i + 1, i);
      if values != 0 {
        NextItem(before, cells, node, shape, i + 1, i);
        FreeInputNode(Place(values, i), shape.items[i]);
      }
    }

    method FreeList(list: Addr, ghost node: Node, ghost shape: Shape)
      requires shape.ListShape? && shape.header == list != 0 && 0 !in cells
      requires Represents(cells, node, shape) && Separate(shape)
      modifies this
      ensures cells == old(cells) - Foot(shape)
      decreases shape, 1
    {
      var num, values, keys := cells[list].num, cells[list].values, cells[list].keys;
      ghost var before := cells;
      var i := 0;
      while i < num
        invariant 0 <= i && (i <= num || num < 0)
        invariant 0 !in cells
        invariant Cleared(before, cells, shape, i, i)
      {
        FreeElement(values, keys, i, before, node, shape);
        i := i + 1;
      }
      ListRemains(before, cells, node, shape, i);
      Delete(keys);
      Delete(values);
      Delete(list);
    }

    /** mpvcontroller.cpp, `convertInput`: whatever happens, the place holds the
        root of a tree that owns every cell allocated so far. */
    method ConvertInput(p: Place, v: Value) returns (outcome: Outcome, ghost shape: Shape)
      requires ValidPlace(cells, p) && NodeAt(cells, p) == NoneNode && 0 !in cells
      modifies this
      ensures Grown(old(cells), cells, p, shape)
      ensures outcome == Done ==> Supported(v) && Decoded(cells, NodeAt(cells, p), shape) == Normalized(v)
      ensures outcome == Rejected ==> !Supported(v)
      decreases Height(v), 0
    {
      match v {
        case Invalid => return Done, Leaf;
        case Str(text) => outcome, shape := ConvertString(p, text);
        case Bool(truth) =>
          SetNode(p, FlagNode(if truth then 1 else 0));
          return Done, Leaf;
        case Int(n) =>
          SetNode(p, Int64Node(Int64(n)));
          return Done, Leaf;
        case Real(x) =>
          SetNode(p, DoubleNode(x));
          return Done, Leaf;
        case Bytes(data) => outcome, shape := ConvertBytes(p, data);
        case StrList(_) =>
          ListMeansItems(v);
          outcome, shape := ConvertList(p, ItemsOf(v));
        case VarList(_) =>
          ListMeansItems(v);
          outcome, shape := ConvertList(p, ItemsOf(v));
        case VarMap(entries) => outcome, shape := ConvertMap(p, entries);
        case Unsupported => return Rejected, Leaf;
      }
    }

    /** `toString`, `toUtf8`, `toList` and the like may throw. */
    method MayThrow() returns (outcome: Outcome)
      ensures outcome != Rejected
    {
      var throws: bool, other: bool := *, *;
      outcome := if !throws then Done else if other then OtherException else OutOfMemory;
    }

    method ConvertString(p: Place, text: seq<Byte>) returns (outcome: Outcome, ghost shape: Shape)
      requires ValidPlace(cells, p) && NodeAt(cells, p) == NoneNode && 0 !in cells
      modifies this
      ensures Grown(old(cells), cells, p, shape)
      ensures outcome == Done ==> Decoded(cells, NodeAt(cells, p), shape) == StrCopy(CString(text))
      ensures outcome != Rejected
    {
      SetNode(p, StringNode(0));
      outcome := MayThrow();
      if outcome != Done { return outcome, TextShape(0); }
      var copy := Allocate(Text(CString(text)));
      if copy == 0 { return OutOfMemory, TextShape(0); }
      SetNode(p, StringNode(copy));
      return Done, TextShape(copy);
    }

    method ConvertBytes(p: Place, data: ByteString) returns (outcome: Outcome, ghost shape: Shape)
      requires ValidPlace(cells, p) && NodeAt(cells, p) == NoneNode && 0 !in cells
      modifies this
      ensures Grown(old(cells), cells, p, shape)
      ensures outcome == Done ==> Decoded(cells, NodeAt(cells, p), shape) == BytesCopy(data)
      ensures outcome != Rejected
    {
      outcome := MayThrow();
      if outcome != Done { return outcome, Leaf; }
      ghost var before := cells;
      var buffer := NewBuffer(p, |data|);
      shape := BytesShape(buffer, 0);
      if buffer == 0 { return OutOfMemory, shape; }
      assert buffer in Foot(shape);
      var block := Allocate(Data(seq(|data|, _ => 0)));
      if block == 0 { return OutOfMemory, shape; }
      cells := cells[buffer := ByteArray(block, |data|)];
      if |data| != 0 { cells := cells[block := Data(data)]; }
      assert cells[block].content == data;
      return Done, BytesShape(buffer, block);
    }

    method NewBuffer(p: Place, size: nat) returns (buffer: Addr)
      requires ValidPlace(cells, p) && NodeAt(cells, p) == NoneNode && 0 !in cells
      modifies this
      ensures Grown(old(cells), cells, p, BytesShape(buffer, 0)) && NodeAt(cells, p) == BytesNode(buffer)
      ensures buffer != 0 ==> buffer in cells && cells[buffer] == ByteArray(0, size)
    {
      SetNode(p, BytesNode(0));
      SetTwice(old(cells), p, BytesNode(0), BytesNode(0));
      buffer := Allocate(ByteArray(0, 0));
      if buffer == 0 { return; }
      SetTwice(old(cells), p, BytesNode(0), BytesNode(buffer));
      SetNode(p, BytesNode(buffer));
      cells := cells[buffer := ByteArray(0, size)];
    }

    /** The header, the values and, for a map, the keys of a list of `n`. */
    method BeginList(p: Place, isMap: bool, n: nat) returns (thrown: bool, list: Addr, ghost shape: Shape)
      requires ValidPlace(cells, p) && NodeAt(cells, p) == NoneNode && 0 !in cells
      modifies this
      ensures Grown(old(cells), cells, p, shape)
      ensures !thrown ==> Begun(cells, NodeAt(cells, p), isMap, list, n, shape)
    {
      list := NewHeader(p, isMap, n);
      shape := ListShape(list, 0, 0, [], []);
      if list == 0 { return true, list, shape; }
      var values := NewValues(old(cells), p, list, n);
      if values == 0 { return true, list, shape; }
      shape := BareShape(list, n, values, 0);
      if isMap {
        var keys := NewKeys(old(cells), p, list, values, n);
        if keys == 0 { return true, list, shape; }
        shape := BareShape(list, n, values, keys);
      }
      thrown := false;
    }

    method NewHeader(p: Place, isMap: bool, n: nat) returns (list: Addr)
      requires ValidPlace(cells, p) && NodeAt(cells, p) == NoneNode && 0 !in cells
      modifies this
      ensures Grown(old(cells), cells, p, ListShape(list, 0, 0, [], []))
      ensures NodeAt(cells, p) == if isMap then MapNode(list) else ArrayNode(list)
      ensures list != 0 ==> list in cells && cells[list] == List(n, 0, 0)
    {
      var empty := if isMap then MapNode(0) else ArrayNode(0);
      SetNode(p, empty);
      list := Allocate(List(0, 0, 0));
      if list == 0 { return; }
      var node := if isMap then MapNode(list) else ArrayNode(list);
      SetTwice(old(cells), p, empty, node);
      SetNode(p, node);
      cells := cells[list := List(n, 0, 0)];
    }

    method NewValues(ghost before: Cells, ghost p: Place, list: Addr, n: nat) returns (values: Addr)
      requires list != 0 && Grown(before, cells, p, ListShape(list, 0, 0, [], []))
      requires list in cells && cells[list] == List(n, 0, 0)
      modifies this
      ensures values == 0 ==> cells == old(cells)
      ensures values != 0 ==>
                && Grown(before, cells, p, BareShape(list, n, values, 0))
                && NodeAt(cells, p) == NodeAt(old(cells), p)
                && list in cells && cells[list] == List(n, values, 0)
                && values in cells && cells[values] == Values(seq(n, _ => NoneNode))
    {
      values := Allocate(Values(seq(n, _ => NoneNode)));
      if values == 0 { return; }
      assert list in Foot(ListShape(list, 0, 0, [], []));
      cells := cells[list := List(n, values, 0)];
      BareStands(cells, NodeAt(cells, p), list, n, values, 0);
    }

    method NewKeys(ghost before: Cells, ghost p: Place, list: Addr, values: Addr, n: nat) returns (keys: Addr)
      requires list != 0 && values != 0 && Grown(before, cells, p, BareShape(list, n, values, 0))
      requires NodeAt(cells, p) == MapNode(list)
      requires list in cells && cells[list] == List(n, values, 0)
      requires values in cells && cells[values] == Values(seq(n, _ => NoneNode))
      modifies this
      ensures keys == 0 ==> cells == old(cells)
      ensures keys != 0 ==>
                && Grown(before, cells, p, BareShape(list, n, values, keys))
                && NodeAt(cells, p) == MapNode(list)
                && list in cells && cells[list] == List(n, values, keys)
                && values in cells && cells[values] == Values(seq(n, _ => NoneNode))
    {
      keys := Allocate(Keys(seq(n, _ => 0)));
      if keys == 0 { return; }
      BareStands(old(cells), MapNode(list), list, n, values, 0);
      cells := cells[list := List(n, values, keys)];
      BareStands(cells, MapNode(list), list, n, values, keys);
    }

    method ConvertItem(ghost before: Cells, ghost p: Place, values: Addr, ghost was: Shape, items: seq<Value>, i: nat)
      returns (outcome: Outcome, ghost shape: Shape)
      requires i < |items| && ListInProgress(before, cells, p, was, values, items, i)
      modifies this
      ensures Grown(before, cells, p, shape)
      ensures outcome == Done ==> ListInProgress(before, cells, p, shape, values, items, i + 1)
      ensures outcome == Rejected ==> !Supported(items[i])
      decreases HeightAll(items), 1
    {
      ItemIsLower(items, i);
      ghost var middle, s := cells, Leaf;
      outcome, s := ConvertInput(Place(values, i), items[i]);
      FillSlot(before, middle, cells, p, was, i, s);
      if outcome == Done { ItemConverted(middle, cells, NodeAt(cells, p), was, items, i, s); }
      shape := was.(items := was.items[i := s]);
    }

    method ConvertList(p: Place, items: seq<Value>) returns (outcome: Outcome, ghost shape: Shape)
      requires ValidPlace(cells, p) && NodeAt(cells, p) == NoneNode && 0 !in cells
      modifies this
      ensures Grown(old(cells), cells, p, shape)
      ensures outcome == Done ==>
                AllSupported(items) && Decoded(cells, NodeAt(cells, p), shape) == NormalizedAll(items)
      ensures outcome == Rejected ==> !AllSupported(items)
      decreases HeightAll(items), 2
    {
      outcome := MayThrow();
      if outcome != Done { return outcome, Leaf; }
      if |items| > INT32_MAX { return Rejected, Leaf; }
      ghost var before := cells;
      var thrown, list;
      thrown, list, shape := BeginList(p, false, |items|);
      if thrown { return OutOfMemory, shape; }
      var values := cells[list].values;
      var i := 0;
      while i < |items|
        invariant 0 <= i <= |items|
        invariant ListInProgress(before, cells, p, shape, values, items, i)
      {
        outcome, shape := ConvertItem(before, p, values, shape, items, i);
        if outcome != Done { return; }
        i := i + 1;
      }
      MatchedReadsBack(cells, NodeAt(cells, p), shape, items);
      outcome := Done;
    }

    method ConvertKey(ghost before: Cells, p: Place, ghost values: Addr, keys: Addr, ghost was: Shape,
                      entries: seq<Entry>, i: nat)
      returns (outcome: Outcome, ghost shape: Shape)
      requires i < |entries| && Grown(before, cells, p, was) && was.ListShape?
      requires MatchesMap(cells, NodeAt(cells, p), was, entries, i, i)
      requires was.values == values && was.keys == keys
      modifies this
      ensures Grown(before, cells, p, shape) && outcome != Rejected
      ensures shape.ListShape? && shape.values == values && shape.keys == keys
      ensures outcome == Done ==> MatchesMap(cells, NodeAt(cells, p), shape, entries, i + 1, i)
    {
      outcome := MayThrow();
      if outcome != Done { return outcome, was; }
      ghost var middle := cells;
      var text := Allocate(Text(CString(entries[i].key)));
      if text == 0 { return OutOfMemory, was; }
      assert keys in Foot(was);
      cells := cells[keys := Keys(cells[keys].texts[i := text])];
      FillKey(before, middle, cells, p, was, i, text, CString(entries[i].key));
      KeyConverted(before, middle, cells, p, was, entries, i, text);
      return Done, was.(texts := was.texts[i := text]);
    }

    method ConvertEntry(ghost before: Cells, p: Place, values: Addr, keys: Addr, ghost was: Shape,
                        entries: seq<Entry>, i: nat)
      returns (outcome: Outcome, ghost shape: Shape)
      requires i < |entries| && MapInProgress(before, cells, p, was, values, keys, entries, i)
      modifies this
      ensures Grown(before, cells, p, shape)
      ensures outcome == Done ==> MapInProgress(before, cells, p, shape, values, keys, entries, i + 1)
      ensures outcome == Rejected ==> !Supported(entries[i].value)
      decreases HeightEntries(entries), 1
    {
      outcome, shape := ConvertKey(before, p, values, keys, was, entries, i);
      if outcome != Done { return; }
      EntryIsLower(entries, i);
      ghost var middle, s := cells, Leaf;
      outcome, s := ConvertInput(Place(values, i), entries[i].value);
      FillSlot(before, middle, cells, p, shape, i, s);
      if outcome == Done { EntryConverted(middle, cells, NodeAt(cells, p), shape, entries, i, s); }
      shape := shape.(items := shape.items[i := s]);
    }

    method ConvertMap(p: Place, entries: seq<Entry>) returns (outcome: Outcome, ghost shape: Shape)
      requires ValidPlace(cells, p) && NodeAt(cells, p) == NoneNode && 0 !in cells
      modifies this
      ensures Grown(old(cells), cells, p, shape)
      ensures outcome == Done ==>
                EntriesSupported(entries)
                && Decoded(cells, NodeAt(cells, p), shape) == MapCopy(NormalizedEntries(entries))
      ensures outcome == Rejected ==> !EntriesSupported(entries)
      decreases HeightEntries(entries), 2
    {
      outcome := MayThrow();
      if outcome != Done { return outcome, Leaf; }
      if |entries| > INT32_MAX { return Rejected, Leaf; }
      ghost var before := cells;
      var thrown, list;
      thrown, list, shape := BeginList(p, true, |entries|);
      if thrown { return OutOfMemory, shape; }
      var values, keys := cells[list].values, cells[list].keys;
      var i := 0;
      while i < |entries|
        invariant 0 <= i <= |entries|
        invariant MapInProgress(before, cells, p, shape, values, keys, entries, i)
      {
        outcome, shape := ConvertEntry(before, p, values, keys, shape, entries, i);
        if outcome != Done { return; }
        i := i + 1;
      }
      MatchedMapReadsBack(cells, NodeAt(cells, p), shape, entries);
      outcome := Done;
    }

    /** mpvcontroller.cpp, `copyNodeValue`. */
    method CopyNodeValue(node: Node, ghost shape: Shape) returns (copy: Copy)
      requires Represents(cells, node, shape)
      ensures copy == Decoded(cells, node, shape)
      decreases shape, 1
    {
      match node {
        case StringNode(text) => return StrCopy(if text == 0 then [] else cells[text].chars);
        case FlagNode(flag) => return BoolCopy(flag != 0);
        case Int64Node(n) => return IntCopy(n);
        case DoubleNode(x) => return RealCopy(x);
        case BytesNode(bytes) =>
          if bytes == 0 || (cells[bytes].data == 0 && cells[bytes].size != 0) || cells[bytes].size > QSIZE_MAX {
            return NoCopy;
          }
          return BytesCopy(if cells[bytes].data == 0 then [] else cells[cells[bytes].data].content);
        case ArrayNode(list) =>
          if list == 0 || cells[list].num < 0 || (cells[list].values == 0 && cells[list].num != 0) { return NoCopy; }
          var items := CopyItems(list, node, shape);
          copy := ListCopy(items);
        case MapNode(list) =>
          if list == 0 || cells[list].num < 0
             || ((cells[list].values == 0 || cells[list].keys == 0) && cells[list].num != 0) { return NoCopy; }
          var entries := CopyEntries(list, node, shape);
          copy := MapCopy(entries);
        case NoneNode => return NoCopy;
      }
    }

    method CopyItems(list: Addr, ghost node: Node, ghost shape: Shape) returns (result: seq<Copy>)
      requires Represents(cells, node, shape) && node == ArrayNode(list) && list != 0
      requires 0 <= cells[list].num && (cells[list].values == 0 ==> cells[list].num == 0)
      ensures ListCopy(result) == Decoded(cells, node, shape)
      decreases shape, 0
    {
      result := [];
      var i := 0;
      while i < cells[list].num
        invariant 0 <= i == |result| <= cells[list].num
        invariant forall j :: 0 <= j < i ==>
                                result[j] == Decoded(cells, cells[cells[list].values].nodes[j], shape.items[j])
      {
        var copy := CopyNodeValue(cells[cells[list].values].nodes[i], shape.items[i]);
        result := result + [copy];
        i := i + 1;
      }
      assert result == Decoded(cells, node, shape).items;
    }

    method CopyEntries(list: Addr, ghost node: Node, ghost shape: Shape) returns (result: map<seq<Byte>, Copy>)
      requires Represents(cells, node, shape) && node == MapNode(list) && list != 0
      requires 0 <= cells[list].num
      requires cells[list].values == 0 || cells[list].keys == 0 ==> cells[list].num == 0
      ensures MapCopy(result) == Decoded(cells, node, shape)
      decreases shape, 0
    {
      result := map[];
      ghost var copies: seq<Copy> := [];
      var i := 0;
      while i < cells[list].num
        invariant 0 <= i == |copies| <= cells[list].num
        invariant forall j :: 0 <= j < i ==>
                                copies[j] == Decoded(cells, cells[cells[list].values].nodes[j], shape.items[j])
        invariant i <= |shape.texts| && result == Paired(cells, shape.texts[..i], copies)
      {
        var key := cells[cells[list].keys].texts[i];
        var copy := CopyNodeValue(cells[cells[list].values].nodes[i], shape.items[i]);
        assert shape.texts[..i + 1][..i] == shape.texts[..i] && (copies + [copy])[..i] == copies;
        result := result[if key == 0 then [] else cells[key].chars := copy];
        copies := copies + [copy];
        i := i + 1;
      }
      assert shape.texts[..i] == if shape.keys == 0 then [] else shape.texts;
      CopiesDecode(cells, node, shape, copies);
    }
  }

  /** The place is the root of a tree whose cells are all allocated, none twice. */
  ghost predicate Owns(cells: Cells, p: Place, tree: Shape) {
    && ValidPlace(cells, p) && 0 !in cells
    && Represents(cells, NodeAt(cells, p), tree) && Separate(tree)
    && p.block !in Foot(tree)
  }

  /** Freeing a tree gives back its cells and leaves all others. */
  lemma FreedRest(before: Cells, after: Cells, p: Place, tree: Shape)
    requires Owns(before, p, tree) && after == Put(before, p, NoneNode) - Foot(tree)
    ensures Owns(after, p, Leaf) && NodeAt(after, p) == NoneNode
    ensures after - {p.block} == before - Foot(tree) - {p.block}
  {
  }

  /** A grown tree adds its own cells and leaves all others. */
  lemma GrownRest(before: Cells, after: Cells, p: Place, tree: Shape)
    requires Grown(before, after, p, tree)
    ensures Owns(after, p, tree) && after - Foot(tree) - {p.block} == before - {p.block}
  {
  }

  /** The owner of one input tree. */
  class MpvInputNode {
    const memory: Memory
    const node: Place
    ghost var tree: Shape

    ghost predicate Valid()
      reads this, memory
    {
      Owns(memory.cells, node, tree)
    }

    /** The value a reader of the node gets. */
    ghost function Contents(): Copy
      requires Valid()
      reads this, memory
    {
      Decoded(memory.cells, NodeAt(memory.cells, node), tree)
    }

    /** Every allocation that is not this tree's. */
    ghost function Others(): Cells
      reads this, memory
    {
      memory.cells - Foot(tree) - {node.block}
    }

    constructor (memory: Memory, node: Place)
      requires ValidPlace(memory.cells, node) && NodeAt(memory.cells, node) == NoneNode && 0 !in memory.cells
      ensures Valid() && this.memory == memory && this.node == node && tree == Leaf
    {
      this.memory, this.node, tree := memory, node, Leaf;
    }

    /** mpvcontroller.cpp, `MpvInputNode::assign`. */
    method Assign(v: Value) returns (error: int)
      requires Valid()
      modifies this, memory
      ensures Valid() && Others() == old(Others())
      ensures error == SUCCESS ==> Supported(v) && Contents() == Normalized(v)
      ensures error != SUCCESS ==> tree == Leaf && NodeAt(memory.cells, node) == NoneNode
      ensures error == SUCCESS || error == NOMEM || error == INVALID_PARAMETER
    {
      memory.FreeInputNode(node, tree);
      FreedRest(old(memory.cells), memory.cells, node, tree);
      ghost var empty := memory.cells;
      var outcome;
      ghost var made;
      outcome, made := memory.ConvertInput(node, v);
      GrownRest(empty, memory.cells, node, made);
      tree := made;
      error := match outcome
        case Done => SUCCESS
        case Rejected => INVALID_PARAMETER
        case OutOfMemory => NOMEM
        case OtherException => INVALID_PARAMETER;
      if error < 0 {
        ghost var partial := memory.cells;
        memory.FreeInputNode(node, made);
        FreedRest(partial, memory.cells, node, made);
        tree := Leaf;
      }
    }

    /** The destructor. */
    method Destroy()
      requires Valid()
      modifies this, memory
      ensures Valid() && Others() == old(Others())
      ensures tree == Leaf && NodeAt(memory.cells, node) == NoneNode
    {
      memory.FreeInputNode(node, tree);
      FreedRest(old(memory.cells), memory.cells, node, tree);
      tree := Leaf;
    }
  }
}

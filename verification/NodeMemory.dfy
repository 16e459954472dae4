/** The conversion code itself (mpvcontroller.cpp), running on a memory whose
    every allocation may fail. `new` and `qstrdup` are `Memory.Allocate`,
    `delete` is `Memory.Delete`, whose precondition rules out a double free. */
module NodeMemory {
  import opened Nodes

  datatype Outcome = Done | Rejected | OutOfMemory | OtherException

  /** An `mpv_node *`: an element of a node array. A node that stands alone is
      the only element of its own array. */
  datatype Place = Place(block: Addr, index: nat)

  predicate ValidPlace(cells: Cells, p: Place) {
    p.block in cells && cells[p.block].Values? && p.index < |cells[p.block].nodes|
  }

  function NodeAt(cells: Cells, p: Place): Node
    requires ValidPlace(cells, p)
  {
    cells[p.block].nodes[p.index]
  }

  function Put(cells: Cells, p: Place, node: Node): Cells
    requires ValidPlace(cells, p)
  {
    cells[p.block := Values(cells[p.block].nodes[p.index := node])]
  }

  /** A tree of this shape hangs at the place, every cell of it new, and
      nothing else differs from the memory before. */
  ghost predicate Grown(before: Cells, after: Cells, p: Place, shape: Shape) {
    && ValidPlace(before, p) && ValidPlace(after, p)
    && Foot(shape) !! before.Keys && 0 !in after
    && after.Keys == before.Keys + Foot(shape)
    && (forall x :: x in before ==> after[x] == Put(before, p, NodeAt(after, p))[x])
    && Represents(after, NodeAt(after, p), shape) && Separate(shape)
  }

  lemma SetTwice(before: Cells, p: Place, a: Node, b: Node)
    requires ValidPlace(before, p)
    ensures ValidPlace(Put(before, p, a), p) && Put(Put(before, p, a), p, b) == Put(before, p, b)
  {
    var nodes := before[p.block].nodes;
    assert nodes[p.index := a][p.index := b] == nodes[p.index := b];
  }

  // ----- parts of lists -----

  lemma {:induction false} PlaceItem(items: seq<Shape>, i: nat, s: Shape)
    requires i < |items| && items[i] == Leaf
    ensures FootAll(items[i := s]) == FootAll(items) + Foot(s)
    ensures SeparateAll(items) && Separate(s) && Foot(s) !! FootAll(items) ==> SeparateAll(items[i := s])
  {
    var last := |items| - 1;
    if i < last {
      PlaceItem(items[..last], i, s);
      assert items[i := s][..last] == items[..last][i := s];
    } else {
      assert items[i := s][..last] == items[..last];
    }
  }

  lemma {:induction false} PlaceText(texts: seq<Addr>, i: nat, t: Addr)
    requires i < |texts| && texts[i] == 0
    ensures FootTexts(texts[i := t]) == FootTexts(texts) + Own(t)
    ensures DistinctTexts(texts) && t !in FootTexts(texts) ==> DistinctTexts(texts[i := t])
  {
    var last := |texts| - 1;
    if i < last {
      PlaceText(texts[..last], i, t);
      assert texts[i := t][..last] == texts[..last][i := t];
    } else {
      assert texts[i := t][..last] == texts[..last];
    }
  }

  lemma {:induction false} Bare(n: nat)
    ensures FootAll(seq(n, _ => Leaf)) == {} && SeparateAll(seq(n, _ => Leaf))
    ensures FootTexts(seq(n, _ => 0)) == {} && DistinctTexts(seq(n, _ => 0))
  {
    if n > 0 {
      Bare(n - 1);
      assert seq(n, _ => Leaf)[..n - 1] == seq(n - 1, _ => Leaf);
      assert seq<Addr>(n, _ => 0)[..n - 1] == seq<Addr>(n - 1, _ => 0);
    }
  }

  /** The memory around one list changes only in the element that gets its tree. */
  lemma SlotOnly(before: Cells, middle: Cells, after: Cells, p: Place, shape: Shape, i: nat, s: Shape)
    requires Grown(before, middle, p, shape)
    requires shape.ListShape? && shape.values != 0 && i < |shape.items|
    requires Grown(middle, after, Place(shape.values, i), s)
    ensures NodeAt(after, p) == NodeAt(middle, p)
    ensures after[shape.values] == Values(middle[shape.values].nodes[i := NodeAt(after, Place(shape.values, i))])
    ensures forall x :: x in middle && x != shape.values ==> after[x] == middle[x]
    ensures shape.values !in before && shape.values !in FootAll(shape.items) && shape.values !in FootTexts(shape.texts)
    ensures Foot(shape) <= middle.Keys
    ensures ListFits(after, NodeAt(after, p), shape.header, shape.values, shape.keys, shape.texts, |shape.items|)
  {
    assert shape.values in Foot(shape);
    forall j | 0 <= j < |shape.texts| ensures TextAt(after, shape.texts[j]) {
      FootOfText(shape.texts, j);
    }
  }

  /** The other elements of a list read as before. */
  lemma OthersKeep(middle: Cells, after: Cells, node: Node, shape: Shape, i: nat)
    requires shape.ListShape? && shape.values != 0 && Represents(middle, node, shape)
    requires shape.values in after && after[shape.values].Values? && i < |shape.items|
    requires |after[shape.values].nodes| == |shape.items|
    requires forall j :: 0 <= j < |shape.items| && j != i ==>
               after[shape.values].nodes[j] == middle[shape.values].nodes[j]
    requires forall x :: x in middle && x != shape.values ==> x in after && after[x] == middle[x]
    requires shape.values !in FootAll(shape.items)
    ensures forall j :: 0 <= j < |shape.items| && j != i ==>
                          Represents(after, after[shape.values].nodes[j], shape.items[j])
                          && Decoded(after, after[shape.values].nodes[j], shape.items[j])
                             == Decoded(middle, middle[shape.values].nodes[j], shape.items[j])
  {
    forall j | 0 <= j < |shape.items| && j != i
      ensures Represents(after, middle[shape.values].nodes[j], shape.items[j])
      ensures Decoded(after, middle[shape.values].nodes[j], shape.items[j])
              == Decoded(middle, middle[shape.values].nodes[j], shape.items[j])
    {
      FootOfItem(shape.items, j);
      Frame(middle, after, middle[shape.values].nodes[j], shape.items[j]);
    }
  }

  lemma SlotSeparate(shape: Shape, i: nat, s: Shape)
    requires shape.ListShape? && Separate(shape) && Separate(s) && Foot(s) !! Foot(shape)
    requires i < |shape.items| && shape.items[i] == Leaf && shape.header != 0
    ensures Separate(shape.(items := shape.items[i := s]))
    ensures Foot(shape.(items := shape.items[i := s])) == Foot(shape) + Foot(s)
  {
    PlaceItem(shape.items, i, s);
  }

  /** One element of a list gets its tree; the rest of the list reads as before. */
  ghost predicate SlotFilled(middle: Cells, after: Cells, node: Node, shape: Shape, i: nat, s: Shape)
    requires shape.ListShape? && shape.values in middle && middle[shape.values].Values?
    requires i < |shape.items| == |middle[shape.values].nodes|
    requires Represents(middle, node, shape)
  {
    && (forall x :: x in middle && x != shape.values ==> x in after && after[x] == middle[x])
    && shape.values in after && after[shape.values].Values?
    && |after[shape.values].nodes| == |shape.items|
    && Represents(after, after[shape.values].nodes[i], s)
    && forall j :: 0 <= j < |shape.items| && j != i ==>
                     after[shape.values].nodes[j] == middle[shape.values].nodes[j]
                     && Represents(after, after[shape.values].nodes[j], shape.items[j])
                     && Decoded(after, after[shape.values].nodes[j], shape.items[j])
                        == Decoded(middle, middle[shape.values].nodes[j], shape.items[j])
  }

  lemma FillSlot(before: Cells, middle: Cells, after: Cells, p: Place, shape: Shape, i: nat, s: Shape)
    requires Grown(before, middle, p, shape)
    requires shape.ListShape? && shape.values != 0 && i < |shape.items| && shape.items[i] == Leaf
    requires Grown(middle, after, Place(shape.values, i), s)
    ensures Grown(before, after, p, shape.(items := shape.items[i := s]))
    ensures NodeAt(after, p) == NodeAt(middle, p)
    ensures SlotFilled(middle, after, NodeAt(middle, p), shape, i, s)
  {
    SlotOnly(before, middle, after, p, shape, i, s);
    OthersKeep(middle, after, NodeAt(middle, p), shape, i);
    SlotSeparate(shape, i, s);
  }

  /** The elements of a list read as before when one key gets its text. */
  lemma KeyKeepsItems(middle: Cells, after: Cells, node: Node, shape: Shape)
    requires shape.ListShape? && shape.values != 0 && shape.keys != 0
    requires Represents(middle, node, shape) && Separate(shape)
    requires forall x :: x in middle && x != shape.keys ==> x in after && after[x] == middle[x]
    ensures forall j :: 0 <= j < |shape.items| ==>
                          Represents(after, after[shape.values].nodes[j], shape.items[j])
                          && Decoded(after, after[shape.values].nodes[j], shape.items[j])
                             == Decoded(middle, middle[shape.values].nodes[j], shape.items[j])
  {
    forall j | 0 <= j < |shape.items|
      ensures Represents(after, middle[shape.values].nodes[j], shape.items[j])
      ensures Decoded(after, middle[shape.values].nodes[j], shape.items[j])
              == Decoded(middle, middle[shape.values].nodes[j], shape.items[j])
    {
      FootOfItem(shape.items, j);
      Frame(middle, after, middle[shape.values].nodes[j], shape.items[j]);
    }
  }

  /** A new text makes a list no less separate. */
  lemma KeySeparate(shape: Shape, i: nat, t: Addr)
    requires shape.ListShape? && Separate(shape) && i < |shape.texts| && shape.texts[i] == 0
    requires t != 0 && t !in Foot(shape)
    ensures Separate(shape.(texts := shape.texts[i := t]))
    ensures Foot(shape.(texts := shape.texts[i := t])) == Foot(shape) + {t}
  {
    PlaceText(shape.texts, i, t);
  }

  /** The list structure with a new text in it. */
  lemma KeyFits(middle: Cells, after: Cells, node: Node, shape: Shape, i: nat, t: Addr, chars: seq<Byte>)
    requires shape.ListShape? && Represents(middle, node, shape) && Separate(shape)
    requires shape.keys != 0 && i < |shape.texts| && shape.texts[i] == 0
    requires t != 0 && t !in middle && Foot(shape) <= middle.Keys
    requires after == middle[t := Text(chars)][shape.keys := Keys(shape.texts[i := t])]
    ensures ListFits(after, node, shape.header, shape.values, shape.keys, shape.texts[i := t], |shape.items|)
  {
    var texts := shape.texts[i := t];
    forall j | 0 <= j < |texts| ensures TextAt(after, texts[j]) {
      FootOfText(shape.texts, j);
      assert TextAt(middle, shape.texts[j]);
    }
  }

  /** One key of a map gets its text. */
  lemma FillKey(before: Cells, middle: Cells, after: Cells, p: Place, shape: Shape, i: nat, t: Addr, chars: seq<Byte>)
    requires Grown(before, middle, p, shape)
    requires shape.ListShape? && shape.values != 0 && shape.keys != 0 && i < |shape.texts| && shape.texts[i] == 0
    requires t != 0 && t !in middle
    requires after == middle[t := Text(chars)][shape.keys := Keys(shape.texts[i := t])]
    ensures Grown(before, after, p, shape.(texts := shape.texts[i := t]))
    ensures NodeAt(after, p) == NodeAt(middle, p)
  {
    FootInHeap(middle, NodeAt(middle, p), shape);
    assert shape.keys in Foot(shape);
    KeyKeepsItems(middle, after, NodeAt(middle, p), shape);
    KeySeparate(shape, i, t);
    KeyFits(middle, after, NodeAt(middle, p), shape, i, t, chars);
  }

  // ----- what has been freed -----

  function Upto<T>(s: seq<T>, i: nat): seq<T> {
    if i <= |s| then s[..i] else s
  }

  /** The first texts and items of a list are gone, nothing else is. */
  ghost predicate Cleared(before: Cells, now: Cells, shape: Shape, texts: nat, items: nat)
    requires shape.ListShape? && (shape.values != 0 ==> shape.values in before && before[shape.values].Values?)
  {
    && now.Keys == before.Keys - FootTexts(Upto(shape.texts, texts)) - FootAll(Upto(shape.items, items))
    && (forall x :: x in now && x != shape.values ==> now[x] == before[x])
    && (shape.values != 0 ==>
          && shape.values in now && now[shape.values].Values?
          && |now[shape.values].nodes| == |before[shape.values].nodes|
          && forall j :: items <= j < |before[shape.values].nodes| ==>
                           now[shape.values].nodes[j] == before[shape.values].nodes[j])
  }

  lemma {:induction false} ItemsApart(items: seq<Shape>, i: nat)
    requires i < |items| && SeparateAll(items)
    ensures Foot(items[i]) !! FootAll(items[..i]) && Separate(items[i])
    ensures FootAll(items[..i + 1]) == FootAll(items[..i]) + Foot(items[i])
  {
    var last := |items| - 1;
    assert items[..i + 1][..i] == items[..i];
    if i < last {
      ItemsApart(items[..last], i);
      assert items[..last][..i] == items[..i] && items[..last][..i + 1] == items[..i + 1];
    } else {
      assert items[..i + 1] == items;
    }
  }

  lemma {:induction false} TextsApart(texts: seq<Addr>, i: nat)
    requires i < |texts| && DistinctTexts(texts)
    ensures texts[i] == 0 || texts[i] !in FootTexts(texts[..i])
    ensures FootTexts(texts[..i + 1]) == FootTexts(texts[..i]) + Own(texts[i])
  {
    var last := |texts| - 1;
    assert texts[..i + 1][..i] == texts[..i];
    if i < last {
      TextsApart(texts[..last], i);
      assert texts[..last][..i] == texts[..i] && texts[..last][..i + 1] == texts[..i + 1];
    } else {
      assert texts[..i + 1] == texts;
    }
  }

  lemma {:induction false} FootUpto(items: seq<Shape>, texts: seq<Addr>, i: nat, m: nat)
    ensures FootAll(Upto(items, i)) <= FootAll(items) && FootTexts(Upto(texts, m)) <= FootTexts(texts)
    decreases |items| + |texts|
  {
    if i < |items| {
      FootUpto(items[..|items| - 1], texts, i, m);
      assert Upto(items[..|items| - 1], i) == Upto(items, i);
    } else if m < |texts| {
      FootUpto(items, texts[..|texts| - 1], i, m);
      assert Upto(texts[..|texts| - 1], m) == Upto(texts, m);
      assert Upto(items, i) == items;
    } else {
      assert Upto(items, i) == items && Upto(texts, m) == texts;
    }
  }

  /** The key about to be freed is still there. */
  lemma NextKey(before: Cells, now: Cells, node: Node, shape: Shape, i: nat)
    requires shape.ListShape? && Represents(before, node, shape) && Separate(shape)
    requires Cleared(before, now, shape, i, i)
    requires shape.keys != 0 && i < |shape.texts|
    ensures shape.keys in now && now[shape.keys] == Keys(shape.texts)
    ensures shape.texts[i] == 0 || shape.texts[i] in now
    ensures Cleared(before, now - Own(shape.texts[i]), shape, i + 1, i)
  {
    FootUpto(shape.items, shape.texts, i, i);
    TextsApart(shape.texts, i);
    FootOfText(shape.texts, i);
    assert TextAt(before, shape.texts[i]);
  }

  /** The element about to be freed is still there, and freeing it goes on. */
  lemma NextItem(before: Cells, now: Cells, node: Node, shape: Shape, m: nat, i: nat)
    requires shape.ListShape? && Represents(before, node, shape) && Separate(shape)
    requires Cleared(before, now, shape, m, i)
    requires shape.values != 0 && i < |shape.items|
    ensures shape.values !in Foot(shape.items[i]) && Separate(shape.items[i])
    ensures Represents(now, now[shape.values].nodes[i], shape.items[i])
    ensures Cleared(before, Put(now, Place(shape.values, i), NoneNode) - Foot(shape.items[i]), shape, m, i + 1)
  {
    FootUpto(shape.items, shape.texts, i, m);
    ItemsApart(shape.items, i);
    FootOfItem(shape.items, i);
    FootInHeap(before, before[shape.values].nodes[i], shape.items[i]);
    Frame(before, now, before[shape.values].nodes[i], shape.items[i]);
  }
}

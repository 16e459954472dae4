/** What a value keeps on its way through libmpv and back: `MpvInputNode.Assign`
    followed by `CopyNodeValue` yields `Normalized`, and here is when that is
    the value itself. */
module NodeRoundTrip {
  import opened Nodes

  /** The value with its texts whole; integers are 64 bits wide all the same. */
  function Plain(v: Value): Copy {
    match v
    case Invalid => NoCopy
    case Str(text) => StrCopy(text)
    case Bool(truth) => BoolCopy(truth)
    case Int(n) => IntCopy(Int64(n))
    case Real(x) => RealCopy(x)
    case Bytes(data) => BytesCopy(data)
    case StrList(texts) => ListCopy(seq(|texts|, i requires 0 <= i < |texts| => StrCopy(texts[i])))
    case VarList(items) => ListCopy(seq(|items|, i requires 0 <= i < |items| => Plain(items[i])))
    case VarMap(entries) => MapCopy(PlainEntries(entries))
    case Unsupported => NoCopy
  }

  function PlainEntries(entries: seq<Entry>): map<seq<Byte>, Copy> {
    if entries == [] then map[]
    else
      var last := entries[|entries| - 1];
      PlainEntries(entries[..|entries| - 1])[last.key := Plain(last.value)]
  }

  /** No text and no key has a zero byte; byte arrays may. */
  predicate NulFree(v: Value) {
    match v
    case Str(text) => 0 !in text
    case StrList(texts) => forall i :: 0 <= i < |texts| ==> 0 !in texts[i]
    case VarList(items) => forall i :: 0 <= i < |items| ==> NulFree(items[i])
    case VarMap(entries) => NulFreeEntries(entries)
    case _ => true
  }

  predicate NulFreeEntries(entries: seq<Entry>) {
    forall i :: 0 <= i < |entries| ==> 0 !in entries[i].key && NulFree(entries[i].value)
  }

  /** The keys of a QVariantMap are distinct. */
  predicate DistinctKeys(v: Value) {
    match v
    case VarList(items) => forall i :: 0 <= i < |items| ==> DistinctKeys(items[i])
    case VarMap(entries) =>
      && (forall i, j :: 0 <= i < j < |entries| ==> entries[i].key != entries[j].key)
      && forall i :: 0 <= i < |entries| ==> DistinctKeys(entries[i].value)
    case _ => true
  }

  /** `qstrdup` copies up to the first zero byte, so exactly the texts without one survive. */
  lemma {:induction false} TextSurvives(text: seq<Byte>)
    ensures CString(text) == text <==> 0 !in text
    ensures CString(text) <= text && 0 !in CString(text)
    ensures |CString(text)| < |text| ==> text[|CString(text)|] == 0
  {
    if text != [] && text[0] != 0 {
      TextSurvives(text[1..]);
      assert text == [text[0]] + text[1..];
    }
  }

  /** An unsigned or narrower integer arrives as the signed 64-bit integer congruent to it. */
  lemma IntegersWrap(n: int)
    ensures -0x8000_0000_0000_0000 <= Int64(n) < 0x8000_0000_0000_0000
    ensures (n - Int64(n)) % 0x1_0000_0000_0000_0000 == 0
    ensures Int64(n) == n <==> -0x8000_0000_0000_0000 <= n < 0x8000_0000_0000_0000
  {
  }

  lemma {:induction false} PlainKeys(entries: seq<Entry>, i: nat)
    requires i < |entries|
    ensures entries[i].key in PlainEntries(entries)
  {
    if i < |entries| - 1 { PlainKeys(entries[..|entries| - 1], i); }
  }

  lemma {:induction false} PlainKeyIsOne(entries: seq<Entry>, key: seq<Byte>)
    requires key in PlainEntries(entries)
    ensures exists i :: 0 <= i < |entries| && entries[i].key == key
  {
    var last := |entries| - 1;
    if entries[last].key != key {
      PlainKeyIsOne(entries[..last], key);
      var i :| 0 <= i < last && entries[..last][i].key == key;
      assert entries[i].key == key;
    }
  }

  lemma {:induction false} NormalizedKeyIsOne(entries: seq<Entry>, key: seq<Byte>)
    requires key in NormalizedEntries(entries)
    ensures exists i :: 0 <= i < |entries| && CString(entries[i].key) == key
  {
    var last := |entries| - 1;
    if CString(entries[last].key) != key {
      NormalizedKeyIsOne(entries[..last], key);
      var i :| 0 <= i < last && CString(entries[..last][i].key) == key;
      assert CString(entries[i].key) == key;
    }
  }

  /** A value comes back whole exactly when its texts and keys have no zero byte. */
  lemma {:induction false} WholeExactlyWhenNulFree(v: Value)
    requires DistinctKeys(v)
    ensures Normalized(v) == Plain(v) <==> NulFree(v)
    decreases v
  {
    match v
    case Str(text) => TextSurvives(text);
    case StrList(texts) =>
      forall i | 0 <= i < |texts| ensures CString(texts[i]) == texts[i] <==> 0 !in texts[i] {
        TextSurvives(texts[i]);
      }
      TextsWhole(texts);
    case VarList(items) =>
      forall i | 0 <= i < |items| ensures Normalized(items[i]) == Plain(items[i]) <==> NulFree(items[i]) {
        WholeExactlyWhenNulFree(items[i]);
      }
      ItemsWhole(items);
    case VarMap(entries) =>
      EntriesWhole(entries);
    case _ =>
  }

  lemma TextsWhole(texts: seq<seq<Byte>>)
    ensures Normalized(StrList(texts)) == Plain(StrList(texts)) <==>
            forall i :: 0 <= i < |texts| ==> CString(texts[i]) == texts[i]
  {
    var a, b := Normalized(StrList(texts)).items, Plain(StrList(texts)).items;
    assert forall i :: 0 <= i < |texts| ==> a[i] == StrCopy(CString(texts[i])) && b[i] == StrCopy(texts[i]);
    assert a == b <==> forall i :: 0 <= i < |texts| ==> a[i] == b[i];
  }

  lemma ItemsWhole(items: seq<Value>)
    ensures Normalized(VarList(items)) == Plain(VarList(items)) <==>
            forall i :: 0 <= i < |items| ==> Normalized(items[i]) == Plain(items[i])
  {
    var a, b := Normalized(VarList(items)).items, Plain(VarList(items)).items;
    assert forall i :: 0 <= i < |items| ==> a[i] == Normalized(items[i]) && b[i] == Plain(items[i]);
    assert a == b <==> forall i :: 0 <= i < |items| ==> a[i] == b[i];
  }

  /** Equal maps have whole keys only. */
  lemma KeysAreWhole(entries: seq<Entry>, i: nat)
    requires NormalizedEntries(entries) == PlainEntries(entries) && i < |entries|
    ensures 0 !in entries[i].key && CString(entries[i].key) == entries[i].key
  {
    PlainKeys(entries, i);
    NormalizedKeyIsOne(entries, entries[i].key);
    var j :| 0 <= j < |entries| && CString(entries[j].key) == entries[i].key;
    TextSurvives(entries[j].key);
    TextSurvives(entries[i].key);
  }

  /** The last of the distinct keys is in neither map before it is inserted. */
  lemma LastKeyIsNew(entries: seq<Entry>)
    requires entries != [] && DistinctKeys(VarMap(entries))
    ensures entries[|entries| - 1].key !in PlainEntries(entries[..|entries| - 1])
    ensures (forall i :: 0 <= i < |entries| ==> CString(entries[i].key) == entries[i].key) ==>
              entries[|entries| - 1].key !in NormalizedEntries(entries[..|entries| - 1])
  {
    var init, key := entries[..|entries| - 1], entries[|entries| - 1].key;
    if key in PlainEntries(init) { PlainKeyIsOne(init, key); }
    if key in NormalizedEntries(init) { NormalizedKeyIsOne(init, key); }
  }

  lemma WithoutLast(a: map<seq<Byte>, Copy>, b: map<seq<Byte>, Copy>, key: seq<Byte>, x: Copy, y: Copy)
    requires key !in a && key !in b
    ensures a[key := x] == b[key := y] <==> a == b && x == y
  {
    if a[key := x] == b[key := y] {
      assert x == a[key := x][key] == b[key := y][key] == y;
      assert a == a[key := x] - {key};
      assert b == b[key := y] - {key};
    }
  }

  lemma {:induction false} EntriesWhole(entries: seq<Entry>)
    requires DistinctKeys(VarMap(entries))
    ensures NormalizedEntries(entries) == PlainEntries(entries) <==> NulFreeEntries(entries)
    decreases entries
  {
    if entries != [] {
      var last := entries[|entries| - 1];
      var init := entries[..|entries| - 1];
      assert DistinctKeys(VarMap(init));
      EntriesWhole(init);
      WholeExactlyWhenNulFree(last.value);
      assert NulFreeEntries(entries) <==> NulFreeEntries(init) && 0 !in last.key && NulFree(last.value);
      forall i | 0 <= i < |entries| ensures CString(entries[i].key) == entries[i].key <==> 0 !in entries[i].key {
        TextSurvives(entries[i].key);
      }
      if NormalizedEntries(entries) == PlainEntries(entries) {
        forall i | 0 <= i < |entries| ensures 0 !in entries[i].key { KeysAreWhole(entries, i); }
        SplitLast(entries);
      } else if NulFreeEntries(entries) {
        SplitLast(entries);
      }
    }
  }

  lemma SplitLast(entries: seq<Entry>)
    requires entries != [] && DistinctKeys(VarMap(entries))
    requires forall i :: 0 <= i < |entries| ==> CString(entries[i].key) == entries[i].key
    ensures NormalizedEntries(entries) == PlainEntries(entries) <==>
            NormalizedEntries(entries[..|entries| - 1]) == PlainEntries(entries[..|entries| - 1])
            && Normalized(entries[|entries| - 1].value) == Plain(entries[|entries| - 1].value)
  {
    var last := entries[|entries| - 1];
    var init := entries[..|entries| - 1];
    LastKeyIsNew(entries);
    WithoutLast(NormalizedEntries(init), PlainEntries(init), last.key, Normalized(last.value), Plain(last.value));
  }
}

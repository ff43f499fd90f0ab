/** What a canonical text reads back as: objects with their keys in order, and one form for each kind of value, also
    for those that JSON has none for. */
module CanonicalForms {
  import opened PyStrings
  import opened Json
  import opened JsonLaws
  import opened CanonicalJson
  import CanonicalShape

  // ── Order ────────────────────────────────────────────────────────────────

  /** Every object in the tree has its keys in code-point order. */
  ghost predicate KeysInOrder(t: Json) {
    match t
    case JArr(items) => forall i :: 0 <= i < |items| ==> KeysInOrder(items[i])
    case JObj(fields) =>
      && (forall i, j :: 0 <= i < j < |fields| ==> Precedes(fields[i].key, fields[j].key))
      && (forall i :: 0 <= i < |fields| ==> KeysInOrder(fields[i].value))
    case _ => true
  }

  lemma {:induction false} SortTreeOrders(t: Json)
    requires WellFormed(t)
    ensures KeysInOrder(SortTree(t))
    decreases t
  {
    match t
    case JArr(items) =>
      forall i | 0 <= i < |items|
        ensures KeysInOrder(SortTree(items[i]))
      {
        SortTreeOrders(items[i]);
      }
    case JObj(fields) =>
      var vs := SortValues(fields);
      forall i | 0 <= i < |fields|
        ensures KeysInOrder(vs[i].value)
      {
        SortTreeOrders(fields[i].value);
      }
      SortedFieldsInOrder(vs);
    case _ =>
  }

  lemma SortedFieldsInOrder(vs: seq<Field>)
    requires DistinctKeys(vs) && forall i :: 0 <= i < |vs| ==> KeysInOrder(vs[i].value)
    ensures KeysInOrder(JObj(SortFields(vs)))
  {
    hide SortFields, Less, Precedes;
    SortFieldsSorts(vs);
    var fs := SortFields(vs);
    forall i, j | 0 <= i < j < |fs|
      ensures Precedes(fs[i].key, fs[j].key)
    {
      LessMeans(fs[i].key, fs[j].key);
    }
    forall i | 0 <= i < |fs|
      ensures KeysInOrder(fs[i].value)
    {
      assert fs[i] in vs;
    }
  }

  lemma LoadsCanonical(v: Py)
    ensures Loads(CanonicalText(v)) == Some(SortTree(Canonicalise(v)))
  {
    CanonicaliseWellFormed(v);
    SortTreeKeeps(Canonicalise(v));
    LoadsPrinted(COMPACT, SortTree(Canonicalise(v)));
  }

  /** The text reads as a tree all of whose objects have their keys in code-point order. */
  lemma CanonicalKeysInOrder(v: Py)
    ensures var t := Loads(CanonicalText(v)); t.Some? && KeysInOrder(t.value)
  {
    LoadsCanonical(v);
    CanonicaliseWellFormed(v);
    SortTreeOrders(Canonicalise(v));
  }

  // ── The forms of what JSON has no value for ──────────────────────────────

  predicate HexOf(h: string, b: bv8)
    requires |h| == 2
  {
    && h[0] in "0123456789abcdef" && h[1] in "0123456789abcdef"
    && HexValue(h[0]).Some? && HexValue(h[1]).Some?
    && HexValue(h[0]).value * 16 + HexValue(h[1]).value == b as nat
  }

  lemma HexPair(b: bv8)
    ensures HexOf([HexDigit((b / 16) as nat), HexDigit((b % 16) as nat)], b)
  {
    CanonicalShape.LowDigit((b / 16) as nat);
    CanonicalShape.LowDigit((b % 16) as nat);
    HexBack((b / 16) as nat);
    HexBack((b % 16) as nat);
    hide HexDigit, HexValue;
  }

  lemma {:induction false} HexTextPairs(raw: seq<bv8>)
    ensures var h := HexText(raw);
            |h| == 2 * |raw| && forall i :: 0 <= i < |raw| ==> HexOf(h[2 * i..2 * i + 2], raw[i])
  {
    hide HexOf, HexDigit;
    if raw != [] {
      HexTextPairs(raw[1..]);
      HexPair(raw[0]);
      var h, t := HexText(raw), HexText(raw[1..]);
      forall i | 0 <= i < |raw|
        ensures HexOf(h[2 * i..2 * i + 2], raw[i])
      {
        if i > 0 {
          assert h[2 * i..2 * i + 2] == t[2 * (i - 1)..2 * (i - 1) + 2];
        } else {
          assert h[0..2] == [HexDigit((raw[0] / 16) as nat), HexDigit((raw[0] % 16) as nat)];
        }
      }
    }
  }

  /** Bytes read back as two lower-case hexadecimal digits each. */
  lemma BytesForm(raw: seq<bv8>)
    ensures var t := Loads(CanonicalText(PBytes(raw)));
            && t.Some? && t.value.JStr? && |t.value.s| == 2 * |raw|
            && forall i :: 0 <= i < |raw| ==> HexOf(t.value.s[2 * i..2 * i + 2], raw[i])
  {
    hide HexOf, CanonicalText;
    LoadsCanonical(PBytes(raw));
    HexTextPairs(raw);
  }

  /** The members of a set, each as often as it comes, in code-point order. */
  ghost predicate Listed(ss: seq<string>, forms: seq<string>) {
    multiset(ss) == multiset(forms) && forall i, j :: 0 <= i < j < |ss| ==> !Precedes(ss[j], ss[i])
  }

  lemma SortedListed(forms: seq<string>)
    ensures Listed(SortTexts(forms), forms)
  {
    hide Less, Precedes, SortTexts;
    var ss := SortTexts(forms);
    SortTextsSorts(forms);
    forall i, j | 0 <= i < j < |ss|
      ensures !Precedes(ss[j], ss[i])
    {
      LessMeans(ss[j], ss[i]);
    }
  }

  lemma LoadsSet(forms: seq<string>)
    ensures Loads(CanonicalText(PSet(forms))) == Some(JArr(Strings(SortTexts(forms))))
  {
    hide Loads, CanonicalText, SortTexts, Strings;
    LoadsCanonical(PSet(forms));
    StringsSorted(SortTexts(forms));
  }

  /** A set reads back as the `str()` of its members, each as often as it comes, in code-point order. */
  lemma SetForm(forms: seq<string>)
    ensures exists ss: seq<string> ::
              Loads(CanonicalText(PSet(forms))) == Some(JArr(Strings(ss))) && Listed(ss, forms)
  {
    hide Loads, CanonicalText, Listed, Strings, SortTexts;
    LoadsSet(forms);
    SortedListed(forms);
  }

  lemma StringsSorted(ss: seq<string>)
    ensures SortTree(JArr(Strings(ss))) == JArr(Strings(ss))
  {
    assert SortItems(Strings(ss)) == Strings(ss);
  }

  /** What has no JSON form of its own: a non-finite float is `null`, and any other object its `str()`. */
  lemma OtherForms(text: string)
    ensures CanonicalText(PNonFinite) == "null" && CanonicalText(PNone) == "null"
    ensures CanonicalText(PBool(true)) == "true" && CanonicalText(PBool(false)) == "false"
    ensures Loads(CanonicalText(POther(text))) == Some(JStr(text))
    ensures Loads(CanonicalText(PStr(text))) == Some(JStr(text))
  {
    LoadsCanonical(POther(text));
    LoadsCanonical(PStr(text));
  }

  ghost predicate IsLast(pairs: seq<Field>, f: Field) {
    exists i :: 0 <= i < |pairs| && LastAt(pairs, i) && pairs[i] == f
  }

  lemma LastEarlier(pairs: seq<Field>, i: nat)
    requires i < |pairs| - 1
    ensures LastAt(pairs, i) <==> LastAt(pairs[..|pairs| - 1], i) && pairs[|pairs| - 1].key != pairs[i].key
  {
    var n := |pairs| - 1;
    if LastAt(pairs[..n], i) && pairs[n].key != pairs[i].key {
      forall j | i < j < |pairs|
        ensures pairs[j].key != pairs[i].key
      {
        assert j < n ==> pairs[..n][j] == pairs[j];
      }
    }
  }

  lemma IsLastStep(pairs: seq<Field>, f: Field)
    requires pairs != []
    ensures var n := |pairs| - 1;
            IsLast(pairs, f) <==> f == pairs[n] || (IsLast(pairs[..n], f) && f.key != pairs[n].key)
  {
    var n := |pairs| - 1;
    assert LastAt(pairs, n);
    hide LastAt;
    var before := pairs[..n];
    if IsLast(pairs, f) && f != pairs[n] {
      var i :| 0 <= i < |pairs| && LastAt(pairs, i) && pairs[i] == f;
      LastEarlier(pairs, i);
      assert before[i] == f;
    }
    if IsLast(before, f) && f.key != pairs[n].key {
      var i :| 0 <= i < n && LastAt(before, i) && before[i] == f;
      LastEarlier(pairs, i);
    }
  }

  lemma {:induction false} DictOfLast(pairs: seq<Field>)
    ensures DistinctKeys(DictOf(pairs)) && forall f :: f in DictOf(pairs) <==> IsLast(pairs, f)
  {
    hide IsLast, Put;
    if pairs == [] {
      assert forall f :: !IsLast([], f) by { NoneLast(); }
    } else {
      var n := |pairs| - 1;
      DictOfLast(pairs[..n]);
      PutKeeps(DictOf(pairs[..n]), pairs[n]);
      forall f
        ensures f in DictOf(pairs) <==> IsLast(pairs, f)
      {
        IsLastStep(pairs, f);
      }
    }
  }

  lemma NoneLast()
    ensures forall f :: !IsLast([], f)
  {
  }

  /** The item a key is bound to: the last one with its `str()`. */
  predicate Binds(items: seq<Item>, i: nat) {
    i < |items| && forall j :: i < j < |items| ==> items[j].keyText != items[i].keyText
  }

  /** The field an item is read back as. */
  ghost predicate IsFieldOf(item: Item, f: Field) {
    f.key == item.keyText && Loads(CanonicalText(item.value)) == Some(f.value)
  }

  /** The field of the item its key is bound to. */
  ghost predicate IsBound(items: seq<Item>, f: Field) {
    exists i: nat :: Binds(items, i) && IsFieldOf(items[i], f)
  }

  lemma FieldOfItem(item: Item, f: Field)
    ensures IsFieldOf(item, f) <==> f == Field(item.keyText, SortTree(Canonicalise(item.value)))
  {
    hide Loads, CanonicalText;
    LoadsCanonical(item.value);
  }

  /** A dict reads back as an object with one field per key text, holding what the last item with it reads as. */
  lemma DictForm(items: seq<Item>)
    ensures exists fields: seq<Field> ::
              && Loads(CanonicalText(PDict(items))) == Some(JObj(fields)) && DistinctKeys(fields)
              && forall f :: f in fields <==> IsBound(items, f)
  {
    hide Loads, DictOf, SortFields, SortTree, Canonicalise, IsBound;
    var pairs := CanonicalPairs(items);
    DictOfLast(pairs);
    var vs := SortValues(DictOf(pairs));
    SortFieldsSorts(vs);
    SortedKeysDiffer(SortFields(vs));
    LoadsDict(items);
    forall f
      ensures f in SortFields(vs) <==> IsBound(items, f)
    {
      if f in vs {
        FieldIsBound(items, f);
      }
      if IsBound(items, f) {
        BoundIsField(items, f);
      }
    }
  }

  lemma LoadsDict(items: seq<Item>)
    ensures Loads(CanonicalText(PDict(items))) == Some(JObj(SortFields(SortValues(DictOf(CanonicalPairs(items))))))
  {
    hide Loads, CanonicalText;
    LoadsCanonical(PDict(items));
  }

  lemma FieldIsBound(items: seq<Item>, f: Field)
    requires f in SortValues(DictOf(CanonicalPairs(items)))
    ensures IsBound(items, f)
  {
    hide DictOf, SortTree, Canonicalise, IsFieldOf, IsLast, LastAt;
    var pairs := CanonicalPairs(items);
    var d := DictOf(pairs);
    DictOfLast(pairs);
    var k :| 0 <= k < |d| && SortValues(d)[k] == f;
    assert d[k] in d;
    var i := LastIndex(pairs, d[k]);
    BindsIff(items, i);
    FieldOfItem(items[i], f);
  }

  lemma LastIndex(pairs: seq<Field>, f: Field) returns (i: nat)
    requires IsLast(pairs, f)
    ensures i < |pairs| && LastAt(pairs, i) && pairs[i] == f
  {
    i :| i < |pairs| && LastAt(pairs, i) && pairs[i] == f;
  }

  lemma BoundIsField(items: seq<Item>, f: Field)
    requires IsBound(items, f)
    ensures f in SortValues(DictOf(CanonicalPairs(items)))
  {
    hide DictOf, SortTree, Canonicalise, IsFieldOf, LastAt;
    var pairs := CanonicalPairs(items);
    var d := DictOf(pairs);
    var i: nat :| Binds(items, i) && IsFieldOf(items[i], f);
    BindsIff(items, i);
    FieldOfItem(items[i], f);
    DictOfLast(pairs);
    assert IsLast(pairs, pairs[i]);
    var k :| 0 <= k < |d| && d[k] == pairs[i];
    assert SortValues(d)[k] == f;
  }

  lemma BindsIff(items: seq<Item>, i: nat)
    requires i < |items|
    ensures Binds(items, i) <==> LastAt(CanonicalPairs(items), i)
  {
    var pairs := CanonicalPairs(items);
    assert forall j :: 0 <= j < |items| ==> pairs[j].key == items[j].keyText;
  }

  /** A list reads back element by element. */
  lemma ListForm(elems: seq<Py>)
    ensures exists items: seq<Json> ::
              && Loads(CanonicalText(PList(elems))) == Some(JArr(items)) && |items| == |elems|
              && forall i :: 0 <= i < |elems| ==> Loads(CanonicalText(elems[i])) == Some(items[i])
  {
    hide Loads, CanonicalText;
    LoadsCanonical(PList(elems));
    var items := SortItems(CanonicalElems(elems));
    forall i | 0 <= i < |elems|
      ensures Loads(CanonicalText(elems[i])) == Some(items[i])
    {
      LoadsCanonical(elems[i]);
    }
  }
}

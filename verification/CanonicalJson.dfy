/** `hashchain._canonicalise` and `hashchain.canonical_json`: the one text a payload's
    hash is taken over. */
module CanonicalJson {
  import opened PyStrings
  import opened Json
  import opened JsonLaws

  /** One entry of a Python dict: `str(key)` and the value. */
  datatype Item = Item(keyText: string, value: Py)

  /** The Python values the canonicaliser tells apart. A dict is its items in insertion
      order; a set is the `str()` of its members in whatever order it is iterated. */
  datatype Py =
    | PNone
    | PBool(b: bool)
    | PStr(s: string)
    | PInt(n: int)
    | PFloat(repr: FloatText)
    | PNonFinite
    | PDict(items: seq<Item>)
    | PList(elems: seq<Py>)
    | PSet(forms: seq<string>)
    | PBytes(raw: seq<bv8>)
    | POther(text: string)

  // ── Sorting ──────────────────────────────────────────────────────────────

  function InsertText(s: string, sorted: seq<string>): seq<string> {
    if sorted == [] || !Less(sorted[0], s) then [s] + sorted
    else [sorted[0]] + InsertText(s, sorted[1..])
  }

  /** `sorted(...)` on strings. */
  function SortTexts(ss: seq<string>): seq<string> {
    if ss == [] then [] else InsertText(ss[0], SortTexts(ss[1..]))
  }

  function Insert(f: Field, sorted: seq<Field>): seq<Field> {
    if sorted == [] || !Less(sorted[0].key, f.key) then [f] + sorted
    else [sorted[0]] + Insert(f, sorted[1..])
  }

  /** The items of an object in key order. */
  function SortFields(fs: seq<Field>): seq<Field> {
    if fs == [] then [] else Insert(fs[0], SortFields(fs[1..]))
  }

  /** What `sort_keys=True` does to a tree: every object's fields in key order. */
  function SortTree(t: Json): Json
    decreases t, 1
  {
    match t
    case JArr(items) => JArr(SortItems(items))
    case JObj(fields) => JObj(SortFields(SortValues(fields)))
    case _ => t
  }

  function SortItems(items: seq<Json>): (r: seq<Json>)
    ensures |r| == |items|
    ensures forall i :: 0 <= i < |r| ==> r[i] == SortTree(items[i])
    decreases items, 0
  {
    if items == [] then [] else [SortTree(items[0])] + SortItems(items[1..])
  }

  function SortValues(fs: seq<Field>): (r: seq<Field>)
    ensures |r| == |fs|
    ensures forall i :: 0 <= i < |r| ==> r[i] == Field(fs[i].key, SortTree(fs[i].value))
    decreases fs, 0
  {
    if fs == [] then [] else [Field(fs[0].key, SortTree(fs[0].value))] + SortValues(fs[1..])
  }

  // ── The canonicaliser ────────────────────────────────────────────────────

  function HexText(raw: seq<bv8>): string {
    if raw == [] then []
    else [HexDigit((raw[0] / 16) as nat), HexDigit((raw[0] % 16) as nat)] + HexText(raw[1..])
  }

  function Strings(ss: seq<string>): (r: seq<Json>)
    ensures |r| == |ss| && forall i :: 0 <= i < |r| ==> r[i] == JStr(ss[i])
  {
    seq(|ss|, i requires 0 <= i < |ss| => JStr(ss[i]))
  }

  /** `_canonicalise` */
  function Canonicalise(v: Py): Json
    decreases v, 1
  {
    match v
    case PNone => JNull
    case PBool(b) => JBool(b)
    case PStr(s) => JStr(s)
    case PInt(n) => JInt(n)
    case PFloat(repr) => JFloat(repr)
    case PNonFinite => JNull
    case PDict(items) => JObj(DictOf(CanonicalPairs(items)))
    case PList(elems) => JArr(CanonicalElems(elems))
    case PSet(forms) => JArr(Strings(SortTexts(forms)))
    case PBytes(raw) => JStr(HexText(raw))
    case POther(text) => JStr(text)
  }

  function CanonicalPairs(items: seq<Item>): (r: seq<Field>)
    ensures |r| == |items|
    ensures forall i :: 0 <= i < |r| ==> r[i] == Field(items[i].keyText, Canonicalise(items[i].value))
    decreases items, 0
  {
    if items == [] then []
    else [Field(items[0].keyText, Canonicalise(items[0].value))] + CanonicalPairs(items[1..])
  }

  function CanonicalElems(elems: seq<Py>): (r: seq<Json>)
    ensures |r| == |elems|
    ensures forall i :: 0 <= i < |r| ==> r[i] == Canonicalise(elems[i])
    decreases elems, 0
  {
    if elems == [] then [] else [Canonicalise(elems[0])] + CanonicalElems(elems[1..])
  }

  /** `canonical_json` */
  function CanonicalText(v: Py): string {
    Print(COMPACT, SortTree(Canonicalise(v)))
  }

  /** A canonicalised tree as the Python value it is. */
  function AsPy(t: Json): Py
    decreases t, 1
  {
    match t
    case JNull => PNone
    case JBool(b) => PBool(b)
    case JInt(n) => PInt(n)
    case JFloat(repr) => PFloat(repr)
    case JStr(s) => PStr(s)
    case JArr(items) => PList(AsPys(items))
    case JObj(fields) => PDict(AsItems(fields))
  }

  function AsPys(items: seq<Json>): (r: seq<Py>)
    ensures |r| == |items| && forall i :: 0 <= i < |r| ==> r[i] == AsPy(items[i])
    decreases items, 0
  {
    if items == [] then [] else [AsPy(items[0])] + AsPys(items[1..])
  }

  function AsItems(fields: seq<Field>): (r: seq<Item>)
    ensures |r| == |fields|
    ensures forall i :: 0 <= i < |r| ==> r[i] == Item(fields[i].key, AsPy(fields[i].value))
    decreases fields, 0
  {
    if fields == [] then [] else [Item(fields[0].key, AsPy(fields[0].value))] + AsItems(fields[1..])
  }

  // ── What a JSON value means, independent of the printer ──────────────────

  /** A JSON value as it is written, with an object as the finite map it denotes: equality of these is
      blind to the order of keys and to nothing else (Python's own also has `1 == 1.0 == True`). */
  datatype Value =
    | VNull
    | VBool(b: bool)
    | VInt(n: int)
    | VFloat(repr: FloatText)
    | VStr(s: string)
    | VArr(items: seq<Value>)
    | VObj(entries: map<string, Value>)

  function Meaning(t: Json): Value
    decreases t, 1
  {
    match t
    case JNull => VNull
    case JBool(b) => VBool(b)
    case JInt(n) => VInt(n)
    case JFloat(repr) => VFloat(repr)
    case JStr(s) => VStr(s)
    case JArr(items) => VArr(Meanings(items))
    case JObj(fields) => VObj(Entries(fields))
  }

  function Meanings(items: seq<Json>): (r: seq<Value>)
    ensures |r| == |items| && forall i :: 0 <= i < |r| ==> r[i] == Meaning(items[i])
    decreases items, 0
  {
    if items == [] then [] else [Meaning(items[0])] + Meanings(items[1..])
  }

  /** Later bindings replace earlier ones. */
  function Entries(fields: seq<Field>): map<string, Value>
    decreases fields, 0
  {
    if fields == [] then map[]
    else
      var f := fields[|fields| - 1];
      Entries(fields[..|fields| - 1])[f.key := Meaning(f.value)]
  }

  predicate StrictlySorted(fs: seq<Field>) {
    forall i, j :: 0 <= i < j < |fs| ==> Less(fs[i].key, fs[j].key)
  }

  lemma {:induction false} InsertKeeps(f: Field, fs: seq<Field>)
    requires StrictlySorted(fs) && forall i :: 0 <= i < |fs| ==> fs[i].key != f.key
    ensures StrictlySorted(Insert(f, fs))
    ensures forall x :: x in Insert(f, fs) <==> x == f || x in fs
    ensures |Insert(f, fs)| == |fs| + 1
  {
    if fs == [] || !Less(fs[0].key, f.key) {
      if fs != [] {
        LessTotal(f.key, fs[0].key);
        forall j | 0 < j < |fs|
          ensures Less(f.key, fs[j].key)
        {
          LessTransitive(f.key, fs[0].key, fs[j].key);
        }
      }
    } else {
      InsertKeeps(f, fs[1..]);
      var rest := Insert(f, fs[1..]);
      forall j | 0 <= j < |rest|
        ensures Less(fs[0].key, rest[j].key)
      {
        assert rest[j] in rest;
      }
      assert fs == [fs[0]] + fs[1..];
    }
  }

  lemma {:induction false} SortFieldsSorts(fs: seq<Field>)
    requires DistinctKeys(fs)
    ensures StrictlySorted(SortFields(fs))
    ensures forall x :: x in SortFields(fs) <==> x in fs
    ensures |SortFields(fs)| == |fs|
  {
    if fs != [] {
      SortFieldsSorts(fs[1..]);
      forall i | 0 <= i < |SortFields(fs[1..])|
        ensures SortFields(fs[1..])[i].key != fs[0].key
      {
        assert SortFields(fs[1..])[i] in fs[1..];
      }
      InsertKeeps(fs[0], SortFields(fs[1..]));
      assert fs == [fs[0]] + fs[1..];
    }
  }

  /** A strictly sorted sequence is determined by its members. */
  lemma {:induction false} SortedUnique(fs: seq<Field>, gs: seq<Field>)
    requires StrictlySorted(fs) && StrictlySorted(gs)
    requires forall x :: x in fs <==> x in gs
    ensures fs == gs
  {
    if fs != [] {
      assert fs[0] in gs;
    }
    if gs != [] {
      assert gs[0] in fs;
      var i :| 0 <= i < |fs| && fs[i] == gs[0];
      var j :| 0 <= j < |gs| && gs[j] == fs[0];
      if i > 0 && j > 0 {
        LessTotal(fs[0].key, gs[0].key);
      }
      assert fs[0] == gs[0];
      LessTotal(fs[0].key, fs[0].key);
      forall x
        ensures x in fs[1..] <==> x in gs[1..]
      {
        assert x in fs <==> x == fs[0] || x in fs[1..];
        assert x in gs <==> x == gs[0] || x in gs[1..];
        assert fs[0] !in fs[1..] && gs[0] !in gs[1..];
      }
      SortedUnique(fs[1..], gs[1..]);
      assert fs == [fs[0]] + fs[1..] && gs == [gs[0]] + gs[1..];
    }
  }

  /** No later pair has the key of pair `i`. */
  predicate LastAt(pairs: seq<Field>, i: int)
    requires 0 <= i < |pairs|
  {
    forall j :: i < j < |pairs| ==> pairs[j].key != pairs[i].key
  }

  lemma {:induction false} LastBinding(pairs: seq<Field>, i: nat)
    requires i < |pairs| && LastAt(pairs, i)
    ensures pairs[i].key in Entries(pairs) && Entries(pairs)[pairs[i].key] == Meaning(pairs[i].value)
  {
    var n := |pairs| - 1;
    if i < n {
      assert LastAt(pairs[..n], i);
      LastBinding(pairs[..n], i);
      assert pairs[n].key != pairs[i].key;
    }
  }

  lemma {:induction false} BindingOf(pairs: seq<Field>, k: string) returns (i: nat)
    requires k in Entries(pairs)
    ensures i < |pairs| && LastAt(pairs, i) && pairs[i].key == k
  {
    hide Meaning;
    var n := |pairs| - 1;
    if k == pairs[n].key {
      i := n;
    } else {
      i := BindingOf(pairs[..n], k);
    }
  }

  /** An object's entries are exactly its last bindings. */
  lemma {:induction false} EntriesLast(pairs: seq<Field>)
    ensures forall i :: 0 <= i < |pairs| && LastAt(pairs, i) ==>
              pairs[i].key in Entries(pairs) && Entries(pairs)[pairs[i].key] == Meaning(pairs[i].value)
    ensures forall k :: k in Entries(pairs) ==>
              exists i :: 0 <= i < |pairs| && LastAt(pairs, i) && pairs[i].key == k
  {
    forall i | 0 <= i < |pairs| && LastAt(pairs, i)
      ensures pairs[i].key in Entries(pairs) && Entries(pairs)[pairs[i].key] == Meaning(pairs[i].value)
    {
      LastBinding(pairs, i);
    }
    forall k | k in Entries(pairs)
      ensures exists i :: 0 <= i < |pairs| && LastAt(pairs, i) && pairs[i].key == k
    {
      var i := BindingOf(pairs, k);
    }
  }

  /** With distinct keys, the entries are the fields. */
  lemma {:induction false} EntriesDistinct(fs: seq<Field>)
    requires DistinctKeys(fs)
    ensures forall i :: 0 <= i < |fs| ==>
              fs[i].key in Entries(fs) && Entries(fs)[fs[i].key] == Meaning(fs[i].value)
    ensures forall k :: k in Entries(fs) ==> exists i :: 0 <= i < |fs| && fs[i].key == k
  {
    EntriesLast(fs);
    assert forall i :: 0 <= i < |fs| ==> LastAt(fs, i);
  }

  lemma {:induction false} PutKeeps(fs: seq<Field>, f: Field)
    requires DistinctKeys(fs)
    ensures DistinctKeys(Put(fs, f))
    ensures forall x :: x in Put(fs, f) <==> x == f || (x in fs && x.key != f.key)
  {
    if fs != [] {
      assert fs == [fs[0]] + fs[1..];
      if fs[0].key != f.key {
        PutKeeps(fs[1..], f);
        var rest := Put(fs[1..], f);
        forall j | 0 <= j < |rest|
          ensures rest[j].key != fs[0].key
        {
          assert rest[j] in rest;
        }
      }
    }
  }

  /** Two objects with distinct keys and the same members have the same entries. */
  lemma EntriesOfMembers(fs: seq<Field>, gs: seq<Field>)
    requires DistinctKeys(fs) && DistinctKeys(gs)
    requires forall x :: x in fs <==> x in gs
    ensures Entries(fs) == Entries(gs)
  {
    EntriesDistinct(fs);
    EntriesDistinct(gs);
    forall k | k in Entries(fs)
      ensures k in Entries(gs) && Entries(gs)[k] == Entries(fs)[k]
    {
      var i :| 0 <= i < |fs| && fs[i].key == k;
      assert fs[i] in gs;
    }
    forall k | k in Entries(gs)
      ensures k in Entries(fs)
    {
      var i :| 0 <= i < |gs| && gs[i].key == k;
      assert gs[i] in fs;
    }
  }

  /** The dict built from pairs has distinct keys and the pairs' entries. */
  lemma {:induction false} DictOfEntries(pairs: seq<Field>)
    ensures DistinctKeys(DictOf(pairs))
    ensures forall x :: x in DictOf(pairs) ==> x in pairs
    ensures Entries(DictOf(pairs)) == Entries(pairs)
  {
    if pairs != [] {
      var n := |pairs| - 1;
      var d, f := DictOf(pairs[..n]), pairs[n];
      DictOfEntries(pairs[..n]);
      PutKeeps(d, f);
      PutEntries(d, f);
    }
  }

  lemma PutEntry(d: seq<Field>, f: Field, k: string)
    requires DistinctKeys(d) && DistinctKeys(Put(d, f))
    requires forall x :: x in Put(d, f) <==> x == f || (x in d && x.key != f.key)
    ensures k in Entries(Put(d, f)) <==> k == f.key || k in Entries(d)
    ensures k in Entries(Put(d, f)) ==> Entries(Put(d, f))[k] == if k == f.key then Meaning(f.value) else Entries(d)[k]
  {
    hide Put, Entries, Meaning;
    var p := Put(d, f);
    EntriesDistinct(d);
    EntriesDistinct(p);
    assert f in p;
    if k in Entries(p) {
      var i :| 0 <= i < |p| && p[i].key == k;
      assert p[i] in p;
    }
    if k in Entries(d) && k != f.key {
      var i :| 0 <= i < |d| && d[i].key == k;
      assert d[i] in p;
    }
  }

  lemma PutEntries(d: seq<Field>, f: Field)
    requires DistinctKeys(d)
    ensures Entries(Put(d, f)) == Entries(d)[f.key := Meaning(f.value)]
  {
    hide Put, Entries, Meaning;
    PutKeeps(d, f);
    forall k
      ensures k in Entries(Put(d, f)) <==> k in Entries(d)[f.key := Meaning(f.value)]
      ensures k in Entries(Put(d, f)) ==> Entries(Put(d, f))[k] == Entries(d)[f.key := Meaning(f.value)][k]
    {
      PutEntry(d, f, k);
    }
  }

  // ── Sorting keeps the meaning and makes it unique ────────────────────────

  lemma {:induction false} CanonicaliseWellFormed(v: Py)
    ensures WellFormed(Canonicalise(v))
    decreases v
  {
    match v
    case PDict(items) =>
      var pairs := CanonicalPairs(items);
      DictOfEntries(pairs);
      forall x | x in DictOf(pairs)
        ensures WellFormed(x.value)
      {
        var i :| 0 <= i < |pairs| && pairs[i] == x;
        CanonicaliseWellFormed(items[i].value);
      }
    case PList(elems) =>
      forall i | 0 <= i < |elems|
        ensures WellFormed(Canonicalise(elems[i]))
      {
        CanonicaliseWellFormed(elems[i]);
      }
    case _ =>
  }

  lemma {:induction false} SortTreeKeeps(t: Json)
    requires WellFormed(t)
    ensures WellFormed(SortTree(t)) && Meaning(SortTree(t)) == Meaning(t)
    decreases t
  {
    match t
    case JArr(items) =>
      forall i | 0 <= i < |items|
        ensures WellFormed(SortTree(items[i])) && Meaning(SortTree(items[i])) == Meaning(items[i])
      {
        SortTreeKeeps(items[i]);
      }
      assert Meanings(SortItems(items)) == Meanings(items);
    case JObj(fields) =>
      forall i | 0 <= i < |fields|
        ensures WellFormed(SortTree(fields[i].value)) && Meaning(SortTree(fields[i].value)) == Meaning(fields[i].value)
      {
        SortTreeKeeps(fields[i].value);
      }
      SortObjectKeeps(fields);
    case _ =>
  }

  lemma SortObjectKeeps(fields: seq<Field>)
    requires DistinctKeys(fields)
    requires forall i :: 0 <= i < |fields| ==>
               WellFormed(SortTree(fields[i].value)) && Meaning(SortTree(fields[i].value)) == Meaning(fields[i].value)
    ensures WellFormed(JObj(SortFields(SortValues(fields))))
    ensures Entries(SortFields(SortValues(fields))) == Entries(fields)
  {
    hide Entries, Meaning, WellFormed, SortFields, Less, SortTree;
    var vs := SortValues(fields);
    SortFieldsSorts(vs);
    SortedIsObject(SortFields(vs), vs);
    SortedKeysDiffer(SortFields(vs));
    EntriesOfMembers(SortFields(vs), vs);
    SortValuesEntries(fields);
  }

  lemma SortedKeysDiffer(fs: seq<Field>)
    requires StrictlySorted(fs)
    ensures DistinctKeys(fs)
  {
    hide Less;
    forall i, j | 0 <= i < j < |fs|
      ensures fs[i].key != fs[j].key
    {
      LessTotal(fs[i].key, fs[i].key);
    }
  }

  lemma SortedIsObject(sorted: seq<Field>, vs: seq<Field>)
    requires StrictlySorted(sorted) && forall x :: x in sorted <==> x in vs
    requires forall i :: 0 <= i < |vs| ==> WellFormed(vs[i].value)
    ensures WellFormed(JObj(sorted))
  {
    hide Less;
    SortedKeysDiffer(sorted);
    forall i | 0 <= i < |sorted|
      ensures WellFormed(sorted[i].value)
    {
      assert sorted[i] in vs;
    }
  }

  lemma {:induction false} SortValuesEntries(fields: seq<Field>)
    requires forall i :: 0 <= i < |fields| ==> Meaning(SortTree(fields[i].value)) == Meaning(fields[i].value)
    ensures Entries(SortValues(fields)) == Entries(fields)
  {
    if fields != [] {
      var n := |fields| - 1;
      SortValuesEntries(fields[..n]);
      assert SortValues(fields)[..n] == SortValues(fields[..n]);
    }
  }

  /** The sorted tree is determined by what the tree means. */
  lemma {:induction false} SortTreeUnique(t: Json, u: Json)
    requires WellFormed(t) && WellFormed(u)
    requires Meaning(t) == Meaning(u)
    ensures SortTree(t) == SortTree(u)
    decreases t
  {
    match t
    case JArr(items) =>
      forall i | 0 <= i < |items|
        ensures SortTree(items[i]) == SortTree(u.items[i])
      {
        assert Meanings(items)[i] == Meanings(u.items)[i];
        SortTreeUnique(items[i], u.items[i]);
      }
      assert |Meanings(items)| == |Meanings(u.items)|;
      assert SortItems(items) == SortItems(u.items);
    case JObj(fields) =>
      forall i, j | 0 <= i < |fields| && 0 <= j < |u.fields| && Meaning(fields[i].value) == Meaning(u.fields[j].value)
        ensures SortTree(fields[i].value) == SortTree(u.fields[j].value)
      {
        SortTreeUnique(fields[i].value, u.fields[j].value);
      }
      SortObjectsEqual(fields, u.fields);
    case _ =>
  }

  lemma {:induction false} SortObjectsEqual(fs: seq<Field>, gs: seq<Field>)
    requires DistinctKeys(fs) && DistinctKeys(gs) && Entries(fs) == Entries(gs)
    requires forall i, j :: 0 <= i < |fs| && 0 <= j < |gs| && Meaning(fs[i].value) == Meaning(gs[j].value) ==>
               SortTree(fs[i].value) == SortTree(gs[j].value)
    ensures SortFields(SortValues(fs)) == SortFields(SortValues(gs))
  {
    var a, b := SortValues(fs), SortValues(gs);
    SortedMember(fs, gs);
    SortedMember(gs, fs);
    SortFieldsSorts(a);
    SortFieldsSorts(b);
    SortedUnique(SortFields(a), SortFields(b));
  }

  lemma {:induction false} SortedMember(fs: seq<Field>, gs: seq<Field>)
    requires DistinctKeys(fs) && DistinctKeys(gs) && Entries(fs) == Entries(gs)
    requires forall i, j :: 0 <= i < |fs| && 0 <= j < |gs| && Meaning(fs[i].value) == Meaning(gs[j].value) ==>
               SortTree(fs[i].value) == SortTree(gs[j].value)
    ensures forall x :: x in SortValues(fs) ==> x in SortValues(gs)
  {
    var a, b := SortValues(fs), SortValues(gs);
    EntriesDistinct(fs);
    EntriesDistinct(gs);
    forall x | x in a
      ensures x in b
    {
      var i :| 0 <= i < |a| && a[i] == x;
      var j :| 0 <= j < |gs| && gs[j].key == fs[i].key;
      assert Meaning(fs[i].value) == Meaning(gs[j].value);
      assert b[j] == x;
    }
  }

  // ── What the canonical text promises ─────────────────────────────────────

  /** Unambiguous and order-blind: two payloads have the same canonical text exactly when
      their canonical forms mean the same value, dicts compared without regard to order. */
  lemma CanonicalTextUnambiguous(v: Py, w: Py)
    ensures CanonicalText(v) == CanonicalText(w) <==> Meaning(Canonicalise(v)) == Meaning(Canonicalise(w))
  {
    CanonicaliseWellFormed(v);
    CanonicaliseWellFormed(w);
    SortTreeKeeps(Canonicalise(v));
    SortTreeKeeps(Canonicalise(w));
    if CanonicalText(v) == CanonicalText(w) {
      PrintInjective(COMPACT, SortTree(Canonicalise(v)), COMPACT, SortTree(Canonicalise(w)));
    }
    if Meaning(Canonicalise(v)) == Meaning(Canonicalise(w)) {
      SortTreeUnique(Canonicalise(v), Canonicalise(w));
    }
  }

  /** The canonical text is valid JSON: reading it back gives the canonicalised value. */
  lemma CanonicalTextReadsBack(v: Py)
    ensures var t := Loads(CanonicalText(v)); t.Some? && Meaning(t.value) == Meaning(Canonicalise(v))
  {
    CanonicaliseWellFormed(v);
    SortTreeKeeps(Canonicalise(v));
    LoadsPrinted(COMPACT, SortTree(Canonicalise(v)));
  }

  lemma {:induction false} CanonicaliseAsPy(t: Json)
    requires WellFormed(t)
    ensures Canonicalise(AsPy(t)) == t
    decreases t
  {
    match t
    case JArr(items) =>
      forall i | 0 <= i < |items|
        ensures Canonicalise(AsPy(items[i])) == items[i]
      {
        CanonicaliseAsPy(items[i]);
      }
      assert CanonicalElems(AsPys(items)) == items;
    case JObj(fields) =>
      forall i | 0 <= i < |fields|
        ensures Canonicalise(AsPy(fields[i].value)) == fields[i].value
      {
        CanonicaliseAsPy(fields[i].value);
      }
      assert CanonicalPairs(AsItems(fields)) == fields;
      DictOfDistinct(fields);
    case _ =>
  }

  /** `canonical_json(_canonicalise(v)) == canonical_json(v)` */
  lemma CanonicalTextIdempotent(v: Py)
    ensures CanonicalText(AsPy(Canonicalise(v))) == CanonicalText(v)
  {
    CanonicaliseWellFormed(v);
    CanonicaliseAsPy(Canonicalise(v));
  }

  // ── Insertion order ──────────────────────────────────────────────────────

  /** Entries whose keys have the same `str()` have the same canonical value. */
  predicate NoConflict(items: seq<Item>) {
    forall i, j :: 0 <= i < |items| && 0 <= j < |items| && items[i].keyText == items[j].keyText ==>
      Meaning(Canonicalise(items[i].value)) == Meaning(Canonicalise(items[j].value))
  }

  lemma DictMeaning(items: seq<Item>)
    ensures Meaning(Canonicalise(PDict(items))) == VObj(Entries(CanonicalPairs(items)))
  {
    DictOfEntries(CanonicalPairs(items));
  }

  /** Without conflict, each entry of the dict is the value of any item with that key. */
  lemma NoConflictEntry(items: seq<Item>, i: nat)
    requires NoConflict(items) && i < |items|
    ensures var e := Entries(CanonicalPairs(items));
            items[i].keyText in e && e[items[i].keyText] == Meaning(Canonicalise(items[i].value))
    decreases |items| - i
  {
    var p := CanonicalPairs(items);
    EntriesLast(p);
    if !LastAt(p, i) {
      var j :| i < j < |p| && p[j].key == p[i].key;
      NoConflictEntry(items, j);
    }
  }

  lemma {:induction false} ReorderedIncluded(items: seq<Item>, other: seq<Item>)
    requires multiset(items) == multiset(other) && NoConflict(items) && NoConflict(other)
    ensures var e, f := Entries(CanonicalPairs(items)), Entries(CanonicalPairs(other));
            forall k :: k in e ==> k in f && f[k] == e[k]
  {
    var p := CanonicalPairs(items);
    EntriesLast(p);
    forall k | k in Entries(p)
      ensures k in Entries(CanonicalPairs(other)) && Entries(CanonicalPairs(other))[k] == Entries(p)[k]
    {
      var i :| 0 <= i < |p| && LastAt(p, i) && p[i].key == k;
      assert items[i] in multiset(other);
      var j :| 0 <= j < |other| && other[j] == items[i];
      NoConflictEntry(other, j);
    }
  }

  lemma ReorderedSame(items: seq<Item>, other: seq<Item>)
    requires multiset(items) == multiset(other) && NoConflict(items)
    ensures CanonicalText(PDict(items)) == CanonicalText(PDict(other))
  {
    forall i, j | 0 <= i < |other| && 0 <= j < |other| && other[i].keyText == other[j].keyText
      ensures Meaning(Canonicalise(other[i].value)) == Meaning(Canonicalise(other[j].value))
    {
      assert other[i] in multiset(items) && other[j] in multiset(items);
    }
    ReorderedIncluded(items, other);
    ReorderedIncluded(other, items);
    DictMeaning(items);
    DictMeaning(other);
    CanonicalTextUnambiguous(PDict(items), PDict(other));
  }

  /** Moving entry `i` to the end makes its value the one its key is bound to. */
  lemma MovedLast(items: seq<Item>, i: nat) returns (moved: seq<Item>)
    requires i < |items|
    ensures multiset(moved) == multiset(items)
    ensures var e := Entries(CanonicalPairs(moved));
            items[i].keyText in e && e[items[i].keyText] == Meaning(Canonicalise(items[i].value))
  {
    moved := items[..i] + items[i + 1..] + [items[i]];
    assert items == items[..i] + ([items[i]] + items[i + 1..]);
  }

  /** `canonical_json` ignores the insertion order of a dict exactly when no two keys with the
      same `str()` carry different values. (With such a clash, e.g. keys `1` and `"1"`, the later
      entry wins, so the order shows.) */
  lemma InsertionOrderIgnored(items: seq<Item>)
    ensures NoConflict(items) <==>
            forall other :: multiset(other) == multiset(items) ==>
              CanonicalText(PDict(other)) == CanonicalText(PDict(items))
  {
    if NoConflict(items) {
      forall other | multiset(other) == multiset(items)
        ensures CanonicalText(PDict(other)) == CanonicalText(PDict(items))
      {
        ReorderedSame(items, other);
      }
    } else {
      var i, j :| 0 <= i < |items| && 0 <= j < |items| && items[i].keyText == items[j].keyText &&
                  Meaning(Canonicalise(items[i].value)) != Meaning(Canonicalise(items[j].value));
      var a := MovedLast(items, i);
      var b := MovedLast(items, j);
      DictMeaning(a);
      DictMeaning(b);
      CanonicalTextUnambiguous(PDict(a), PDict(b));
    }
  }

  // ── Sets ─────────────────────────────────────────────────────────────────

  predicate Ascending(ss: seq<string>) {
    forall i, j :: 0 <= i < j < |ss| ==> !Less(ss[j], ss[i])
  }

  lemma {:induction false} InsertTextMembers(s: string, ss: seq<string>)
    ensures multiset(InsertText(s, ss)) == multiset(ss) + multiset{s}
  {
    hide Less;
    if ss != [] && Less(ss[0], s) {
      InsertTextMembers(s, ss[1..]);
      assert ss == [ss[0]] + ss[1..];
    }
  }

  lemma {:induction false} InsertTextKeeps(s: string, ss: seq<string>)
    requires Ascending(ss)
    ensures Ascending(InsertText(s, ss))
  {
    hide Less;
    if ss != [] && Less(ss[0], s) {
      InsertTextKeeps(s, ss[1..]);
      var rest := InsertText(s, ss[1..]);
      InsertTextMembers(s, ss[1..]);
      LessTotal(s, ss[0]);
      forall j | 0 <= j < |rest|
        ensures !Less(rest[j], ss[0])
      {
        assert rest[j] in multiset(rest);
        assert rest[j] == s || rest[j] in ss[1..];
      }
    } else if ss != [] {
      forall j | 0 <= j < |ss|
        ensures !Less(ss[j], s)
      {
        if Less(ss[j], s) {
          LessTotal(s, ss[0]);
          LessTotal(ss[0], ss[j]);
          if s != ss[0] {
            LessTransitive(ss[j], s, ss[0]);
          }
        }
      }
    }
  }

  lemma {:induction false} SortTextsSorts(ss: seq<string>)
    ensures Ascending(SortTexts(ss)) && multiset(SortTexts(ss)) == multiset(ss)
  {
    if ss != [] {
      SortTextsSorts(ss[1..]);
      InsertTextKeeps(ss[0], SortTexts(ss[1..]));
      InsertTextMembers(ss[0], SortTexts(ss[1..]));
      hide InsertText, Less;
      assert ss == [ss[0]] + ss[1..];
    }
  }

  lemma RestOfMembers(a: seq<string>, b: seq<string>)
    requires a != [] && b != [] && a[0] == b[0] && multiset(a) == multiset(b)
    ensures multiset(a[1..]) == multiset(b[1..])
  {
    assert a == [a[0]] + a[1..] && b == [b[0]] + b[1..];
    assert multiset(a[1..]) == multiset(a) - multiset{a[0]};
    assert multiset(b[1..]) == multiset(b) - multiset{b[0]};
  }

  lemma {:induction false} AscendingUnique(a: seq<string>, b: seq<string>)
    requires Ascending(a) && Ascending(b) && multiset(a) == multiset(b)
    ensures a == b
  {
    hide Less;
    if a == [] {
      assert |multiset(b)| == 0;
    } else {
      assert |multiset(a)| == |multiset(b)|;
      LeastFirst(a, b);
      RestOfMembers(a, b);
      AscendingUnique(a[1..], b[1..]);
      assert a == [a[0]] + a[1..] && b == [b[0]] + b[1..];
    }
  }

  lemma LeastFirst(a: seq<string>, b: seq<string>)
    requires a != [] && b != [] && Ascending(a) && Ascending(b) && multiset(a) == multiset(b)
    ensures a[0] == b[0]
  {
    assert a[0] in multiset(b) && b[0] in multiset(a);
    var i :| 0 <= i < |a| && a[i] == b[0];
    var j :| 0 <= j < |b| && b[j] == a[0];
    LessTotal(a[0], b[0]);
    LessTotal(a[0], a[0]);
  }

  /** A set has the same canonical text however its members are iterated. */
  lemma SetOrderIgnored(forms: seq<string>, other: seq<string>)
    requires multiset(forms) == multiset(other)
    ensures CanonicalText(PSet(forms)) == CanonicalText(PSet(other))
  {
    SortTextsSorts(forms);
    SortTextsSorts(other);
    AscendingUnique(SortTexts(forms), SortTexts(other));
  }

  // ── The separator never occurs inside the text ───────────────────────────

  /** No raw control character, hence no newline, occurs in a canonical text. */
  lemma CanonicalTextNoNewline(v: Py)
    ensures Visible(false, CanonicalText(v)) && '\n' !in CanonicalText(v)
  {
    PrintVisible(COMPACT, SortTree(Canonicalise(v)));
  }
}

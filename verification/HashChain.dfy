/** `hashchain.py` and the store `interaction_log.py` builds with it: an append-only,
    hash-linked table and the checker that verifies it. */
module HashChain {
  import opened PyStrings
  import opened Json
  import opened CanonicalJson

  const GENESIS_HASH := "0000000000000000000000000000000000000000000000000000000000000000"

  /** What SHA-256 is taken to be: some function that never collides on the texts hashed, never
      returns the empty text and never returns the genesis constant. */
  ghost predicate IsHash(h: string -> string) {
    && (forall a, b :: h(a) == h(b) ==> a == b)
    && (forall a :: h(a) != "" && h(a) != GENESIS_HASH)
  }

  /** The hashed text, `prev || "\n" || canonical_json(payload)`. */
  function Material(prev: string, payload: Py): string {
    prev + "\n" + CanonicalText(payload)
  }

  /** `hash_payload` */
  function HashPayload(h: string -> string, prev: string, payload: Py): string {
    h(Material(if prev == "" then GENESIS_HASH else prev, payload))
  }

  const PAYLOAD_COLUMNS := [
    "created_at", "event", "kind", "thread_id", "user_id", "mode", "symbol", "timeframe",
    "profile", "model", "content", "status", "detail", "refusal_category"]

  datatype Row = Row(id: nat, cells: map<string, Py>, prevHash: string, rowHash: string)

  /** `_payload_of`: the payload rebuilt from a stored row, one entry per payload column. */
  function PayloadOf(row: Row): Py {
    PDict(RebuiltItems(row.cells, PAYLOAD_COLUMNS))
  }

  function RebuiltItems(cells: map<string, Py>, columns: seq<string>): (r: seq<Item>)
    ensures |r| == |columns|
    ensures forall i :: 0 <= i < |r| ==>
              r[i] == Item(columns[i], if columns[i] in cells then cells[columns[i]] else PNone)
  {
    if columns == [] then []
    else
      [Item(columns[0], if columns[0] in cells then cells[columns[0]] else PNone)]
      + RebuiltItems(cells, columns[1..])
  }

  datatype Reason = Linkage | Contents
  datatype Verification = Verification(ok: bool, rows: nat, brokenAt: Option<nat>, reason: Option<Reason>)

  // ── What an intact chain is ──────────────────────────────────────────────

  /** The hash row `i` must point back to. */
  function PrevOf(rows: seq<Row>, i: nat): string
    requires i <= |rows|
  {
    if i == 0 then GENESIS_HASH else rows[i - 1].rowHash
  }

  predicate Linked(rows: seq<Row>, i: nat)
    requires i < |rows|
  {
    rows[i].prevHash == PrevOf(rows, i)
  }

  predicate Sealed(h: string -> string, rows: seq<Row>, i: nat)
    requires i < |rows|
  {
    rows[i].rowHash == HashPayload(h, PrevOf(rows, i), PayloadOf(rows[i]))
  }

  predicate Intact(h: string -> string, rows: seq<Row>) {
    forall i :: 0 <= i < |rows| ==> Linked(rows, i) && Sealed(h, rows, i)
  }

  /** Row `k` is the first bad one, and in which way. */
  predicate FirstBroken(h: string -> string, rows: seq<Row>, k: nat, reason: Reason) {
    && k < |rows|
    && Intact(h, rows[..k])
    && (match reason
        case Linkage => !Linked(rows, k)
        case Contents => Linked(rows, k) && !Sealed(h, rows, k))
  }

  /** `verify_rows`: it passes exactly the intact chains, and otherwise names the first row that
      does not reconcile, everything before it being intact. */
  method VerifyRows(h: string -> string, rows: seq<Row>) returns (v: Verification)
    ensures v.ok <==> Intact(h, rows)
    ensures v.ok ==> v == Verification(true, |rows|, None, None)
    ensures forall k: nat, reason :: FirstBroken(h, rows, k, reason) ==>
              v == Verification(false, k + 1, Some(rows[k].id), Some(reason))
    ensures !v.ok ==> exists k: nat, reason :: FirstBroken(h, rows, k, reason)
  {
    var prev, count := GENESIS_HASH, 0;
    for i := 0 to |rows|
      invariant count == i && prev == PrevOf(rows, i)
      invariant forall j :: 0 <= j < i ==> Linked(rows, j) && Sealed(h, rows, j)
    {
      count := count + 1;
      var row := rows[i];
      if row.prevHash != prev {
        PrefixIntact(h, rows, i);
        OnlyFirstBroken(h, rows, i, Linkage);
        return Verification(false, count, Some(row.id), Some(Linkage));
      }
      var expected := HashPayload(h, prev, PayloadOf(row));
      if row.rowHash != expected {
        PrefixIntact(h, rows, i);
        OnlyFirstBroken(h, rows, i, Contents);
        return Verification(false, count, Some(row.id), Some(Contents));
      }
      prev := row.rowHash;
    }
    return Verification(true, count, None, None);
  }

  lemma PrefixIntact(h: string -> string, rows: seq<Row>, k: nat)
    requires k <= |rows|
    requires forall j :: 0 <= j < k ==> Linked(rows, j) && Sealed(h, rows, j)
    ensures Intact(h, rows[..k])
  {
    forall j | 0 <= j < k
      ensures Linked(rows[..k], j) && Sealed(h, rows[..k], j)
    {
      assert Linked(rows, j) && Sealed(h, rows, j);
    }
  }

  /** At most one row is the first bad one, and an intact chain has none. */
  lemma OnlyFirstBroken(h: string -> string, rows: seq<Row>, k: nat, reason: Reason)
    requires FirstBroken(h, rows, k, reason)
    ensures forall k': nat, reason' :: FirstBroken(h, rows, k', reason') ==> k' == k && reason' == reason
    ensures !Intact(h, rows)
  {
    hide HashPayload;
    forall k': nat, reason' | FirstBroken(h, rows, k', reason')
      ensures k' == k && reason' == reason
    {
      PrefixLinks(h, rows, k);
      PrefixLinks(h, rows, k');
    }
  }

  lemma PrefixLinks(h: string -> string, rows: seq<Row>, k: nat)
    requires k <= |rows| && Intact(h, rows[..k])
    ensures forall j :: 0 <= j < k ==> Linked(rows, j) && Sealed(h, rows, j)
  {
    hide HashPayload;
    forall j | 0 <= j < k
      ensures Linked(rows, j) && Sealed(h, rows, j)
    {
      assert Linked(rows[..k], j) && Sealed(h, rows[..k], j);
    }
  }

  // ── The chain's algebra ──────────────────────────────────────────────────

  /** The separator makes the hashed text split one way only. */
  lemma MaterialSplits(p: string, v: Py, q: string, w: Py)
    requires Material(p, v) == Material(q, w)
    ensures p == q && CanonicalText(v) == CanonicalText(w)
  {
    hide CanonicalText;
    var a, b := CanonicalText(v), CanonicalText(w);
    CanonicalTextNoNewline(v);
    CanonicalTextNoNewline(w);
    var m := Material(p, v);
    assert forall i :: |p| < i < |m| ==> m[i] == a[i - |p| - 1] && m[i] != '\n';
    assert forall i :: |q| < i < |m| ==> m[i] == b[i - |q| - 1] && m[i] != '\n';
    assert m[|p|] == '\n' && m[|q|] == '\n';
    assert |p| == |q|;
    assert m[..|p|] == p && m[..|q|] == q;
    assert m[|p| + 1..] == a && m[|q| + 1..] == b;
  }

  /** The text a link's hash is taken over; an empty previous hash stands for the genesis constant. */
  lemma HashedText(h: string -> string, prev: string, payload: Py)
    ensures prev != "" ==> HashPayload(h, prev, payload) == h(prev + ['\n'] + CanonicalText(payload))
    ensures HashPayload(h, "", payload) == HashPayload(h, GENESIS_HASH, payload)
    ensures |GENESIS_HASH| == 64
  {
  }

  /** What stands under a column; a missing one counts as None. */
  function Cell(cells: map<string, Py>, column: string): Py {
    if column in cells then cells[column] else PNone
  }

  const HASHED := {
    "created_at", "event", "kind", "thread_id", "user_id", "mode", "symbol", "timeframe",
    "profile", "model", "content", "status", "detail", "refusal_category"}

  lemma ColumnsAreHashed()
    ensures forall c :: c in PAYLOAD_COLUMNS <==> c in HASHED
  {
  }

  lemma RebuiltEntry(cells: map<string, Py>, c: string)
    requires c in PAYLOAD_COLUMNS
    ensures var e := Entries(CanonicalPairs(RebuiltItems(cells, PAYLOAD_COLUMNS)));
            c in e && e[c] == Meaning(Canonicalise(Cell(cells, c)))
  {
    hide PAYLOAD_COLUMNS, Entries, Meaning, Canonicalise;
    var items := RebuiltItems(cells, PAYLOAD_COLUMNS);
    var i :| 0 <= i < |PAYLOAD_COLUMNS| && PAYLOAD_COLUMNS[i] == c;
    NoConflictEntry(items, i);
  }

  lemma RebuiltKeys(cells: map<string, Py>, c: string)
    requires c in Entries(CanonicalPairs(RebuiltItems(cells, PAYLOAD_COLUMNS)))
    ensures c in PAYLOAD_COLUMNS
  {
    hide PAYLOAD_COLUMNS, Entries, Meaning, Canonicalise;
    var items := RebuiltItems(cells, PAYLOAD_COLUMNS);
    var i := BindingOf(CanonicalPairs(items), c);
    assert items[i].keyText == PAYLOAD_COLUMNS[i];
  }

  /** Two rows are hashed over the same text exactly when they agree, up to canonical form, in every one of the
      fourteen columns: an edit of any of them shows in the hash, and an edit of nothing else does. */
  lemma ContentsSeen(row: Row, other: Row)
    ensures CanonicalText(PayloadOf(row)) == CanonicalText(PayloadOf(other)) <==>
            forall c :: c in HASHED ==> CanonicalText(Cell(row.cells, c)) == CanonicalText(Cell(other.cells, c))
  {
    hide PAYLOAD_COLUMNS, HASHED, CanonicalText, Entries, Meaning, Canonicalise, RebuiltItems;
    ColumnsAreHashed();
    var a, b := RebuiltItems(row.cells, PAYLOAD_COLUMNS), RebuiltItems(other.cells, PAYLOAD_COLUMNS);
    DictMeaning(a);
    DictMeaning(b);
    CanonicalTextUnambiguous(PDict(a), PDict(b));
    var e, f := Entries(CanonicalPairs(a)), Entries(CanonicalPairs(b));
    forall c | c in HASHED
      ensures c in e && c in f
      ensures e[c] == f[c] <==> CanonicalText(Cell(row.cells, c)) == CanonicalText(Cell(other.cells, c))
    {
      RebuiltEntry(row.cells, c);
      RebuiltEntry(other.cells, c);
      CanonicalTextUnambiguous(Cell(row.cells, c), Cell(other.cells, c));
    }
    forall c | c in e || c in f
      ensures c in HASHED
    {
      if c in e {
        RebuiltKeys(row.cells, c);
      } else {
        RebuiltKeys(other.cells, c);
      }
    }
  }

  lemma RowHashNonempty(h: string -> string, rows: seq<Row>, i: nat)
    requires IsHash(h) && Intact(h, rows) && i <= |rows|
    ensures PrevOf(rows, i) != ""
    ensures i > 0 ==> PrevOf(rows, i) != GENESIS_HASH
  {
    if i > 0 {
      assert Sealed(h, rows, i - 1);
    }
  }

  /** Equal hashes in two intact chains mean equal predecessors and equal payload texts. */
  lemma EqualHashes(h: string -> string, rows: seq<Row>, i: nat, others: seq<Row>, j: nat)
    requires IsHash(h) && Intact(h, rows) && Intact(h, others)
    requires i < |rows| && j < |others| && rows[i].rowHash == others[j].rowHash
    ensures PrevOf(rows, i) == PrevOf(others, j)
    ensures CanonicalText(PayloadOf(rows[i])) == CanonicalText(PayloadOf(others[j]))
  {
    RowHashNonempty(h, rows, i);
    RowHashNonempty(h, others, j);
    assert Sealed(h, rows, i) && Sealed(h, others, j);
    MaterialSplits(PrevOf(rows, i), PayloadOf(rows[i]), PrevOf(others, j), PayloadOf(others[j]));
  }

  /** A hash occurs at the same position in every intact chain that has it. */
  lemma {:induction false} SamePosition(h: string -> string, rows: seq<Row>, i: nat, others: seq<Row>, j: nat)
    requires IsHash(h) && Intact(h, rows) && Intact(h, others)
    requires i <= |rows| && j <= |others| && PrevOf(rows, i) == PrevOf(others, j)
    ensures i == j
    decreases i
  {
    hide CanonicalText;
    RowHashNonempty(h, rows, i);
    RowHashNonempty(h, others, j);
    if i > 0 && j > 0 {
      EqualHashes(h, rows, i - 1, others, j - 1);
      SamePosition(h, rows, i - 1, others, j - 1);
    }
  }

  /** In a verified chain the hashes, the genesis constant included, are pairwise distinct. */
  lemma HashesDistinct(h: string -> string, rows: seq<Row>)
    requires IsHash(h) && Intact(h, rows)
    ensures forall i, j :: 0 <= i < j <= |rows| ==> PrevOf(rows, i) != PrevOf(rows, j)
  {
    forall i, j | 0 <= i < j <= |rows|
      ensures PrevOf(rows, i) != PrevOf(rows, j)
    {
      if PrevOf(rows, i) == PrevOf(rows, j) {
        SamePosition(h, rows, i, rows, j);
      }
    }
  }

  /** `chain_tip` */
  function Tip(rows: seq<Row>): string {
    if rows == [] || rows[|rows| - 1].rowHash == "" then GENESIS_HASH else rows[|rows| - 1].rowHash
  }

  /** The tip pins the whole chain: two verified chains with the same tip have the same length,
      the same hashes and the same canonical payload at every position. */
  lemma TipDeterminesChain(h: string -> string, rows: seq<Row>, others: seq<Row>)
    requires IsHash(h) && Intact(h, rows) && Intact(h, others) && Tip(rows) == Tip(others)
    ensures |rows| == |others|
    ensures forall i :: 0 <= i < |rows| ==>
              && rows[i].prevHash == others[i].prevHash && rows[i].rowHash == others[i].rowHash
              && CanonicalText(PayloadOf(rows[i])) == CanonicalText(PayloadOf(others[i]))
  {
    var n := |rows|;
    RowHashNonempty(h, rows, n);
    RowHashNonempty(h, others, |others|);
    SamePosition(h, rows, n, others, |others|);
    forall i | 0 <= i < n
      ensures rows[i].prevHash == others[i].prevHash && rows[i].rowHash == others[i].rowHash
      ensures CanonicalText(PayloadOf(rows[i])) == CanonicalText(PayloadOf(others[i]))
    {
      SameHashAt(h, rows, others, i + 1);
      EqualHashes(h, rows, i, others, i);
      assert Linked(rows, i) && Linked(others, i);
    }
  }

  lemma {:induction false} SameHashAt(h: string -> string, rows: seq<Row>, others: seq<Row>, i: nat)
    requires IsHash(h) && Intact(h, rows) && Intact(h, others)
    requires i <= |rows| == |others| && PrevOf(rows, |rows|) == PrevOf(others, |rows|)
    ensures PrevOf(rows, i) == PrevOf(others, i)
    decreases |rows| - i
  {
    if i < |rows| {
      SameHashAt(h, rows, others, i + 1);
      EqualHashes(h, rows, i, others, i);
    }
  }

  // ── Tampering ────────────────────────────────────────────────────────────

  /** Editing one row's contents, hashes left alone, is reported at that row. */
  lemma EditDetected(h: string -> string, rows: seq<Row>, k: nat, cells: map<string, Py>)
    requires IsHash(h) && Intact(h, rows) && k < |rows|
    requires CanonicalText(PayloadOf(rows[k].(cells := cells))) != CanonicalText(PayloadOf(rows[k]))
    ensures FirstBroken(h, rows[k := rows[k].(cells := cells)], k, Contents)
  {
    var edited := rows[k := rows[k].(cells := cells)];
    RowHashNonempty(h, rows, k);
    assert Linked(rows, k) && Sealed(h, rows, k);
    assert edited[..k] == rows[..k];
    PrefixIntact(h, rows, k);
    if Sealed(h, edited, k) {
      MaterialSplits(PrevOf(rows, k), PayloadOf(edited[k]), PrevOf(rows, k), PayloadOf(rows[k]));
    }
  }

  /** Deleting any row but the last is reported at the row that moved into its place. */
  lemma DeleteDetected(h: string -> string, rows: seq<Row>, k: nat)
    requires IsHash(h) && Intact(h, rows) && k < |rows| - 1
    ensures FirstBroken(h, rows[..k] + rows[k + 1..], k, Linkage)
  {
    var left := rows[..k] + rows[k + 1..];
    assert left[..k] == rows[..k];
    PrefixIntact(h, rows, k);
    HashesDistinct(h, rows);
    assert left[k] == rows[k + 1] && Linked(rows, k + 1);
    assert PrevOf(left, k) == PrevOf(rows, k);
  }

  /** Swapping two rows is reported at the earlier position. */
  lemma SwapDetected(h: string -> string, rows: seq<Row>, i: nat, j: nat)
    requires IsHash(h) && Intact(h, rows) && i < j < |rows|
    ensures FirstBroken(h, rows[i := rows[j]][j := rows[i]], i, Linkage)
  {
    var swapped := rows[i := rows[j]][j := rows[i]];
    assert swapped[..i] == rows[..i];
    PrefixIntact(h, rows, i);
    HashesDistinct(h, rows);
    assert swapped[i] == rows[j] && Linked(rows, j);
    assert PrevOf(swapped, i) == PrevOf(rows, i);
  }

  /** The one deletion the chain itself cannot see: cutting rows off the end still verifies, but
      the tip changes, so a remembered tip exposes it. */
  lemma TruncationShowsInTip(h: string -> string, rows: seq<Row>, k: nat)
    requires IsHash(h) && Intact(h, rows) && k < |rows|
    ensures Intact(h, rows[..k]) && Tip(rows[..k]) != Tip(rows)
  {
    forall j | 0 <= j < k
      ensures Linked(rows, j) && Sealed(h, rows, j)
    {
    }
    PrefixIntact(h, rows, k);
    if Tip(rows[..k]) == Tip(rows) {
      TipDeterminesChain(h, rows[..k], rows);
    }
  }

  // ── The store ────────────────────────────────────────────────────────────

  predicate DistinctTexts(payload: seq<Item>) {
    forall i, j :: 0 <= i < j < |payload| ==> payload[i].keyText != payload[j].keyText
  }

  function Cells(payload: seq<Item>): (m: map<string, Py>)
    requires DistinctTexts(payload)
    ensures forall i :: 0 <= i < |payload| ==>
              payload[i].keyText in m && m[payload[i].keyText] == payload[i].value
    ensures forall k :: k in m ==> exists i :: 0 <= i < |payload| && payload[i].keyText == k
  {
    map i | 0 <= i < |payload| :: payload[i].keyText := payload[i].value
  }

  /** Every payload column is present. */
  predicate HasColumns(payload: seq<Item>)
    requires DistinctTexts(payload)
  {
    forall c :: c in PAYLOAD_COLUMNS ==> c in Cells(payload)
  }

  /** Nothing but payload columns is present. */
  predicate OnlyColumns(payload: seq<Item>) {
    forall i :: 0 <= i < |payload| ==> payload[i].keyText in PAYLOAD_COLUMNS
  }

  /** The row `_append` inserts after `rows`: the payload's columns, linked to the tip. */
  function NewRow(h: string -> string, rows: seq<Row>, id: nat, payload: seq<Item>): Row
    requires DistinctTexts(payload)
  {
    Row(id, map c | c in PAYLOAD_COLUMNS && c in Cells(payload) :: Cells(payload)[c],
        Tip(rows), HashPayload(h, Tip(rows), PDict(payload)))
  }

  /** The append-only table. */
  class Store {
    var rows: seq<Row>
    var nextId: nat

    constructor ()
      ensures rows == [] && nextId == 1
    {
      rows, nextId := [], 1;
    }

    /** `_append`: links a new row to the tip and inserts it; a payload without one of the columns
        raises and leaves the table alone. A verified table stays verified exactly when the payload
        has no key beyond the columns. */
    method Append(h: string -> string, payload: seq<Item>) returns (id: Option<nat>)
      requires IsHash(h) && DistinctTexts(payload)
      modifies this
      ensures HasColumns(payload) ==>
                && id == Some(old(nextId))
                && rows == old(rows) + [NewRow(h, old(rows), old(nextId), payload)]
                && nextId == old(nextId) + 1
      ensures !HasColumns(payload) ==> id == None && rows == old(rows) && nextId == old(nextId)
      ensures HasColumns(payload) && Intact(h, old(rows)) ==> (Intact(h, rows) <==> OnlyColumns(payload))
    {
      hide CanonicalText;
      if exists c :: c in PAYLOAD_COLUMNS && c !in Cells(payload) {
        return None;
      }
      var row := NewRow(h, rows, nextId, payload);
      if Intact(h, rows) {
        AppendedIntact(h, rows, nextId, payload);
      }
      rows, nextId := rows + [row], nextId + 1;
      return Some(row.id);
    }

    /** `verify_chain` */
    method Verify(h: string -> string) returns (v: Verification)
      ensures v.ok <==> Intact(h, rows)
      ensures v.ok ==> v.rows == |rows|
    {
      v := VerifyRows(h, rows);
    }
  }

  /** The table after a run of appends to an empty store. */
  function Built(h: string -> string, payloads: seq<seq<Item>>): seq<Row>
    requires forall i :: 0 <= i < |payloads| ==> DistinctTexts(payloads[i])
  {
    if payloads == [] then []
    else
      var n := |payloads| - 1;
      var rows := Built(h, payloads[..n]);
      rows + [NewRow(h, rows, n + 1, payloads[n])]
  }

  /** Every store built only by appends of column payloads verifies, with one row per append. */
  lemma {:induction false} BuiltIntact(h: string -> string, payloads: seq<seq<Item>>)
    requires IsHash(h)
    requires forall i :: 0 <= i < |payloads| ==>
               DistinctTexts(payloads[i]) && HasColumns(payloads[i]) && OnlyColumns(payloads[i])
    ensures Intact(h, Built(h, payloads)) && |Built(h, payloads)| == |payloads|
  {
    hide CanonicalText, Intact, NewRow, Cells, HasColumns, OnlyColumns, DistinctTexts;
    NothingIntact(h);
    if payloads != [] {
      var n := |payloads| - 1;
      BuiltIntact(h, payloads[..n]);
      AppendedIntact(h, Built(h, payloads[..n]), n + 1, payloads[n]);
    }
  }

  lemma NothingIntact(h: string -> string)
    ensures Intact(h, [])
  {
  }

  /** The payload rebuilt from the cells reads as the payload written exactly when the payload
      had nothing but the columns. */
  lemma RebuiltPayload(cells: map<string, Py>, columns: seq<string>, payload: seq<Item>)
    requires DistinctTexts(payload)
    requires forall c :: c in columns ==> c in Cells(payload) && c in cells && cells[c] == Cells(payload)[c]
    ensures CanonicalText(PDict(RebuiltItems(cells, columns))) == CanonicalText(PDict(payload)) <==>
            forall i :: 0 <= i < |payload| ==> payload[i].keyText in columns
  {
    hide CanonicalText;
    hide Canonicalise, CanonicalPairs, Meaning, Entries, RebuiltItems, Cells, Print, SortTree;
    var items := RebuiltItems(cells, columns);
    DictMeaning(items);
    DictMeaning(payload);
    CanonicalTextUnambiguous(PDict(items), PDict(payload));
    RebuiltEntries(cells, columns);
    PayloadEntries(payload);
    var e, f := Entries(CanonicalPairs(items)), Entries(CanonicalPairs(payload));
    if forall i :: 0 <= i < |payload| ==> payload[i].keyText in columns {
      assert e == f;
    } else {
      var i :| 0 <= i < |payload| && payload[i].keyText !in columns;
      assert payload[i].keyText in f && payload[i].keyText !in e;
    }
  }

  lemma PayloadEntries(payload: seq<Item>)
    requires DistinctTexts(payload)
    ensures var f := Entries(CanonicalPairs(payload));
            && f.Keys == Cells(payload).Keys
            && forall k :: k in f ==> f[k] == Meaning(Canonicalise(Cells(payload)[k]))
  {
    hide Canonicalise, CanonicalPairs, Meaning, Entries, RebuiltItems, Cells, Print, SortTree;
    var p := CanonicalPairs(payload);
    EntriesDistinct(p);
    forall k
      ensures k in Entries(p) <==> k in Cells(payload)
      ensures k in Entries(p) ==> Entries(p)[k] == Meaning(Canonicalise(Cells(payload)[k]))
    {
      if k in Entries(p) {
        var i :| 0 <= i < |p| && p[i].key == k;
        assert payload[i].keyText == k;
      }
      if k in Cells(payload) {
        var i :| 0 <= i < |payload| && payload[i].keyText == k;
        assert p[i].key == k;
      }
    }
  }

  lemma RebuiltAgrees(cells: map<string, Py>, columns: seq<string>)
    ensures NoConflict(RebuiltItems(cells, columns))
  {
    hide Canonicalise, Meaning, RebuiltItems;
  }

  lemma RebuiltEntries(cells: map<string, Py>, columns: seq<string>)
    ensures var e := Entries(CanonicalPairs(RebuiltItems(cells, columns)));
            && (forall k :: k in e <==> k in columns)
            && forall k :: k in columns && k in cells ==> e[k] == Meaning(Canonicalise(cells[k]))
  {
    hide Canonicalise, CanonicalPairs, Meaning, Entries, RebuiltItems, NoConflict;
    var items := RebuiltItems(cells, columns);
    var p := CanonicalPairs(items);
    EntriesLast(p);
    RebuiltAgrees(cells, columns);
    forall k | k in columns
      ensures k in Entries(p) && (k in cells ==> Entries(p)[k] == Meaning(Canonicalise(cells[k])))
    {
      var i :| 0 <= i < |columns| && columns[i] == k;
      NoConflictEntry(items, i);
    }
  }

  lemma AppendedIntact(h: string -> string, rows: seq<Row>, id: nat, payload: seq<Item>)
    requires IsHash(h) && Intact(h, rows) && DistinctTexts(payload) && HasColumns(payload)
    ensures Intact(h, rows + [NewRow(h, rows, id, payload)]) <==> OnlyColumns(payload)
  {
    hide CanonicalText, RebuiltItems, Cells;
    var row := NewRow(h, rows, id, payload);
    var n, all := |rows|, rows + [row];
    RowHashNonempty(h, rows, n);
    assert PrevOf(all, n) == Tip(rows);
    RebuiltPayload(row.cells, PAYLOAD_COLUMNS, payload);
    forall i | 0 <= i < n
      ensures Linked(all, i) && Sealed(h, all, i)
    {
      assert Linked(rows, i) && Sealed(h, rows, i);
    }
    assert Linked(all, n);
    if Sealed(h, all, n) {
      MaterialSplits(Tip(rows), PDict(payload), Tip(rows), PayloadOf(row));
    }
  }
}

/** The document's entries once read, the seven-field output row, and the
    rows the converter emits for them: one "High-Order Text" row per
    high-order entry, immediately followed by one "Low-Order Text" row per
    low-order entry under it, with a publication's reasoning shown only on the
    first low-order row of that publication under the high-order entry. */
module Entries {
  import opened JsonValues

  /** One element of an item's `reasonings`, its publication ID already put
      through `str()`. */
  datatype ReasoningEntry = ReasoningEntry(publicationId: string, reasoning: Json)

  /** One element of a high-order entry's `low_order_texts`. `publicationId`
      is the `str()` of the field; `inconTag` is the Tag its row carries,
      "INCON-" followed by the parent's paragraph ID. */
  datatype LowOrderEntry = LowOrderEntry(
    paragraphId: Json, publicationId: string, text: Json, similarityScore: Json, inconTag: string)

  /** One element of an item's `high_order_text`; `tag` is its `tags` joined
      with ", ". */
  datatype HighOrderEntry = HighOrderEntry(
    paragraphId: Json, publicationId: Json, text: Json, tag: string, lowOrderTexts: seq<LowOrderEntry>)

  datatype Item = Item(highOrderTexts: seq<HighOrderEntry>, reasonings: seq<ReasoningEntry>)

  /** An output row: Text Type, Paragraph ID, Publication ID, Task Text, Tag,
      Similarity Score, Reasonings. */
  datatype Row = Row(
    textType: string, paragraphId: Json, publicationId: Json, taskText: Json,
    tag: string, similarityScore: Json, reasonings: Json)

  const HighOrderText: string := "High-Order Text"
  const LowOrderText: string := "Low-Order Text"

  // ---------------------------------------------------------------------
  // The reasoning lookup of one item

  /** Is the entry at `j` the last one for its publication ID? */
  predicate LastFor(rs: seq<ReasoningEntry>, j: int)
    requires 0 <= j < |rs|
  {
    forall j' :: j < j' < |rs| ==> rs[j'].publicationId != rs[j].publicationId
  }

  /** The dict built from the reasonings in order, a later entry overwriting
      an earlier one with the same publication ID. */
  function LookupMap(rs: seq<ReasoningEntry>): map<string, Json>
  {
    if |rs| == 0 then map[]
    else LookupMap(rs[..|rs| - 1])[rs[|rs| - 1].publicationId := rs[|rs| - 1].reasoning]
  }

  /** The lookup holds exactly the publication IDs of the reasonings. */
  lemma {:induction false} LookupMapKeys(rs: seq<ReasoningEntry>)
    ensures forall id :: id in LookupMap(rs) <==> exists j :: 0 <= j < |rs| && rs[j].publicationId == id
  {
    if |rs| > 0 {
      var front, last := rs[..|rs| - 1], rs[|rs| - 1];
      LookupMapKeys(front);
      assert LookupMap(rs).Keys == LookupMap(front).Keys + {last.publicationId};
      forall id | exists j :: 0 <= j < |rs| && rs[j].publicationId == id
        ensures id in LookupMap(rs)
      {
        var j :| 0 <= j < |rs| && rs[j].publicationId == id;
        if j < |front| {
          assert front[j] == rs[j];
        }
      }
      forall id | id in LookupMap(front)
        ensures exists j :: 0 <= j < |rs| && rs[j].publicationId == id
      {
        var j :| 0 <= j < |front| && front[j].publicationId == id;
        assert rs[j] == front[j];
      }
    }
  }

  /** Each publication ID maps to the reasoning of the last entry with that
      ID. */
  lemma {:induction false} LookupMapLastWins(rs: seq<ReasoningEntry>)
    ensures forall j :: 0 <= j < |rs| && LastFor(rs, j) ==>
      rs[j].publicationId in LookupMap(rs) && LookupMap(rs)[rs[j].publicationId] == rs[j].reasoning
  {
    if |rs| > 0 {
      var front, last := rs[..|rs| - 1], rs[|rs| - 1];
      LookupMapLastWins(front);
      assert LookupMap(rs) == LookupMap(front)[last.publicationId := last.reasoning];
      forall j | 0 <= j < |front| && LastFor(rs, j)
        ensures rs[j].publicationId in LookupMap(rs) && LookupMap(rs)[rs[j].publicationId] == rs[j].reasoning
      {
        assert rs[j] == front[j];
        assert rs[|rs| - 1] == last;
        assert LastFor(front, j);
      }
    }
  }

  /** `lookup.get(id, '')` */
  function Lookup(lookup: map<string, Json>, id: string): Json
  {
    if id in lookup then lookup[id] else JString("")
  }

  // ---------------------------------------------------------------------
  // Rows

  /** Does some entry of `earlier` carry publication ID `id`? */
  predicate SeenBefore(earlier: seq<LowOrderEntry>, id: string)
  {
    exists j :: 0 <= j < |earlier| && earlier[j].publicationId == id
  }

  /** The reasoning shown on a low-order row with publication ID `id` that
      comes after the siblings `earlier` under the same high-order entry: the
      looked-up text when `id` is non-empty and no earlier sibling had it,
      otherwise the empty string. */
  function ReasoningFor(lookup: map<string, Json>, earlier: seq<LowOrderEntry>, id: string): Json
  {
    if id != "" && !SeenBefore(earlier, id) then Lookup(lookup, id) else JString("")
  }

  function HighRow(h: HighOrderEntry): Row
  {
    Row(HighOrderText, h.paragraphId, h.publicationId, h.text, h.tag, JString("N/A"), JString(""))
  }

  function LowRow(l: LowOrderEntry, reasoning: Json): Row
  {
    Row(LowOrderText, l.paragraphId, JString(l.publicationId), l.text, l.inconTag, l.similarityScore, reasoning)
  }

  /** The low-order rows of one high-order entry: the rows of all but the
      last low-order entry, then the last one's row. */
  function LowRows(lookup: map<string, Json>, ls: seq<LowOrderEntry>): seq<Row>
  {
    if |ls| == 0 then []
    else
      var earlier := ls[..|ls| - 1];
      LowRows(lookup, earlier) + [LowRow(ls[|ls| - 1], ReasoningFor(lookup, earlier, ls[|ls| - 1].publicationId))]
  }

  /** The rows of one high-order entry. */
  function EntryRows(lookup: map<string, Json>, h: HighOrderEntry): seq<Row>
  {
    [HighRow(h)] + LowRows(lookup, h.lowOrderTexts)
  }

  /** The rows of an item's high-order entries, in order. */
  function EntriesRows(lookup: map<string, Json>, hs: seq<HighOrderEntry>): seq<Row>
  {
    if |hs| == 0 then [] else EntriesRows(lookup, hs[..|hs| - 1]) + EntryRows(lookup, hs[|hs| - 1])
  }

  /** The rows of a sequence of items, in order. */
  function ItemsRows(items: seq<Item>): seq<Row>
  {
    if |items| == 0 then []
    else
      var last := items[|items| - 1];
      ItemsRows(items[..|items| - 1]) + EntriesRows(LookupMap(last.reasonings), last.highOrderTexts)
  }

  // ---------------------------------------------------------------------
  // Counting

  function LowCount(hs: seq<HighOrderEntry>): nat
  {
    if |hs| == 0 then 0 else LowCount(hs[..|hs| - 1]) + |hs[|hs| - 1].lowOrderTexts|
  }

  /** The number of high-order entries plus the number of low-order entries,
      over all items. */
  function EntryCount(items: seq<Item>): nat
  {
    if |items| == 0 then 0
    else
      var last := items[|items| - 1];
      EntryCount(items[..|items| - 1]) + |last.highOrderTexts| + LowCount(last.highOrderTexts)
  }

  // ---------------------------------------------------------------------
  // Properties of the rows

  /** Appending one low-order entry appends exactly its row; its reasoning
      depends only on the siblings before it. */
  lemma LowRowsSnoc(lookup: map<string, Json>, ls: seq<LowOrderEntry>, l: LowOrderEntry)
    ensures LowRows(lookup, ls + [l]) == LowRows(lookup, ls) + [LowRow(l, ReasoningFor(lookup, ls, l.publicationId))]
  {
    assert (ls + [l])[..|ls|] == ls;
  }

  /** The publication IDs seen grow by the one just emitted. */
  lemma SeenBeforeSnoc(ls: seq<LowOrderEntry>, l: LowOrderEntry)
    ensures forall id :: SeenBefore(ls + [l], id) <==> SeenBefore(ls, id) || l.publicationId == id
  {
    forall id | SeenBefore(ls + [l], id) && l.publicationId != id
      ensures SeenBefore(ls, id)
    {
      var j :| 0 <= j < |ls + [l]| && (ls + [l])[j].publicationId == id;
      assert j < |ls| && ls[j] == (ls + [l])[j];
    }
    forall id | SeenBefore(ls, id)
      ensures SeenBefore(ls + [l], id)
    {
      var j :| 0 <= j < |ls| && ls[j].publicationId == id;
      assert (ls + [l])[j] == ls[j];
    }
    assert (ls + [l])[|ls|] == l;
  }

  /** Row k of a high-order entry's low-order rows is the row of low-order
      entry k, with the reasoning the first-occurrence rule gives it. */
  lemma {:induction false} LowRowsAt(lookup: map<string, Json>, ls: seq<LowOrderEntry>)
    ensures |LowRows(lookup, ls)| == |ls|
    ensures forall k :: 0 <= k < |ls| ==>
      LowRows(lookup, ls)[k] == LowRow(ls[k], ReasoningFor(lookup, ls[..k], ls[k].publicationId))
  {
    if |ls| > 0 {
      var earlier := ls[..|ls| - 1];
      LowRowsAt(lookup, earlier);
      forall k | 0 <= k < |earlier|
        ensures earlier[..k] == ls[..k]
      {
      }
    }
  }

  /** A low-order row whose publication ID is empty never shows reasoning. */
  lemma NoReasoningForEmptyId(lookup: map<string, Json>, ls: seq<LowOrderEntry>, k: int)
    requires 0 <= k < |ls| && ls[k].publicationId == ""
    ensures |LowRows(lookup, ls)| == |ls|
    ensures LowRows(lookup, ls)[k].reasonings == JString("")
  {
    LowRowsAt(lookup, ls);
  }

  /** Under one high-order entry, a low-order row whose publication ID
      already appeared on an earlier sibling shows no reasoning, whether or
      not the earlier one found any. */
  lemma ReasoningAtMostOnce(lookup: map<string, Json>, ls: seq<LowOrderEntry>, a: int, b: int)
    requires 0 <= a < b < |ls| && ls[a].publicationId == ls[b].publicationId
    ensures |LowRows(lookup, ls)| == |ls|
    ensures LowRows(lookup, ls)[b].reasonings == JString("")
  {
    LowRowsAt(lookup, ls);
    assert ls[..b][a] == ls[a];
  }

  /** The first low-order row with a given non-empty publication ID under a
      high-order entry shows the reasoning of the item's last reasoning
      entry for that ID, or "" when the item has none. */
  lemma {:induction false} ReasoningOnFirstOccurrence(rs: seq<ReasoningEntry>, ls: seq<LowOrderEntry>, k: int)
    requires 0 <= k < |ls| && ls[k].publicationId != ""
    requires forall j :: 0 <= j < k ==> ls[j].publicationId != ls[k].publicationId
    ensures |LowRows(LookupMap(rs), ls)| == |ls|
    ensures forall j :: 0 <= j < |rs| && rs[j].publicationId == ls[k].publicationId && LastFor(rs, j) ==>
      LowRows(LookupMap(rs), ls)[k].reasonings == rs[j].reasoning
    ensures (forall j :: 0 <= j < |rs| ==> rs[j].publicationId != ls[k].publicationId) ==>
      LowRows(LookupMap(rs), ls)[k].reasonings == JString("")
  {
    LowRowsAt(LookupMap(rs), ls);
    LookupMapKeys(rs);
    LookupMapLastWins(rs);
    assert !SeenBefore(ls[..k], ls[k].publicationId);
  }

  /** A high-order entry yields its own row, with its fixed fields, and then
      exactly one row per low-order entry under it, in order, each tagged
      with the parent's INCON- tag. */
  lemma EntryRowsShape(lookup: map<string, Json>, h: HighOrderEntry)
    ensures |EntryRows(lookup, h)| == 1 + |h.lowOrderTexts|
    ensures EntryRows(lookup, h)[0] ==
      Row(HighOrderText, h.paragraphId, h.publicationId, h.text, h.tag, JString("N/A"), JString(""))
    ensures forall k :: 0 <= k < |h.lowOrderTexts| ==>
      var l, row := h.lowOrderTexts[k], EntryRows(lookup, h)[1 + k];
      row.textType == LowOrderText && row.paragraphId == l.paragraphId &&
      row.publicationId == JString(l.publicationId) && row.taskText == l.text &&
      row.tag == l.inconTag && row.similarityScore == l.similarityScore
  {
    LowRowsAt(lookup, h.lowOrderTexts);
  }

  lemma AppendAssociative(a: seq<Row>, b: seq<Row>, c: seq<Row>)
    ensures (a + b) + c == a + (b + c)
  {
  }

  lemma EntriesRowsSnoc(lookup: map<string, Json>, hs: seq<HighOrderEntry>, h: HighOrderEntry)
    ensures EntriesRows(lookup, hs + [h]) == EntriesRows(lookup, hs) + EntryRows(lookup, h)
  {
    assert (hs + [h])[..|hs|] == hs;
  }

  lemma ItemsRowsSnoc(items: seq<Item>, it: Item)
    ensures ItemsRows(items + [it]) == ItemsRows(items) + EntriesRows(LookupMap(it.reasonings), it.highOrderTexts)
  {
    assert (items + [it])[..|items|] == items;
  }

  /** The rows of two runs of high-order entries are the rows of the first
      followed by the rows of the second: nothing carries over from one
      high-order entry to the next, in particular not the publication IDs
      already shown. */
  lemma {:induction false} EntriesRowsAppend(lookup: map<string, Json>, hs: seq<HighOrderEntry>, more: seq<HighOrderEntry>)
    ensures EntriesRows(lookup, hs + more) == EntriesRows(lookup, hs) + EntriesRows(lookup, more)
    decreases |more|
  {
    if |more| == 0 {
      assert hs + more == hs;
    } else {
      var front, last := more[..|more| - 1], more[|more| - 1];
      assert more == front + [last] && hs + more == (hs + front) + [last];
      EntriesRowsAppend(lookup, hs, front);
      EntriesRowsSnoc(lookup, hs + front, last);
      EntriesRowsSnoc(lookup, front, last);
      AppendAssociative(EntriesRows(lookup, hs), EntriesRows(lookup, front), EntryRows(lookup, last));
    }
  }

  /** Items keep their order: the rows of two runs of items are the rows of
      the first followed by the rows of the second. */
  lemma {:induction false} ItemsRowsAppend(items: seq<Item>, more: seq<Item>)
    ensures ItemsRows(items + more) == ItemsRows(items) + ItemsRows(more)
    decreases |more|
  {
    if |more| == 0 {
      assert items + more == items;
    } else {
      var front, last := more[..|more| - 1], more[|more| - 1];
      assert more == front + [last] && items + more == (items + front) + [last];
      ItemsRowsAppend(items, front);
      ItemsRowsSnoc(items + front, last);
      ItemsRowsSnoc(front, last);
      AppendAssociative(ItemsRows(items), ItemsRows(front), EntriesRows(LookupMap(last.reasonings), last.highOrderTexts));
    }
  }

  lemma {:induction false} EntriesRowsCount(lookup: map<string, Json>, hs: seq<HighOrderEntry>)
    ensures |EntriesRows(lookup, hs)| == |hs| + LowCount(hs)
  {
    if |hs| > 0 {
      EntriesRowsCount(lookup, hs[..|hs| - 1]);
      EntryRowsShape(lookup, hs[|hs| - 1]);
    }
  }

  /** There is one row per high-order entry and one per low-order entry. */
  lemma {:induction false} RowCount(items: seq<Item>)
    ensures |ItemsRows(items)| == EntryCount(items)
  {
    if |items| > 0 {
      var last := items[|items| - 1];
      RowCount(items[..|items| - 1]);
      EntriesRowsCount(LookupMap(last.reasonings), last.highOrderTexts);
    }
  }
}

/** The converter's `process_json_data`: from a parsed document to its rows.
    `Flatten` says what the rows are; `ProcessJsonData` builds them the way
    the program does, appending to a list of rows and keeping, per
    high-order entry, the set of publication IDs whose reasoning has been
    shown, and is proved to give exactly `Flatten`'s answer. */
module Flattening {
  import opened JsonValues
  import opened Entries
  import opened Decoder

  /** The rows of a document, or why there are none. */
  function Flatten(doc: Json): Result<seq<Row>>
  {
    var items :- Decode(doc);
    Ok(ItemsRows(items))
  }

  // ---------------------------------------------------------------------
  // How a failure deep inside the document becomes the document's failure

  lemma ItemFailsDocument(doc: Json, items: seq<Json>, i: nat, e: Error)
    requires ResolveRoot(doc).Ok? && Members(ResolveRoot(doc).value) == Ok(items)
    requires i < |items| && DecodeItems(items[..i]).Ok? && DecodeItem(items[i]) == Err(e)
    ensures Flatten(doc) == Err(e)
  {
    ItemFails(items, i, e);
  }

  // ---------------------------------------------------------------------
  // The program's loops

  /** The inner loop of `process_json_data` for one high-order entry `hot`:
      one row per element of `lots`, in order, with `reasoningShown`
      starting empty and collecting every non-empty publication ID met. */
  method EmitLowOrderRows(hot: map<string, Json>, lots: seq<Json>, pubReasoningMap: map<string, Json>)
    returns (result: Result<seq<Row>>)
    ensures DecodeLows(hot, lots).Err? ==> result == Err(DecodeLows(hot, lots).error)
    ensures DecodeLows(hot, lots).Ok? ==> result == Ok(LowRows(pubReasoningMap, DecodeLows(hot, lots).value))
  {
    var rows: seq<Row> := [];
    var reasoningShown: set<string> := {};
    ghost var ls: seq<LowOrderEntry> := [];
    for k := 0 to |lots|
      invariant DecodeLows(hot, lots[..k]) == Ok(ls)
      invariant forall id :: id in reasoningShown <==> id != "" && SeenBefore(ls, id)
      invariant rows == LowRows(pubReasoningMap, ls)
    {
      var lot := lots[k];
      if !lot.JObject? {
        LowFails(hot, lots, k, Malformed);
        return Err(Malformed);
      }
      var idR := Str(Get(lot.fields, "publication_ID", JString("")));
      if idR.Err? {
        LowFails(hot, lots, k, idR.error);
        return Err(idR.error);
      }
      var publicationId := idR.value;
      var paragraphId := Get(lot.fields, "paragraph_ID", JString(""));
      var reasoningText := JString("");
      if publicationId != "" && publicationId !in reasoningShown {
        reasoningText := Lookup(pubReasoningMap, publicationId);
        reasoningShown := reasoningShown + {publicationId};
      }
      var parentR := Str(Get(hot, "paragraph_ID", JString("")));
      if parentR.Err? {
        LowFails(hot, lots, k, parentR.error);
        return Err(parentR.error);
      }
      var lowOrderRow := Row(
        LowOrderText, paragraphId, JString(publicationId), Get(lot.fields, "text", JString("")),
        "INCON-" + parentR.value, Get(lot.fields, "similarity_score", JString("")), reasoningText);
      ghost var l := LowOrderEntry(
        paragraphId, publicationId, Get(lot.fields, "text", JString("")),
        Get(lot.fields, "similarity_score", JString("")), "INCON-" + parentR.value);
      assert DecodeLow(hot, lot) == Ok(l);
      assert lots[..k + 1][..k] == lots[..k];
      LowRowsSnoc(pubReasoningMap, ls, l);
      SeenBeforeSnoc(ls, l);
      rows := rows + [lowOrderRow];
      ls := ls + [l];
    }
    assert lots[..|lots|] == lots;
    return Ok(rows);
  }

  /** The middle loop of `process_json_data` for one item: for each
      high-order entry, its row, then its low-order rows. */
  method EmitHighOrderRows(hots: seq<Json>, pubReasoningMap: map<string, Json>)
    returns (result: Result<seq<Row>>)
    ensures DecodeHots(hots).Err? ==> result == Err(DecodeHots(hots).error)
    ensures DecodeHots(hots).Ok? ==> result == Ok(EntriesRows(pubReasoningMap, DecodeHots(hots).value))
  {
    var rows: seq<Row> := [];
    ghost var hs: seq<HighOrderEntry> := [];
    for j := 0 to |hots|
      invariant DecodeHots(hots[..j]) == Ok(hs)
      invariant rows == EntriesRows(pubReasoningMap, hs)
    {
      var hot := hots[j];
      if !hot.JObject? {
        HotFails(hots, j, Malformed);
        return Err(Malformed);
      }
      var tagR := JoinTags(Get(hot.fields, "tags", JArray([])));
      if tagR.Err? {
        HotFails(hots, j, tagR.error);
        return Err(tagR.error);
      }
      var highOrderRow := Row(
        HighOrderText, Get(hot.fields, "paragraph_ID", JString("")),
        Get(hot.fields, "publication_ID", JString("")), Get(hot.fields, "text", JString("")),
        tagR.value, JString("N/A"), JString(""));
      rows := rows + [highOrderRow];
      var lotsR := Members(Get(hot.fields, "low_order_texts", JArray([])));
      if lotsR.Err? {
        HotFails(hots, j, lotsR.error);
        return Err(lotsR.error);
      }
      var lowRowsR := EmitLowOrderRows(hot.fields, lotsR.value, pubReasoningMap);
      if lowRowsR.Err? {
        HotFails(hots, j, lowRowsR.error);
        return Err(lowRowsR.error);
      }
      rows := rows + lowRowsR.value;
      ghost var h := HighOrderEntry(
        Get(hot.fields, "paragraph_ID", JString("")), Get(hot.fields, "publication_ID", JString("")),
        Get(hot.fields, "text", JString("")), tagR.value, DecodeLows(hot.fields, lotsR.value).value);
      assert DecodeHot(hot) == Ok(h);
      assert hots[..j + 1][..j] == hots[..j];
      EntriesRowsSnoc(pubReasoningMap, hs, h);
      AppendAssociative(EntriesRows(pubReasoningMap, hs), [highOrderRow], lowRowsR.value);
      hs := hs + [h];
    }
    assert hots[..|hots|] == hots;
    return Ok(rows);
  }

  /** `process_json_data`: the root's items, then for each item its
      reasoning lookup and its high-order entries' rows, appended in order. */
  method ProcessJsonData(doc: Json) returns (result: Result<seq<Row>>)
    ensures result == Flatten(doc)
  {
    var resolved := ResolveRoot(doc);
    if resolved.Err? {
      return Err(resolved.error);
    }
    var itemsR := Members(resolved.value);
    if itemsR.Err? {
      return Err(itemsR.error);
    }
    var items := itemsR.value;
    var rows: seq<Row> := [];
    ghost var done: seq<Item> := [];
    for i := 0 to |items|
      invariant DecodeItems(items[..i]) == Ok(done)
      invariant rows == ItemsRows(done)
    {
      var item := items[i];
      if !item.JObject? {
        ItemFailsDocument(doc, items, i, Malformed);
        return Err(Malformed);
      }
      var highOrderTexts := Get(item.fields, "high_order_text", JArray([]));
      var reasoningsR := Members(Get(item.fields, "reasonings", JArray([])));
      if reasoningsR.Err? {
        ItemFailsDocument(doc, items, i, reasoningsR.error);
        return Err(reasoningsR.error);
      }
      var decoded := DecodeReasonings(reasoningsR.value);
      if decoded.Err? {
        ItemFailsDocument(doc, items, i, decoded.error);
        return Err(decoded.error);
      }
      var pubReasoningMap := LookupMap(decoded.value);
      var hotsR := Members(highOrderTexts);
      if hotsR.Err? {
        ItemFailsDocument(doc, items, i, hotsR.error);
        return Err(hotsR.error);
      }
      var itemRowsR := EmitHighOrderRows(hotsR.value, pubReasoningMap);
      if itemRowsR.Err? {
        ItemFailsDocument(doc, items, i, itemRowsR.error);
        return Err(itemRowsR.error);
      }
      rows := rows + itemRowsR.value;
      ghost var it := Item(DecodeHots(hotsR.value).value, decoded.value);
      assert DecodeItem(item) == Ok(it);
      assert items[..i + 1][..i] == items[..i];
      assert (done + [it])[..|done|] == done;
      done := done + [it];
    }
    assert items[..|items|] == items;
    return Ok(rows);
  }
}

/** What `process_json_data` promises about a whole document. */
module FlatteningProperties {
  import opened JsonValues
  import opened Entries
  import opened Decoder
  import opened Flattening

  // ---------------------------------------------------------------------
  // Root shapes

  /** A list of items under `payload.results` gives the rows the same list
      gives as the root. */
  lemma PayloadResultsActAsRoot(root: map<string, Json>, payload: map<string, Json>, items: seq<Json>)
    ensures Flatten(JObject(root["payload" := JObject(payload["results" := JArray(items)])])) ==
            Flatten(JArray(items))
  {
  }

  /** A list root is itself the list of items. */
  lemma ListRootIsItems(items: seq<Json>)
    ensures Flatten(JArray(items)) == (var d :- DecodeItems(items); Ok(ItemsRows(d)))
  {
  }

  /** A dict root without `payload.results` is read as a one-item list. */
  lemma SingleObjectActsAsOneItem(root: map<string, Json>)
    requires "payload" !in root || (root["payload"].JObject? && "results" !in root["payload"].fields)
    ensures Flatten(JObject(root)) == Flatten(JArray([JObject(root)]))
  {
  }

  /** A `payload` that is not a dict: the `in` test is element membership
      for a list and a substring test for a string. When it finds 'results',
      indexing the list or string with 'results' raises. When it does not,
      the root is one item. On a number, a boolean or null the test itself
      raises. */
  lemma NonDictPayload(root: map<string, Json>)
    requires "payload" in root && !root["payload"].JObject?
    ensures
      var p := root["payload"];
      var oneItem := (p.JArray? && JString("results") !in p.elems) || (p.JString? && !Contains(p.s, "results"));
      Flatten(JObject(root)) == if oneItem then Flatten(JArray([JObject(root)])) else Err(Malformed)
  {
  }

  /** A root that is neither a dict nor a list is refused, with no rows. */
  lemma ScalarRootRefused(doc: Json)
    requires !doc.JObject? && !doc.JArray?
    ensures Flatten(doc) == Err(UnsupportedShape)
  {
  }

  // ---------------------------------------------------------------------
  // Counting on the document itself

  /** The number of low-order entries under the given high-order entries. */
  function JsonLowCount(hots: seq<Json>): nat
  {
    if |hots| == 0 then 0
    else
      var hot := hots[|hots| - 1];
      var lots := if hot.JObject? then Members(Get(hot.fields, "low_order_texts", JArray([]))) else Ok([]);
      JsonLowCount(hots[..|hots| - 1]) + (if lots.Ok? then |lots.value| else 0)
  }

  /** The number of high-order entries plus the number of low-order entries
      in the given items. */
  function JsonEntryCount(items: seq<Json>): nat
  {
    if |items| == 0 then 0
    else
      var item := items[|items| - 1];
      var hots := if item.JObject? then Members(Get(item.fields, "high_order_text", JArray([]))) else Ok([]);
      var here := if hots.Ok? then |hots.value| + JsonLowCount(hots.value) else 0;
      JsonEntryCount(items[..|items| - 1]) + here
  }

  lemma {:induction false} LowCountOfDecoded(hots: seq<Json>)
    requires DecodeHots(hots).Ok?
    ensures LowCount(DecodeHots(hots).value) == JsonLowCount(hots)
  {
    if |hots| > 0 {
      var front, hot := hots[..|hots| - 1], hots[|hots| - 1];
      LowCountOfDecoded(front);
      var hs := DecodeHots(hots).value;
      assert hs == DecodeHots(front).value + [DecodeHot(hot).value];
      assert hs[..|hs| - 1] == DecodeHots(front).value;
      var lots := Members(Get(hot.fields, "low_order_texts", JArray([]))).value;
      DecodeLowsPointwise(hot.fields, lots);
    }
  }

  lemma {:induction false} EntryCountOfDecoded(items: seq<Json>)
    requires DecodeItems(items).Ok?
    ensures EntryCount(DecodeItems(items).value) == JsonEntryCount(items)
  {
    if |items| > 0 {
      var front, item := items[..|items| - 1], items[|items| - 1];
      EntryCountOfDecoded(front);
      var its := DecodeItems(items).value;
      assert its == DecodeItems(front).value + [DecodeItem(item).value];
      assert its[..|its| - 1] == DecodeItems(front).value;
      var hots := Members(Get(item.fields, "high_order_text", JArray([]))).value;
      DecodeHotsPointwise(hots);
      LowCountOfDecoded(hots);
    }
  }

  /** A document's rows number its high-order entries plus its low-order
      entries, summed over all its items. */
  lemma DocumentRowCount(doc: Json, rows: seq<Row>)
    requires Flatten(doc) == Ok(rows)
    ensures ResolveRoot(doc).Ok? && Members(ResolveRoot(doc).value).Ok?
    ensures |rows| == JsonEntryCount(Members(ResolveRoot(doc).value).value)
  {
    var items := Members(ResolveRoot(doc).value).value;
    RowCount(DecodeItems(items).value);
    EntryCountOfDecoded(items);
  }

  // ---------------------------------------------------------------------
  // The rows of one high-order entry, read off the document

  /** A high-order entry of the document yields its own row first: Text
      Type "High-Order Text", its own paragraph ID, publication ID and text,
      its tags joined with ", ", Similarity Score "N/A" and no reasoning;
      then one row per element of its `low_order_texts`. */
  lemma HighOrderRowOfEntry(hot: Json, lookup: map<string, Json>)
    requires DecodeHot(hot).Ok?
    ensures hot.JObject? && Members(Get(hot.fields, "low_order_texts", JArray([]))).Ok?
    ensures
      var lots := Members(Get(hot.fields, "low_order_texts", JArray([]))).value;
      var rows := EntryRows(lookup, DecodeHot(hot).value);
      |rows| == 1 + |lots| &&
      JoinTags(Get(hot.fields, "tags", JArray([]))) == Ok(rows[0].tag) &&
      rows[0] == Row(HighOrderText, Get(hot.fields, "paragraph_ID", JString("")),
                     Get(hot.fields, "publication_ID", JString("")), Get(hot.fields, "text", JString("")),
                     rows[0].tag, JString("N/A"), JString(""))
  {
    var lots := Members(Get(hot.fields, "low_order_texts", JArray([]))).value;
    var h := DecodeHot(hot).value;
    DecodeLowsPointwise(hot.fields, lots);
    EntryRowsShape(lookup, h);
  }

  /** `row` is the low-order row of element `lot` under the high-order
      entry `hot`, whatever its reasoning: Text Type "Low-Order Text", the
      element's paragraph ID, text and similarity score, the `str()` of its
      publication ID, and the Tag "INCON-" followed by the parent's
      paragraph ID (the element's own `tag` plays no part). */
  predicate IsLowOrderRowOf(hot: map<string, Json>, lot: Json, row: Row)
  {
    lot.JObject? && row.publicationId.JString? &&
    Str(Get(lot.fields, "publication_ID", JString(""))) == Ok(row.publicationId.s) &&
    Str(Get(hot, "paragraph_ID", JString(""))).Ok? &&
    row == Row(LowOrderText, Get(lot.fields, "paragraph_ID", JString("")), row.publicationId,
               Get(lot.fields, "text", JString("")),
               "INCON-" + Str(Get(hot, "paragraph_ID", JString(""))).value,
               Get(lot.fields, "similarity_score", JString("")), row.reasonings)
  }

  lemma LowOrderRowOfElement(hot: map<string, Json>, lot: Json, lookup: map<string, Json>, earlier: seq<LowOrderEntry>)
    requires DecodeLow(hot, lot).Ok?
    ensures
      var l := DecodeLow(hot, lot).value;
      IsLowOrderRowOf(hot, lot, LowRow(l, ReasoningFor(lookup, earlier, l.publicationId)))
  {
  }

  /** The rows after a high-order entry's own row are those of the elements
      of its `low_order_texts`, one each, in order. */
  lemma LowOrderRowsOfEntry(hot: Json, lookup: map<string, Json>)
    requires DecodeHot(hot).Ok?
    ensures hot.JObject? && Members(Get(hot.fields, "low_order_texts", JArray([]))).Ok?
    ensures
      var lots := Members(Get(hot.fields, "low_order_texts", JArray([]))).value;
      var lows := EntryRows(lookup, DecodeHot(hot).value)[1..];
      |lows| == |lots| && forall k :: 0 <= k < |lots| ==> IsLowOrderRowOf(hot.fields, lots[k], lows[k])
  {
    var lots := Members(Get(hot.fields, "low_order_texts", JArray([]))).value;
    var ls := DecodeHot(hot).value.lowOrderTexts;
    var lows := EntryRows(lookup, DecodeHot(hot).value)[1..];
    assert ls == DecodeLows(hot.fields, lots).value;
    DecodeLowsPointwise(hot.fields, lots);
    LowRowsAt(lookup, ls);
    assert lows == LowRows(lookup, ls);
    forall k | 0 <= k < |lots|
      ensures IsLowOrderRowOf(hot.fields, lots[k], lows[k])
    {
      LowOrderRowOfElement(hot.fields, lots[k], lookup, ls[..k]);
    }
  }

  /** The reasoning on the low-order rows of one high-order entry, stated on
      the rows alone: a row shows the looked-up reasoning exactly when its
      publication ID is non-empty and no earlier row of the same entry has
      that publication ID; every other row shows "". */
  lemma LowOrderReasonings(h: HighOrderEntry, lookup: map<string, Json>)
    ensures
      var lows := EntryRows(lookup, h)[1..];
      forall k :: 0 <= k < |lows| ==>
        lows[k].publicationId.JString? &&
        lows[k].reasonings ==
          if lows[k].publicationId != JString("") &&
             forall j :: 0 <= j < k ==> lows[j].publicationId != lows[k].publicationId
          then Lookup(lookup, lows[k].publicationId.s)
          else JString("")
  {
    var ls := h.lowOrderTexts;
    LowRowsAt(lookup, ls);
    var lows := EntryRows(lookup, h)[1..];
    assert lows == LowRows(lookup, ls);
    forall k | 0 <= k < |lows|
      ensures SeenBefore(ls[..k], ls[k].publicationId) <==>
              exists j :: 0 <= j < k && lows[j].publicationId == lows[k].publicationId
    {
      SeenBeforeOnRows(ls, lows, k);
    }
  }

  lemma SeenBeforeOnRows(ls: seq<LowOrderEntry>, lows: seq<Row>, k: int)
    requires |lows| == |ls| && 0 <= k < |ls|
    requires forall j :: 0 <= j < |ls| ==> lows[j].publicationId == JString(ls[j].publicationId)
    ensures SeenBefore(ls[..k], ls[k].publicationId) <==>
            exists j :: 0 <= j < k && lows[j].publicationId == lows[k].publicationId
  {
    if SeenBefore(ls[..k], ls[k].publicationId) {
      var j :| 0 <= j < k && ls[..k][j].publicationId == ls[k].publicationId;
      assert lows[j].publicationId == lows[k].publicationId;
    }
    if exists j :: 0 <= j < k && lows[j].publicationId == lows[k].publicationId {
      var j :| 0 <= j < k && lows[j].publicationId == lows[k].publicationId;
      assert ls[..k][j].publicationId == ls[k].publicationId;
    }
  }

}

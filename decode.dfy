/** Reading the parsed document into entries, in the order the converter
    reads it, failing where it fails: which value is iterated as the items,
    and what `.get`, `str()`, `', '.join` and iteration make of each field. */
module Decoder {
  import opened JsonValues
  import opened Entries

  /** The value the converter iterates as its items: `payload.results` when
      the root is a dict whose `payload` holds `results`, the root itself
      when it is a list, and a one-item list of the root when it is any other
      dict. The `in` test on `payload` is element membership for a list and a
      substring test for a string; when it succeeds there, indexing with
      'results' raises, and on a number, a boolean or null the test itself
      raises. A root that is neither a dict nor a list is refused. */
  function ResolveRoot(doc: Json): Result<Json>
  {
    match doc
    case JObject(m) =>
      if "payload" !in m then Ok(JArray([doc]))
      else (
        match m["payload"]
        case JObject(p) => if "results" in p then Ok(p["results"]) else Ok(JArray([doc]))
        case JArray(xs) => if JString("results") in xs then Err(Malformed) else Ok(JArray([doc]))
        case JString(s) => if Contains(s, "results") then Err(Malformed) else Ok(JArray([doc]))
        case _ => Err(Malformed))
    case JArray(_) => Ok(doc)
    case _ => Err(UnsupportedShape)
  }

  /** One element of `reasonings`: a dict, its `publication_ID` put through
      `str()` (default ''), its `reasoning` taken as it is (default ''). */
  function DecodeReasoning(r: Json): Result<ReasoningEntry>
  {
    if !r.JObject? then Err(Malformed)
    else
      var id :- Str(Get(r.fields, "publication_ID", JString("")));
      Ok(ReasoningEntry(id, Get(r.fields, "reasoning", JString(""))))
  }

  function DecodeReasonings(rs: seq<Json>): Result<seq<ReasoningEntry>>
  {
    if |rs| == 0 then Ok([])
    else
      var front :- DecodeReasonings(rs[..|rs| - 1]);
      var r :- DecodeReasoning(rs[|rs| - 1]);
      Ok(front + [r])
  }

  /** One element of a high-order entry `hot`'s `low_order_texts`: a dict,
      its `publication_ID` put through `str()`, and the row's Tag formatted
      from the parent's `paragraph_ID`; the entry's own `tag` is not read. */
  function DecodeLow(hot: map<string, Json>, lot: Json): Result<LowOrderEntry>
  {
    if !lot.JObject? then Err(Malformed)
    else
      var id :- Str(Get(lot.fields, "publication_ID", JString("")));
      var parent :- Str(Get(hot, "paragraph_ID", JString("")));
      Ok(LowOrderEntry(
        Get(lot.fields, "paragraph_ID", JString("")), id, Get(lot.fields, "text", JString("")),
        Get(lot.fields, "similarity_score", JString("")), "INCON-" + parent))
  }

  function DecodeLows(hot: map<string, Json>, lots: seq<Json>): Result<seq<LowOrderEntry>>
  {
    if |lots| == 0 then Ok([])
    else
      var front :- DecodeLows(hot, lots[..|lots| - 1]);
      var l :- DecodeLow(hot, lots[|lots| - 1]);
      Ok(front + [l])
  }

  /** One element of an item's `high_order_text`: a dict whose `tags`
      (default []) are joined, then its `low_order_texts` (default []). */
  function DecodeHot(hot: Json): Result<HighOrderEntry>
  {
    if !hot.JObject? then Err(Malformed)
    else
      var tag :- JoinTags(Get(hot.fields, "tags", JArray([])));
      var lots :- Members(Get(hot.fields, "low_order_texts", JArray([])));
      var ls :- DecodeLows(hot.fields, lots);
      Ok(HighOrderEntry(
        Get(hot.fields, "paragraph_ID", JString("")), Get(hot.fields, "publication_ID", JString("")),
        Get(hot.fields, "text", JString("")), tag, ls))
  }

  function DecodeHots(hots: seq<Json>): Result<seq<HighOrderEntry>>
  {
    if |hots| == 0 then Ok([])
    else
      var front :- DecodeHots(hots[..|hots| - 1]);
      var h :- DecodeHot(hots[|hots| - 1]);
      Ok(front + [h])
  }

  /** One item: a dict whose `reasonings` (default []) are read first, to
      build the lookup, and then its `high_order_text` (default []). */
  function DecodeItem(item: Json): Result<Item>
  {
    if !item.JObject? then Err(Malformed)
    else
      var rsJson :- Members(Get(item.fields, "reasonings", JArray([])));
      var rs :- DecodeReasonings(rsJson);
      var hots :- Members(Get(item.fields, "high_order_text", JArray([])));
      var hs :- DecodeHots(hots);
      Ok(Item(hs, rs))
  }

  function DecodeItems(items: seq<Json>): Result<seq<Item>>
  {
    if |items| == 0 then Ok([])
    else
      var front :- DecodeItems(items[..|items| - 1]);
      var it :- DecodeItem(items[|items| - 1]);
      Ok(front + [it])
  }

  /** The whole document's items. */
  function Decode(doc: Json): Result<seq<Item>>
  {
    var itemsValue :- ResolveRoot(doc);
    var items :- Members(itemsValue);
    DecodeItems(items)
  }

  // ---------------------------------------------------------------------
  // A failure part-way through a list is the failure of the whole list.

  lemma {:induction false} LowsFailurePersists(hot: map<string, Json>, lots: seq<Json>, k: nat)
    requires k <= |lots| && DecodeLows(hot, lots[..k]).Err?
    ensures DecodeLows(hot, lots) == DecodeLows(hot, lots[..k])
    decreases |lots| - k
  {
    if k < |lots| {
      var front := lots[..|lots| - 1];
      assert front[..k] == lots[..k];
      LowsFailurePersists(hot, front, k);
    } else {
      assert lots[..k] == lots;
    }
  }

  lemma {:induction false} HotsFailurePersists(hots: seq<Json>, k: nat)
    requires k <= |hots| && DecodeHots(hots[..k]).Err?
    ensures DecodeHots(hots) == DecodeHots(hots[..k])
    decreases |hots| - k
  {
    if k < |hots| {
      var front := hots[..|hots| - 1];
      assert front[..k] == hots[..k];
      HotsFailurePersists(front, k);
    } else {
      assert hots[..k] == hots;
    }
  }

  lemma {:induction false} ItemsFailurePersists(items: seq<Json>, k: nat)
    requires k <= |items| && DecodeItems(items[..k]).Err?
    ensures DecodeItems(items) == DecodeItems(items[..k])
    decreases |items| - k
  {
    if k < |items| {
      var front := items[..|items| - 1];
      assert front[..k] == items[..k];
      ItemsFailurePersists(front, k);
    } else {
      assert items[..k] == items;
    }
  }

  /** The first element that fails to read decides the failure of the list. */
  lemma LowFails(hot: map<string, Json>, lots: seq<Json>, k: nat, e: Error)
    requires k < |lots| && DecodeLows(hot, lots[..k]).Ok? && DecodeLow(hot, lots[k]) == Err(e)
    ensures DecodeLows(hot, lots) == Err(e)
  {
    assert lots[..k + 1][..k] == lots[..k];
    LowsFailurePersists(hot, lots, k + 1);
  }

  lemma HotFails(hots: seq<Json>, k: nat, e: Error)
    requires k < |hots| && DecodeHots(hots[..k]).Ok? && DecodeHot(hots[k]) == Err(e)
    ensures DecodeHots(hots) == Err(e)
  {
    assert hots[..k + 1][..k] == hots[..k];
    HotsFailurePersists(hots, k + 1);
  }

  lemma ItemFails(items: seq<Json>, k: nat, e: Error)
    requires k < |items| && DecodeItems(items[..k]).Ok? && DecodeItem(items[k]) == Err(e)
    ensures DecodeItems(items) == Err(e)
  {
    assert items[..k + 1][..k] == items[..k];
    ItemsFailurePersists(items, k + 1);
  }

  // ---------------------------------------------------------------------
  // A list is read element by element, in order.

  /** The low-order entries read are those of the elements, one each, in
      order; and if every element reads, so does the list. */
  lemma {:induction false} DecodeLowsPointwise(hot: map<string, Json>, lots: seq<Json>)
    ensures DecodeLows(hot, lots).Ok? ==>
      |DecodeLows(hot, lots).value| == |lots| &&
      forall k :: 0 <= k < |lots| ==> DecodeLow(hot, lots[k]) == Ok(DecodeLows(hot, lots).value[k])
    ensures (forall k :: 0 <= k < |lots| ==> DecodeLow(hot, lots[k]).Ok?) ==> DecodeLows(hot, lots).Ok?
  {
    if |lots| > 0 {
      var front := lots[..|lots| - 1];
      DecodeLowsPointwise(hot, front);
      assert forall k :: 0 <= k < |front| ==> front[k] == lots[k];
    }
  }

  /** The same for the high-order entries of an item. */
  lemma {:induction false} DecodeHotsPointwise(hots: seq<Json>)
    ensures DecodeHots(hots).Ok? ==>
      |DecodeHots(hots).value| == |hots| &&
      forall k :: 0 <= k < |hots| ==> DecodeHot(hots[k]) == Ok(DecodeHots(hots).value[k])
    ensures (forall k :: 0 <= k < |hots| ==> DecodeHot(hots[k]).Ok?) ==> DecodeHots(hots).Ok?
  {
    if |hots| > 0 {
      var front := hots[..|hots| - 1];
      DecodeHotsPointwise(front);
      assert forall k :: 0 <= k < |front| ==> front[k] == hots[k];
    }
  }

  /** The same for the items of the document. */
  lemma {:induction false} DecodeItemsPointwise(items: seq<Json>)
    ensures DecodeItems(items).Ok? ==>
      |DecodeItems(items).value| == |items| &&
      forall k :: 0 <= k < |items| ==> DecodeItem(items[k]) == Ok(DecodeItems(items).value[k])
    ensures (forall k :: 0 <= k < |items| ==> DecodeItem(items[k]).Ok?) ==> DecodeItems(items).Ok?
  {
    if |items| > 0 {
      var front := items[..|items| - 1];
      DecodeItemsPointwise(front);
      assert forall k :: 0 <= k < |front| ==> front[k] == items[k];
    }
  }

  /** The reasonings are read element by element, in order, too. */
  lemma {:induction false} DecodeReasoningsPointwise(rs: seq<Json>)
    ensures DecodeReasonings(rs).Ok? ==>
      |DecodeReasonings(rs).value| == |rs| &&
      forall k :: 0 <= k < |rs| ==> DecodeReasoning(rs[k]) == Ok(DecodeReasonings(rs).value[k])
    ensures (forall k :: 0 <= k < |rs| ==> DecodeReasoning(rs[k]).Ok?) ==> DecodeReasonings(rs).Ok?
  {
    if |rs| > 0 {
      var front := rs[..|rs| - 1];
      DecodeReasoningsPointwise(front);
      assert forall k :: 0 <= k < |front| ==> front[k] == rs[k];
    }
  }

  /** Only the listed fields of a low-order entry are read: its own `tag`,
      whatever it is, makes no difference. */
  lemma LowOrderTagIgnored(hot: map<string, Json>, lot: map<string, Json>, tag: Json)
    ensures DecodeLow(hot, JObject(lot["tag" := tag])) == DecodeLow(hot, JObject(lot - {"tag"}))
  {
  }
}

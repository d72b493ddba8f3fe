/** Small documents and the rows the converter makes of them. */
module Scenarios {
  import opened JsonValues
  import opened Entries
  import opened Decoder
  import opened Flattening

  function LowJson(paragraphId: string, publicationId: Json, text: string, score: Json): Json
  {
    JObject(map["paragraph_ID" := JString(paragraphId), "publication_ID" := publicationId,
                "text" := JString(text), "similarity_score" := score])
  }

  function ReasoningJson(publicationId: Json, reasoning: string): Json
  {
    JObject(map["publication_ID" := publicationId, "reasoning" := JString(reasoning)])
  }

  /** A low-order entry written out in full reads as its fields, its Tag
      formatted from the parent's paragraph ID. */
  lemma LowJsonDecodes(hot: map<string, Json>, paragraphId: string, publicationId: Json,
                       text: string, score: Json)
    requires Str(publicationId).Ok? && Str(Get(hot, "paragraph_ID", JString(""))).Ok?
    ensures DecodeLow(hot, LowJson(paragraphId, publicationId, text, score)) ==
      Ok(LowOrderEntry(JString(paragraphId), Str(publicationId).value, JString(text), score,
                       "INCON-" + Str(Get(hot, "paragraph_ID", JString(""))).value))
  {
    var m := LowJson(paragraphId, publicationId, text, score).fields;
    assert Get(m, "publication_ID", JString("")) == publicationId;
    assert Get(m, "paragraph_ID", JString("")) == JString(paragraphId);
    assert Get(m, "text", JString("")) == JString(text);
    assert Get(m, "similarity_score", JString("")) == score;
  }

  /** A reasoning written out in full reads as its two fields. */
  lemma ReasoningJsonDecodes(publicationId: Json, reasoning: string)
    requires Str(publicationId).Ok?
    ensures DecodeReasoning(ReasoningJson(publicationId, reasoning)) ==
      Ok(ReasoningEntry(Str(publicationId).value, JString(reasoning)))
  {
    var m := ReasoningJson(publicationId, reasoning).fields;
    assert Get(m, "publication_ID", JString("")) == publicationId;
    assert Get(m, "reasoning", JString("")) == JString(reasoning);
  }

  // A single item given as the root: one high-order entry P1 with tag "x"
  // and two low-order entries of publication PubA, and one reasoning for PubA.

  const Low1: Json := LowJson("L1", JString("PubA"), "t1", JFloat("0.9"))
  const Low2: Json := LowJson("L2", JString("PubA"), "t2", JFloat("0.8"))
  const High1: Json := JObject(map[
    "paragraph_ID" := JString("P1"), "publication_ID" := JString("PubA"), "text" := JString("T1"),
    "tags" := JArray([JString("x")]), "low_order_texts" := JArray([Low1, Low2])])
  const Reasoning1: Json := ReasoningJson(JString("PubA"), "because")
  const Doc1: Json := JObject(map["high_order_text" := JArray([High1]), "reasonings" := JArray([Reasoning1])])

  const Entry1: LowOrderEntry := LowOrderEntry(JString("L1"), "PubA", JString("t1"), JFloat("0.9"), "INCON-P1")
  const Entry2: LowOrderEntry := LowOrderEntry(JString("L2"), "PubA", JString("t2"), JFloat("0.8"), "INCON-P1")
  const HighEntry1: HighOrderEntry := HighOrderEntry(JString("P1"), JString("PubA"), JString("T1"), "x", [Entry1, Entry2])
  const Item1: Item := Item([HighEntry1], [ReasoningEntry("PubA", JString("because"))])

  lemma High1Decodes()
    ensures DecodeHot(High1) == Ok(HighEntry1)
  {
    var hot := High1.fields;
    assert Get(hot, "paragraph_ID", JString("")) == JString("P1");
    LowJsonDecodes(hot, "L1", JString("PubA"), "t1", JFloat("0.9"));
    LowJsonDecodes(hot, "L2", JString("PubA"), "t2", JFloat("0.8"));
    assert "INCON-" + "P1" == "INCON-P1";
    assert DecodeLow(hot, Low1) == Ok(Entry1);
    assert DecodeLow(hot, Low2) == Ok(Entry2);
    assert [Low1][..0] == [] && [Low1, Low2][..1] == [Low1];
    assert [] + [Entry1] == [Entry1] && [Entry1] + [Entry2] == [Entry1, Entry2];
    assert DecodeLows(hot, []) == Ok([]);
    assert DecodeLows(hot, [Low1]) == Ok([Entry1]);
    assert DecodeLows(hot, [Low1, Low2]) == Ok([Entry1, Entry2]);
    assert JoinTags(JArray([JString("x")])) == Ok("x");
  }

  lemma Doc1Decodes()
    ensures Decode(Doc1) == Ok([Item1])
  {
    High1Decodes();
    assert [High1][..0] == [] && [] + [HighEntry1] == [HighEntry1];
    assert DecodeHots([High1]) == Ok([HighEntry1]);
    var re := ReasoningEntry("PubA", JString("because"));
    ReasoningJsonDecodes(JString("PubA"), "because");
    assert [Reasoning1][..0] == [] && [] + [re] == [re];
    assert DecodeReasonings([Reasoning1]) == Ok([re]);
    assert DecodeItem(Doc1) == Ok(Item1);
    assert ResolveRoot(Doc1) == Ok(JArray([Doc1]));
    assert [Doc1][..0] == [] && [] + [Item1] == [Item1];
    assert DecodeItems([Doc1]) == Ok([Item1]);
  }

  lemma Item1Rows()
    ensures ItemsRows([Item1]) == [
      Row(HighOrderText, JString("P1"), JString("PubA"), JString("T1"), "x", JString("N/A"), JString("")),
      Row(LowOrderText, JString("L1"), JString("PubA"), JString("t1"), "INCON-P1", JFloat("0.9"), JString("because")),
      Row(LowOrderText, JString("L2"), JString("PubA"), JString("t2"), "INCON-P1", JFloat("0.8"), JString(""))]
  {
    var rs := Item1.reasonings;
    var lookup := LookupMap(rs);
    assert rs[..0] == [] && LookupMap([]) == map[];
    assert lookup == map["PubA" := JString("because")];
    assert [Entry1][..0] == [] && [Entry1, Entry2][..1] == [Entry1];
    assert [Entry1][0].publicationId == "PubA";
    var row1, row2 := LowRow(Entry1, JString("because")), LowRow(Entry2, JString(""));
    assert ReasoningFor(lookup, [], "PubA") == JString("because");
    assert ReasoningFor(lookup, [Entry1], "PubA") == JString("");
    assert LowRows(lookup, [Entry1]) == [] + [row1] == [row1];
    assert LowRows(lookup, [Entry1, Entry2]) == [row1] + [row2] == [row1, row2];
    assert EntryRows(lookup, HighEntry1) == [HighRow(HighEntry1), row1, row2];
    assert [HighEntry1][..0] == [] && [Item1][..0] == [];
    assert EntriesRows(lookup, [HighEntry1]) == [] + EntryRows(lookup, HighEntry1);
    assert ItemsRows([Item1]) == [] + EntriesRows(lookup, [HighEntry1]);
  }

  /** The first low-order row gets the reasoning, the second, of the same
      publication, does not; both carry the Tag INCON-P1, and the
      high-order row has the joined tags and "N/A" for its score. */
  lemma SingleItemWithRepeatedPublication()
    ensures Flatten(Doc1) == Ok([
      Row(HighOrderText, JString("P1"), JString("PubA"), JString("T1"), "x", JString("N/A"), JString("")),
      Row(LowOrderText, JString("L1"), JString("PubA"), JString("t1"), "INCON-P1", JFloat("0.9"), JString("because")),
      Row(LowOrderText, JString("L2"), JString("PubA"), JString("t2"), "INCON-P1", JFloat("0.8"), JString(""))])
  {
    Doc1Decodes();
    Item1Rows();
  }

  // Two copies of one high-order entry H in one item, each with a low-order
  // entry of publication P, and one reasoning for P.

  const Low3: Json := LowJson("L", JString("P"), "t", JString(""))
  const High3: Json := JObject(map["paragraph_ID" := JString("H"), "low_order_texts" := JArray([Low3])])
  const Reasoning3: Json := ReasoningJson(JString("P"), "why")
  const Doc3: Json := JArray([JObject(map["high_order_text" := JArray([High3, High3]),
                                          "reasonings" := JArray([Reasoning3])])])

  const Entry3: LowOrderEntry := LowOrderEntry(JString("L"), "P", JString("t"), JString(""), "INCON-H")
  const HighEntry3: HighOrderEntry := HighOrderEntry(JString("H"), JString(""), JString(""), "", [Entry3])
  const Item3: Item := Item([HighEntry3, HighEntry3], [ReasoningEntry("P", JString("why"))])

  lemma High3Decodes()
    ensures DecodeHot(High3) == Ok(HighEntry3)
  {
    var hot := High3.fields;
    assert Get(hot, "paragraph_ID", JString("")) == JString("H");
    LowJsonDecodes(hot, "L", JString("P"), "t", JString(""));
    assert "INCON-" + "H" == "INCON-H";
    assert [Low3][..0] == [] && [] + [Entry3] == [Entry3];
    assert DecodeLows(hot, [Low3]) == Ok([Entry3]);
    assert JoinTags(JArray([])) == Ok("");
  }

  lemma Doc3Decodes()
    ensures Decode(Doc3) == Ok([Item3])
  {
    High3Decodes();
    assert [High3, High3][..1] == [High3] && [High3][..0] == [];
    assert [] + [HighEntry3] == [HighEntry3] && [HighEntry3] + [HighEntry3] == [HighEntry3, HighEntry3];
    assert DecodeHots([High3]) == Ok([HighEntry3]);
    assert DecodeHots([High3, High3]) == Ok([HighEntry3, HighEntry3]);
    var re := ReasoningEntry("P", JString("why"));
    ReasoningJsonDecodes(JString("P"), "why");
    assert [Reasoning3][..0] == [] && [] + [re] == [re];
    assert DecodeReasonings([Reasoning3]) == Ok([re]);
    var item := Doc3.elems[0];
    assert DecodeItem(item) == Ok(Item3);
    assert [item][..0] == [] && [] + [Item3] == [Item3];
    assert DecodeItems([item]) == Ok([Item3]);
  }

  lemma Item3Rows()
    ensures ItemsRows([Item3]) == EntryRows(LookupMap(Item3.reasonings), HighEntry3) + EntryRows(LookupMap(Item3.reasonings), HighEntry3)
    ensures EntryRows(LookupMap(Item3.reasonings), HighEntry3) == [HighRow(HighEntry3), LowRow(Entry3, JString("why"))]
  {
    var rs := Item3.reasonings;
    var lookup := LookupMap(rs);
    assert rs[..0] == [] && LookupMap([]) == map[];
    assert lookup == map["P" := JString("why")];
    assert [Entry3][..0] == [];
    assert ReasoningFor(lookup, [], "P") == JString("why");
    assert LowRows(lookup, [Entry3]) == [] + [LowRow(Entry3, JString("why"))];
    var hs := [HighEntry3, HighEntry3];
    assert hs[..1] == [HighEntry3] && [HighEntry3][..0] == [] && [Item3][..0] == [];
    assert EntriesRows(lookup, [HighEntry3]) == [] + EntryRows(lookup, HighEntry3);
    assert EntriesRows(lookup, hs) == EntriesRows(lookup, [HighEntry3]) + EntryRows(lookup, HighEntry3);
    assert ItemsRows([Item3]) == [] + EntriesRows(lookup, hs);
  }

  /** The publications whose reasoning was shown are forgotten at each
      high-order entry: P's reasoning is shown under both copies of H. */
  lemma ReasoningShownAgainUnderNextEntry()
    ensures Flatten(Doc3).Ok? && |Flatten(Doc3).value| == 4
    ensures Flatten(Doc3).value[1].reasonings == JString("why")
    ensures Flatten(Doc3).value[3].reasonings == JString("why")
  {
    Doc3Decodes();
    Item3Rows();
  }

  // One item whose high-order entry has the int paragraph ID 7 and one
  // low-order entry of publication "5"; its reasonings give the int 5 and
  // then the string "5".

  const Low4: Json := LowJson("L", JString("5"), "t", JString(""))
  const High4: Json := JObject(map["paragraph_ID" := JInt(7), "low_order_texts" := JArray([Low4])])
  const Reasoning4a: Json := ReasoningJson(JInt(5), "first")
  const Reasoning4b: Json := ReasoningJson(JString("5"), "second")
  const Doc4: Json := JArray([JObject(map["high_order_text" := JArray([High4]),
                                          "reasonings" := JArray([Reasoning4a, Reasoning4b])])])

  const Entry4: LowOrderEntry := LowOrderEntry(JString("L"), "5", JString("t"), JString(""), "INCON-7")
  const HighEntry4: HighOrderEntry := HighOrderEntry(JInt(7), JString(""), JString(""), "", [Entry4])
  const Item4: Item := Item([HighEntry4], [ReasoningEntry("5", JString("first")), ReasoningEntry("5", JString("second"))])

  lemma High4Decodes()
    ensures DecodeHot(High4) == Ok(HighEntry4)
  {
    var hot := High4.fields;
    assert Get(hot, "paragraph_ID", JString("")) == JInt(7);
    assert IntToDecimal(7) == "7" && IntToDecimal(5) == "5";
    LowJsonDecodes(hot, "L", JString("5"), "t", JString(""));
    assert "INCON-" + "7" == "INCON-7";
    assert [Low4][..0] == [] && [] + [Entry4] == [Entry4];
    assert DecodeLows(hot, [Low4]) == Ok([Entry4]);
    assert JoinTags(JArray([])) == Ok("");
  }

  lemma Reasonings4Decode()
    ensures DecodeReasonings([Reasoning4a, Reasoning4b]) ==
      Ok([ReasoningEntry("5", JString("first")), ReasoningEntry("5", JString("second"))])
  {
    var ra, rb := ReasoningEntry("5", JString("first")), ReasoningEntry("5", JString("second"));
    assert IntToDecimal(5) == "5";
    ReasoningJsonDecodes(JInt(5), "first");
    ReasoningJsonDecodes(JString("5"), "second");
    assert [Reasoning4a, Reasoning4b][..1] == [Reasoning4a] && [Reasoning4a][..0] == [];
    assert [] + [ra] == [ra] && [ra] + [rb] == [ra, rb];
    assert DecodeReasonings([Reasoning4a]) == Ok([ra]);
  }

  lemma Doc4Decodes()
    ensures Decode(Doc4) == Ok([Item4])
  {
    High4Decodes();
    Reasonings4Decode();
    assert [High4][..0] == [] && [] + [HighEntry4] == [HighEntry4];
    assert DecodeHots([High4]) == Ok([HighEntry4]);
    var item := Doc4.elems[0];
    assert DecodeItem(item) == Ok(Item4);
    assert [item][..0] == [] && [] + [Item4] == [Item4];
    assert DecodeItems([item]) == Ok([Item4]);
  }

  lemma Item4Rows()
    ensures ItemsRows([Item4]) == [HighRow(HighEntry4), LowRow(Entry4, JString("second"))]
  {
    var rs := Item4.reasonings;
    assert rs[..1] == [rs[0]] && [rs[0]][..0] == [] && LookupMap([]) == map[];
    var lookup := LookupMap(rs);
    assert lookup == map["5" := JString("second")];
    assert [Entry4][..0] == [];
    assert ReasoningFor(lookup, [], "5") == JString("second");
    assert LowRows(lookup, [Entry4]) == [] + [LowRow(Entry4, JString("second"))];
    assert [HighEntry4][..0] == [] && [Item4][..0] == [];
    assert EntriesRows(lookup, [HighEntry4]) == [] + EntryRows(lookup, HighEntry4);
    assert ItemsRows([Item4]) == [] + EntriesRows(lookup, [HighEntry4]);
  }

  /** Publication IDs are compared after `str()`: the reasoning keyed by the
      int 5 and the one keyed by the string "5" share a key, the later of the
      two is shown, and an int parent paragraph ID formats the Tag as its
      numeral. */
  lemma IntAndStringIdsMatchAndLastReasoningWins()
    ensures Flatten(Doc4).Ok? && |Flatten(Doc4).value| == 2
    ensures Flatten(Doc4).value[1].tag == "INCON-7"
    ensures Flatten(Doc4).value[1].reasonings == JString("second")
  {
    Doc4Decodes();
    Item4Rows();
  }

  /** Two tags are joined with ", " between them. */
  lemma TwoTagsJoined()
    ensures JoinTags(JArray([JString("x"), JString("y")])) == Ok("x, y")
  {
    var xs := [JString("x"), JString("y")];
    assert Texts(xs) == ["x"] + ["y"];
    CommaJoinSnoc(["x"], "y");
    CommaJoinSnoc([], "x");
    assert "x" + ", " + "y" == "x, y";
  }

  /** A list of items that is not a list of dicts makes the program raise. */
  lemma NonObjectItemRaises()
    ensures Flatten(JArray([JObject(map[]), JInt(3)])) == Err(Malformed)
  {
    var items := [JObject(map[]), JInt(3)];
    assert DecodeItem(items[0]) == Ok(Item([], []));
    assert items[..1] == [items[0]] && [items[0]][..0] == [];
    assert [] + [Item([], [])] == [Item([], [])];
    assert DecodeItems([items[0]]) == Ok([Item([], [])]);
    assert DecodeItem(items[1]) == Err(Malformed);
  }

  /** A bare number as the document is refused. */
  lemma NumberRootRefused()
    ensures Flatten(JInt(42)) == Err(UnsupportedShape)
  {
  }
}

/** The two halves of the toolchain put together: the document `parse`
    produces, written out as JSON, is the one `validate_rad` accepts without
    a warning, and the engine built over it sees exactly the entries its
    statistics count. */
module Pipeline {
  import opened Wrappers
  import opened Text
  import opened Seqs
  import opened RadData
  import opened RadParser
  import opened ValidateRad

  /** The three fields the validator samples are keys of a record. */
  predicate Shaped(e: Entry) {
    "id" in Keys(e) && "annex" in Keys(e) && "type" in Keys(e)
  }

  /** Whatever the layout, a record starts with `id` and carries the
      `annex` and `type` tags after its fields. */
  lemma RecordShaped(row: Row, l: Layout)
    ensures Shaped(Record(row, l))
  {
    var r := Record(row, l);
    var n := |Fields(row, l.fields)|;
    assert Keys(r)[0] == "id";
    assert Keys(r)[1 + n] == "annex";
    assert Keys(r)[2 + n] == "type";
  }

  lemma {:induction false} RecordsShaped(rows: seq<Row>, l: Layout)
    ensures forall e :: e in Records(rows, l) ==> Shaped(e)
  {
    if rows != [] {
      RecordsShaped(rows[..|rows| - 1], l);
      RecordShaped(rows[|rows| - 1], l);
    }
  }

  /** Every record `_parse_sheet` returns has the sampled fields. */
  lemma SheetRecordsShaped(sheetName: string, df: Sheet)
    ensures forall e :: e in SheetRecords(sheetName, df) ==> Shaped(e)
  {
    var d := CleanSheet(df);
    if Contains(sheetName, "Annex 2B") {
      RecordsShaped(d.rows, Layout2B);
    } else if Contains(sheetName, "Annex 2A") {
      RecordsShaped(d.rows, Layout2A);
    } else if Contains(sheetName, "Annex 2C") {
      RecordsShaped(d.rows, Layout2C);
    } else if Contains(sheetName, "Annex 1") {
      RecordsShaped(d.rows, Layout1);
    } else if Contains(sheetName, "Annex 3A") {
      RecordsShaped(d.rows, Layout3A(Columns3AFor(sheetName)));
    } else if Contains(sheetName, "Annex 3B") {
      var actual := IdColumn(d.columns, Annex3BIdCol(sheetName));
      if actual.Some? {
        RecordsShaped(d.rows, Layout3B(Annex3BKind(sheetName), actual.value));
      }
    }
  }

  /** Annexes made only of lists of shaped records. */
  predicate ShapedLists(a: Annexes) {
    forall i :: 0 <= i < |a| ==> a[i].1.List? && forall e :: e in a[i].1.entries ==> Shaped(e)
  }

  lemma ParsedShaped(workbook: map<string, Sheet>)
    ensures ShapedLists(ParsedAnnexes(workbook))
  {
    var a := ParsedAnnexes(workbook);
    forall i | 0 <= i < |a|
      ensures forall e :: e in a[i].1.entries ==> Shaped(e)
    {
      var sheetName := SheetMapping[i].0;
      if sheetName in workbook {
        SheetRecordsShaped(sheetName, workbook[sheetName]);
      }
    }
  }

  // ------------------------------------------------------------ the annexes as JSON

  lemma {:induction false} ListTotalJson(a: Annexes)
    requires forall i :: 0 <= i < |a| ==> a[i].1.List?
    ensures ListTotal(AnnexesJson(a).fields) == ListedCount(a)
  {
    if a != [] {
      var init := a[..|a| - 1];
      assert AnnexesJson(a).fields[..|a| - 1] == AnnexesJson(init).fields;
      ListTotalJson(init);
    }
  }

  /** The JSON of shaped lists passes the list check, and its first
      non-empty list starts with an object holding the sampled fields. */
  lemma SampleOfShaped(a: Annexes)
    requires ShapedLists(a)
    ensures FirstNonList(AnnexesJson(a).fields) == |a|
    ensures SampleCheck(AnnexesJson(a).fields) == Some([])
  {
    var fs := AnnexesJson(a).fields;
    FirstNonListAt(fs, |a|);
    var k := FirstNonEmpty(fs);
    if k < |fs| {
      assert fs[k].1 == SectionJson(a[k].1);
      var entry := a[k].1.entries[0];
      assert entry in a[k].1.entries;
      var first := fs[k].1.items[0];
      assert first == EntryJson(entry);
      NoneMissing(RequiredFields, first);
    }
  }

  /** An object that has every field misses none. */
  lemma {:induction false} NoneMissing(fields: seq<string>, first: Json)
    requires first.JObject? && forall i :: 0 <= i < |fields| ==> fields[i] in Keys(first.fields)
    ensures MissingOf(fields, first) == Some([])
  {
    if fields != [] {
      var init := fields[..|fields| - 1];
      var last := fields[|fields| - 1];
      assert forall i :: 0 <= i < |init| ==> init[i] == fields[i];
      NoneMissing(init, first);
      assert PyIn(last, first) == Some(true);
      assert MissingOf(fields, first) == Some([] + []);
    }
  }

  // ------------------------------------------------------------ the whole document

  /** The document `parse` leaves behind. */
  function ParsedDocument(fileName: string, workbook: map<string, Sheet>, metadataTime: string, statsTime: string): Document {
    Document(Some(MetadataFor(fileName, metadataTime)), Some(ParsedAnnexes(workbook)), Some(ParsedStats(workbook, statsTime)))
  }

  lemma MetadataHasCycle(fileName: string, now: string)
    ensures var m := StrDictJson(MetadataFor(fileName, now));
      m.JObject? && "cycle" in Keys(m.fields) && PyTruthy(Member(m.fields, "cycle"))
  {
    var m := StrDictJson(MetadataFor(fileName, now));
    assert m.fields[0] == ("cycle", JStr(MetadataFor(fileName, now)[0].1));
    assert Keys(m.fields)[0] == "cycle";
  }

  lemma StatsStateTotal(s: Stats, n: int)
    requires s.totalEntries == Some(n)
    ensures StatsJson(s).JObject? && Lookup(StatsJson(s).fields, "total_entries") == Some(JNum(n))
  {
  }

  /** Whatever the workbook, the file name and the clock, the JSON of the
      parsed document passes validation with the number of entries the
      parser counted and without a single warning: no missing cycle (the
      cycle is never empty), no stats mismatch, no missing field in the
      first entry. */
  lemma ParsedDocumentValidates(fileName: string, workbook: map<string, Sheet>, metadataTime: string, statsTime: string)
    ensures var doc := ParsedDocument(fileName, workbook, metadataTime, statsTime);
      ValidateSpec(DocumentJson(doc)) == Passed(doc.stats.value.totalEntries.value, [])
  {
    var a := ParsedAnnexes(workbook);
    var st := ParsedStats(workbook, statsTime);
    MetadataHasCycle(fileName, metadataTime);
    ParsedShaped(workbook);
    assert st.totalEntries == Some(ListedCount(a));
    DocumentValidates(MetadataFor(fileName, metadataTime), a, st);
  }

  /** The same for any document whose metadata has a cycle, whose annexes
      are shaped lists and whose stats state their total. */
  lemma DocumentValidates(meta: Dict<string, string>, a: Annexes, st: Stats)
    requires var m := StrDictJson(meta);
      m.JObject? && "cycle" in Keys(m.fields) && PyTruthy(Member(m.fields, "cycle"))
    requires ShapedLists(a)
    requires st.totalEntries == Some(ListedCount(a))
    ensures ValidateSpec(DocumentJson(Document(Some(meta), Some(a), Some(st)))) == Passed(ListedCount(a), [])
  {
    var doc := Document(Some(meta), Some(a), Some(st));
    var fs := DocumentJson(doc).fields;
    assert fs == [("metadata", StrDictJson(meta)), ("annexes", AnnexesJson(a)), ("stats", StatsJson(st))];
    assert Keys(fs) == RequiredKeys;
    assert Member(fs, "metadata") == StrDictJson(meta);
    assert Member(fs, "annexes") == AnnexesJson(a);
    assert Member(fs, "stats") == StatsJson(st);
    SampleOfShaped(a);
    ListTotalJson(a);
    StatsStateTotal(st, ListedCount(a));
    CleanObjectPasses(fs, ListedCount(a));
  }

  /** An object with exactly the three keys, a cycle, lists that sum to
      the stated total and a complete first entry passes without a
      warning. */
  lemma CleanObjectPasses(fs: Dict<string, Json>, n: nat)
    requires Keys(fs) == RequiredKeys
    requires var m := Member(fs, "metadata");
      m.JObject? && "cycle" in Keys(m.fields) && PyTruthy(Member(m.fields, "cycle"))
    requires var a := Member(fs, "annexes");
      a.JObject? && FirstNonList(a.fields) == |a.fields| && SampleCheck(a.fields) == Some([]) && ListTotal(a.fields) == n
    requires var st := Member(fs, "stats");
      st.JObject? && Lookup(st.fields, "total_entries") == Some(JNum(n))
    ensures ValidateSpec(JObject(fs)) == Passed(n, [])
  {
    assert HasRequiredKeys(fs) by {
      assert Keys(fs)[0] == "metadata" && Keys(fs)[1] == "annexes" && Keys(fs)[2] == "stats";
    }
    assert KeyCheck(JObject(fs), RequiredKeys).None? by {
      forall i | 0 <= i < |RequiredKeys|
        ensures PyIn(RequiredKeys[i], JObject(fs)) == Some(true)
      {
        assert RequiredKeys[i] == Keys(fs)[i];
      }
    }
    assert CycleWarns(Member(fs, "metadata")) == Some(false);
  }

  /** What `RADParser.Parse` returns is that document, and the search
      engine built over it flattens exactly `stats.total_entries` entries. */
  method ParseThenLoad(fileName: string, workbook: map<string, Sheet>, metadataTime: string, statsTime: string)
    returns (doc: Document, total: nat)
    ensures doc == ParsedDocument(fileName, workbook, metadataTime, statsTime)
    ensures ValidateSpec(DocumentJson(doc)) == Passed(total, [])
    ensures doc.stats.value.totalEntries == Some(total)
    ensures |Flatten(doc.annexes.value)| == total
  {
    var parser := new RADParser(fileName);
    doc := parser.Parse(workbook, metadataTime, statsTime);
    ParsedDocumentValidates(fileName, workbook, metadataTime, statsTime);
    total := ListedCount(doc.annexes.value);
  }
}

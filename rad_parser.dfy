/** `RADParser` (scripts/rad_parser.py): turns the sheets of a RAD workbook
    into annex record lists, file-name metadata and statistics. A sheet is
    given as the values pandas would hand over; reading the workbook, the
    clock and the JSON file are parameters or left out. */
module RadParser {
  import opened Wrappers
  import opened Text
  import opened Seqs
  import opened RadData
  import opened ErrorPatterns

  // ------------------------------------------------------------ sheets

  /** A cell as pandas hands it over: `None` for an empty cell (NaN or
      None), otherwise the text `str(value)` gives. */
  type Cell = Option<string>

  /** A row (`pd.Series`): column name to cell, in column order. */
  type Row = Dict<string, Cell>

  /** A data frame: its column names and its rows. */
  datatype Sheet = Sheet(columns: seq<string>, rows: seq<Row>)

  /** `row.get(col)`: a missing column reads as `None`, like an empty cell. */
  function Get(row: Row, col: string): Cell {
    match Lookup(row, col)
    case None => None
    case Some(c) => c
  }

  /** `_safe_str`: the empty text for an empty cell, otherwise the cell's
      text without surrounding whitespace. */
  function SafeStr(c: Cell): (r: string)
    ensures c.None? ==> r == ""
    ensures r == [] || (!IsPySpace(r[0]) && !IsPySpace(r[|r| - 1]))
    ensures c.Some? && (forall i :: 0 <= i < |c.value| ==> !IsPySpace(c.value[i])) ==> r == c.value
    ensures c.Some? && (forall i :: 0 <= i < |c.value| ==> IsPySpace(c.value[i])) ==> r == ""
  {
    if c.None? then "" else PyStrip(c.value)
  }

  /** A text without surrounding whitespace is left alone by `strip`. */
  lemma StripStable(s: string)
    requires s == [] || (!IsPySpace(s[0]) && !IsPySpace(s[|s| - 1]))
    ensures PyStrip(s) == s
  {
    assert TrimStart(s, IsPySpace) == s;
  }

  /** Stripping twice is stripping once. */
  lemma SafeStrIdempotent(c: Cell)
    ensures SafeStr(Some(SafeStr(c))) == SafeStr(c)
  {
    var s := SafeStr(c);
    StripStable(s);
    assert SafeStr(Some(s)) == PyStrip(s);
  }

  /** Every character of `strip(s)` is a character of `s`. */
  lemma StripKeepsFree(s: string, c: char)
    requires Free(s, c)
    ensures Free(PyStrip(s), c)
  {
    var t := TrimStart(s, IsPySpace);
    var r := TrimEnd(t, IsPySpace);
    assert PyStrip(s) == r;
    forall i | 0 <= i < |r| ensures r[i] != c {
      assert r[i] == t[i] == s[|s| - |t| + i];
    }
  }

  // ------------------------------------------------------------ searchable text

  /** The stripped text of every non-blank cell of `row`, in column order. */
  function CellTexts(row: Row): (ps: seq<string>)
    ensures |ps| <= |row|
    ensures forall k :: 0 <= k < |ps| ==> ps[k] != ""
  {
    if row == [] then []
    else
      var c := row[|row| - 1].1;
      CellTexts(row[..|row| - 1]) + (if c.Some? && PyStrip(c.value) != "" then [PyStrip(c.value)] else [])
  }

  /** The `searchable_text` of a row. */
  function SearchableText(row: Row): string {
    ToUpper(Join(CellTexts(row), " | "))
  }

  /** `_build_searchable_text`. */
  method BuildSearchableText(row: Row) returns (text: string)
    ensures text == SearchableText(row)
  {
    var searchable: seq<string> := [];
    for i := 0 to |row|
      invariant searchable == CellTexts(row[..i])
    {
      assert row[..i + 1][..i] == row[..i];
      var val := row[i].1;
      if val.Some? && PyStrip(val.value) != "" {
        searchable := searchable + [PyStrip(val.value)];
      }
    }
    assert row[..|row|] == row;
    text := ToUpper(Join(searchable, " | "));
  }

  predicate BlankCell(c: Cell) { c.None? || PyStrip(c.value) == "" }

  /** The searchable text is empty exactly when every cell is blank. */
  lemma SearchableTextEmpty(row: Row)
    ensures SearchableText(row) == "" <==> forall i :: 0 <= i < |row| ==> BlankCell(row[i].1)
  {
    CellTextsEmpty(row);
    var ps := CellTexts(row);
    if ps != [] {
      JoinStarts(ps, " | ");
    }
  }

  lemma {:induction false} CellTextsEmpty(row: Row)
    ensures CellTexts(row) == [] <==> forall i :: 0 <= i < |row| ==> BlankCell(row[i].1)
  {
    if row != [] {
      var init := row[..|row| - 1];
      CellTextsEmpty(init);
      assert forall i :: 0 <= i < |init| ==> init[i] == row[i];
    }
  }

  lemma JoinStarts(ps: seq<string>, sep: string)
    requires ps != []
    ensures ps[0] <= Join(ps, sep)
  {
  }

  /** Every non-blank cell's stripped, upper-cased text can be found in the
      row's searchable text. */
  lemma SearchableTextHasCell(row: Row, i: nat)
    requires i < |row| && !BlankCell(row[i].1)
    ensures Contains(SearchableText(row), ToUpper(PyStrip(row[i].1.value)))
  {
    var ps := CellTexts(row);
    var k := CellTextsHas(row, i);
    var pos := JoinOccurs(ps, " | ", k);
    var j := Join(ps, " | ");
    UpperSlice(j, pos, pos + |ps[k]|);
    OccursContains(ToUpper(j), pos, ToUpper(ps[k]));
  }

  /** Upper-casing commutes with slicing. */
  lemma UpperSlice(s: string, a: nat, b: nat)
    requires a <= b <= |s|
    ensures ToUpper(s)[a..b] == ToUpper(s[a..b])
  {
    assert forall i :: 0 <= i < b - a ==> ToUpper(s)[a..b][i] == ToUpper(s[a..b])[i];
  }

  lemma {:induction false} CellTextsHas(row: Row, i: nat) returns (k: nat)
    requires i < |row| && !BlankCell(row[i].1)
    ensures k < |CellTexts(row)| && CellTexts(row)[k] == PyStrip(row[i].1.value)
  {
    var init := row[..|row| - 1];
    if i == |row| - 1 {
      k := |CellTexts(init)|;
    } else {
      assert init[i] == row[i];
      k := CellTextsHas(init, i);
    }
  }

  lemma {:induction false} JoinOccurs(ps: seq<string>, sep: string, k: nat) returns (pos: nat)
    requires k < |ps|
    ensures OccursAt(Join(ps, sep), pos, ps[k])
  {
    if k == 0 {
      pos := 0;
      JoinStarts(ps, sep);
    } else {
      var p := JoinOccurs(ps[1..], sep, k - 1);
      var j := Join(ps, sep);
      assert j == ps[0] + sep + Join(ps[1..], sep);
      pos := |ps[0]| + |sep| + p;
      assert j[pos..pos + |ps[k]|] == Join(ps[1..], sep)[p..p + |ps[k]|];
    }
  }

  // ------------------------------------------------------------ records

  /** How the rows of one annex sheet become records: the ID column; the
      fields read before the tags, as (key, column) pairs; the `annex` and
      `type` tags; and the fields added after the tags. */
  datatype Layout = Layout(idCol: string, fields: seq<(string, string)>, annex: string, kind: string, after: seq<(string, string)>)

  /** `{key: _safe_str(row.get(col)) ...}` */
  function Fields(row: Row, fs: seq<(string, string)>): (r: Entry)
    ensures Keys(r) == Keys(fs)
  {
    seq(|fs|, i requires 0 <= i < |fs| => (fs[i].0, SafeStr(Get(row, fs[i].1))))
  }

  /** The record one row with an ID gives. */
  function Record(row: Row, l: Layout): Entry {
    [("id", SafeStr(Get(row, l.idCol)))] + Fields(row, l.fields)
      + [("annex", l.annex), ("type", l.kind), ("searchable_text", SearchableText(row))]
      + Fields(row, l.after)
  }

  /** `not pd.isna(row.get(col))` */
  function HasIdIn(col: string): Row -> bool {
    (row: Row) => Get(row, col).Some?
  }

  /** The records of a sheet's rows, built from the last row backwards. */
  function Records(rows: seq<Row>, l: Layout): seq<Entry> {
    if rows == [] then []
    else
      var last := rows[|rows| - 1];
      Records(rows[..|rows| - 1], l) + (if Get(last, l.idCol).None? then [] else [Record(last, l)])
  }

  /** The row loop shared by every `_parse_annex_*`. */
  method ParseRows(rows: seq<Row>, l: Layout) returns (records: seq<Entry>)
    ensures records == Records(rows, l)
  {
    records := [];
    for i := 0 to |rows|
      invariant records == Records(rows[..i], l)
    {
      assert rows[..i + 1][..i] == rows[..i];
      var row := rows[i];
      if Get(row, l.idCol).None? {
        continue;
      }
      var text := BuildSearchableText(row);
      var rec := [("id", SafeStr(Get(row, l.idCol)))] + Fields(row, l.fields)
        + [("annex", l.annex), ("type", l.kind), ("searchable_text", text)]
        + Fields(row, l.after);
      records := records + [rec];
    }
    assert rows[..|rows|] == rows;
  }

  /** One record per row that has an ID, in row order. */
  lemma {:induction false} RecordsPerRow(rows: seq<Row>, l: Layout)
    ensures |Records(rows, l)| == |Filter(rows, HasIdIn(l.idCol))|
    ensures forall k :: 0 <= k < |Records(rows, l)| ==> Records(rows, l)[k] == Record(Filter(rows, HasIdIn(l.idCol))[k], l)
  {
    if rows != [] {
      var init, last, p := rows[..|rows| - 1], rows[|rows| - 1], HasIdIn(l.idCol);
      var fi, ri := Filter(init, p), Records(init, l);
      RecordsPerRow(init, l);
      if p(last) {
        assert Filter(rows, p) == fi + [last];
        assert Records(rows, l) == ri + [Record(last, l)];
      } else {
        assert Filter(rows, p) == fi;
        assert Records(rows, l) == ri;
      }
    }
  }

  /** None of the four keys every record carries. */
  predicate NotTag(k: string) {
    k != "id" && k != "annex" && k != "type" && k != "searchable_text"
  }

  /** A layout whose field keys leave the tag keys to the tags. */
  predicate TagsFree(l: Layout) {
    forall i :: 0 <= i < |l.fields| ==> NotTag(l.fields[i].0)
  }

  /** A record's `id` is its row's ID, its `annex` and `type` are the
      layout's tags, and its `searchable_text` is the row's. */
  lemma RecordTags(row: Row, l: Layout)
    requires TagsFree(l)
    ensures Field(Record(row, l), "id") == Some(SafeStr(Get(row, l.idCol)))
    ensures Field(Record(row, l), "annex") == Some(l.annex)
    ensures Field(Record(row, l), "type") == Some(l.kind)
    ensures Field(Record(row, l), "searchable_text") == Some(SearchableText(row))
  {
    FieldsTagsFree(row, l);
    RecordLookups(SafeStr(Get(row, l.idCol)), Fields(row, l.fields), l.annex, l.kind, SearchableText(row), Fields(row, l.after));
  }

  /** The lookups of a record laid out as an id, fields without tag names,
      the three tags and the remaining fields. */
  lemma RecordLookups(id: string, f: Entry, a: string, t: string, s: string, rest: Entry)
    requires forall k :: !NotTag(k) ==> k !in Keys(f)
    ensures var d := [("id", id)] + f + [("annex", a), ("type", t), ("searchable_text", s)] + rest;
      Lookup(d, "id") == Some(id) && Lookup(d, "annex") == Some(a) && Lookup(d, "type") == Some(t) && Lookup(d, "searchable_text") == Some(s)
  {
    var head: Entry := [("id", id)];
    var tags: Entry := [("annex", a), ("type", t), ("searchable_text", s)];
    assert head + f + tags + rest == head + f + (tags + rest);
    assert !NotTag("annex") && !NotTag("type") && !NotTag("searchable_text");
    LookupPast(head, f, tags + rest, "annex");
    LookupPast(head, f, tags + rest, "type");
    LookupPast(head, f, tags + rest, "searchable_text");
    TagsLookup(a, t, s, rest);
  }

  lemma TagsLookup(a: string, t: string, s: string, rest: Entry)
    ensures var d := [("annex", a), ("type", t), ("searchable_text", s)] + rest;
      Lookup(d, "annex") == Some(a) && Lookup(d, "type") == Some(t) && Lookup(d, "searchable_text") == Some(s)
  {
    var d := [("annex", a), ("type", t), ("searchable_text", s)] + rest;
    assert d[1..] == [("type", t), ("searchable_text", s)] + rest;
    assert d[1..][1..] == [("searchable_text", s)] + rest;
    assert Lookup(d[1..][1..], "searchable_text") == Some(s);
    assert Lookup(d[1..], "searchable_text") == Some(s);
  }

  lemma FieldsTagsFree(row: Row, l: Layout)
    requires TagsFree(l)
    ensures forall k :: !NotTag(k) ==> k !in Keys(Fields(row, l.fields))
  {
  }

  lemma LookupPast(head: Entry, f: Entry, rest: Entry, k: string)
    requires k !in Keys(head) && k !in Keys(f)
    ensures Lookup(head + f + rest, k) == Lookup(rest, k)
  {
    LookupAppend(head + f, rest, k);
    LookupAppend(head, f, k);
  }

  /** Every record of a layout carries its tags. */
  lemma RecordsTagged(rows: seq<Row>, l: Layout)
    requires TagsFree(l)
    ensures forall r :: r in Records(rows, l) ==> Field(r, "annex") == Some(l.annex) && Field(r, "type") == Some(l.kind)
  {
    RecordsPerRow(rows, l);
    forall r | r in Records(rows, l)
      ensures Field(r, "annex") == Some(l.annex) && Field(r, "type") == Some(l.kind)
    {
      var k :| 0 <= k < |Records(rows, l)| && Records(rows, l)[k] == r;
      RecordTags(Filter(rows, HasIdIn(l.idCol))[k], l);
    }
  }

  // ------------------------------------------------------------ annex layouts

  /** `_parse_annex_2b`: capacity and structural rules. */
  const Layout2B := Layout("ID", [
      ("change_indicator", "Change Ind."), ("valid_from", "Valid From"), ("valid_until", "Valid Until"),
      ("airway", "Airway"), ("from_point", "From"), ("to_point", "To"),
      ("point_or_airspace", "Point or Airspace"), ("utilization", "Utilization"),
      ("time_applicability", "Time Applicability"), ("categorisation", "Categorisation"),
      ("operational_goal", "Operational Goal"), ("remarks", "Remarks"), ("atc_unit", "ATC Unit"),
      ("nas_fab", "NAS/FAB"), ("release_date", "Release Date"), ("special_event", "Special Event and Crisis")],
    "2B", "Capacity & Structural Rule", [])

  /** `_parse_annex_2a`: flight level capping rules. */
  const Layout2A := Layout("ID", [
      ("change_indicator", "Change Ind."), ("valid_from", "Valid From"), ("valid_until", "Valid Until"),
      ("airspace", "Airspace"), ("utilization", "Utilization"), ("time_applicability", "Time Applicability"),
      ("operational_goal", "Operational Goal"), ("remarks", "Remarks"), ("nas_fab", "NAS/FAB"),
      ("release_date", "Release Date")],
    "2A", "Flight Level Capping Rule", [])

  /** `_parse_annex_2c`: FUA traffic flow rules. */
  const Layout2C := Layout("ID", [
      ("change_indicator", "Change Ind."), ("valid_from", "Valid From"), ("valid_until", "Valid Until"),
      ("airspace", "Airspace"), ("utilization", "Utilization"), ("time_applicability", "Time Applicability"),
      ("categorisation", "Categorisation"), ("operational_goal", "Operational Goal"), ("remarks", "Remarks"),
      ("nas_fab", "NAS/FAB"), ("release_date", "Release Date"), ("group_id", "Group ID")],
    "2C", "FUA Traffic Flow Rule", [])

  /** `_parse_annex_1`: area definitions. */
  const Layout1 := Layout("ID", [
      ("change_indicator", "Change Ind."), ("valid_from", "Valid From"), ("valid_until", "Valid Until"),
      ("definition", "Definition"), ("remarks", "Remarks"), ("owner", "Owner"), ("release_date", "Release Date")],
    "1", "Area Definition", [])

  /** The column choices `_parse_annex_3a` makes from the sheet name. */
  datatype Columns3A = Columns3A(
    entryType: string, idCol: string, adCol: Option<string>, timeCol: string,
    goalCol: Option<string>, remarksCol: Option<string>, extras: seq<(string, string)>)

  function Columns3AFor(sheetName: string): Columns3A {
    if Contains(sheetName, "ARR") then
      Columns3A("Arrival", "ARR ID", Some("ARR AD"), "ARR Time Applicability", Some("ARR Operational Goal"), Some("ARR Remarks"),
        [("first_pt_star", "First PT STAR / STAR ID"), ("dct_arr_pt", "DCT ARR PT"), ("arr_fpl_option", "ARR FPL Option")])
    else if Contains(sheetName, "DEP") then
      Columns3A("Departure", "DEP ID", Some("DEP AD"), "DEP Time Applicability", Some("DEP Operational Goal"), Some("DEP Remarks"),
        [("last_pt_sid", "Last PT SID / SID ID"), ("dct_dep_pt", "DCT DEP PT"), ("dep_fpl_options", "DEP FPL Options")])
    else
      Columns3A("Condition", "RAD Application ID", None, "Time Applicability", None, None,
        [("condition", "Condition"), ("explanation", "Explanation")])
  }

  /** `if col: entry[key] = ...` */
  function Optional(key: string, col: Option<string>): seq<(string, string)> {
    if col.Some? then [(key, col.value)] else []
  }

  /** The fields every aerodrome connectivity record starts with. */
  const Base3A: seq<(string, string)> := [
    ("change_indicator", "Change Ind."), ("valid_from", "Valid From"), ("valid_until", "Valid Until"),
    ("nas_fab", "NAS / FAB"), ("release_date", "Release Date"), ("special_event", "Special Event and Crisis")]

  function Layout3A(c: Columns3A): Layout {
    Layout(c.idCol, Base3A, "3A", "Aerodrome Connectivity - " + c.entryType,
      Optional("aerodrome", c.adCol) + [("time_applicability", c.timeCol)]
        + Optional("operational_goal", c.goalCol) + Optional("remarks", c.remarksCol) + c.extras)
  }

  /** `_parse_annex_3a`. */
  method ParseAnnex3A(df: Sheet, sheetName: string) returns (entries: seq<Entry>)
    ensures entries == Records(df.rows, Layout3A(Columns3AFor(sheetName)))
  {
    entries := ParseRows(df.rows, Layout3A(Columns3AFor(sheetName)));
  }

  /** The record type follows the sheet name: Arrival when it names ARR,
      Departure when it names DEP but not ARR, Condition otherwise; and only
      arrival and departure records carry an `aerodrome`. */
  lemma Annex3AKinds(sheetName: string)
    ensures var l := Layout3A(Columns3AFor(sheetName));
      l.annex == "3A" &&
      (Contains(sheetName, "ARR") ==> l.kind == "Aerodrome Connectivity - Arrival") &&
      (!Contains(sheetName, "ARR") && Contains(sheetName, "DEP") ==> l.kind == "Aerodrome Connectivity - Departure") &&
      (!Contains(sheetName, "ARR") && !Contains(sheetName, "DEP") ==> l.kind == "Aerodrome Connectivity - Condition") &&
      ("aerodrome" in Keys(l.after) <==> Contains(sheetName, "ARR") || Contains(sheetName, "DEP")) &&
      "aerodrome" !in Keys(l.fields)
  {
    var c := Columns3AFor(sheetName);
    var l := Layout3A(c);
    if c.adCol.Some? {
      assert Keys(l.after)[0] == "aerodrome";
    } else {
      assert Keys(l.after) == ["time_applicability", "condition", "explanation"];
    }
    assert Keys(Base3A) == ["change_indicator", "valid_from", "valid_until", "nas_fab", "release_date", "special_event"];
  }

  /** The `aerodrome` key of a 3A record is present exactly for arrival and
      departure sheets. */
  lemma AerodromeOnlyForFlights(rows: seq<Row>, sheetName: string, k: nat)
    requires k < |Records(rows, Layout3A(Columns3AFor(sheetName)))|
    ensures "aerodrome" in Keys(Records(rows, Layout3A(Columns3AFor(sheetName)))[k])
      <==> Contains(sheetName, "ARR") || Contains(sheetName, "DEP")
  {
    var l := Layout3A(Columns3AFor(sheetName));
    RecordsPerRow(rows, l);
    AerodromeInRecord(Filter(rows, HasIdIn(l.idCol))[k], sheetName);
  }

  lemma AerodromeInRecord(row: Row, sheetName: string)
    ensures "aerodrome" in Keys(Record(row, Layout3A(Columns3AFor(sheetName))))
      <==> Contains(sheetName, "ARR") || Contains(sheetName, "DEP")
  {
    var l := Layout3A(Columns3AFor(sheetName));
    RecordKeys(row, l);
    AerodromeKey(sheetName);
    InLastPart("aerodrome", ["id"], Keys(l.fields), ["annex", "type", "searchable_text"], Keys(l.after));
  }

  lemma AerodromeKey(sheetName: string)
    ensures var l := Layout3A(Columns3AFor(sheetName));
      ("aerodrome" in Keys(l.after) <==> Contains(sheetName, "ARR") || Contains(sheetName, "DEP")) &&
      "aerodrome" !in Keys(l.fields)
  {
    Annex3AKinds(sheetName);
  }

  lemma InLastPart(x: string, a: seq<string>, b: seq<string>, c: seq<string>, d: seq<string>)
    requires x !in a && x !in b && x !in c
    ensures x in a + b + c + d <==> x in d
  {
  }

  /** The keys of a record: `id`, the layout's fields, the three tags and
      the fields added after them. */
  lemma RecordKeys(row: Row, l: Layout)
    ensures Keys(Record(row, l)) == ["id"] + Keys(l.fields) + ["annex", "type", "searchable_text"] + Keys(l.after)
  {
    var head: Entry := [("id", SafeStr(Get(row, l.idCol)))];
    var tags: Entry := [("annex", l.annex), ("type", l.kind), ("searchable_text", SearchableText(row))];
    assert Record(row, l) == head + Fields(row, l.fields) + tags + Fields(row, l.after);
    KeysAppend4(head, Fields(row, l.fields), tags, Fields(row, l.after));
    assert Keys(head) == ["id"];
    assert Keys(tags) == ["annex", "type", "searchable_text"];
  }

  lemma KeysAppend4(a: Entry, b: Entry, c: Entry, d: Entry)
    ensures Keys(a + b + c + d) == Keys(a) + Keys(b) + Keys(c) + Keys(d)
  {
  }

  // ------------------------------------------------------------ annex 3B

  predicate NotBlankOrNewline(c: char) { c != ' ' && c != '\n' }

  /** `name.lower().replace(' ', '').replace('\n', '')` */
  function NormCol(name: string): string {
    Filter(ToLower(name), NotBlankOrNewline)
  }

  predicate ColumnMatches(col: string, idCol: string) {
    Contains(NormCol(col), NormCol(idCol))
  }

  /** The index of the first column whose normalised name contains the
      normalised target, or the number of columns. */
  function FirstMatching(columns: seq<string>, idCol: string): (k: nat)
    ensures k <= |columns|
    ensures k < |columns| ==> ColumnMatches(columns[k], idCol)
    ensures forall j :: 0 <= j < k ==> !ColumnMatches(columns[j], idCol)
  {
    if columns == [] then 0
    else if ColumnMatches(columns[0], idCol) then 0
    else 1 + FirstMatching(columns[1..], idCol)
  }

  /** The column `_parse_annex_3b` reads IDs from. */
  function IdColumn(columns: seq<string>, idCol: string): (r: Option<string>)
    ensures r.Some? ==> r.value in columns && ColumnMatches(r.value, idCol)
    ensures r.None? <==> forall j :: 0 <= j < |columns| ==> !ColumnMatches(columns[j], idCol)
  {
    var k := FirstMatching(columns, idCol);
    if k < |columns| then Some(columns[k]) else None
  }

  /** The column scan of `_parse_annex_3b`. */
  method FindIdColumn(columns: seq<string>, idCol: string) returns (actual: Option<string>)
    ensures actual == IdColumn(columns, idCol)
  {
    actual := None;
    var i := 0;
    while i < |columns|
      invariant i <= FirstMatching(columns, idCol)
      invariant actual == None
    {
      var colNormalized := NormCol(columns[i]);
      var idNormalized := NormCol(idCol);
      if Contains(colNormalized, idNormalized) {
        assert ColumnMatches(columns[i], idCol);
        actual := Some(columns[i]);
        break;
      }
      NoMatchYet(columns, idCol, i);
      i := i + 1;
    }
    assert actual == (if i < |columns| then Some(columns[i]) else None);
  }

  /** A column that does not match is not yet the first match. */
  lemma NoMatchYet(columns: seq<string>, idCol: string, i: nat)
    requires i < |columns| && i <= FirstMatching(columns, idCol) && !ColumnMatches(columns[i], idCol)
    ensures i < FirstMatching(columns, idCol)
  {
  }

  function Annex3BIdCol(sheetName: string): string {
    if Contains(sheetName, "FRA") then "RAD Application ID" else "ID"
  }

  function Annex3BKind(sheetName: string): string {
    if Contains(sheetName, "FRA") then "FRA Limitation" else "DCT Option"
  }

  function Layout3B(kind: string, idCol: string): Layout {
    Layout(idCol, [
        ("change_indicator", "Change Ind."), ("valid_from", "Valid From"), ("valid_until", "Valid Until"),
        ("from_point", "From"), ("to_point", "To"), ("utilization", "Utilization"),
        ("time_applicability", "Time Applicability"), ("remarks", "Remarks"), ("atc_unit", "ATC Unit"),
        ("nas_fab", "NAS/FAB")],
      "3B", kind, [])
  }

  /** What `_parse_annex_3b` returns: nothing when no column matches. */
  function Annex3BRecords(df: Sheet, sheetName: string): seq<Entry> {
    var actual := IdColumn(df.columns, Annex3BIdCol(sheetName));
    if actual.None? then [] else Records(df.rows, Layout3B(Annex3BKind(sheetName), actual.value))
  }

  /** `_parse_annex_3b`. */
  method ParseAnnex3B(df: Sheet, sheetName: string) returns (entries: seq<Entry>)
    ensures entries == Annex3BRecords(df, sheetName)
  {
    var idCol := Annex3BIdCol(sheetName);
    var actual := FindIdColumn(df.columns, idCol);
    if actual.None? {
      return [];
    }
    entries := ParseRows(df.rows, Layout3B(Annex3BKind(sheetName), actual.value));
  }

  /** The match is by containment, so a "Valid From" column standing first
      is taken for the ID column, whatever follows it: "validfrom"
      contains "id". */
  lemma ValidFromTakenForId(columns: seq<string>)
    requires columns != [] && columns[0] == "Valid From"
    ensures IdColumn(columns, "ID") == Some("Valid From")
  {
    ValidFromMatchesId();
    FirstColumnTaken(columns, "ID");
  }

  lemma ValidFromMatchesId()
    ensures ColumnMatches("Valid From", "ID")
  {
    NormValidFrom();
    NormId();
    ValidFromHasId();
  }

  lemma ValidFromHasId()
    ensures Contains("validfrom", "id")
  {
    var vf, id := "validfrom", "id";
    assert vf[3] == id[0] && vf[4] == id[1];
    OccursByChars(vf, 3, id);
    OccursContains(vf, 3, id);
  }

  /** A text occurs where its characters are found one by one. */
  lemma OccursByChars(s: string, pos: nat, sub: string)
    requires pos + |sub| <= |s| && forall i :: 0 <= i < |sub| ==> s[pos + i] == sub[i]
    ensures OccursAt(s, pos, sub)
  {
    assert forall i :: 0 <= i < |sub| ==> s[pos..pos + |sub|][i] == sub[i];
  }

  /** A first column that matches is the one taken. */
  lemma FirstColumnTaken(columns: seq<string>, idCol: string)
    requires columns != [] && ColumnMatches(columns[0], idCol)
    ensures IdColumn(columns, idCol) == Some(columns[0])
  {
    assert FirstMatching(columns, idCol) == 0;
  }

  lemma NormValidFrom()
    ensures NormCol("Valid From") == "validfrom"
  {
    LowerValidFrom();
    NormTwoWords("Valid From", "valid", "from");
  }

  /** A name that lowers to two lower-case words around a blank normalises
      to the two words run together. */
  lemma NormTwoWords(name: string, a: string, b: string)
    requires ToLower(name) == a + " " + b
    requires forall i :: 0 <= i < |a| ==> IsLower(a[i])
    requires forall i :: 0 <= i < |b| ==> IsLower(b[i])
    ensures NormCol(name) == a + b
  {
    KeptWord(a);
    KeptWord(b);
    assert Filter(" ", NotBlankOrNewline) == [];
    FilterThreeParts(a, " ", b, NotBlankOrNewline);
  }

  lemma KeptWord(w: string)
    requires forall i :: 0 <= i < |w| ==> IsLower(w[i])
    ensures Filter(w, NotBlankOrNewline) == w
  {
    FilterKeepsAll(w, NotBlankOrNewline);
  }

  lemma LowerValidFrom()
    ensures ToLower("Valid From") == "valid" + " " + "from"
  {
    var low := ToLower("Valid From");
    assert low[0] == LowerChar('V') == 'v';
    assert low[6] == LowerChar('F') == 'f';
  }

  lemma FilterThreeParts(a: string, b: string, c: string, p: char -> bool)
    requires Filter(a, p) == a && Filter(c, p) == c && Filter(b, p) == []
    ensures Filter(a + b + c, p) == a + c
  {
    FilterAppend(a + b, c, p);
    FilterAppend(a, b, p);
    assert a + [] == a;
  }

  lemma NormId()
    ensures NormCol("ID") == "id"
  {
    assert ToLower("ID") == "id";
    FilterKeepsAll("id", NotBlankOrNewline);
  }


  // ------------------------------------------------------------ dispatch

  /** `str.replace('\n', ' ')`: every line break becomes a space. */
  function NewlinesToSpaces(name: string): (r: string)
    ensures |r| == |name| && Free(r, '\n')
    ensures Free(name, '\n') ==> r == name
  {
    seq(|name|, i requires 0 <= i < |name| => if name[i] == '\n' then ' ' else name[i])
  }

  /** `df.columns.str.replace('\n', ' ').str.strip()` on one name. */
  function CleanColumn(name: string): (r: string)
    ensures Free(r, '\n')
    ensures r == [] || (!IsPySpace(r[0]) && !IsPySpace(r[|r| - 1]))
  {
    var replaced := NewlinesToSpaces(name);
    StripKeepsFree(replaced, '\n');
    PyStrip(replaced)
  }

  /** Cleaning a cleaned name changes nothing. */
  lemma CleanColumnIdempotent(name: string)
    ensures CleanColumn(CleanColumn(name)) == CleanColumn(name)
  {
    CleanNameKept(CleanColumn(name));
  }

  /** A name with no line break and no surrounding space is already clean. */
  lemma CleanNameKept(c: string)
    requires Free(c, '\n')
    requires c == [] || (!IsPySpace(c[0]) && !IsPySpace(c[|c| - 1]))
    ensures CleanColumn(c) == c
  {
    assert NewlinesToSpaces(c) == c;
    StripStable(c);
  }

  function CleanRow(row: Row): Row {
    seq(|row|, i requires 0 <= i < |row| => (CleanColumn(row[i].0), row[i].1))
  }

  /** The data frame with its column names cleaned. */
  function CleanSheet(df: Sheet): Sheet {
    Sheet(seq(|df.columns|, i requires 0 <= i < |df.columns| => CleanColumn(df.columns[i])),
      seq(|df.rows|, i requires 0 <= i < |df.rows| => CleanRow(df.rows[i])))
  }

  /** What `_parse_sheet` returns for a sheet. */
  function SheetRecords(sheetName: string, df: Sheet): seq<Entry> {
    var d := CleanSheet(df);
    if Contains(sheetName, "Annex 2B") then Records(d.rows, Layout2B)
    else if Contains(sheetName, "Annex 2A") then Records(d.rows, Layout2A)
    else if Contains(sheetName, "Annex 2C") then Records(d.rows, Layout2C)
    else if Contains(sheetName, "Annex 1") then Records(d.rows, Layout1)
    else if Contains(sheetName, "Annex 3A") then Records(d.rows, Layout3A(Columns3AFor(sheetName)))
    else if Contains(sheetName, "Annex 3B") then Annex3BRecords(d, sheetName)
    else []
  }

  /** `_parse_sheet`. */
  method ParseSheet(sheetName: string, df: Sheet) returns (records: seq<Entry>)
    ensures records == SheetRecords(sheetName, df)
  {
    var d := CleanSheet(df);
    if Contains(sheetName, "Annex 2B") {
      records := ParseRows(d.rows, Layout2B);
    } else if Contains(sheetName, "Annex 2A") {
      records := ParseRows(d.rows, Layout2A);
    } else if Contains(sheetName, "Annex 2C") {
      records := ParseRows(d.rows, Layout2C);
    } else if Contains(sheetName, "Annex 1") {
      records := ParseRows(d.rows, Layout1);
    } else if Contains(sheetName, "Annex 3A") {
      records := ParseAnnex3A(d, sheetName);
    } else if Contains(sheetName, "Annex 3B") {
      records := ParseAnnex3B(d, sheetName);
    } else {
      records := [];
    }
  }

  /** The `annex` tag the dispatch gives a sheet, `None` for a sheet it
      does not know. */
  function AnnexTag(sheetName: string): Option<string> {
    if Contains(sheetName, "Annex 2B") then Some("2B")
    else if Contains(sheetName, "Annex 2A") then Some("2A")
    else if Contains(sheetName, "Annex 2C") then Some("2C")
    else if Contains(sheetName, "Annex 1") then Some("1")
    else if Contains(sheetName, "Annex 3A") then Some("3A")
    else if Contains(sheetName, "Annex 3B") then Some("3B")
    else None
  }

  /** A sheet the dispatch does not know gives no records; every record of
      a known sheet carries that sheet's annex tag. */
  lemma SheetRecordsTagged(sheetName: string, df: Sheet)
    ensures AnnexTag(sheetName).None? ==> SheetRecords(sheetName, df) == []
    ensures forall r :: r in SheetRecords(sheetName, df) ==> Field(r, "annex") == AnnexTag(sheetName)
  {
    var d := CleanSheet(df);
    if Contains(sheetName, "Annex 2B") {
      TagsFree2B();
      RecordsTagged(d.rows, Layout2B);
    } else if Contains(sheetName, "Annex 2A") {
      TagsFree2A();
      RecordsTagged(d.rows, Layout2A);
    } else if Contains(sheetName, "Annex 2C") {
      TagsFree2C();
      RecordsTagged(d.rows, Layout2C);
    } else if Contains(sheetName, "Annex 1") {
      TagsFree1();
      RecordsTagged(d.rows, Layout1);
    } else if Contains(sheetName, "Annex 3A") {
      TagsFree3A(sheetName);
      RecordsTagged(d.rows, Layout3A(Columns3AFor(sheetName)));
    } else if Contains(sheetName, "Annex 3B") {
      var actual := IdColumn(d.columns, Annex3BIdCol(sheetName));
      if actual.Some? {
        TagsFree3B(Annex3BKind(sheetName), actual.value);
        RecordsTagged(d.rows, Layout3B(Annex3BKind(sheetName), actual.value));
      }
    }
  }

  lemma TagsFree2B() ensures TagsFree(Layout2B) {}
  lemma TagsFree2A() ensures TagsFree(Layout2A) {}
  lemma TagsFree2C() ensures TagsFree(Layout2C) {}
  lemma TagsFree1() ensures TagsFree(Layout1) {}
  lemma TagsFree3A(sheetName: string) ensures TagsFree(Layout3A(Columns3AFor(sheetName))) {}
  lemma TagsFree3B(kind: string, idCol: string) ensures TagsFree(Layout3B(kind, idCol)) {}

  // ------------------------------------------------------------ metadata

  predicate AllDigits(s: string) { forall i :: 0 <= i < |s| ==> IsDigit(s[i]) }

  /** The groups of `RAD_(\d{4})_v(\d+)_(\d+)`. */
  datatype VersionMatch = VersionMatch(cycle: string, major: string, minor: string)

  /** The groups of a match of the file-name pattern starting at `i`: the
      `\d+` groups are greedy, and backing off cannot help the first one,
      whose next character must be `_`. */
  function VersionAt(s: string, i: nat): (m: Option<VersionMatch>)
    ensures m.Some? ==> OccursAt(s, i, "RAD_")
    ensures m.Some? ==> |m.value.cycle| == 4 && AllDigits(m.value.cycle)
    ensures m.Some? ==> m.value.major != "" && AllDigits(m.value.major) && m.value.minor != "" && AllDigits(m.value.minor)
  {
    if !OccursAt(s, i, "RAD_") || i + 10 > |s| then None
    else if !AllDigits(s[i + 4..i + 8]) || s[i + 8..i + 10] != "_v" then None
    else
      var n1 := RunLength(s, i + 10, IsDigit);
      var j := i + 10 + n1;
      if n1 == 0 || j >= |s| || s[j] != '_' then None
      else
        var n2 := RunLength(s, j + 1, IsDigit);
        if n2 == 0 then None
        else Some(VersionMatch(s[i + 4..i + 8], s[i + 10..j], s[j + 1..j + 1 + n2]))
  }

  /** The metadata `_extract_metadata` records for a file name: the cycle
      and version of the leftmost match, or 'unknown' and '0.0'. */
  function MetadataFor(fileName: string, now: string): (r: Dict<string, string>)
    ensures Keys(r) == ["cycle", "version", "filename", "parsed_at"]
    ensures r[2].1 == fileName && r[3].1 == now
    ensures r[0].1 == "unknown" <==> forall j :: 0 <= j <= |fileName| ==> VersionAt(fileName, j).None?
    ensures r[0].1 == "unknown" ==> r[1].1 == "0.0"
    ensures r[0].1 != ""
    ensures forall k :: FirstVersionAt(fileName, k) ==>
      r[0].1 == VersionAt(fileName, k).value.cycle && r[1].1 == VersionAt(fileName, k).value.major + "." + VersionAt(fileName, k).value.minor
  {
    var k := Leftmost(fileName, 0, VersionsIn(fileName));
    assert forall k' :: FirstVersionAt(fileName, k') ==> k' == k by {
      forall k' | FirstVersionAt(fileName, k') ensures k' == k {
        FirstVersionIsLeftmost(fileName, k');
      }
    }
    if k <= |fileName| then
      var m := VersionsIn(fileName)(k).value;
      [("cycle", m.cycle), ("version", m.major + "." + m.minor), ("filename", fileName), ("parsed_at", now)]
    else
      assert forall j :: 0 <= j <= |fileName| ==> VersionsIn(fileName)(j) == VersionAt(fileName, j);
      [("cycle", "unknown"), ("version", "0.0"), ("filename", fileName), ("parsed_at", now)]
  }

  function VersionsIn(s: string): nat -> Option<VersionMatch> {
    (j: nat) => VersionAt(s, j)
  }

  /** `re.search` finds its match at `k`: the pattern matches there and at
      no earlier position. */
  predicate FirstVersionAt(s: string, k: nat) {
    k <= |s| && VersionAt(s, k).Some? && forall j :: 0 <= j < k ==> VersionAt(s, j).None?
  }

  lemma FirstVersionIsLeftmost(s: string, k: nat)
    requires FirstVersionAt(s, k)
    ensures Leftmost(s, 0, VersionsIn(s)) == k
  {
    LeftmostUnique(s, 0, VersionsIn(s), k);
  }

  /** A name holding `RAD_<cycle>_v<major>_<minor>`, followed by anything
      that does not continue the minor number and preceded by text with no
      earlier `RAD_`, gives back that cycle and version. */
  lemma MetadataRoundTrip(prefix: string, cycle: string, major: string, minor: string, rest: string, now: string)
    requires forall j :: 0 <= j < |prefix| ==> !OccursAt(prefix + "RAD_", j, "RAD_")
    requires |cycle| == 4 && AllDigits(cycle)
    requires major != "" && AllDigits(major) && minor != "" && AllDigits(minor)
    requires rest == [] || !IsDigit(rest[0])
    ensures var r := MetadataFor(prefix + "RAD_" + cycle + "_v" + major + "_" + minor + rest, now);
      r[0].1 == cycle && r[1].1 == major + "." + minor
  {
    var s := prefix + "RAD_" + cycle + "_v" + major + "_" + minor + rest;
    VersionAtName(s, prefix, cycle, major, minor, rest);
    NoEarlierVersion(s, prefix);
    assert FirstVersionAt(s, |prefix|);
  }

  /** No match starts inside a prefix that holds no `RAD_` of its own. */
  lemma NoEarlierVersion(s: string, prefix: string)
    requires prefix + "RAD_" <= s
    requires forall j :: 0 <= j < |prefix| ==> !OccursAt(prefix + "RAD_", j, "RAD_")
    ensures forall j :: 0 <= j < |prefix| ==> VersionAt(s, j).None?
  {
    var t := prefix + "RAD_";
    forall j | 0 <= j < |prefix| ensures !OccursAt(s, j, "RAD_") {
      assert !OccursAt(t, j, "RAD_") && j + 4 <= |t|;
      assert s[..|t|] == t;
      assert s[j..j + 4] == t[j..j + 4];
    }
  }

  lemma VersionAtName(s: string, prefix: string, cycle: string, major: string, minor: string, rest: string)
    requires s == prefix + "RAD_" + cycle + "_v" + major + "_" + minor + rest
    requires |cycle| == 4 && AllDigits(cycle)
    requires major != "" && AllDigits(major) && minor != "" && AllDigits(minor)
    requires rest == [] || !IsDigit(rest[0])
    ensures prefix + "RAD_" <= s && VersionAt(s, |prefix|) == Some(VersionMatch(cycle, major, minor))
  {
    NameParts(s, |prefix|, prefix, cycle, major, minor, rest);
    VersionFromParts(s, |prefix|, cycle, major, minor, rest);
  }

  /** The match at `i` of a name whose parts sit where `NameParts` says. */
  lemma VersionFromParts(s: string, i: nat, cycle: string, major: string, minor: string, rest: string)
    requires AllDigits(cycle) && major != "" && AllDigits(major) && minor != "" && AllDigits(minor)
    requires rest == [] || !IsDigit(rest[0])
    requires |s| == i + 11 + |major| + |minor| + |rest|
    requires OccursAt(s, i, "RAD_") && s[i + 4..i + 8] == cycle && s[i + 8..i + 10] == "_v"
    requires s[i + 10..i + 10 + |major|] == major && s[i + 10 + |major|] == '_'
    requires s[i + 11 + |major|..i + 11 + |major| + |minor|] == minor
    requires s[i + 11 + |major| + |minor|..] == rest
    ensures VersionAt(s, i) == Some(VersionMatch(cycle, major, minor))
  {
    var j := i + 10 + |major|;
    DigitRun(s, i + 10, major, '_');
    if rest != [] {
      assert s[j + 1 + |minor|] == rest[0];
    }
    DigitRun(s, j + 1, minor, if rest == [] then '_' else rest[0]);
    VersionAtParts(s, i, |major|, |minor|);
  }

  /** Where each part of a file name sits in it. */
  lemma NameParts(s: string, i: nat, prefix: string, cycle: string, major: string, minor: string, rest: string)
    requires |cycle| == 4 && i == |prefix|
    requires s == prefix + "RAD_" + cycle + "_v" + major + "_" + minor + rest
    ensures prefix + "RAD_" <= s
    ensures |s| == i + 11 + |major| + |minor| + |rest|
    ensures OccursAt(s, i, "RAD_") && s[i + 4..i + 8] == cycle && s[i + 8..i + 10] == "_v"
    ensures s[i + 10..i + 10 + |major|] == major && s[i + 10 + |major|] == '_'
    ensures s[i + 11 + |major|..i + 11 + |major| + |minor|] == minor
    ensures s[i + 11 + |major| + |minor|..] == rest
  {
    assert s[..i + 4] == prefix + "RAD_";
    assert s[i..i + 4] == "RAD_";
  }

  /** A run of digits followed by `after`, a non-digit, or by the end. */
  lemma DigitRun(s: string, i: nat, t: string, after: char)
    requires i + |t| <= |s| && s[i..i + |t|] == t && AllDigits(t)
    requires i + |t| == |s| || (s[i + |t|] == after && !IsDigit(after))
    ensures RunLength(s, i, IsDigit) == |t|
  {
    assert forall k :: i <= k < i + |t| ==> s[k] == t[k - i];
    RunExactly(s, i, |t|, IsDigit);
  }

  /** The match at `i`, from its parts. */
  lemma VersionAtParts(s: string, i: nat, n1: nat, n2: nat)
    requires OccursAt(s, i, "RAD_") && i + 10 + n1 < |s| && AllDigits(s[i + 4..i + 8]) && s[i + 8..i + 10] == "_v"
    requires n1 > 0 && RunLength(s, i + 10, IsDigit) == n1 && s[i + 10 + n1] == '_'
    requires n2 > 0 && RunLength(s, i + 11 + n1, IsDigit) == n2
    ensures VersionAt(s, i) == Some(VersionMatch(s[i + 4..i + 8], s[i + 10..i + 10 + n1], s[i + 11 + n1..i + 11 + n1 + n2]))
  {
  }

  /** A file name with no match of the pattern is recorded as cycle
      'unknown', version '0.0'. */
  lemma MetadataUnknown(fileName: string, now: string)
    requires !Contains(fileName, "RAD_")
    ensures var r := MetadataFor(fileName, now); r[0].1 == "unknown" && r[1].1 == "0.0"
  {
    forall j | 0 <= j <= |fileName| ensures VersionAt(fileName, j).None? {
      if VersionAt(fileName, j).Some? {
        OccursContains(fileName, j, "RAD_");
      }
    }
  }

  // ------------------------------------------------------------ the parser

  /** `SHEET_MAPPING`: workbook sheet to annex key, in parsing order. */
  const SheetMapping: seq<(string, string)> := [
    ("Annex 1", "annex1_areas"), ("Annex 2A", "annex2a_capping"), ("Annex 2B", "annex2b_rules"),
    ("Annex 2C", "annex2c_fua"), ("Annex 3A Conditions", "annex3a_conditions"),
    ("Annex 3A ARR", "annex3a_arrivals"), ("Annex 3A DEP", "annex3a_departures"),
    ("Annex 3B DCT", "annex3b_dct"), ("Annex 3B FRA LIM", "annex3b_fra")]

  /** The annex keys of the mapping, in order. */
  const MappingKeys: seq<string> := [
    "annex1_areas", "annex2a_capping", "annex2b_rules", "annex2c_fua", "annex3a_conditions",
    "annex3a_arrivals", "annex3a_departures", "annex3b_dct", "annex3b_fra"]

  lemma MappingKeysDistinct()
    ensures |MappingKeys| == |SheetMapping| && Distinct(MappingKeys)
    ensures forall i :: 0 <= i < |SheetMapping| ==> MappingKeys[i] == SheetMapping[i].1
  {
  }

  /** The records of one mapped sheet; a sheet the workbook does not have
      (`read_excel` raising) gives none. */
  function SheetResult(workbook: map<string, Sheet>, sheetName: string): seq<Entry> {
    if sheetName in workbook then SheetRecords(sheetName, workbook[sheetName]) else []
  }

  /** The `annexes` object `parse` leaves: one list per mapped sheet, in
      mapping order. */
  function ParsedAnnexes(workbook: map<string, Sheet>): (a: Annexes)
    ensures Keys(a) == MappingKeys
    ensures forall i :: 0 <= i < |a| ==> a[i].1.List?
  {
    var a := seq(|SheetMapping|, i requires 0 <= i < |SheetMapping| => (SheetMapping[i].1, List(SheetResult(workbook, SheetMapping[i].0))));
    MappingKeysDistinct();
    assert forall i :: 0 <= i < |a| ==> Keys(a)[i] == MappingKeys[i];
    a
  }

  /** `{key: len(val) if isinstance(val, list) else 0 ...}` */
  function AnnexCounts(a: Annexes): (d: Dict<string, int>)
    ensures Keys(d) == Keys(a)
  {
    seq(|a|, i requires 0 <= i < |a| => (a[i].0, if a[i].1.List? then |a[i].1.entries| else 0))
  }

  /** The sum of a dictionary's counts. */
  function SumCounts(d: Dict<string, int>): int {
    if d == [] then 0 else SumCounts(d[..|d| - 1]) + d[|d| - 1].1
  }

  /** The `stats` object `parse` leaves. */
  function ParsedStats(workbook: map<string, Sheet>, now: string): Stats {
    var a := ParsedAnnexes(workbook);
    Stats(Some(ListedCount(a)), Some(now), Some(AnnexCounts(a)))
  }

  /** The `by_annex` counts add up to the number of listed records. */
  lemma {:induction false} CountsSumToTotal(a: Annexes)
    ensures SumCounts(AnnexCounts(a)) == ListedCount(a)
  {
    if a != [] {
      var init := a[..|a| - 1];
      assert AnnexCounts(a)[..|a| - 1] == AnnexCounts(init);
      CountsSumToTotal(init);
    }
  }

  /** `stats.total_entries` is the sum of `stats.by_annex`. */
  lemma ParsedTotalsAgree(workbook: map<string, Sheet>, now: string)
    ensures ParsedStats(workbook, now).totalEntries == Some(SumCounts(ParsedStats(workbook, now).byAnnex.value))
  {
    CountsSumToTotal(ParsedAnnexes(workbook));
  }

  /** A sheet missing from the workbook leaves its annex an empty list. */
  lemma MissingSheetIsEmpty(workbook: map<string, Sheet>, i: nat)
    requires i < |SheetMapping| && SheetMapping[i].0 !in workbook
    ensures ParsedAnnexes(workbook)[i] == (MappingKeys[i], List([]))
  {
  }

  /** The annex list after the first `i` sheets of the mapping have been
      parsed over `old`: the new lists, then what was left of `old`. */
  function Drop<T>(s: seq<T>, i: nat): seq<T> {
    if i <= |s| then s[i..] else []
  }

  class RADParser {
    /** `excel_path.name`. */
    const fileName: string
    var data: Document

    /** The annexes are an object whose keys follow the sheet mapping. */
    ghost predicate Valid()
      reads this
    {
      data.annexes.Some? && Keys(data.annexes.value) <= MappingKeys
    }

    constructor(fileName: string)
      ensures this.fileName == fileName
      ensures data == Document(Some([]), Some([]), Some(Stats(None, None, None)))
      ensures Valid()
    {
      this.fileName := fileName;
      data := Document(Some([]), Some([]), Some(Stats(None, None, None)));
    }

    /** `_extract_metadata`, with the clock reading as a parameter. */
    method ExtractMetadata(now: string)
      modifies this
      ensures data == old(data).(metadata := Some(MetadataFor(fileName, now)))
    {
      data := data.(metadata := Some(MetadataFor(fileName, now)));
    }

    /** `parse`: every mapped sheet of `workbook` becomes its annex list,
        then the statistics are recorded. */
    method Parse(workbook: map<string, Sheet>, metadataTime: string, statsTime: string) returns (result: Document)
      requires Valid()
      modifies this
      ensures Valid()
      ensures result == data
      ensures data.metadata == Some(MetadataFor(fileName, metadataTime))
      ensures data.annexes == Some(ParsedAnnexes(workbook))
      ensures data.stats == Some(ParsedStats(workbook, statsTime))
    {
      ExtractMetadata(metadataTime);
      MappingKeysDistinct();
      ghost var start := data.annexes.value;
      ghost var parsedAll := ParsedAnnexes(workbook);
      var totalEntries := 0;
      assert parsedAll[..0] + Drop(start, 0) == start;
      for i := 0 to |SheetMapping|
        invariant data.metadata == Some(MetadataFor(fileName, metadataTime))
        invariant data.annexes == Some(parsedAll[..i] + Drop(start, i))
        invariant totalEntries == ListedCount(parsedAll[..i])
      {
        var jsonKey, parsedData := ParseMapped(workbook, i);
        ParseStep(start, parsedAll, i, data.annexes.value, totalEntries);
        data := data.(annexes := Some(Put(data.annexes.value, jsonKey, List(parsedData))));
        totalEntries := totalEntries + |parsedData|;
      }
      assert |start| <= |MappingKeys|;
      assert parsedAll[..|SheetMapping|] == parsedAll;
      assert parsedAll[..|SheetMapping|] + Drop(start, |SheetMapping|) == parsedAll;
      data := data.(stats := Some(Stats(Some(totalEntries), Some(statsTime), Some(AnnexCounts(data.annexes.value)))));
      result := data;
    }
  }

  /** One pass of `parse`'s loop: the `i`-th mapped sheet's records, or
      none when the workbook lacks that sheet, under its JSON key. */
  method ParseMapped(workbook: map<string, Sheet>, i: nat) returns (jsonKey: string, parsedData: seq<Entry>)
    requires i < |SheetMapping|
    ensures jsonKey == MappingKeys[i]
    ensures ParsedAnnexes(workbook)[i] == (jsonKey, List(parsedData))
  {
    var sheetName := SheetMapping[i].0;
    jsonKey := SheetMapping[i].1;
    if sheetName in workbook {
      parsedData := ParseSheet(sheetName, workbook[sheetName]);
    } else {
      parsedData := [];
    }
    MappingKeysDistinct();
  }

  /** Storing the `i`-th mapped sheet's list: the key either stands at
      index `i` already and is replaced there, or is new and appended; the
      running total grows by the list's length. */
  lemma ParseStep(start: Annexes, parsedAll: Annexes, i: nat, annexes: Annexes, total: int)
    requires Keys(start) <= MappingKeys && Keys(parsedAll) == MappingKeys && i < |MappingKeys|
    requires Distinct(MappingKeys) && parsedAll[i].1.List?
    requires annexes == parsedAll[..i] + Drop(start, i)
    requires total == ListedCount(parsedAll[..i])
    ensures Put(annexes, MappingKeys[i], parsedAll[i].1) == parsedAll[..i + 1] + Drop(start, i + 1)
    ensures total + |parsedAll[i].1.entries| == ListedCount(parsedAll[..i + 1])
  {
    PutStep(start, parsedAll, i);
    ListedCountAppend(parsedAll[..i], [parsedAll[i]]);
    assert parsedAll[..i + 1] == parsedAll[..i] + [parsedAll[i]];
    assert ListedCount([parsedAll[i]]) == |parsedAll[i].1.entries| by {
      assert [parsedAll[i]][..0] == [];
    }
  }

  lemma PutStep(start: Annexes, parsedAll: Annexes, i: nat)
    requires Keys(start) <= MappingKeys && Keys(parsedAll) == MappingKeys && i < |MappingKeys|
    requires Distinct(MappingKeys)
    ensures Put(parsedAll[..i] + Drop(start, i), MappingKeys[i], parsedAll[i].1) == parsedAll[..i + 1] + Drop(start, i + 1)
  {
    PutInOrder(start, parsedAll, MappingKeys, i);
  }

  /** Putting the i-th key of a fixed key order into a dictionary whose
      first i entries are already done replaces the slot the key has, or
      appends it. */
  lemma PutInOrder(start: Annexes, parsedAll: Annexes, keys: seq<string>, i: nat)
    requires Keys(start) <= keys && Keys(parsedAll) == keys && i < |keys| && Distinct(keys)
    ensures Put(parsedAll[..i] + Drop(start, i), keys[i], parsedAll[i].1) == parsedAll[..i + 1] + Drop(start, i + 1)
  {
    var d := parsedAll[..i] + Drop(start, i);
    assert forall j :: 0 <= j < i ==> d[j].0 != keys[i] && parsedAll[j].0 != keys[i] by {
      forall j | 0 <= j < i
        ensures d[j].0 != keys[i] && parsedAll[j].0 != keys[i]
      {
        assert d[j] == parsedAll[j] && Keys(parsedAll)[j] == keys[j];
      }
    }
    assert parsedAll[i] == (keys[i], parsedAll[i].1) by {
      assert Keys(parsedAll)[i] == keys[i];
    }
    if i < |start| {
      PutInSlot(start, parsedAll, keys, i);
    } else {
      PutPastStart(start, parsedAll, i);
    }
  }

  /** The key already has slot `i`, taken over from `start`. */
  lemma PutInSlot(start: Annexes, parsedAll: Annexes, keys: seq<string>, i: nat)
    requires Keys(start) <= keys && Keys(parsedAll) == keys && i < |keys| && i < |start|
    requires forall j :: 0 <= j < i ==> (parsedAll[..i] + Drop(start, i))[j].0 != keys[i]
    requires parsedAll[i] == (keys[i], parsedAll[i].1)
    ensures Put(parsedAll[..i] + Drop(start, i), keys[i], parsedAll[i].1) == parsedAll[..i + 1] + Drop(start, i + 1)
  {
    var d := parsedAll[..i] + Drop(start, i);
    assert d[i].0 == keys[i] by {
      assert d[i] == start[i] && Keys(start)[i] == keys[i];
    }
    PutAt(d, i, keys[i], parsedAll[i].1);
    SpliceSlot(parsedAll, start, i);
  }

  /** Past the end of `start` the key is new and lands at index `i`. */
  lemma PutPastStart(start: Annexes, parsedAll: Annexes, i: nat)
    requires i < |parsedAll| && |start| <= i
    requires forall j :: 0 <= j < i ==> parsedAll[j].0 != parsedAll[i].0
    ensures Put(parsedAll[..i] + Drop(start, i), parsedAll[i].0, parsedAll[i].1) == parsedAll[..i + 1] + Drop(start, i + 1)
  {
    var d := parsedAll[..i];
    assert parsedAll[..i] + Drop(start, i) == d;
    assert parsedAll[..i + 1] + Drop(start, i + 1) == d + [parsedAll[i]];
    assert parsedAll[i].0 !in Keys(d);
    PutNew(d, parsedAll[i].0, parsedAll[i].1);
  }

  /** Overwriting slot i of the spliced dictionary moves the boundary by one. */
  lemma SpliceSlot(parsedAll: Annexes, start: Annexes, i: nat)
    requires i < |parsedAll| && i < |start|
    ensures (parsedAll[..i] + Drop(start, i))[i := parsedAll[i]] == parsedAll[..i + 1] + Drop(start, i + 1)
  {
    var l := (parsedAll[..i] + Drop(start, i))[i := parsedAll[i]];
    var r := parsedAll[..i + 1] + Drop(start, i + 1);
    assert |l| == |r|;
    forall j | 0 <= j < |l|
      ensures l[j] == r[j]
    {
      if j > i {
        assert l[j] == start[j];
      }
    }
  }
}

/** The RAD dataset as the Python scripts write it and the front end reads
    it: records grouped into annex lists, with metadata and statistics
    alongside; and the generic JSON value the validator inspects. */
module RadData {
  import opened Wrappers
  import opened Seqs

  /** One record of an annex: a JSON object whose values are strings, with
      its keys in insertion order. */
  type Entry = Dict<string, string>

  /** `entry.f`; `None` is JavaScript's `undefined`. */
  function Field(e: Entry, f: string): Option<string> {
    Lookup(e, f)
  }

  /** JavaScript truthiness of `entry.f`: present and not the empty string. */
  predicate Truthy(e: Entry, f: string) {
    Field(e, f).Some? && Field(e, f).value != ""
  }

  /** `entry.f || dflt`. */
  function OrElse(e: Entry, f: string, dflt: string): string {
    if Truthy(e, f) then Field(e, f).value else dflt
  }

  /** `${entry.f}` inside a template literal. */
  function Interp(e: Entry, f: string): string {
    Field(e, f).GetOr("undefined")
  }

  /** A JSON value (numbers restricted to integers). */
  datatype Json =
    | JNull
    | JBool(b: bool)
    | JNum(n: int)
    | JStr(s: string)
    | JList(items: seq<Json>)
    | JObject(fields: Dict<string, Json>)

  /** The value stored under one annex key: normally a list of records;
      anything else is kept as the JSON value it is. */
  datatype Section = List(entries: seq<Entry>) | Other(value: Json)

  /** The `annexes` object: annex key to section, in insertion order. */
  type Annexes = Dict<string, Section>

  /** The `stats` object; each key may be absent. */
  datatype Stats = Stats(totalEntries: Option<int>, parsedAt: Option<string>, byAnnex: Option<Dict<string, int>>)

  /** The whole document; each top-level key may be absent. */
  datatype Document = Document(metadata: Option<Dict<string, string>>, annexes: Option<Annexes>, stats: Option<Stats>)

  /** The records of every list-valued annex, concatenated in annex order;
      other values are skipped. */
  function Flatten(a: Annexes): (r: seq<Entry>)
    ensures |r| == ListedCount(a)
    ensures forall e :: e in r <==> exists i :: 0 <= i < |a| && a[i].1.List? && e in a[i].1.entries
  {
    if a == [] then []
    else
      var init, last := a[..|a| - 1], a[|a| - 1];
      var r := Flatten(init) + (if last.1.List? then last.1.entries else []);
      assert forall i :: 0 <= i < |init| ==> init[i] == a[i];
      r
  }

  /** The sum of the lengths of the list-valued annexes. */
  function ListedCount(a: Annexes): nat {
    if a == [] then 0
    else ListedCount(a[..|a| - 1]) + (if a[|a| - 1].1.List? then |a[|a| - 1].1.entries| else 0)
  }

  lemma {:induction false} ListedCountAppend(a: Annexes, b: Annexes)
    ensures ListedCount(a + b) == ListedCount(a) + ListedCount(b)
    decreases |b|
  {
    if b == [] {
      assert a + b == a;
    } else {
      assert (a + b)[..|a + b| - 1] == a + b[..|b| - 1];
      ListedCountAppend(a, b[..|b| - 1]);
    }
  }

  // ------------------------------------------------------------ to JSON

  function EntryJson(e: Entry): (j: Json)
    ensures j.JObject? && Keys(j.fields) == Keys(e)
  {
    JObject(seq(|e|, i requires 0 <= i < |e| => (e[i].0, JStr(e[i].1))))
  }

  function SectionJson(s: Section): Json {
    match s
    case List(es) => JList(seq(|es|, i requires 0 <= i < |es| => EntryJson(es[i])))
    case Other(v) => v
  }

  function AnnexesJson(a: Annexes): (j: Json)
    ensures j.JObject? && Keys(j.fields) == Keys(a)
  {
    JObject(seq(|a|, i requires 0 <= i < |a| => (a[i].0, SectionJson(a[i].1))))
  }

  function IntDictJson(d: Dict<string, int>): Json {
    JObject(seq(|d|, i requires 0 <= i < |d| => (d[i].0, JNum(d[i].1))))
  }

  function StrDictJson(d: Dict<string, string>): Json {
    JObject(seq(|d|, i requires 0 <= i < |d| => (d[i].0, JStr(d[i].1))))
  }

  function Present(k: string, v: Option<Json>): Dict<string, Json> {
    if v.Some? then [(k, v.value)] else []
  }

  function StatsJson(s: Stats): Json {
    JObject(
      Present("total_entries", if s.totalEntries.Some? then Some(JNum(s.totalEntries.value)) else None) +
      Present("parsed_at", if s.parsedAt.Some? then Some(JStr(s.parsedAt.value)) else None) +
      Present("by_annex", if s.byAnnex.Some? then Some(IntDictJson(s.byAnnex.value)) else None))
  }

  /** The JSON text `json.dump` writes for a document, as a value. */
  function DocumentJson(d: Document): Json {
    JObject(
      Present("metadata", if d.metadata.Some? then Some(StrDictJson(d.metadata.value)) else None) +
      Present("annexes", if d.annexes.Some? then Some(AnnexesJson(d.annexes.value)) else None) +
      Present("stats", if d.stats.Some? then Some(StatsJson(d.stats.value)) else None))
  }
}

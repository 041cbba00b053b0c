/** What `RADSearchEngine.getStats` computes, as functions of the flattened
    entry list: one counter keyed by normalised annex, one by country token
    of `nas_fab`, one by upper-cased change status. The engine's loop is
    proved against `StatsOf`. */
module EngineStats {
  import opened Wrappers
  import opened Text
  import opened Seqs
  import opened RadData

  // ------------------------------------------------------------ annex key

  predicate IsKeyChar(c: char) { IsLower(c) || IsDigit(c) }

  /** `annex${(entry.annex || 'unknown').toLowerCase().replace(/[^a-z0-9]/g, '')}_` */
  function AnnexKey(e: Entry): (k: string)
    ensures |k| >= 6 && k[..5] == "annex" && k[|k| - 1] == '_'
    ensures forall i :: 5 <= i < |k| - 1 ==> IsKeyChar(k[i])
  {
    "annex" + Filter(ToLower(OrElse(e, "annex", "unknown")), IsKeyChar) + "_"
  }

  /** Annex values that differ only in letter case share one counter. */
  lemma AnnexKeyNormalises(e: Entry, f: Entry)
    requires Truthy(e, "annex") && Truthy(f, "annex")
    requires ToLower(Field(e, "annex").value) == ToLower(Field(f, "annex").value)
    ensures AnnexKey(e) == AnnexKey(f)
  {
  }

  /** Annex "3A" is counted under "annex3a_". */
  lemma AnnexKeyExample()
    ensures AnnexKey([("annex", "3A")]) == "annex3a_"
  {
    var e: Entry := [("annex", "3A")];
    assert Lookup(e, "annex") == Some("3A");
    assert ToLower("3A") == "3a";
    FilterKeepsAll("3a", IsKeyChar);
  }

  /** A missing or empty annex is counted under "annexunknown_". */
  lemma AnnexKeyUnknown(e: Entry)
    requires !Truthy(e, "annex")
    ensures AnnexKey(e) == "annex" + "unknown" + "_"
  {
    var u := OrElse(e, "annex", "unknown");
    assert u == "unknown";
    KeyCharsKept(u);
    assert AnnexKey(e) == "annex" + u + "_";
  }

  /** A value made of key characters is its own key part. */
  lemma KeyCharsKept(s: string)
    requires forall i :: 0 <= i < |s| ==> IsKeyChar(s[i])
    ensures Filter(ToLower(s), IsKeyChar) == s
  {
    assert ToLower(s) == s;
    FilterKeepsAll(s, IsKeyChar);
  }


  // ------------------------------------------------------------ status key

  /** `entry.change_indicator?.toUpperCase() || 'ACTIVE'` */
  function StatusKey(e: Entry): (k: string)
    ensures k != ""
    ensures forall i :: 0 <= i < |k| ==> !IsLower(k[i])
  {
    if Truthy(e, "change_indicator") then ToUpper(Field(e, "change_indicator").value) else "ACTIVE"
  }

  // ------------------------------------------------------------ countries

  /** The characters of `/[,\s]+/`. */
  predicate IsCountrySep(c: char) { c == ',' || IsJsSpace(c) }

  predicate IsTokenChar(c: char) { !IsCountrySep(c) }

  /** The length of the run of characters satisfying `p` at the start of `s`. */
  function LeadingRun(s: string, p: char -> bool): (n: nat)
    ensures n <= |s|
    ensures forall i :: 0 <= i < n ==> p(s[i])
    ensures n == |s| || !p(s[n])
  {
    if s == [] || !p(s[0]) then 0 else 1 + LeadingRun(s[1..], p)
  }

  predicate TokenFree(p: string) { forall i :: 0 <= i < |p| ==> IsTokenChar(p[i]) }

  /** JavaScript `s.split(/[,\s]+/)`: the pieces between maximal runs of
      separators; the first and the last piece may be empty. */
  function SepSplit(s: string): (r: seq<string>)
    ensures |r| >= 1
    ensures forall k :: 0 <= k < |r| ==> TokenFree(r[k])
    decreases |s|
  {
    var n := LeadingRun(s, IsTokenChar);
    if n == |s| then [s]
    else
      var m := LeadingRun(s[n..], IsCountrySep);
      [s[..n]] + SepSplit(s[n + m..])
  }

  /** `c.trim()` of every piece whose trim is not empty, in order. */
  function NonBlankTrimmed(ps: seq<string>): seq<string> {
    if ps == [] then []
    else
      var t := JsTrim(ps[|ps| - 1]);
      NonBlankTrimmed(ps[..|ps| - 1]) + (if t != "" then [t] else [])
  }

  /** The keys `getStats` counts for one entry's `nas_fab`. */
  function CountryKeys(e: Entry): seq<string> {
    if Truthy(e, "nas_fab") then NonBlankTrimmed(SepSplit(Field(e, "nas_fab").value)) else []
  }

  /** The concatenation of a sequence of strings. */
  function Concat(ps: seq<string>): string {
    if ps == [] then "" else Concat(ps[..|ps| - 1]) + ps[|ps| - 1]
  }

  lemma {:induction false} ConcatCons(p: string, ps: seq<string>)
    ensures Concat([p] + ps) == p + Concat(ps)
    decreases |ps|
  {
    if ps != [] {
      var init := ps[..|ps| - 1];
      assert ([p] + ps)[..|ps|] == [p] + init;
      ConcatCons(p, init);
    }
  }

  /** The country keys of a `nas_fab` value are its maximal runs of
      characters other than commas and whitespace: each key is non-empty and
      free of separators, and together they spell out every other character
      of the value, in order. */
  lemma CountryKeysAreTokens(s: string)
    ensures forall k :: 0 <= k < |NonBlankTrimmed(SepSplit(s))| ==>
      NonBlankTrimmed(SepSplit(s))[k] != "" && forall i :: 0 <= i < |NonBlankTrimmed(SepSplit(s))[k]| ==> IsTokenChar(NonBlankTrimmed(SepSplit(s))[k][i])
    ensures Concat(NonBlankTrimmed(SepSplit(s))) == Filter(s, IsTokenChar)
  {
    var ps := SepSplit(s);
    PiecesTrimmed(ps);
    SepSplitConcat(s);
  }


  /** On separator-free pieces, trimming changes nothing and dropping the
      blank ones keeps their concatenation. */
  lemma {:induction false} PiecesTrimmed(ps: seq<string>)
    requires forall k :: 0 <= k < |ps| ==> TokenFree(ps[k])
    ensures forall k :: 0 <= k < |NonBlankTrimmed(ps)| ==> NonBlankTrimmed(ps)[k] != "" && TokenFree(NonBlankTrimmed(ps)[k])
    ensures Concat(NonBlankTrimmed(ps)) == Concat(ps)
  {
    if ps != [] {
      var init, last := ps[..|ps| - 1], ps[|ps| - 1];
      PiecesTrimmed(init);
      TrimTokenFree(last);
      var r0 := NonBlankTrimmed(init);
      ConcatSnoc(init, last);
      if last != "" {
        ConcatSnoc(r0, last);
        assert NonBlankTrimmed(ps) == r0 + [last];
      } else {
        assert NonBlankTrimmed(ps) == r0;
      }
    }
  }

  lemma ConcatSnoc(ps: seq<string>, p: string)
    ensures Concat(ps + [p]) == Concat(ps) + p
  {
    assert (ps + [p])[..|ps|] == ps;
  }

  lemma TrimTokenFree(p: string)
    requires TokenFree(p)
    ensures JsTrim(p) == p
  {
    assert forall i :: 0 <= i < |p| ==> !IsJsSpace(p[i]) by {
      forall i | 0 <= i < |p| ensures !IsJsSpace(p[i]) {
        assert IsTokenChar(p[i]);
      }
    }
  }

  lemma {:induction false} SepSplitConcat(s: string)
    ensures Concat(SepSplit(s)) == Filter(s, IsTokenChar)
    decreases |s|
  {
    var n := LeadingRun(s, IsTokenChar);
    if n == |s| {
      FilterKeepsAll(s, IsTokenChar);
      assert Concat([s]) == Concat([]) + s;
    } else {
      var m := LeadingRun(s[n..], IsCountrySep);
      var a, c := s[..n], s[n + m..];
      SepSplitStep(s, n, m);
      assert Filter(s, IsTokenChar) == a + Filter(c, IsTokenChar) by {
        SepFilter(s, n, m);
      }
      SepSplitConcat(c);
      ConcatCons(a, SepSplit(c));
    }
  }

  lemma SepSplitStep(s: string, n: nat, m: nat)
    requires n == LeadingRun(s, IsTokenChar) < |s| && m == LeadingRun(s[n..], IsCountrySep)
    ensures SepSplit(s) == [s[..n]] + SepSplit(s[n + m..])
  {
  }

  /** Filtering out the separators drops the run after the first piece. */
  lemma SepFilter(s: string, n: nat, m: nat)
    requires n == LeadingRun(s, IsTokenChar) < |s| && m == LeadingRun(s[n..], IsCountrySep)
    ensures Filter(s, IsTokenChar) == s[..n] + Filter(s[n + m..], IsTokenChar)
  {
    var a, b, c := s[..n], s[n..][..m], s[n + m..];
    ThreeSlices(s, n, m);
    FilterKeepsAll(a, IsTokenChar);
    FilterDrops(b, IsTokenChar);
    FilterThree(a, b, c, IsTokenChar);
  }

  lemma ThreeSlices(s: string, n: nat, m: nat)
    requires n + m <= |s|
    ensures s == s[..n] + s[n..][..m] + s[n + m..]
  {
    assert s == s[..n] + s[n..] && s[n..] == s[n..][..m] + s[n + m..];
  }

  lemma FilterThree(a: string, b: string, c: string, p: char -> bool)
    requires Filter(a, p) == a && Filter(b, p) == []
    ensures Filter(a + b + c, p) == a + Filter(c, p)
  {
    FilterAppend(a + b, c, p);
    FilterAppend(a, b, p);
    assert a + [] == a;
  }

  lemma {:induction false} FilterDrops(s: string, p: char -> bool)
    requires forall i :: 0 <= i < |s| ==> !p(s[i])
    ensures Filter(s, p) == ""
  {
  }

  // ------------------------------------------------------------ the statistics

  /** The object `getStats` returns. */
  datatype DataStats = DataStats(total: nat, byAnnex: Counter<string>, byCountry: Counter<string>, byStatus: Counter<string>)

  /** The annex key of every entry, in data order. */
  function AnnexKeys(data: seq<Entry>): (ks: seq<string>)
    ensures |ks| == |data|
  {
    if data == [] then [] else AnnexKeys(data[..|data| - 1]) + [AnnexKey(data[|data| - 1])]
  }

  /** The status key of every entry, in data order. */
  function StatusKeys(data: seq<Entry>): (ks: seq<string>)
    ensures |ks| == |data|
  {
    if data == [] then [] else StatusKeys(data[..|data| - 1]) + [StatusKey(data[|data| - 1])]
  }

  /** Every country key of every entry, in data order. */
  function AllCountryKeys(data: seq<Entry>): seq<string> {
    if data == [] then [] else AllCountryKeys(data[..|data| - 1]) + CountryKeys(data[|data| - 1])
  }

  /** The statistics of an entry list: each counter tallies its keys in data
      order. */
  function StatsOf(data: seq<Entry>): DataStats {
    DataStats(|data|, Tally(AnnexKeys(data)), Tally(AllCountryKeys(data)), Tally(StatusKeys(data)))
  }

  /** The annex and status counters each sum to the number of entries, every
      count is the number of entries with that key, no key is listed twice,
      and the country counter counts every token of every `nas_fab`. */
  lemma StatsCounts(data: seq<Entry>)
    ensures Total(StatsOf(data).byAnnex) == StatsOf(data).total == |data|
    ensures Total(StatsOf(data).byStatus) == |data|
    ensures Total(StatsOf(data).byCountry) == |AllCountryKeys(data)|
    ensures forall q :: Get(StatsOf(data).byAnnex, q) == multiset(AnnexKeys(data))[q]
    ensures forall q :: Get(StatsOf(data).byStatus, q) == multiset(StatusKeys(data))[q]
    ensures forall q :: Get(StatsOf(data).byCountry, q) == multiset(AllCountryKeys(data))[q]
    ensures Distinct(Keys(StatsOf(data).byAnnex)) && Distinct(Keys(StatsOf(data).byStatus)) && Distinct(Keys(StatsOf(data).byCountry))
  {
    CounterOf(AnnexKeys(data), StatsOf(data).byAnnex);
    CounterOf(StatusKeys(data), StatsOf(data).byStatus);
    CounterOf(AllCountryKeys(data), StatsOf(data).byCountry);
  }

  /** What `TallyCounts` says, for one counter of the statistics. */
  lemma CounterOf(ks: seq<string>, c: Counter<string>)
    requires c == Tally(ks)
    ensures Total(c) == |ks| && Distinct(Keys(c))
    ensures forall q :: Get(c, q) == multiset(ks)[q]
  {
    TallyCounts(ks);
  }

  /** An entry without a `change_indicator` is counted under ACTIVE. */
  lemma MissingStatusIsActive(data: seq<Entry>, i: nat)
    requires i < |data| && !Truthy(data[i], "change_indicator")
    ensures Get(StatsOf(data).byStatus, "ACTIVE") >= 1
  {
    StatsCounts(data);
    StatusKeyAt(data, i);
    assert StatusKeys(data)[i] == "ACTIVE";
  }

  /** The i-th status key is the key of the i-th entry. */
  lemma {:induction false} StatusKeyAt(data: seq<Entry>, i: nat)
    requires i < |data|
    ensures StatusKeys(data)[i] == StatusKey(data[i])
  {
    if i < |data| - 1 {
      var init := data[..|data| - 1];
      StatusKeyAt(init, i);
      assert init[i] == data[i];
    }
  }
}

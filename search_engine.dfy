/** The front end's search engine over the RAD dataset: it flattens the
    annexes into one entry list, hands queries to a fuzzy matcher, filters,
    truncates and decorates the matcher's candidates, looks entries up by id
    and by reference code, turns operator error messages into a lookup, and
    counts entries for the dashboard. */
module SearchEngine {
  import opened Wrappers
  import opened Text
  import opened Seqs
  import opened RadData
  import opened ErrorPatterns
  import opened ErrorHints
  import opened EngineStats

  /** One match record of the fuzzy matcher; its contents are not
      interpreted here. */
  datatype Match = Match(key: string, value: string, indices: seq<(nat, nat)>)

  /** One candidate of the fuzzy matcher: an entry with its score. */
  datatype Candidate = Candidate(item: Entry, score: real, matches: seq<Match>)

  /** A search result: the entry's fields together with `_score` and
      `_matches`. */
  datatype Hit = Hit(entry: Entry, score: real, matches: seq<Match>)

  /** What `searchByError` returns: the raw entries of a reference lookup,
      or the decorated results of a search. */
  datatype ErrorLookup = ByReference(entries: seq<Entry>) | BySearch(hits: seq<Hit>)

  /** The fuzzy matcher built over the entry list: a query and a maximum
      number of candidates give the candidates, best first. */
  type Matcher = (string, nat) -> seq<Candidate>

  /** What the engine relies on from the matcher built over `data`: it never
      returns more candidates than asked for, and every candidate is an entry
      of `data`. */
  ghost predicate MatcherContract(fuse: Matcher, data: seq<Entry>) {
    forall q, n :: |fuse(q, n)| <= n && forall k :: 0 <= k < |fuse(q, n)| ==> fuse(q, n)[k].item in data
  }

  /** The matcher library honours the contract for every entry list. */
  ghost predicate LibraryContract(build: seq<Entry> -> Matcher) {
    forall d :: MatcherContract(build(d), d)
  }

  /** The options of `search`; `None` is `null`. */
  datatype SearchOptions = SearchOptions(annex: Option<string>, nasFab: Option<string>, changeStatus: Option<string>, limit: nat)

  /** `search(query)` without options. */
  const DefaultOptions := SearchOptions(None, None, None, 50)

  /** The default `limit` of `getSuggestions`. */
  const DefaultSuggestionLimit: nat := 5

  /** A filter option constrains the results only when it is truthy. */
  predicate IsSet(o: Option<string>) { o.Some? && o.value != "" }

  /** Whether an entry passes every filter that is set. */
  predicate Meets(e: Entry, o: SearchOptions) {
    && (IsSet(o.annex) ==> Field(e, "annex") == Some(o.annex.value))
    && (IsSet(o.nasFab) ==> Field(e, "nas_fab").Some? && Contains(Field(e, "nas_fab").value, o.nasFab.value))
    && (IsSet(o.changeStatus) ==>
          Field(e, "change_indicator").Some? && ToUpper(Field(e, "change_indicator").value) == o.changeStatus.value)
  }

  function Keep(o: SearchOptions): Candidate -> bool {
    (c: Candidate) => Meets(c.item, o)
  }

  function AsHit(c: Candidate): Hit {
    Hit(c.item, c.score, c.matches)
  }

  function Decorate(cs: seq<Candidate>): (r: seq<Hit>)
    ensures |r| == |cs|
    ensures forall k :: 0 <= k < |r| ==> r[k] == AsHit(cs[k])
  {
    seq(|cs|, k requires 0 <= k < |cs| => AsHit(cs[k]))
  }

  /** Every option that `w` sets, `o` sets to the same value, with the same
      limit: `w` is `o` with some filters dropped. */
  predicate Relaxes(w: SearchOptions, o: SearchOptions) {
    && w.limit == o.limit
    && (IsSet(w.annex) ==> w.annex == o.annex)
    && (IsSet(w.nasFab) ==> w.nasFab == o.nasFab)
    && (IsSet(w.changeStatus) ==> w.changeStatus == o.changeStatus)
  }

  /** Filtering with relaxed options and then with the stricter ones is the
      same as filtering with the stricter ones alone. */
  lemma Refilter(cs: seq<Candidate>, o: SearchOptions, w: SearchOptions)
    requires Relaxes(w, o)
    ensures Filter(cs, Keep(o)) == Filter(Filter(cs, Keep(w)), Keep(o))
    ensures forall c :: c in Filter(cs, Keep(o)) ==> c in Filter(cs, Keep(w))
    ensures |Filter(cs, Keep(o))| <= |Filter(cs, Keep(w))|
  {
    forall c ensures Both(Keep(w), Keep(o))(c) == Keep(o)(c) {
      if Keep(o)(c) { assert Meets(c.item, o); }
    }
    FilterTwice(cs, Keep(w), Keep(o));
    FilterSame(cs, Both(Keep(w), Keep(o)), Keep(o));
    var fo, fw := Filter(cs, Keep(o)), Filter(cs, Keep(w));
    assert forall i :: 0 <= i < |fo| ==> fo[i] in fw;
  }

  /** The characters `searchByReference` deletes: `[`, `]` and whitespace. */
  predicate IsRefJunk(c: char) { c == '[' || c == ']' || IsJsSpace(c) }

  predicate NotRefJunk(c: char) { !IsRefJunk(c) }

  /** `refCode.replace(/[\[\]\s]/g, '').trim().toUpperCase()` */
  function CleanRef(ref: string): string {
    ToUpper(JsTrim(Filter(ref, NotRefJunk)))
  }

  /** A cleaned reference has no bracket, no whitespace and no lower-case
      letter. */
  lemma CleanRefChars(ref: string)
    ensures forall i :: 0 <= i < |CleanRef(ref)| ==> !IsRefJunk(CleanRef(ref)[i]) && !IsLower(CleanRef(ref)[i])
  {
    var kept := Filter(ref, NotRefJunk);
    var t := JsTrim(kept);
    TrimInside(kept, IsJsSpace);
    forall i | 0 <= i < |t| ensures !IsRefJunk(t[i]) {
      assert t[i] in kept;
    }
    UpperKeepsJunkFree(t);
  }

  lemma UpperKeepsJunkFree(t: string)
    requires forall i :: 0 <= i < |t| ==> !IsRefJunk(t[i])
    ensures forall i :: 0 <= i < |ToUpper(t)| ==> !IsRefJunk(ToUpper(t)[i]) && !IsLower(ToUpper(t)[i])
  {
  }

  /** The id `searchById` compares against: the trimmed, upper-cased input. */
  function NormalId(id: string): string {
    ToUpper(JsTrim(id))
  }

  /** `entry.id?.toUpperCase() === normalized` */
  predicate IdIs(e: Entry, normalized: string) {
    Field(e, "id").Some? && ToUpper(Field(e, "id").value) == normalized
  }

  function HasId(normalized: string): Entry -> bool {
    (e: Entry) => IdIs(e, normalized)
  }

  function InAnnex(annex: string): Entry -> bool {
    (e: Entry) => Field(e, "annex") == Some(annex)
  }

  /** The ids of a list of results, `undefined` where an entry has none. */
  function Ids(hs: seq<Hit>): (r: seq<Option<string>>)
    ensures |r| == |hs|
    ensures forall k :: 0 <= k < |r| ==> r[k] == Field(hs[k].entry, "id")
  {
    seq(|hs|, k requires 0 <= k < |hs| => Field(hs[k].entry, "id"))
  }

  class RADSearchEngine {
    /** Every record of every list-valued annex, in annex order. */
    const data: seq<Entry>
    const metadata: Option<Dict<string, string>>
    const fuse: Matcher

    ghost predicate Valid() {
      MatcherContract(fuse, data)
    }

    /** `new RADSearchEngine(radData)` for a document that has annexes;
        `build` stands for constructing the fuzzy matcher over the entries. */
    constructor(radData: Document, build: seq<Entry> -> Matcher)
      requires radData.annexes.Some?
      ensures data == Flatten(radData.annexes.value)
      ensures metadata == radData.metadata
      ensures fuse == build(data)
      ensures LibraryContract(build) ==> Valid()
    {
      var all := FlattenData(radData.annexes.value);
      data := all;
      metadata := radData.metadata;
      fuse := build(all);
    }

    /** The constructor's guard: it throws exactly when the document or its
        `annexes` is missing; an empty `annexes` is accepted. */
    static method Create(radData: Option<Document>, build: seq<Entry> -> Matcher)
      returns (r: Result<RADSearchEngine, string>)
      ensures r.Failure? <==> radData.None? || radData.value.annexes.None?
      ensures r.Failure? ==> r.error == "Invalid RAD data structure"
      ensures r.Success? ==> fresh(r.value) && r.value.data == Flatten(radData.value.annexes.value)
      ensures r.Success? ==> r.value.metadata == radData.value.metadata
    {
      if radData.None? || radData.value.annexes.None? {
        return Failure("Invalid RAD data structure");
      }
      var engine := new RADSearchEngine(radData.value, build);
      return Success(engine);
    }

    /** `_flattenData`: appends the records of every list-valued annex, in
        order, and skips every other value. */
    static method FlattenData(annexes: Annexes) returns (all: seq<Entry>)
      ensures all == Flatten(annexes)
      ensures |all| == ListedCount(annexes)
    {
      all := [];
      for i := 0 to |annexes|
        invariant all == Flatten(annexes[..i])
      {
        assert annexes[..i + 1][..i] == annexes[..i];
        var section := annexes[i].1;
        if section.List? {
          all := all + section.entries;
        }
      }
      assert annexes[..|annexes|] == annexes;
    }

    // ---------------------------------------------------------- search

    /** The matcher's candidates for a trimmed query that pass every filter,
        in matcher order, before truncation. */
    function Filtered(cleanQuery: string, o: SearchOptions): seq<Candidate> {
      Filter(fuse(cleanQuery, 2 * o.limit), Keep(o))
    }

    /** `search(query, options)`: nothing for a query shorter than two
        characters once trimmed; otherwise the first `limit` candidates that
        pass every filter that is set, in matcher order, each with its score
        and matches. */
    function Search(query: string, o: SearchOptions): (r: seq<Hit>)
      ensures |JsTrim(query)| < 2 ==> r == []
      ensures |r| <= o.limit
      ensures forall k :: 0 <= k < |r| ==> Meets(r[k].entry, o)
      ensures Valid() ==> forall k :: 0 <= k < |r| ==> r[k].entry in data
      ensures |JsTrim(query)| >= 2 ==>
        var f := Filtered(JsTrim(query), o);
        |r| == (if o.limit < |f| then o.limit else |f|) && forall k :: 0 <= k < |r| ==> r[k] == AsHit(f[k])
    {
      if |JsTrim(query)| < 2 then []
      else
        var f := Filtered(JsTrim(query), o);
        var r := Decorate(Take(f, o.limit));
        assert forall k :: 0 <= k < |r| ==> r[k].entry == f[k].item && f[k] in f;
        r
    }

    /** Dropping filters never removes a candidate before truncation, so the
        truncated result is never shorter. */
    lemma RelaxingKeepsCandidates(query: string, o: SearchOptions, w: SearchOptions)
      requires Relaxes(w, o)
      ensures forall c :: c in Filtered(JsTrim(query), o) ==> c in Filtered(JsTrim(query), w)
      ensures |Filtered(JsTrim(query), o)| <= |Filtered(JsTrim(query), w)|
      ensures |Search(query, o)| <= |Search(query, w)|
      ensures Filtered(JsTrim(query), o) == Filter(Filtered(JsTrim(query), w), Keep(o))
    {
      var q := JsTrim(query);
      var cs := fuse(q, 2 * o.limit);
      Refilter(cs, o, w);
      assert Filtered(q, o) == Filter(cs, Keep(o));
      assert Filtered(q, w) == Filter(cs, Keep(w));
      SearchLength(query, o);
      SearchLength(query, w);
    }

    /** How many results `search` gives: none for a short query, otherwise
        the limit or every candidate that passes, whichever is fewer. */
    lemma SearchLength(query: string, o: SearchOptions)
      ensures |Search(query, o)| == if |JsTrim(query)| < 2 then 0
        else if o.limit < |Filtered(JsTrim(query), o)| then o.limit else |Filtered(JsTrim(query), o)|
    {
    }

    /** A change-status filter with a lower-case letter matches nothing: the
        indicator is upper-cased, the filter is not. */
    lemma LowerCaseStatusMatchesNothing(query: string, o: SearchOptions, i: nat)
      requires IsSet(o.changeStatus) && i < |o.changeStatus.value| && IsLower(o.changeStatus.value[i])
      ensures Search(query, o) == []
    {
      var cs := fuse(JsTrim(query), 2 * o.limit);
      forall k | 0 <= k < |cs| ensures !Keep(o)(cs[k]) {
        var ci := Field(cs[k].item, "change_indicator");
        if ci.Some? {
          UpperHasNoLower(ci.value, i);
        }
      }
    }

    /** `searchInAnnex(annex, query)` */
    function SearchInAnnex(annex: string, query: string): (r: seq<Hit>)
      ensures |r| <= 100
      ensures annex != "" ==> forall k :: 0 <= k < |r| ==> Field(r[k].entry, "annex") == Some(annex)
      ensures annex != "" && Valid() ==> forall k :: 0 <= k < |r| ==> r[k].entry in GetAnnexEntries(annex)
      ensures r == Search(query, SearchOptions(Some(annex), None, None, 100))
    {
      Search(query, SearchOptions(Some(annex), None, None, 100))
    }

    /** `getAnnexEntries(annex)`: the entries whose `annex` is exactly
        `annex`, in data order. */
    function GetAnnexEntries(annex: string): (r: seq<Entry>)
      ensures forall e :: e in r <==> e in data && Field(e, "annex") == Some(annex)
      ensures Picks(r, data, InAnnex(annex))
    {
      FilterInOrder(data, InAnnex(annex));
      Filter(data, InAnnex(annex))
    }

    /** `getMetadata()` */
    function GetMetadata(): (r: Option<Dict<string, string>>)
      ensures r == metadata
    {
      metadata
    }

    // ---------------------------------------------------------- lookups

    /** `searchById(id)`: exactly the entries whose upper-cased id equals the
        trimmed, upper-cased input, in data order. */
    function SearchById(id: string): (r: seq<Entry>)
      ensures |r| <= |data|
      ensures forall e :: e in r <==> e in data && IdIs(e, NormalId(id))
      ensures Picks(r, data, HasId(NormalId(id)))
    {
      FilterInOrder(data, HasId(NormalId(id)));
      Filter(data, HasId(NormalId(id)))
    }

    /** An entry whose id carries no surrounding whitespace is found by its
        id in any letter case. */
    lemma SearchByIdFinds(i: nat, id: string)
      requires i < |data| && Field(data[i], "id").Some?
      requires JsTrim(Field(data[i], "id").value) == Field(data[i], "id").value
      requires ToUpper(id) == ToUpper(Field(data[i], "id").value)
      ensures data[i] in SearchById(id)
    {
      var v := Field(data[i], "id").value;
      TrimUpper(id, v);
      ToUpperIdempotent(v);
    }

    /** `searchByReference(refCode)`: the id lookup of the code with every
        `[`, `]` and whitespace character deleted; `[]` when nothing
        matches. */
    function SearchByReference(ref: string): (r: seq<Entry>)
      ensures forall e :: e in r <==> e in data && IdIs(e, CleanRef(ref))
      ensures Picks(r, data, HasId(CleanRef(ref)))
    {
      var results := SearchById(CleanRef(ref));
      CleanRefNormal(ref);
      if |results| > 0 then results else []
    }

    /** A code written with its brackets, as in "REF:[LSLF1139C]", finds
        the same entries as the bare code. */
    lemma BracketsIgnored(code: string)
      requires forall i :: 0 <= i < |code| ==> !IsRefJunk(code[i])
      ensures SearchByReference("[" + code + "]") == SearchByReference(code)
    {
      BracketsDropped(code);
    }

    // ---------------------------------------------------------- error messages

    /** `_extractErrorInfo(errorMessage)`: fills the record field by field. */
    method ExtractErrorInfo(msg: string) returns (info: ErrorInfo)
      ensures info == EngineErrorInfo(msg)
    {
      info := NoInfo;
      if msg == "" {
        return;
      }
      var upper := ToUpper(msg);
      var refMatch := RefCode(upper);
      if refMatch.Some? {
        info := info.(refCode := refMatch);
      }
      var annexMatch := AnnexCode(upper);
      if annexMatch.Some? {
        info := info.(annex := annexMatch);
      }
      var pointMatches := PointMatches(upper, 0);
      if pointMatches != [] {
        info := info.(points := Filter(Dedup(pointMatches), Unstopped(EngineStoplist)));
      }
      if Contains(upper, "FORBIDDEN") {
        info := info.(kind := Some("FORBIDDEN"));
      }
      if Contains(upper, "RESTRICTED") {
        info := info.(kind := Some("RESTRICTED"));
      }
      if Contains(upper, "NOT AVAILABLE") {
        info := info.(kind := Some("NOT_AVAILABLE"));
      }
    }

    /** `searchByError(errorMessage)`: the reference lookup when a code was
        found and names some entry; otherwise a search for the points joined
        by spaces, restricted to the annex the message names; otherwise a
        search for the whole message. */
    function SearchByError(msg: string): (r: ErrorLookup)
      ensures r.ByReference? <==>
        EngineErrorInfo(msg).refCode.Some? && SearchByReference(EngineErrorInfo(msg).refCode.value) != []
      ensures r.ByReference? ==> r.entries != [] && forall e :: e in r.entries ==> e in data && IdIs(e, EngineErrorInfo(msg).refCode.value)
      ensures r.BySearch? ==> |r.hits| <= 20
      ensures r.BySearch? && EngineErrorInfo(msg).points != [] ==>
        forall k :: 0 <= k < |r.hits| ==> Meets(r.hits[k].entry, SearchOptions(EngineErrorInfo(msg).annex, None, None, 20))
      ensures !r.ByReference? && EngineErrorInfo(msg).points != [] ==>
        r == BySearch(Search(Join(EngineErrorInfo(msg).points, " "), SearchOptions(EngineErrorInfo(msg).annex, None, None, 20)))
      ensures !r.ByReference? && EngineErrorInfo(msg).points == [] ==>
        r == BySearch(Search(msg, SearchOptions(None, None, None, 20)))
    {
      var info := EngineErrorInfo(msg);
      if info.refCode.Some? && SearchByReference(info.refCode.value) != [] then
        RefCodeClean(msg);
        ByReference(SearchByReference(info.refCode.value))
      else if info.points != [] then
        BySearch(Search(Join(info.points, " "), SearchOptions(info.annex, None, None, 20)))
      else
        BySearch(Search(msg, SearchOptions(None, None, None, 20)))
    }

    /** When the message's reference code names some entry, the result is
        exactly the entries with that id. */
    lemma ErrorWithKnownReference(msg: string)
      requires EngineErrorInfo(msg).refCode.Some?
      requires SearchByReference(EngineErrorInfo(msg).refCode.value) != []
      ensures SearchByError(msg).ByReference?
      ensures forall e :: e in SearchByError(msg).entries <==> e in data && IdIs(e, EngineErrorInfo(msg).refCode.value)
    {
      RefCodeClean(msg);
    }

    /** A reference code that names no entry does not stop the lookup: the
        points of the message are searched instead, within its annex. */
    lemma UnknownReferenceFallsThrough(msg: string)
      requires EngineErrorInfo(msg).refCode.Some?
      requires SearchByReference(EngineErrorInfo(msg).refCode.value) == []
      requires EngineErrorInfo(msg).points != []
      ensures SearchByError(msg) == BySearch(Search(Join(EngineErrorInfo(msg).points, " "), SearchOptions(EngineErrorInfo(msg).annex, None, None, 20)))
    {
    }

    /** The documented message finds exactly the entries whose id is
        LSLF1139C, whenever there is one. */
    lemma DocumentedErrorLookup(i: nat)
      requires i < |data| && Field(data[i], "id") == Some("LSLF1139C")
      ensures SearchByError(Example).ByReference?
      ensures forall e :: e in SearchByError(Example).entries <==> e in data && IdIs(e, "LSLF1139C")
    {
      EngineExampleRef();
      ExampleCodeClean();
      CleanCodeLookup(Example, "LSLF1139C", i);
    }

    /** A message whose reference code is clean and names an entry is
        answered with the entries of that id. */
    lemma CleanCodeLookup(msg: string, code: string, i: nat)
      requires EngineErrorInfo(msg).refCode == Some(code) && CleanRef(code) == code
      requires i < |data| && Field(data[i], "id") == Some(code)
      ensures SearchByError(msg).ByReference?
      ensures forall e :: e in SearchByError(msg).entries <==> e in data && IdIs(e, code)
    {
      assert IdIs(data[i], code) by {
        CleanRefNormal(code);
      }
      assert data[i] in SearchByReference(code);
      ErrorWithKnownReference(msg);
    }

    // ---------------------------------------------------------- suggestions

    /** `getSuggestions(partialQuery, limit)`: the distinct ids of the
        results of a search for twice as many entries, in order of first
        appearance, at most `limit` of them. */
    function GetSuggestions(partial: string, limit: nat): (r: seq<Option<string>>)
      ensures |partial| < 2 ==> r == []
      ensures |r| <= limit
      ensures Distinct(r)
      ensures forall k :: 0 <= k < |r| ==> r[k] in Ids(Search(partial, SearchOptions(None, None, None, 2 * limit)))
      ensures r <= Dedup(Ids(Search(partial, SearchOptions(None, None, None, 2 * limit))))
      ensures |partial| >= 2 ==>
        var n := |Dedup(Ids(Search(partial, SearchOptions(None, None, None, 2 * limit))))|;
        |r| == if limit < n then limit else n
    {
      if |partial| < 2 then []
      else
        var ids := Ids(Search(partial, SearchOptions(None, None, None, 2 * limit)));
        TakeDistinct(ids, limit);
        Take(Dedup(ids), limit)
    }

    /** `getSuggestions(partialQuery)` without a limit: at most the default
        five distinct ids, taken from a search for ten entries. */
    lemma DefaultSuggestions(partial: string)
      ensures |GetSuggestions(partial, DefaultSuggestionLimit)| <= 5
      ensures GetSuggestions(partial, DefaultSuggestionLimit) <= Dedup(Ids(Search(partial, SearchOptions(None, None, None, 10))))
    {
    }

    // ---------------------------------------------------------- statistics

    /** `getStats()`: one pass over the entries, counting each under its
        annex key, each country token of its `nas_fab`, and its status. */
    method GetStats() returns (stats: DataStats)
      ensures stats == StatsOf(data)
    {
      var byAnnex: Counter<string> := [];
      var byCountry: Counter<string> := [];
      var byStatus: Counter<string> := [];
      for i := 0 to |data|
        invariant byAnnex == Tally(AnnexKeys(data[..i]))
        invariant byCountry == Tally(AllCountryKeys(data[..i]))
        invariant byStatus == Tally(StatusKeys(data[..i]))
      {
        var entry := data[i];
        StatsStep(data, i);
        byAnnex := Bump(byAnnex, AnnexKey(entry));
        byCountry := CountEntryCountries(byCountry, entry);
        byStatus := Bump(byStatus, StatusKey(entry));
      }
      assert data[..|data|] == data;
      stats := DataStats(|data|, byAnnex, byCountry, byStatus);
    }
  }

  /** The country step of `getStats` for one entry: its `nas_fab`
      tokens when it has a non-empty one, nothing otherwise. */
  method CountEntryCountries(counts: Counter<string>, entry: Entry) returns (r: Counter<string>)
    ensures r == BumpAll(counts, CountryKeys(entry))
  {
    r := counts;
    if Truthy(entry, "nas_fab") {
      r := CountCountries(counts, Field(entry, "nas_fab").value);
    }
  }

  /** The inner loop of `getStats`: counts every non-blank trimmed piece of
      `nasFab.split(/[,\s]+/)`. */
  method CountCountries(counts: Counter<string>, nasFab: string) returns (r: Counter<string>)
    ensures r == BumpAll(counts, NonBlankTrimmed(SepSplit(nasFab)))
  {
    var countries := SepSplit(nasFab);
    r := counts;
    for j := 0 to |countries|
      invariant r == BumpAll(counts, NonBlankTrimmed(countries[..j]))
    {
      CountStep(counts, countries, j);
      var c := JsTrim(countries[j]);
      if c != "" {
        r := Bump(r, c);
      }
    }
    assert countries[..|countries|] == countries;
  }

  lemma CountStep(counts: Counter<string>, ps: seq<string>, j: nat)
    requires j < |ps|
    ensures BumpAll(counts, NonBlankTrimmed(ps[..j + 1])) ==
      if JsTrim(ps[j]) != "" then Bump(BumpAll(counts, NonBlankTrimmed(ps[..j])), JsTrim(ps[j]))
      else BumpAll(counts, NonBlankTrimmed(ps[..j]))
  {
    assert ps[..j + 1][..j] == ps[..j];
    var c := JsTrim(ps[j]);
    if c != "" {
      assert NonBlankTrimmed(ps[..j + 1]) == NonBlankTrimmed(ps[..j]) + [c];
      BumpAllSnoc(counts, NonBlankTrimmed(ps[..j]), c);
    } else {
      assert NonBlankTrimmed(ps[..j + 1]) == NonBlankTrimmed(ps[..j]) + [];
      assert NonBlankTrimmed(ps[..j]) + [] == NonBlankTrimmed(ps[..j]);
    }
  }

  /** How the three counters of `getStats` grow with one more entry. */
  lemma StatsStep(data: seq<Entry>, i: nat)
    requires i < |data|
    ensures Tally(AnnexKeys(data[..i + 1])) == Bump(Tally(AnnexKeys(data[..i])), AnnexKey(data[i]))
    ensures Tally(StatusKeys(data[..i + 1])) == Bump(Tally(StatusKeys(data[..i])), StatusKey(data[i]))
    ensures Tally(AllCountryKeys(data[..i + 1])) == BumpAll(Tally(AllCountryKeys(data[..i])), CountryKeys(data[i]))
  {
    StepKeys(data, i);
    TallySnoc(AnnexKeys(data[..i]), AnnexKey(data[i]));
    TallySnoc(StatusKeys(data[..i]), StatusKey(data[i]));
    BumpAllAppend([], AllCountryKeys(data[..i]), CountryKeys(data[i]));
  }

  // ------------------------------------------------------------ helpers

  lemma UpperHasNoLower(s: string, i: nat)
    ensures i < |ToUpper(s)| ==> !IsLower(ToUpper(s)[i])
  {
  }

  lemma TrimInside(s: string, sp: char -> bool)
    ensures forall i :: 0 <= i < |Trim(s, sp)| ==> Trim(s, sp)[i] in s
  {
    var r := Trim(s, sp);
    var a := TrimIsSlice(s, sp);
    forall i | 0 <= i < |r| ensures r[i] in s {
      assert r[i] == s[a + i];
    }
  }

  lemma TrimUpper(id: string, v: string)
    requires JsTrim(v) == v && ToUpper(id) == ToUpper(v)
    ensures ToUpper(JsTrim(id)) == ToUpper(v)
  {
    assert forall i :: 0 <= i < |id| ==> IsJsSpace(id[i]) == IsJsSpace(v[i]) by {
      forall i | 0 <= i < |id| ensures IsJsSpace(id[i]) == IsJsSpace(v[i]) {
        assert UpperChar(id[i]) == UpperChar(v[i]);
      }
    }
    TrimAlike(id, v, IsJsSpace);
  }

  /** Two strings that agree up to letter case are trimmed at the same
      places. */
  lemma TrimAlike(a: string, b: string, sp: char -> bool)
    requires |a| == |b| && ToUpper(a) == ToUpper(b)
    requires forall i :: 0 <= i < |a| ==> sp(a[i]) == sp(b[i])
    ensures ToUpper(Trim(a, sp)) == ToUpper(Trim(b, sp))
  {
    StartAlike(a, b, sp);
    var ta, tb := TrimStart(a, sp), TrimStart(b, sp);
    assert |ta| == |tb|;
    assert ta == a[|a| - |ta|..] && tb == b[|b| - |tb|..];
    forall i | 0 <= i < |ta| ensures UpperChar(ta[i]) == UpperChar(tb[i]) && sp(ta[i]) == sp(tb[i]) {
      assert ta[i] == a[|a| - |ta| + i] && tb[i] == b[|b| - |tb| + i];
      assert ToUpper(a)[|a| - |ta| + i] == ToUpper(b)[|b| - |tb| + i];
    }
    EndAlike(ta, tb, sp);
  }

  lemma {:induction false} StartAlike(a: string, b: string, sp: char -> bool)
    requires |a| == |b|
    requires forall i :: 0 <= i < |a| ==> sp(a[i]) == sp(b[i])
    ensures |TrimStart(a, sp)| == |TrimStart(b, sp)|
  {
    if |a| > 0 && sp(a[0]) {
      StartAlike(a[1..], b[1..], sp);
    }
  }

  lemma EndAlike(a: string, b: string, sp: char -> bool)
    requires |a| == |b|
    requires forall i :: 0 <= i < |a| ==> UpperChar(a[i]) == UpperChar(b[i]) && sp(a[i]) == sp(b[i])
    ensures ToUpper(TrimEnd(a, sp)) == ToUpper(TrimEnd(b, sp))
  {
    EndLength(a, b, sp);
  }

  lemma {:induction false} EndLength(a: string, b: string, sp: char -> bool)
    requires |a| == |b|
    requires forall i :: 0 <= i < |a| ==> sp(a[i]) == sp(b[i])
    ensures |TrimEnd(a, sp)| == |TrimEnd(b, sp)|
  {
    if |a| > 0 && sp(a[|a| - 1]) {
      EndLength(a[..|a| - 1], b[..|b| - 1], sp);
    }
  }

  /** A cleaned reference is already trimmed and upper-cased. */
  lemma CleanRefNormal(ref: string)
    ensures NormalId(CleanRef(ref)) == CleanRef(ref)
  {
    var c := CleanRef(ref);
    CleanRefChars(ref);
    assert forall i :: 0 <= i < |c| ==> !IsJsSpace(c[i]);
    NoLowerUpper(c);
  }

  lemma NoLowerUpper(s: string)
    requires forall i :: 0 <= i < |s| ==> !IsLower(s[i])
    ensures ToUpper(s) == s
  {
  }

  /** A code that the reference pattern extracted is left as it is by the
      cleaning. */
  lemma RefCodeClean(msg: string)
    requires EngineErrorInfo(msg).refCode.Some?
    ensures CleanRef(EngineErrorInfo(msg).refCode.value) == EngineErrorInfo(msg).refCode.value
  {
    var code := EngineErrorInfo(msg).refCode.value;
    var u := ToUpper(msg);
    assert RefCode(u).Some?;
    var k := Leftmost(u, 0, (j: nat) => RefAt(u, j));
    assert RefAt(u, k) == RefCode(u);
    RefAtUpper(u, k);
    CleanBareCode(code);
  }

  /** What the reference pattern extracts from an upper-cased text has no
      lower-case letter. */
  lemma RefAtUpper(u: string, k: nat)
    requires forall i :: 0 <= i < |u| ==> !IsLower(u[i])
    requires RefAt(u, k).Some?
    ensures forall i :: 0 <= i < |RefAt(u, k).value| ==> IsUpper(RefAt(u, k).value[i]) || IsDigit(RefAt(u, k).value[i])
  {
    var v := RefAt(u, k).value;
    var t := u[k..];
    var q := 4 + RunLength(t, 4, IsJsSpace);
    var start := if q < |t| && t[q] == '[' then q + 1 else q;
    var n := RunLength(t, start, IsCodeChar);
    assert v == t[start..start + n];
    forall i | 0 <= i < |v| ensures IsUpper(v[i]) || IsDigit(v[i]) {
      assert v[i] == u[k + start + i];
    }
  }

  lemma ExampleCodeClean()
    ensures CleanRef("LSLF1139C") == "LSLF1139C"
  {
    var code := "LSLF1139C";
    assert forall i :: 0 <= i < |code| ==> IsUpper(code[i]) || IsDigit(code[i]) by {
      assert code == "LSLF" + "1139" + "C";
    }
    CleanBareCode(code);
  }

  /** Letters and digits only: the cleaning changes nothing. */
  lemma CleanBareCode(code: string)
    requires forall i :: 0 <= i < |code| ==> IsUpper(code[i]) || IsDigit(code[i])
    ensures CleanRef(code) == code
  {
    FilterKeepsAll(code, NotRefJunk);
    NoLowerUpper(code);
  }

  lemma BracketsDropped(code: string)
    requires forall i :: 0 <= i < |code| ==> !IsRefJunk(code[i])
    ensures CleanRef("[" + code + "]") == CleanRef(code)
  {
    FilterKeepsAll(code, NotRefJunk);
    FilterDropsEnds('[', code, ']', NotRefJunk);
    assert "[" + code + "]" == ['['] + code + [']'];
  }

  /** A filter that keeps the middle and drops both ends returns the
      middle. */
  lemma FilterDropsEnds(l: char, mid: string, r: char, p: char -> bool)
    requires !p(l) && !p(r) && Filter(mid, p) == mid
    ensures Filter([l] + mid + [r], p) == mid
  {
    FilterAppend([l] + mid, [r], p);
    FilterAppend([l], mid, p);
    assert Filter([l], p) == [] && Filter([r], p) == [];
  }

  /** Step lemmas for the statistics loop. */
  lemma StepKeys(data: seq<Entry>, i: nat)
    requires i < |data|
    ensures AnnexKeys(data[..i + 1]) == AnnexKeys(data[..i]) + [AnnexKey(data[i])]
    ensures StatusKeys(data[..i + 1]) == StatusKeys(data[..i]) + [StatusKey(data[i])]
    ensures AllCountryKeys(data[..i + 1]) == AllCountryKeys(data[..i]) + CountryKeys(data[i])
  {
    assert data[..i + 1][..i] == data[..i];
  }

  lemma TallySnoc(ks: seq<string>, k: string)
    ensures Tally(ks + [k]) == Bump(Tally(ks), k)
  {
    assert (ks + [k])[..|ks|] == ks;
  }

  lemma BumpAllSnoc(c: Counter<string>, ks: seq<string>, k: string)
    ensures BumpAll(c, ks + [k]) == Bump(BumpAll(c, ks), k)
  {
    assert (ks + [k])[..|ks|] == ks;
  }
}

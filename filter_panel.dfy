/** The filter panel: the three filters the user toggles, the reset, the
    count of active filters, and how the filters it hands to the app
    constrain the search. */
module FilterPanel {
  import opened Wrappers
  import opened Text
  import opened RadData
  import opened SearchEngine

  /** The three keys of the filter record. */
  datatype FilterKey = AnnexKey | NasFabKey | ChangeStatusKey

  /** The filter record; `None` is `null`. */
  datatype Filters = Filters(annex: Option<string>, nasFab: Option<string>, changeStatus: Option<string>)

  /** The record the app starts with, and the one `clearAllFilters` sends. */
  const NoFilters := Filters(None, None, None)

  /** `filters[key]`. */
  function Get(f: Filters, k: FilterKey): Option<string> {
    match k
    case AnnexKey => f.annex
    case NasFabKey => f.nasFab
    case ChangeStatusKey => f.changeStatus
  }

  /** `{ ...filters, [key]: x }`: the key gets `x`, the other two keep their
      values. */
  function With(f: Filters, k: FilterKey, x: Option<string>): (r: Filters)
    ensures Get(r, k) == x
    ensures forall j :: j != k ==> Get(r, j) == Get(f, j)
  {
    match k
    case AnnexKey => f.(annex := x)
    case NasFabKey => f.(nasFab := x)
    case ChangeStatusKey => f.(changeStatus := x)
  }

  /** `handleFilterChange(key, value)`: a button selects its value, and
      clicking the selected button again clears the key to `null`. */
  function Toggle(f: Filters, k: FilterKey, value: string): (r: Filters)
    ensures Get(r, k) == Some(value) <==> Get(f, k) != Some(value)
    ensures Get(r, k).None? <==> Get(f, k) == Some(value)
    ensures forall j :: j != k ==> Get(r, j) == Get(f, j)
  {
    With(f, k, if Get(f, k) == Some(value) then None else Some(value))
  }

  /** `clearAllFilters`. */
  function ClearAll(f: Filters): (r: Filters)
    ensures forall k :: Get(r, k).None?
  {
    NoFilters
  }

  /** The number of set values in a list of filter values. */
  function CountSet(vs: seq<Option<string>>): (n: nat)
    ensures n <= |vs|
    ensures n == 0 <==> forall i :: 0 <= i < |vs| ==> vs[i].None?
    ensures n == |vs| <==> forall i :: 0 <= i < |vs| ==> vs[i].Some?
  {
    if vs == [] then 0
    else (if vs[0].Some? then 1 else 0) + CountSet(vs[1..])
  }

  /** `Object.values(filters)`, in the order the record is written. */
  function Values(f: Filters): seq<Option<string>> {
    [f.annex, f.nasFab, f.changeStatus]
  }

  /** `activeFilterCount`: how many values are not `null`. */
  function ActiveCount(f: Filters): (n: nat)
    ensures n <= 3
    ensures n == 0 <==> f == NoFilters
    ensures n == 3 <==> forall k :: Get(f, k).Some?
  {
    var vs := Values(f);
    assert vs[0] == f.annex && vs[1] == f.nasFab && vs[2] == f.changeStatus;
    assert f == NoFilters <==> forall i :: 0 <= i < |vs| ==> vs[i].None?;
    assert (forall k :: Get(f, k).Some?) <==> forall i :: 0 <= i < |vs| ==> vs[i].Some? by {
      assert Get(f, AnnexKey) == vs[0] && Get(f, NasFabKey) == vs[1] && Get(f, ChangeStatusKey) == vs[2];
    }
    CountSet(vs)
  }

  /** One count step per key: a key counts exactly when it is set. */
  lemma CountOfValues(f: Filters)
    ensures ActiveCount(f) == (if f.annex.Some? then 1 else 0) + (if f.nasFab.Some? then 1 else 0) + (if f.changeStatus.Some? then 1 else 0)
  {
    var vs := Values(f);
    assert vs[1..] == [f.nasFab, f.changeStatus];
    assert vs[1..][1..] == [f.changeStatus];
    assert vs[1..][1..][1..] == [];
    assert CountSet(vs[1..][1..]) == (if f.changeStatus.Some? then 1 else 0);
    assert CountSet(vs[1..]) == (if f.nasFab.Some? then 1 else 0) + CountSet(vs[1..][1..]);
  }

  /** Clicking the same button twice gives back the record exactly when the
      key was unset or already held that value. */
  lemma ToggleTwice(f: Filters, k: FilterKey, value: string)
    ensures Toggle(Toggle(f, k, value), k, value) == f <==> Get(f, k).None? || Get(f, k) == Some(value)
  {
    var g := Toggle(Toggle(f, k, value), k, value);
    if Get(f, k).None? || Get(f, k) == Some(value) {
      match k
      case AnnexKey =>
      case NasFabKey =>
      case ChangeStatusKey =>
    } else {
      assert Get(g, k) != Get(f, k);
    }
  }

  /** A click changes the count by one when it selects on an unset key or
      clears the selected value, and leaves it alone when it switches to
      another value. */
  lemma ToggleCount(f: Filters, k: FilterKey, value: string)
    ensures Get(f, k).None? ==> ActiveCount(Toggle(f, k, value)) == ActiveCount(f) + 1
    ensures Get(f, k) == Some(value) ==> ActiveCount(Toggle(f, k, value)) + 1 == ActiveCount(f)
    ensures Get(f, k).Some? && Get(f, k) != Some(value) ==> ActiveCount(Toggle(f, k, value)) == ActiveCount(f)
  {
    var g := Toggle(f, k, value);
    CountOfValues(f);
    CountOfValues(g);
    assert f.annex == Get(f, AnnexKey) && g.annex == Get(g, AnnexKey);
    assert f.nasFab == Get(f, NasFabKey) && g.nasFab == Get(g, NasFabKey);
    assert f.changeStatus == Get(f, ChangeStatusKey) && g.changeStatus == Get(g, ChangeStatusKey);
  }

  /** After the reset the badge disappears: no filter is active. */
  lemma ClearCountZero(f: Filters)
    ensures ActiveCount(ClearAll(f)) == 0
    ensures ClearAll(f) == NoFilters
  {
  }

  // ------------------------------------------------------------ the filters in a search

  /** The options the app passes to `search`: the filter record as it is,
      with the default limit. */
  function OptionsOf(f: Filters): SearchOptions {
    SearchOptions(f.annex, f.nasFab, f.changeStatus, DefaultOptions.limit)
  }

  /** With no filter set, every entry passes. */
  lemma NoFiltersPassAll(e: Entry)
    ensures Meets(e, OptionsOf(NoFilters))
  {
  }

  /** Clearing the selected value drops one constraint and keeps the
      others: the new options relax the old ones. */
  lemma ToggleOffRelaxes(f: Filters, k: FilterKey, value: string)
    requires Get(f, k) == Some(value)
    ensures Relaxes(OptionsOf(Toggle(f, k, value)), OptionsOf(f))
  {
    var g := Toggle(f, k, value);
    assert g.annex == Get(g, AnnexKey) && f.annex == Get(f, AnnexKey);
    assert g.nasFab == Get(g, NasFabKey) && f.nasFab == Get(f, NasFabKey);
    assert g.changeStatus == Get(g, ChangeStatusKey) && f.changeStatus == Get(f, ChangeStatusKey);
  }

  /** Selecting a value on an unset key adds one constraint: the old
      options relax the new ones. */
  lemma ToggleOnNarrows(f: Filters, k: FilterKey, value: string)
    requires Get(f, k).None?
    ensures Relaxes(OptionsOf(f), OptionsOf(Toggle(f, k, value)))
  {
    var g := Toggle(f, k, value);
    assert g.annex == Get(g, AnnexKey) && f.annex == Get(f, AnnexKey);
    assert g.nasFab == Get(g, NasFabKey) && f.nasFab == Get(f, NasFabKey);
    assert g.changeStatus == Get(g, ChangeStatusKey) && f.changeStatus == Get(f, ChangeStatusKey);
  }

  /** Hence clearing a selected filter never shortens the result list of
      the same query, and selecting one on an unset key never lengthens it. */
  lemma ToggleAndResults(engine: RADSearchEngine, query: string, f: Filters, k: FilterKey, value: string)
    ensures Get(f, k) == Some(value) ==>
      |engine.Search(query, OptionsOf(f))| <= |engine.Search(query, OptionsOf(Toggle(f, k, value)))|
    ensures Get(f, k).None? ==>
      |engine.Search(query, OptionsOf(Toggle(f, k, value)))| <= |engine.Search(query, OptionsOf(f))|
  {
    if Get(f, k) == Some(value) {
      ToggleOffRelaxes(f, k, value);
      engine.RelaxingKeepsCandidates(query, OptionsOf(f), OptionsOf(Toggle(f, k, value)));
    } else if Get(f, k).None? {
      ToggleOnNarrows(f, k, value);
      engine.RelaxingKeepsCandidates(query, OptionsOf(Toggle(f, k, value)), OptionsOf(f));
    }
  }

  /** The panel's 'MODIFIED' status never matches an entry whose indicator
      is the amendment code 'AMD' in any case, and 'DELETED' never matches
      'DEL': the search compares the upper-cased indicator with the button's
      value as it is. */
  lemma LongStatusMissesCodes(e: Entry, f: Filters)
    requires Field(e, "change_indicator").Some? && |Field(e, "change_indicator").value| == 3
    requires f.changeStatus == Some("MODIFIED") || f.changeStatus == Some("DELETED")
    ensures !Meets(e, OptionsOf(f))
  {
    var s := Field(e, "change_indicator").value;
    assert |ToUpper(s)| == 3;
  }
}

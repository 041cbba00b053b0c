/** `validate_rad` (scripts/validate_rad.py) over an already-loaded JSON
    value: the checks that fail it, the checks that only warn, and the
    Python errors its subscripts and `in` tests raise on values of the wrong
    kind. */
module ValidateRad {
  import opened Wrappers
  import opened Text
  import opened Seqs
  import opened RadData

  /** What the validator prints as a warning. */
  datatype Warning =
    | MissingCycle
    | StatsMismatch(stated: Json, counted: nat)
    | MissingFields(annexKey: string, fields: seq<string>)

  datatype Failure = MissingKey(key: string) | NotAList(annexKey: string)

  /** `True` with the total and the warnings printed on the way; `False`
      with the reason; or an exception escaping the function. */
  datatype Outcome = Passed(total: nat, warnings: seq<Warning>) | Failed(reason: Failure) | Raised

  const RequiredKeys: seq<string> := ["metadata", "annexes", "stats"]
  const RequiredFields: seq<string> := ["id", "annex", "type"]

  // ------------------------------------------------------------ Python semantics

  /** Python `x in c` for a string `x`: a key of a dict, an element of a
      list, a substring of a string; `None` is the `TypeError` any other
      value raises. */
  function PyIn(x: string, c: Json): (r: Option<bool>)
    ensures c.JObject? ==> r == Some(x in Keys(c.fields))
    ensures r.None? <==> !(c.JObject? || c.JList? || c.JStr?)
  {
    match c
    case JObject(fs) => Some(x in Keys(fs))
    case JList(items) => Some(JStr(x) in items)
    case JStr(s) => Some(Contains(s, x))
    case _ => None
  }

  /** Python truthiness. */
  predicate PyTruthy(j: Json) {
    match j
    case JNull => false
    case JBool(b) => b
    case JNum(n) => n != 0
    case JStr(s) => s != ""
    case JList(items) => items != []
    case JObject(fs) => fs != []
  }

  /** Python `j == n` for an integer `n`; `True` and `False` equal 1 and 0. */
  predicate PyEqualsInt(j: Json, n: int) {
    match j
    case JNum(m) => m == n
    case JBool(b) => (if b then 1 else 0) == n
    case _ => false
  }

  /** The value under a key of an object known to have it. */
  function Member(fs: Dict<string, Json>, k: string): Json
    requires k in Keys(fs)
  {
    Lookup(fs, k).value
  }

  // ------------------------------------------------------------ the checks

  /** Step 3: the first required key that `in` does not find, an error, or
      `None` when every key is there. */
  function KeyCheck(data: Json, keys: seq<string>): (r: Option<Outcome>)
    ensures r.Some? ==>
      r.value == Raised || (r.value.Failed? && r.value.reason.MissingKey? && r.value.reason.key in keys && PyIn(r.value.reason.key, data) == Some(false))
    ensures r.None? <==> forall i :: 0 <= i < |keys| ==> PyIn(keys[i], data) == Some(true)
  {
    if keys == [] then None
    else
      var present := PyIn(keys[0], data);
      if present.None? then Some(Raised)
      else if !present.value then Some(Failed(MissingKey(keys[0])))
      else
        var r := KeyCheck(data, keys[1..]);
        assert forall i :: 1 <= i < |keys| ==> keys[i] == keys[1..][i - 1];
        r
  }

  /** Step 4: whether the cycle warning is printed, `None` when the test
      itself raises. */
  function CycleWarns(metadata: Json): (r: Option<bool>)
    ensures metadata.JObject? ==> r == Some(!("cycle" in Keys(metadata.fields) && PyTruthy(Member(metadata.fields, "cycle"))))
  {
    var present := PyIn("cycle", metadata);
    if present.None? then None
    else if !present.value then Some(true)
    else if metadata.JObject? then Some(!PyTruthy(Member(metadata.fields, "cycle")))
    else None
  }

  /** The index of the first annex whose value is not a list, or the
      number of annexes. */
  function FirstNonList(fs: Dict<string, Json>): (k: nat)
    ensures k <= |fs|
    ensures k < |fs| ==> !fs[k].1.JList?
    ensures forall j :: 0 <= j < k ==> fs[j].1.JList?
  {
    if fs == [] then 0 else if !fs[0].1.JList? then 0 else 1 + FirstNonList(fs[1..])
  }

  /** The sum of the lengths of the list values. */
  function ListTotal(fs: Dict<string, Json>): nat {
    if fs == [] then 0
    else ListTotal(fs[..|fs| - 1]) + (if fs[|fs| - 1].1.JList? then |fs[|fs| - 1].1.items| else 0)
  }

  /** The index of the first annex with a non-empty list, or the number of
      annexes. */
  function FirstNonEmpty(fs: Dict<string, Json>): (k: nat)
    ensures k <= |fs|
    ensures k < |fs| ==> fs[k].1.JList? && fs[k].1.items != []
    ensures forall j :: 0 <= j < k ==> !(fs[j].1.JList? && fs[j].1.items != [])
  {
    if fs == [] then 0
    else if fs[0].1.JList? && fs[0].1.items != [] then 0
    else 1 + FirstNonEmpty(fs[1..])
  }

  /** `[f for f in fields if f not in first]`, `None` when a test raises. */
  function MissingOf(fields: seq<string>, first: Json): (r: Option<seq<string>>)
    ensures first.JObject? ==> r.Some? && forall f :: f in r.value <==> f in fields && f !in Keys(first.fields)
  {
    if fields == [] then Some([])
    else
      var m := MissingOf(fields[..|fields| - 1], first);
      var present := PyIn(fields[|fields| - 1], first);
      if m.None? || present.None? then None
      else
        assert fields == fields[..|fields| - 1] + [fields[|fields| - 1]];
        Some(m.value + (if present.value then [] else [fields[|fields| - 1]]))
  }

  /** Step 8: the warning about the first entry of the first non-empty
      annex, if any; `None` when a test raises. */
  function SampleCheck(annexes: Dict<string, Json>): Option<seq<Warning>> {
    var k := FirstNonEmpty(annexes);
    if k == |annexes| then Some([])
    else
      var missing := MissingOf(RequiredFields, annexes[k].1.items[0]);
      if missing.None? then None
      else if missing.value == [] then Some([])
      else Some([MissingFields(annexes[k].0, missing.value)])
  }

  /** What `validate_rad` returns for a loaded JSON value. */
  function ValidateSpec(data: Json): Outcome {
    var keys := KeyCheck(data, RequiredKeys);
    if keys.Some? then keys.value
    else if !data.JObject? then Raised
    else
      KeysPresent(data);
      ObjectSpec(data.fields)
  }

  predicate HasRequiredKeys(fs: Dict<string, Json>) {
    "metadata" in Keys(fs) && "annexes" in Keys(fs) && "stats" in Keys(fs)
  }

  /** Steps 4 to 8 on an object that has the three keys. */
  function ObjectSpec(fs: Dict<string, Json>): Outcome
    requires HasRequiredKeys(fs)
  {
    var cycleWarns := CycleWarns(Member(fs, "metadata"));
    if cycleWarns.None? then Raised
    else AnnexSpec(fs, if cycleWarns.value then [MissingCycle] else [])
  }

  /** Steps 5 to 8, after the metadata warnings. */
  function AnnexSpec(fs: Dict<string, Json>, warnings: seq<Warning>): Outcome
    requires HasRequiredKeys(fs)
  {
    var annexes := Member(fs, "annexes");
    if !annexes.JObject? then Raised
    else
      var bad := FirstNonList(annexes.fields);
      if bad < |annexes.fields| then Failed(NotAList(annexes.fields[bad].0))
      else StatsSpec(fs, annexes.fields, warnings)
  }

  /** Steps 6 to 8, once every annex is a list. */
  function StatsSpec(fs: Dict<string, Json>, annexes: Dict<string, Json>, warnings: seq<Warning>): Outcome
    requires HasRequiredKeys(fs)
  {
    var stats := Member(fs, "stats");
    if !stats.JObject? then Raised
    else
      var total := ListTotal(annexes);
      var stated := Lookup(stats.fields, "total_entries").GetOr(JNum(0));
      var sample := SampleCheck(annexes);
      if sample.None? then Raised
      else Passed(total, warnings + (if PyEqualsInt(stated, total) then [] else [StatsMismatch(stated, total)]) + sample.value)
  }

  // ------------------------------------------------------------ the method

  /** `validate_rad`, from step 3 on. */
  method Validate(data: Json) returns (outcome: Outcome)
    ensures outcome == ValidateSpec(data)
  {
    // 3. structure
    var keys := CheckKeys(data);
    if keys.Some? {
      return keys.value;
    }
    if !data.JObject? {
      return Raised;
    }
    KeysPresent(data);
    outcome := ValidateObject(data.fields);
  }

  method ValidateObject(fs: Dict<string, Json>) returns (outcome: Outcome)
    requires HasRequiredKeys(fs)
    ensures outcome == ObjectSpec(fs)
  {
    // 4. metadata
    var warnings: seq<Warning> := [];
    var metadata := Member(fs, "metadata");
    var hasCycle := PyIn("cycle", metadata);
    if hasCycle.None? {
      return Raised;
    }
    if !hasCycle.value {
      warnings := warnings + [MissingCycle];
    } else if !metadata.JObject? {
      return Raised;
    } else if !PyTruthy(Member(metadata.fields, "cycle")) {
      warnings := warnings + [MissingCycle];
    }
    // 5. annexes
    var annexes := Member(fs, "annexes");
    if !annexes.JObject? {
      return Raised;
    }
    var bad, totalEntries := CountEntries(annexes.fields);
    if bad < |annexes.fields| {
      return Failed(NotAList(annexes.fields[bad].0));
    }
    // 6. stats
    var stats := Member(fs, "stats");
    if !stats.JObject? {
      return Raised;
    }
    var statsTotal := Lookup(stats.fields, "total_entries").GetOr(JNum(0));
    if !PyEqualsInt(statsTotal, totalEntries) {
      warnings := warnings + [StatsMismatch(statsTotal, totalEntries)];
    }
    // 8. sample
    var sample := SampleWarnings(annexes.fields);
    if sample.None? {
      return Raised;
    }
    return Passed(totalEntries, warnings + sample.value);
  }

  /** The loop over the required keys of step 3. */
  method CheckKeys(data: Json) returns (r: Option<Outcome>)
    ensures r == KeyCheck(data, RequiredKeys)
  {
    for i := 0 to |RequiredKeys|
      invariant KeyCheck(data, RequiredKeys) == KeyCheck(data, RequiredKeys[i..])
    {
      var key := RequiredKeys[i];
      var present := PyIn(key, data);
      if present.None? {
        return Some(Raised);
      }
      if !present.value {
        return Some(Failed(MissingKey(key)));
      }
      assert RequiredKeys[i..][1..] == RequiredKeys[i + 1..];
    }
    return None;
  }

  /** The loop of step 5: the index of the first annex that is not a list
      (where the function returns), and otherwise the summed lengths. */
  method CountEntries(annexes: Dict<string, Json>) returns (bad: nat, total: nat)
    ensures bad == FirstNonList(annexes)
    ensures bad == |annexes| ==> total == ListTotal(annexes)
  {
    total := 0;
    for i := 0 to |annexes|
      invariant forall j :: 0 <= j < i ==> annexes[j].1.JList?
      invariant total == ListTotal(annexes[..i])
    {
      var entries := annexes[i].1;
      if !entries.JList? {
        FirstNonListAt(annexes, i);
        return i, total;
      }
      assert annexes[..i + 1][..i] == annexes[..i];
      total := total + |entries.items|;
    }
    assert annexes[..|annexes|] == annexes;
    FirstNonListAt(annexes, |annexes|);
    bad := |annexes|;
  }

  /** The inner loop of step 8: the fields of `fields` that `first` lacks. */
  method FindMissing(fields: seq<string>, first: Json) returns (r: Option<seq<string>>)
    ensures r == MissingOf(fields, first)
  {
    var missing: seq<string> := [];
    var f := 0;
    while f < |fields|
      invariant f <= |fields|
      invariant MissingOf(fields[..f], first) == Some(missing)
    {
      var present := PyIn(fields[f], first);
      if present.None? {
        MissingPropagates(fields, f, first);
        return None;
      }
      var prefix := fields[..f + 1];
      assert prefix[..|prefix| - 1] == fields[..f];
      assert prefix[|prefix| - 1] == fields[f];
      MissingStep(prefix, first, missing);
      assert missing + [] == missing;
      if !present.value {
        missing := missing + [fields[f]];
      }
      f := f + 1;
    }
    assert fields[..|fields|] == fields;
    return Some(missing);
  }

  /** The sample loop of step 8: stops at the first non-empty annex. */
  method SampleWarnings(annexes: Dict<string, Json>) returns (r: Option<seq<Warning>>)
    ensures r == SampleCheck(annexes)
  {
    var i := 0;
    while i < |annexes|
      invariant i <= |annexes|
      invariant forall j :: 0 <= j < i ==> !(annexes[j].1.JList? && annexes[j].1.items != [])
    {
      var annexKey, entries := annexes[i].0, annexes[i].1;
      if entries.JList? && entries.items != [] {
        FirstNonEmptyAt(annexes, i);
        var first := entries.items[0];
        var missing := FindMissing(RequiredFields, first);
        if missing.None? {
          return None;
        }
        if missing.value != [] {
          return Some([MissingFields(annexKey, missing.value)]);
        }
        return Some([]);
      }
      i := i + 1;
    }
    FirstNonEmptyAt(annexes, i);
    return Some([]);
  }

  /** Every required key `in` finds in an object is one of its keys. */
  lemma KeysPresent(data: Json)
    requires data.JObject? && KeyCheck(data, RequiredKeys).None?
    ensures HasRequiredKeys(data.fields)
  {
    assert PyIn(RequiredKeys[0], data) == Some(true);
    assert PyIn(RequiredKeys[1], data) == Some(true);
    assert PyIn(RequiredKeys[2], data) == Some(true);
  }

  lemma MissingStep(fields: seq<string>, first: Json, missing: seq<string>)
    requires fields != [] && MissingOf(fields[..|fields| - 1], first) == Some(missing)
    requires PyIn(fields[|fields| - 1], first).Some?
    ensures MissingOf(fields, first) ==
      Some(missing + (if PyIn(fields[|fields| - 1], first).value then [] else [fields[|fields| - 1]]))
  {
  }

  lemma FirstNonListAt(fs: Dict<string, Json>, i: nat)
    requires i <= |fs|
    requires forall j :: 0 <= j < i ==> fs[j].1.JList?
    requires i < |fs| ==> !fs[i].1.JList?
    ensures FirstNonList(fs) == i
  {
  }

  lemma FirstNonEmptyAt(fs: Dict<string, Json>, i: nat)
    requires i <= |fs|
    requires forall j :: 0 <= j < i ==> !(fs[j].1.JList? && fs[j].1.items != [])
    requires i < |fs| ==> fs[i].1.JList? && fs[i].1.items != []
    ensures FirstNonEmpty(fs) == i
  {
  }

  /** A test that raises makes the whole comprehension raise. */
  lemma {:induction false} MissingPropagates(fields: seq<string>, f: nat, first: Json)
    requires f < |fields| && PyIn(fields[f], first).None?
    ensures MissingOf(fields, first).None?
    decreases |fields|
  {
    if f < |fields| - 1 {
      MissingPropagates(fields[..|fields| - 1], f, first);
    }
  }

  // ------------------------------------------------------------ properties

  /** The key check stops at the first key `in` does not find. */
  lemma {:induction false} KeyCheckAt(data: Json, keys: seq<string>, i: nat)
    requires i < |keys| && PyIn(keys[i], data) == Some(false)
    requires forall j :: 0 <= j < i ==> PyIn(keys[j], data) == Some(true)
    ensures KeyCheck(data, keys) == Some(Failed(MissingKey(keys[i])))
  {
    if i > 0 {
      KeyCheckAt(data, keys[1..], i - 1);
    }
  }

  /** A dict missing a required key fails on the first one missing, before
      anything else is looked at. */
  lemma MissingKeyFails(fs: Dict<string, Json>, i: nat)
    requires i < |RequiredKeys| && RequiredKeys[i] !in Keys(fs)
    requires forall j :: 0 <= j < i ==> RequiredKeys[j] in Keys(fs)
    ensures ValidateSpec(JObject(fs)) == Failed(MissingKey(RequiredKeys[i]))
  {
    KeyCheckAt(JObject(fs), RequiredKeys, i);
  }

  /** The two ways to fail: a required key that `in` does not find (for a
      dict, a key it lacks), or an annex whose value is not a list. */
  lemma FailureReasons(data: Json)
    requires ValidateSpec(data).Failed?
    ensures var reason := ValidateSpec(data).reason;
      match reason
      case MissingKey(key) =>
        key in RequiredKeys && PyIn(key, data) == Some(false) &&
        (data.JObject? ==> key !in Keys(data.fields))
      case NotAList(annexKey) =>
        data.JObject? && HasRequiredKeys(data.fields) && Member(data.fields, "annexes").JObject? &&
        var annexes := Member(data.fields, "annexes").fields;
        exists k :: 0 <= k < |annexes| && annexes[k].0 == annexKey && !annexes[k].1.JList?
  {
    var keys := KeyCheck(data, RequiredKeys);
    if keys.None? {
      KeysPresent(data);
      var fs := data.fields;
      var annexes := Member(fs, "annexes").fields;
      var bad := FirstNonList(annexes);
      assert bad < |annexes|;
    }
  }

  /** Passing means: a dict with the three keys, `annexes` a dict of lists,
      and the total printed is the number of entries in those lists. */
  lemma PassedMeans(data: Json)
    requires ValidateSpec(data).Passed?
    ensures data.JObject? && HasRequiredKeys(data.fields)
    ensures Member(data.fields, "annexes").JObject? && Member(data.fields, "stats").JObject?
    ensures var annexes := Member(data.fields, "annexes").fields;
      (forall k :: 0 <= k < |annexes| ==> annexes[k].1.JList?) &&
      ValidateSpec(data).total == ListTotal(annexes)
  {
    KeysPresent(data);
  }

  /** A document of the shape the parser writes passes, whatever its cycle,
      its stated total and its first entries hold: those only warn. */
  lemma WellShapedPasses(fs: Dict<string, Json>)
    requires HasRequiredKeys(fs)
    requires Member(fs, "metadata").JObject? && Member(fs, "stats").JObject?
    requires Member(fs, "annexes").JObject?
    requires var annexes := Member(fs, "annexes").fields;
      forall k :: 0 <= k < |annexes| ==>
        annexes[k].1.JList? && (annexes[k].1.items != [] ==> annexes[k].1.items[0].JObject?)
    ensures ValidateSpec(JObject(fs)) == Passed(ListTotal(Member(fs, "annexes").fields), ValidateSpec(JObject(fs)).warnings)
  {
    var data := JObject(fs);
    assert KeyCheck(data, RequiredKeys).None? by {
      assert RequiredKeys[0] == "metadata" && RequiredKeys[1] == "annexes" && RequiredKeys[2] == "stats";
    }
    var annexes := Member(fs, "annexes").fields;
    FirstNonListAt(annexes, |annexes|);
  }

  /** On a pass, which warnings were printed: the cycle warning exactly
      when `cycle` is absent or falsy, the stats warning exactly when the
      stated total differs from the count, and a field warning only about
      the first non-empty annex and its first entry. */
  lemma PassedWarnings(data: Json)
    requires ValidateSpec(data).Passed?
    ensures data.JObject? && HasRequiredKeys(data.fields)
    ensures var fs := data.fields;
      var warnings := ValidateSpec(data).warnings;
      var metadata := Member(fs, "metadata");
      var stated := Lookup(Member(fs, "stats").fields, "total_entries").GetOr(JNum(0));
      var total := ValidateSpec(data).total;
      var annexes := Member(fs, "annexes").fields;
      Member(fs, "stats").JObject? && Member(fs, "annexes").JObject? &&
      (metadata.JObject? ==>
        (MissingCycle in warnings <==> !("cycle" in Keys(metadata.fields) && PyTruthy(Member(metadata.fields, "cycle"))))) &&
      (!metadata.JObject? ==> MissingCycle in warnings) &&
      (StatsMismatch(stated, total) in warnings <==> !PyEqualsInt(stated, total)) &&
      (forall w :: w in warnings && w.StatsMismatch? ==> w == StatsMismatch(stated, total)) &&
      (forall w :: w in warnings && w.MissingFields? ==> AboutFirstEntry(w, annexes))
  {
    var w0, mid, sample := PassedShape(data);
    SampleFields(Member(data.fields, "annexes").fields);
    WarningParts(w0, mid, sample);
    assert MissingCycle in w0 + mid + sample <==> MissingCycle in w0;
    assert forall w: Warning :: w in w0 + mid + sample && w.StatsMismatch? ==> w in mid;
    assert forall w: Warning :: w in w0 + mid + sample && w.MissingFields? ==> w in sample;
  }

  /** A passing outcome lists the metadata warning, then the stats warning,
      then the sample warnings, each group as its step computes it. */
  lemma PassedShape(data: Json) returns (w0: seq<Warning>, mid: seq<Warning>, sample: seq<Warning>)
    requires ValidateSpec(data).Passed?
    ensures data.JObject? && HasRequiredKeys(data.fields)
    ensures Member(data.fields, "stats").JObject? && Member(data.fields, "annexes").JObject?
    ensures ValidateSpec(data).warnings == w0 + mid + sample
    ensures ValidateSpec(data).total == ListTotal(Member(data.fields, "annexes").fields)
    ensures var metadata := Member(data.fields, "metadata");
      (metadata.JObject? ==> w0 == if "cycle" in Keys(metadata.fields) && PyTruthy(Member(metadata.fields, "cycle")) then [] else [MissingCycle]) &&
      (!metadata.JObject? ==> w0 == [MissingCycle])
    ensures var stated := Lookup(Member(data.fields, "stats").fields, "total_entries").GetOr(JNum(0));
      var total := ListTotal(Member(data.fields, "annexes").fields);
      mid == if PyEqualsInt(stated, total) then [] else [StatsMismatch(stated, total)]
    ensures SampleCheck(Member(data.fields, "annexes").fields).Some?
    ensures sample == SampleCheck(Member(data.fields, "annexes").fields).value
  {
    KeysPresent(data);
    var fs := data.fields;
    var o := ValidateSpec(data);
    var cw := CycleWarns(Member(fs, "metadata"));
    w0 := if cw.value then [MissingCycle] else [];
    assert o == AnnexSpec(fs, w0);
    var annexes := Member(fs, "annexes").fields;
    assert o == StatsSpec(fs, annexes, w0);
    var stated := Lookup(Member(fs, "stats").fields, "total_entries").GetOr(JNum(0));
    var total := ListTotal(annexes);
    sample := SampleCheck(annexes).value;
    mid := if PyEqualsInt(stated, total) then [] else [StatsMismatch(stated, total)];
    assert o == Passed(total, w0 + mid + sample);
  }

  /** The only warning the sample check gives is about the first entry of
      the first non-empty annex. */
  lemma SampleFields(annexes: Dict<string, Json>)
    requires SampleCheck(annexes).Some?
    ensures forall w :: w in SampleCheck(annexes).value ==> AboutFirstEntry(w, annexes)
  {
  }

  /** `w` is a missing-fields warning about the first entry of the first
      non-empty annex, naming exactly the required fields that entry lacks
      when it is an object. */
  ghost predicate AboutFirstEntry(w: Warning, annexes: Dict<string, Json>) {
    var k := FirstNonEmpty(annexes);
    w.MissingFields? && k < |annexes| && w.annexKey == annexes[k].0 && w.fields != [] &&
    (annexes[k].1.JList? && annexes[k].1.items != [] && annexes[k].1.items[0].JObject? ==>
      forall f :: f in w.fields <==> f in RequiredFields && f !in Keys(annexes[k].1.items[0].fields))
  }

  /** Membership in the three warning groups. */
  lemma WarningParts(w0: seq<Warning>, mid: seq<Warning>, sample: seq<Warning>)
    ensures forall w :: w in w0 + mid + sample <==> w in w0 || w in mid || w in sample
  {
  }
}

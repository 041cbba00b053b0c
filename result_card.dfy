/** The helpers of the result card: the plain-text copy of an entry, the
    escape that turns a search term into a literal regular expression, the
    early return of the highlighter, and the change-status badge. */
module ResultCard {
  import opened Wrappers
  import opened Text
  import opened Seqs
  import opened RadData

  // ------------------------------------------------------------ formatForCopy

  /** The fields `formatForCopy` reads. The id, annex and type are read as
      a template literal shows them; every other field as its value when it
      is set and as the empty string when it is not, so that a field counts
      as set exactly when its view is not empty. */
  datatype CopyView = CopyView(
    id: string, annex: string, kind: string,
    validFrom: string, validUntil: string,
    point: string, airway: string, fromPoint: string, toPoint: string,
    aerodrome: string, dctArr: string, dctDep: string,
    firstStar: string, lastSid: string, arrFpl: string, depFpl: string,
    utilization: string, goal: string, time: string, remarks: string)

  function ViewOf(e: Entry): (v: CopyView)
    ensures v.id == Interp(e, "id") && v.annex == Interp(e, "annex") && v.kind == Interp(e, "type")
  {
    CopyView(
      Interp(e, "id"), Interp(e, "annex"), Interp(e, "type"),
      OrElse(e, "valid_from", ""), OrElse(e, "valid_until", ""),
      OrElse(e, "point_or_airspace", ""), OrElse(e, "airway", ""), OrElse(e, "from_point", ""), OrElse(e, "to_point", ""),
      OrElse(e, "aerodrome", ""), OrElse(e, "dct_arr_pt", ""), OrElse(e, "dct_dep_pt", ""),
      OrElse(e, "first_pt_star", ""), OrElse(e, "last_pt_sid", ""), OrElse(e, "arr_fpl_option", ""), OrElse(e, "dep_fpl_options", ""),
      OrElse(e, "utilization", ""), OrElse(e, "operational_goal", ""), OrElse(e, "time_applicability", ""), OrElse(e, "remarks", ""))
  }

  /** `a || b` on two views. */
  function Or(a: string, b: string): string {
    if a != "" then a else b
  }

  /** The lines pushed when `c` holds. */
  function If(c: bool, lines: seq<string>): seq<string> {
    if c then lines else []
  }

  /** The four lines every copy starts with. */
  function HeaderLines(v: CopyView): seq<string> {
    ["ID: " + v.id, "Annex: " + v.annex, "Type: " + v.kind, ""]
  }

  /** The validity line: an open start reads '...', an open end 'UFN'. */
  function ValidityLine(v: CopyView): string {
    "Valid: " + Or(v.validFrom, "...") + " \U{2192} " + Or(v.validUntil, "UFN")
  }

  /** The airway line, trimmed as a whole. */
  function AirwayLine(v: CopyView): string {
    JsTrim("Airway: " + v.fromPoint + " " + v.airway + " " + v.toPoint)
  }

  /** When a validity date is set, the validity line and a blank line. */
  function ValidityPart(v: CopyView): seq<string> {
    If(v.validFrom != "" || v.validUntil != "", [ValidityLine(v), ""])
  }

  // The body of the copy, in the order of the source, in four groups of
  // sections: the places, the route, the operational notes and the
  // closing lines.

  /** Point or airspace, airway and aerodrome. */
  function Places(v: CopyView): seq<string> {
    If(v.point != "", ["Point/Airspace: " + v.point]) +
    If(v.airway != "", [AirwayLine(v)]) +
    If(v.aerodrome != "", ["Aerodrome: " + v.aerodrome])
  }

  /** DCT point (arrival before departure), first STAR point, last SID point. */
  function Route(v: CopyView): seq<string> {
    If(v.dctArr != "" || v.dctDep != "", ["DCT Point: " + Or(v.dctArr, v.dctDep)]) +
    If(v.firstStar != "", ["First PT STAR: " + v.firstStar]) +
    If(v.lastSid != "", ["Last PT SID: " + v.lastSid])
  }

  /** Flight-plan options (arrival before departure), utilization and
      operational goal, each under a blank line and a heading. */
  function Notes(v: CopyView): seq<string> {
    If(v.arrFpl != "" || v.depFpl != "", ["", "FPL Options:", Or(v.arrFpl, v.depFpl)]) +
    If(v.utilization != "", ["", "Utilization:", v.utilization]) +
    If(v.goal != "", ["", "Operational Goal:", v.goal])
  }

  /** Time of applicability and remarks, each under a blank line. */
  function Closing(v: CopyView): seq<string> {
    If(v.time != "", ["", "Time: " + v.time]) +
    If(v.remarks != "", ["", "Remarks: " + v.remarks])
  }

  function Body(v: CopyView): seq<string> {
    Places(v) + Route(v) + Notes(v) + Closing(v)
  }

  /** Every line of the copy of a view, in order. */
  function ViewLines(v: CopyView): seq<string> {
    HeaderLines(v) + (ValidityPart(v) + Body(v))
  }

  /** Every line of the copy of an entry. */
  function CopyLines(e: Entry): seq<string> {
    ViewLines(ViewOf(e))
  }

  /** The text put on the clipboard. */
  function CopyText(e: Entry): string {
    Join(CopyLines(e), "\n")
  }

  /** One `if (...) lines.push(...)`: the lines grow by the section when
      its condition holds. */
  lemma PushStep(start: seq<string>, pushed: seq<string>, before: seq<string>, after: seq<string>, c: bool, xs: seq<string>)
    requires before == start + pushed
    requires after == if c then before + xs else before
    ensures after == start + (pushed + If(c, xs))
  {
  }

  /** The pushes of the place sections. */
  method PushPlaces(v: CopyView, start: seq<string>) returns (lines: seq<string>)
    ensures lines == start + Places(v)
  {
    lines := start;
    if v.point != "" {
      lines := lines + ["Point/Airspace: " + v.point];
    }
    ghost var before := lines;
    PushStep(start, [], start, lines, v.point != "", ["Point/Airspace: " + v.point]);
    if v.airway != "" {
      lines := lines + [JsTrim("Airway: " + v.fromPoint + " " + v.airway + " " + v.toPoint)];
    }
    PushStep(start, If(v.point != "", ["Point/Airspace: " + v.point]), before, lines, v.airway != "", [AirwayLine(v)]);
    before := lines;
    if v.aerodrome != "" {
      lines := lines + ["Aerodrome: " + v.aerodrome];
    }
    PushStep(start, If(v.point != "", ["Point/Airspace: " + v.point]) + If(v.airway != "", [AirwayLine(v)]),
      before, lines, v.aerodrome != "", ["Aerodrome: " + v.aerodrome]);
  }

  /** The pushes of the route sections. */
  method PushRoute(v: CopyView, start: seq<string>) returns (lines: seq<string>)
    ensures lines == start + Route(v)
  {
    var dct := ["DCT Point: " + Or(v.dctArr, v.dctDep)];
    lines := start;
    if v.dctArr != "" || v.dctDep != "" {
      lines := lines + ["DCT Point: " + (if v.dctArr != "" then v.dctArr else v.dctDep)];
    }
    ghost var before := lines;
    PushStep(start, [], start, lines, v.dctArr != "" || v.dctDep != "", dct);
    if v.firstStar != "" {
      lines := lines + ["First PT STAR: " + v.firstStar];
    }
    PushStep(start, If(v.dctArr != "" || v.dctDep != "", dct), before, lines, v.firstStar != "", ["First PT STAR: " + v.firstStar]);
    before := lines;
    if v.lastSid != "" {
      lines := lines + ["Last PT SID: " + v.lastSid];
    }
    PushStep(start, If(v.dctArr != "" || v.dctDep != "", dct) + If(v.firstStar != "", ["First PT STAR: " + v.firstStar]),
      before, lines, v.lastSid != "", ["Last PT SID: " + v.lastSid]);
  }

  /** The pushes of the operational notes. */
  method PushNotes(v: CopyView, start: seq<string>) returns (lines: seq<string>)
    ensures lines == start + Notes(v)
  {
    var fpl := ["", "FPL Options:", Or(v.arrFpl, v.depFpl)];
    var utilization := ["", "Utilization:", v.utilization];
    lines := start;
    if v.arrFpl != "" || v.depFpl != "" {
      lines := lines + ["", "FPL Options:", if v.arrFpl != "" then v.arrFpl else v.depFpl];
    }
    ghost var before := lines;
    PushStep(start, [], start, lines, v.arrFpl != "" || v.depFpl != "", fpl);
    if v.utilization != "" {
      lines := lines + ["", "Utilization:", v.utilization];
    }
    PushStep(start, If(v.arrFpl != "" || v.depFpl != "", fpl), before, lines, v.utilization != "", utilization);
    before := lines;
    if v.goal != "" {
      lines := lines + ["", "Operational Goal:", v.goal];
    }
    PushStep(start, If(v.arrFpl != "" || v.depFpl != "", fpl) + If(v.utilization != "", utilization),
      before, lines, v.goal != "", ["", "Operational Goal:", v.goal]);
  }

  /** The pushes of the closing lines. */
  method PushClosing(v: CopyView, start: seq<string>) returns (lines: seq<string>)
    ensures lines == start + Closing(v)
  {
    lines := start;
    if v.time != "" {
      lines := lines + ["", "Time: " + v.time];
    }
    ghost var before := lines;
    PushStep(start, [], start, lines, v.time != "", ["", "Time: " + v.time]);
    if v.remarks != "" {
      lines := lines + ["", "Remarks: " + v.remarks];
    }
    PushStep(start, If(v.time != "", ["", "Time: " + v.time]), before, lines, v.remarks != "", ["", "Remarks: " + v.remarks]);
  }

  /** `formatForCopy`: reads the fields of the entry, collects the lines
      section by section, in the order above, and joins them with newlines. */
  method FormatForCopy(e: Entry) returns (text: string)
    ensures text == CopyText(e)
  {
    text := FormatView(ViewOf(e));
  }

  method FormatView(v: CopyView) returns (text: string)
    ensures text == Join(ViewLines(v), "\n")
  {
    var lines := ["ID: " + v.id, "Annex: " + v.annex, "Type: " + v.kind, ""];
    if v.validFrom != "" || v.validUntil != "" {
      lines := lines + ["Valid: " + Or(v.validFrom, "...") + " \U{2192} " + Or(v.validUntil, "UFN")];
      lines := lines + [""];
    }
    assert lines == HeaderLines(v) + ValidityPart(v);
    lines := PushPlaces(v, lines);
    lines := PushRoute(v, lines);
    lines := PushNotes(v, lines);
    lines := PushClosing(v, lines);
    Regroup(HeaderLines(v), ValidityPart(v), Places(v), Route(v), Notes(v), Closing(v));
    text := Join(lines, "\n");
  }

  /** The copy starts with the id, annex and type lines and a blank line,
      as a reader splitting it on newlines sees them, whenever those three
      values are single lines. */
  lemma CopyStartsWithHeader(e: Entry)
    requires Free(Interp(e, "id"), '\n') && Free(Interp(e, "annex"), '\n') && Free(Interp(e, "type"), '\n')
    ensures var read := Split(CopyText(e), '\n');
      4 <= |read| && read[..4] == ["ID: " + Interp(e, "id"), "Annex: " + Interp(e, "annex"), "Type: " + Interp(e, "type"), ""]
  {
    ViewStartsWithHeader(ViewOf(e));
  }

  lemma ViewStartsWithHeader(v: CopyView)
    requires Free(v.id, '\n') && Free(v.annex, '\n') && Free(v.kind, '\n')
    ensures var read := Split(Join(ViewLines(v), "\n"), '\n');
      4 <= |read| && read[..4] == HeaderLines(v)
  {
    HeaderRead(v, ViewLines(v), ValidityPart(v) + Body(v));
  }

  lemma HeaderRead(v: CopyView, lines: seq<string>, rest: seq<string>)
    requires Free(v.id, '\n') && Free(v.annex, '\n') && Free(v.kind, '\n')
    requires lines == HeaderLines(v) + rest
    ensures var read := Split(Join(lines, "\n"), '\n');
      4 <= |read| && read[..4] == HeaderLines(v)
  {
    FreeHeader(v);
    LeadingRead(lines, HeaderLines(v), rest);
  }

  /** Lines free of newlines at the front of a joined text read back as
      they are. */
  lemma LeadingRead(lines: seq<string>, h: seq<string>, rest: seq<string>)
    requires lines == h + rest
    requires forall j :: 0 <= j < |h| ==> Free(h[j], '\n')
    ensures var read := Split(Join(lines, "\n"), '\n');
      |h| <= |read| && read[..|h|] == h
  {
    assert lines[..|h|] == h;
    SplitJoinLeading(lines, '\n', |h|);
  }

  /** Concatenation regrouped: the lines pushed group after group are the
      head followed by the body. */
  lemma Regroup(h: seq<string>, a: seq<string>, b: seq<string>, c: seq<string>, d: seq<string>, f: seq<string>)
    ensures h + a + b + c + d + f == h + (a + (b + c + d + f))
  {
  }

  lemma FreeHeader(v: CopyView)
    requires Free(v.id, '\n') && Free(v.annex, '\n') && Free(v.kind, '\n')
    ensures forall j :: 0 <= j < 4 ==> Free(HeaderLines(v)[j], '\n')
  {
    assert Free("ID: ", '\n') && Free("Annex: ", '\n') && Free("Type: ", '\n');
    FreeAppend("ID: ", v.id, '\n');
    FreeAppend("Annex: ", v.annex, '\n');
    FreeAppend("Type: ", v.kind, '\n');
  }

  lemma FreeAppend(a: string, b: string, c: char)
    requires Free(a, c) && Free(b, c)
    ensures Free(a + b, c)
  {
  }

  /** Lines that do not start like the validity line. */
  predicate NoValidLead(lines: seq<string>) {
    lines == [] || !("Valid: " <= lines[0])
  }

  lemma LeadConcat(a: seq<string>, b: seq<string>)
    requires NoValidLead(a) && NoValidLead(b)
    ensures NoValidLead(a + b)
  {
    if a == [] {
      assert a + b == b;
    } else {
      assert (a + b)[0] == a[0];
    }
  }

  /** A section whose first line does not start with a `V`. */
  lemma LeadIf(c: bool, xs: seq<string>)
    requires xs == [] || xs[0] == [] || xs[0][0] != 'V'
    ensures NoValidLead(If(c, xs))
  {
  }

  lemma LeadLabel(prefix: string, s: string)
    requires prefix != [] && prefix[0] != 'V'
    ensures (prefix + s)[0] != 'V'
  {
  }

  /** No section of the body starts like the validity line. */
  lemma BodyLead(v: CopyView)
    ensures NoValidLead(Body(v))
  {
    var airway := "Airway: " + v.fromPoint + " " + v.airway + " " + v.toPoint;
    TrimStartsAt(airway, IsJsSpace);
    LeadLabel("Point/Airspace: ", v.point);
    LeadIf(v.point != "", ["Point/Airspace: " + v.point]);
    LeadIf(v.airway != "", [AirwayLine(v)]);
    LeadConcat(If(v.point != "", ["Point/Airspace: " + v.point]), If(v.airway != "", [AirwayLine(v)]));
    LeadLabel("Aerodrome: ", v.aerodrome);
    LeadIf(v.aerodrome != "", ["Aerodrome: " + v.aerodrome]);
    LeadConcat(If(v.point != "", ["Point/Airspace: " + v.point]) + If(v.airway != "", [AirwayLine(v)]),
      If(v.aerodrome != "", ["Aerodrome: " + v.aerodrome]));
    RouteLead(v);
    NotesLead(v);
    ClosingLead(v);
    LeadConcat(Places(v), Route(v));
    LeadConcat(Places(v) + Route(v), Notes(v));
    LeadConcat(Places(v) + Route(v) + Notes(v), Closing(v));
  }

  lemma RouteLead(v: CopyView)
    ensures NoValidLead(Route(v))
  {
    var dct := If(v.dctArr != "" || v.dctDep != "", ["DCT Point: " + Or(v.dctArr, v.dctDep)]);
    var star := If(v.firstStar != "", ["First PT STAR: " + v.firstStar]);
    var sid := If(v.lastSid != "", ["Last PT SID: " + v.lastSid]);
    LeadLabel("DCT Point: ", Or(v.dctArr, v.dctDep));
    LeadLabel("First PT STAR: ", v.firstStar);
    LeadLabel("Last PT SID: ", v.lastSid);
    LeadIf(v.dctArr != "" || v.dctDep != "", ["DCT Point: " + Or(v.dctArr, v.dctDep)]);
    LeadIf(v.firstStar != "", ["First PT STAR: " + v.firstStar]);
    LeadIf(v.lastSid != "", ["Last PT SID: " + v.lastSid]);
    LeadConcat(dct, star);
    LeadConcat(dct + star, sid);
  }

  lemma NotesLead(v: CopyView)
    ensures NoValidLead(Notes(v))
  {
    var fpl := If(v.arrFpl != "" || v.depFpl != "", ["", "FPL Options:", Or(v.arrFpl, v.depFpl)]);
    var utilization := If(v.utilization != "", ["", "Utilization:", v.utilization]);
    var goal := If(v.goal != "", ["", "Operational Goal:", v.goal]);
    LeadIf(v.arrFpl != "" || v.depFpl != "", ["", "FPL Options:", Or(v.arrFpl, v.depFpl)]);
    LeadIf(v.utilization != "", ["", "Utilization:", v.utilization]);
    LeadIf(v.goal != "", ["", "Operational Goal:", v.goal]);
    LeadConcat(fpl, utilization);
    LeadConcat(fpl + utilization, goal);
  }

  lemma ClosingLead(v: CopyView)
    ensures NoValidLead(Closing(v))
  {
    LeadIf(v.time != "", ["", "Time: " + v.time]);
    LeadIf(v.remarks != "", ["", "Remarks: " + v.remarks]);
    LeadConcat(If(v.time != "", ["", "Time: " + v.time]), If(v.remarks != "", ["", "Remarks: " + v.remarks]));
  }

  predicate HasValidity(e: Entry) {
    Truthy(e, "valid_from") || Truthy(e, "valid_until")
  }

  /** Reading an optional field as the empty string when it is unset:
      the view is set exactly when the field is truthy, and `view || d`
      is `entry.f || d`. */
  lemma OptionalView(e: Entry, f: string, d: string)
    ensures OrElse(e, f, "") != "" <==> Truthy(e, f)
    ensures Or(OrElse(e, f, ""), d) == OrElse(e, f, d)
  {
  }

  lemma ViewValidityIff(v: CopyView)
    ensures v.validFrom != "" || v.validUntil != "" <==> 4 < |ViewLines(v)| && "Valid: " <= ViewLines(v)[4]
    ensures v.validFrom != "" || v.validUntil != "" ==>
      5 < |ViewLines(v)| && ViewLines(v)[4] == ValidityLine(v) && ViewLines(v)[5] == ""
  {
    var c := v.validFrom != "" || v.validUntil != "";
    assert NoValidLead(Body(v)) by {
      BodyLead(v);
    }
    FifthLine(HeaderLines(v), ValidityPart(v), Body(v));
    if c {
      assert "Valid: " <= ValidityLine(v);
    }
  }

  /** With four header lines in front, the fifth line comes from the
      middle part when it has lines, and from the body otherwise. */
  lemma FifthLine(h: seq<string>, mid: seq<string>, body: seq<string>)
    requires |h| == 4 && NoValidLead(body)
    ensures mid == [] ==> !(4 < |h + (mid + body)| && "Valid: " <= (h + (mid + body))[4])
    ensures |mid| == 2 ==> 5 < |h + (mid + body)| && (h + (mid + body))[4] == mid[0] && (h + (mid + body))[5] == mid[1]
  {
    if mid == [] && 4 < |h + (mid + body)| {
      assert (h + (mid + body))[4] == body[0];
    }
  }

  /** The fifth line is a validity line exactly when a validity date is
      set; it then shows '...' for an open start and 'UFN' for an open end,
      and a blank line follows it. */
  lemma ValidityLineIff(e: Entry)
    ensures HasValidity(e) <==> 4 < |CopyLines(e)| && "Valid: " <= CopyLines(e)[4]
    ensures HasValidity(e) ==>
      5 < |CopyLines(e)| &&
      CopyLines(e)[4] == "Valid: " + OrElse(e, "valid_from", "...") + " \U{2192} " + OrElse(e, "valid_until", "UFN") &&
      CopyLines(e)[5] == ""
  {
    var v := ViewOf(e);
    OptionalView(e, "valid_from", "...");
    OptionalView(e, "valid_until", "UFN");
    ViewValidityIff(v);
  }

  /** A view with none of the optional fields set. */
  predicate Bare(v: CopyView) {
    v.validFrom == "" && v.validUntil == "" && v.point == "" && v.airway == "" && v.aerodrome == "" &&
    v.dctArr == "" && v.dctDep == "" && v.firstStar == "" && v.lastSid == "" && v.arrFpl == "" &&
    v.depFpl == "" && v.utilization == "" && v.goal == "" && v.time == "" && v.remarks == ""
  }

  lemma BareViewCopy(v: CopyView)
    requires Bare(v)
    ensures Join(ViewLines(v), "\n") == "ID: " + v.id + "\nAnnex: " + v.annex + "\nType: " + v.kind + "\n"
  {
    assert ValidityPart(v) + Body(v) == [] by {
      assert ValidityPart(v) == [] && Places(v) == [] && Route(v) == [] && Notes(v) == [] && Closing(v) == [];
    }
    BareJoin(v, ViewLines(v), ValidityPart(v) + Body(v));
  }

  lemma BareJoin(v: CopyView, lines: seq<string>, rest: seq<string>)
    requires lines == HeaderLines(v) + rest && rest == []
    ensures Join(lines, "\n") == "ID: " + v.id + "\nAnnex: " + v.annex + "\nType: " + v.kind + "\n"
  {
    assert lines == ["ID: " + v.id, "Annex: " + v.annex, "Type: " + v.kind, ""];
    JoinFour("ID: " + v.id, "Annex: " + v.annex, "Type: " + v.kind);
  }

  lemma JoinFour(a: string, b: string, c: string)
    ensures Join([a, b, c, ""], "\n") == a + "\n" + b + "\n" + c + "\n"
  {
    var lines := [a, b, c, ""];
    assert lines[1..] == [b, c, ""] && lines[1..][1..] == [c, ""] && lines[1..][1..][1..] == [""];
    assert Join([c, ""], "\n") == c + "\n" + "";
  }

  /** An entry with no field besides its id, annex and type copies as
      three lines and a trailing newline (a missing one of the three reads
      'undefined'). */
  lemma BareEntryCopy(e: Entry)
    requires forall f :: f in Keys(e) ==> f == "id" || f == "annex" || f == "type"
    ensures CopyText(e) == "ID: " + Interp(e, "id") + "\nAnnex: " + Interp(e, "annex") + "\nType: " + Interp(e, "type") + "\n"
  {
    BareEntryView(e);
    BareViewCopy(ViewOf(e));
  }

  lemma BareEntryView(e: Entry)
    requires forall f :: f in Keys(e) ==> f == "id" || f == "annex" || f == "type"
    ensures Bare(ViewOf(e))
  {
    // every optional field name is longer than the three kept ones
    forall f | 5 < |f|
      ensures OrElse(e, f, "") == ""
    {
      assert f !in Keys(e);
    }
  }

  /** With both ends of an airway set, the line reads 'from airway to'. */
  lemma AirwayLineBothEnds(e: Entry)
    requires Truthy(e, "from_point") && Truthy(e, "to_point")
    requires !IsJsSpace(Field(e, "to_point").value[|Field(e, "to_point").value| - 1])
    ensures AirwayLine(ViewOf(e)) == "Airway: " + Field(e, "from_point").value + " " + OrElse(e, "airway", "") + " " + Field(e, "to_point").value
  {
    var line := "Airway: " + Field(e, "from_point").value + " " + OrElse(e, "airway", "") + " " + Field(e, "to_point").value;
    TrimKeeps(line, IsJsSpace);
  }

  /** The trim applies to the whole line, not to the route: without a start
      point the blank after the label stays, and without an end point the
      trailing blank goes. */
  lemma AirwayLineWithoutEnds(e: Entry)
    requires !Truthy(e, "from_point") && !Truthy(e, "to_point") && Truthy(e, "airway")
    requires !IsJsSpace(Field(e, "airway").value[|Field(e, "airway").value| - 1])
    ensures AirwayLine(ViewOf(e)) == "Airway:  " + Field(e, "airway").value
  {
    var a := Field(e, "airway").value;
    var raw := "Airway: " + "" + " " + a + " " + "";
    var line := "Airway:  " + a;
    assert raw == line + " ";
    assert TrimEnd(raw, IsJsSpace) == TrimEnd(line, IsJsSpace);
    TrimKeeps(line, IsJsSpace);
    assert TrimStart(raw, IsJsSpace) == raw;
  }

  /** For the DCT point and the flight-plan options, the arrival field wins
      over the departure field; the departure field shows only on its own. */
  lemma ArrivalWins(e: Entry)
    ensures Truthy(e, "dct_arr_pt") ==> "DCT Point: " + Field(e, "dct_arr_pt").value in CopyLines(e)
    ensures !Truthy(e, "dct_arr_pt") && Truthy(e, "dct_dep_pt") ==> "DCT Point: " + Field(e, "dct_dep_pt").value in CopyLines(e)
    ensures Truthy(e, "arr_fpl_option") ==> Field(e, "arr_fpl_option").value in CopyLines(e)
    ensures !Truthy(e, "arr_fpl_option") && Truthy(e, "dep_fpl_options") ==> Field(e, "dep_fpl_options").value in CopyLines(e)
  {
    var v := ViewOf(e);
    OptionalView(e, "dct_arr_pt", "");
    OptionalView(e, "dct_dep_pt", "");
    OptionalView(e, "arr_fpl_option", "");
    OptionalView(e, "dep_fpl_options", "");
    ViewArrivalWins(v);
  }

  lemma ViewArrivalWins(v: CopyView)
    ensures v.dctArr != "" || v.dctDep != "" ==> "DCT Point: " + Or(v.dctArr, v.dctDep) in ViewLines(v)
    ensures v.arrFpl != "" || v.depFpl != "" ==> Or(v.arrFpl, v.depFpl) in ViewLines(v)
  {
    if v.dctArr != "" || v.dctDep != "" {
      var dct := "DCT Point: " + Or(v.dctArr, v.dctDep);
      assert dct in If(true, [dct]);
      assert dct in Route(v);
      assert dct in Places(v) + Route(v);
      assert dct in Body(v);
    }
    if v.arrFpl != "" || v.depFpl != "" {
      var fpl := Or(v.arrFpl, v.depFpl);
      assert fpl in If(true, ["", "FPL Options:", fpl]);
      assert fpl in Notes(v);
      assert fpl in Places(v) + Route(v) + Notes(v);
      assert fpl in Body(v);
    }
  }

  // ------------------------------------------------------------ escapeRegex

  /** The characters `escapeRegex` puts a backslash before. */
  predicate IsRegexSpecial(c: char) {
    c == '.' || c == '*' || c == '+' || c == '?' || c == '^' || c == '$' || c == '{' || c == '}'
    || c == '(' || c == ')' || c == '|' || c == '[' || c == ']' || c == '\\'
  }

  function SpecialCount(s: string): nat {
    if s == [] then 0 else (if IsRegexSpecial(s[0]) then 1 else 0) + SpecialCount(s[1..])
  }

  /** `escapeRegex`: a backslash before every special character, every
      other character unchanged. */
  function EscapeRegex(s: string): (r: string)
    ensures |r| == |s| + SpecialCount(s)
  {
    if s == [] then []
    else (if IsRegexSpecial(s[0]) then ['\\', s[0]] else [s[0]]) + EscapeRegex(s[1..])
  }

  /** The text a pattern made only of literal tokens matches: an escaped
      special character or an ordinary character each match themselves;
      `None` for a pattern with any other token. */
  function LiteralText(p: string): Option<string> {
    if p == [] then Some([])
    else if p[0] == '\\' then
      if |p| >= 2 && IsRegexSpecial(p[1]) then
        var rest := LiteralText(p[2..]);
        if rest.None? then None else Some([p[1]] + rest.value)
      else None
    else if IsRegexSpecial(p[0]) then None
    else
      var rest := LiteralText(p[1..]);
      if rest.None? then None else Some([p[0]] + rest.value)
  }

  /** An escaped term is a literal pattern matching exactly the term. */
  lemma {:induction false} EscapeIsLiteral(s: string)
    ensures LiteralText(EscapeRegex(s)) == Some(s)
  {
    if s != [] {
      EscapeIsLiteral(s[1..]);
      var r := EscapeRegex(s);
      if IsRegexSpecial(s[0]) {
        assert r[2..] == EscapeRegex(s[1..]);
      } else {
        assert r[1..] == EscapeRegex(s[1..]);
      }
      assert s == [s[0]] + s[1..];
    }
  }

  // ------------------------------------------------------------ highlightText

  /** What `highlightText` returns: the text untouched, or the text with
      the capturing patterns built from the terms, to be marked up. */
  datatype Highlight = AsIs(text: Option<string>) | Marked(source: string, patterns: seq<string>)

  /** `highlightText` up to the marking itself: the early return, and the
      pattern built for each term. */
  function HighlightText(text: Option<string>, terms: Option<seq<string>>): (r: Highlight)
    ensures r.AsIs? <==> text.None? || text.value == "" || terms.None? || terms.value == []
    ensures r.AsIs? ==> r.text == text
    ensures r.Marked? ==> r.source == text.value && |r.patterns| == |terms.value|
  {
    if text.None? || text.value == "" || terms.None? || terms.value == [] then AsIs(text)
    else Marked(text.value, seq(|terms.value|, i requires 0 <= i < |terms.value| => "(" + EscapeRegex(terms.value[i]) + ")"))
  }

  /** Each pattern is one group whose contents match the term literally. */
  lemma HighlightPatternsLiteral(text: Option<string>, terms: Option<seq<string>>)
    ensures var r := HighlightText(text, terms);
      r.Marked? ==> forall i :: 0 <= i < |r.patterns| ==>
        var p := r.patterns[i];
        2 <= |p| && p[0] == '(' && p[|p| - 1] == ')' && LiteralText(p[1..|p| - 1]) == Some(terms.value[i])
  {
    var r := HighlightText(text, terms);
    if r.Marked? {
      forall i | 0 <= i < |r.patterns|
        ensures var p := r.patterns[i];
          2 <= |p| && p[0] == '(' && p[|p| - 1] == ')' && LiteralText(p[1..|p| - 1]) == Some(terms.value[i])
      {
        var p := r.patterns[i];
        assert p[1..|p| - 1] == EscapeRegex(terms.value[i]);
        EscapeIsLiteral(terms.value[i]);
      }
    }
  }

  // ------------------------------------------------------------ StatusBadge

  datatype BadgeStyle = NewBadge | AmendedBadge | DeletedBadge | SuspendedBadge | PlainBadge

  /** The colour classes of each style. */
  function BadgeClasses(b: BadgeStyle): string {
    match b
    case NewBadge => "bg-green-100 text-green-800 border-green-200"
    case AmendedBadge => "bg-blue-100 text-blue-800 border-blue-200"
    case DeletedBadge => "bg-red-100 text-red-800 border-red-200"
    case SuspendedBadge => "bg-yellow-100 text-yellow-800 border-yellow-200"
    case PlainBadge => "bg-gray-100 text-gray-800 border-gray-200"
  }

  /** The status codes that get a colour of their own. */
  const StatusCodes: seq<string> := ["new", "amd", "del", "sus"]

  /** `getStyle`: the lower-cased status against the four codes. */
  function BadgeStyleOf(status: Option<string>): (b: BadgeStyle)
    ensures b != PlainBadge <==> status.Some? && ToLower(status.value) in StatusCodes
    ensures b == NewBadge <==> status.Some? && ToLower(status.value) == "new"
  {
    if status.None? then PlainBadge
    else
      var s := ToLower(status.value);
      if s == "new" then NewBadge
      else if s == "amd" then AmendedBadge
      else if s == "del" then DeletedBadge
      else if s == "sus" then SuspendedBadge
      else PlainBadge
  }

  /** The badge text: the status, or 'ACTIVE' when there is none. */
  function BadgeLabel(status: Option<string>): (shown: string)
    ensures shown != ""
    ensures status.Some? && status.value != "" ==> shown == status.value
    ensures status.None? || status.value == "" ==> shown == "ACTIVE"
  {
    if status.Some? && status.value != "" then status.value else "ACTIVE"
  }

  lemma LowerUpper(s: string)
    ensures ToLower(ToUpper(s)) == ToLower(s)
  {
    forall i | 0 <= i < |s| ensures LowerChar(UpperChar(s[i])) == LowerChar(s[i]) {
      var c := s[i];
      if IsLower(c) {
        assert UpperChar(c) as int == c as int - 32;
      }
    }
  }

  /** The style ignores case: 'AMD', 'amd' and 'Amd' look alike. */
  lemma BadgeCaseInsensitive(s: string)
    ensures BadgeStyleOf(Some(ToUpper(s))) == BadgeStyleOf(Some(s))
  {
    LowerUpper(s);
  }

  /** An entry without a change indicator shows a grey 'ACTIVE' badge. */
  lemma NoStatusBadge(e: Entry)
    requires !Truthy(e, "change_indicator")
    ensures BadgeLabel(Field(e, "change_indicator")) == "ACTIVE"
    ensures BadgeClasses(BadgeStyleOf(Field(e, "change_indicator"))) == "bg-gray-100 text-gray-800 border-gray-200"
  {
    var st := Field(e, "change_indicator");
    if st.Some? {
      assert ToLower(st.value) == "";
      assert "" !in StatusCodes;
    }
  }
}

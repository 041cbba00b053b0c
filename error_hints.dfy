/** The two parsers of operator error messages ("RS: TRAFFIC VIA OMASI IS
    ON FORBIDDEN ROUTE REF:[LSLF1139C]"): the search engine's
    `_extractErrorInfo` and the search bar's `extractErrorCode`. Both run the
    same three patterns on the upper-cased message; they differ in the
    stoplist applied to candidate points and in how the error category is
    chosen when several keywords occur. */
module ErrorHints {
  import opened Wrappers
  import opened Text
  import opened Seqs
  import opened ErrorPatterns

  /** The `info` record both parsers return; `None` is `null`. */
  datatype ErrorInfo = ErrorInfo(refCode: Option<string>, annex: Option<string>, points: seq<string>, kind: Option<string>)

  /** What both parsers return for an empty message. */
  const NoInfo := ErrorInfo(None, None, [], None)

  /** Words the engine drops from the candidate points. */
  const EngineStoplist: seq<string> := ["ANNEX", "ROUTE", "TRAFFIC", "ERROR"]

  /** Words the search bar drops from the candidate points. */
  const SearchBarStoplist: seq<string> := ["ANNEX", "ROUTE", "TRAFFIC"]

  /** The three error categories, in the order their keywords are tested. */
  datatype Category = Forbidden | Restricted | NotAvailable

  function Keyword(c: Category): string {
    match c
    case Forbidden => "FORBIDDEN"
    case Restricted => "RESTRICTED"
    case NotAvailable => "NOT AVAILABLE"
  }

  /** The engine's label for a category. */
  function EngineLabel(c: Category): string {
    match c
    case Forbidden => "FORBIDDEN"
    case Restricted => "RESTRICTED"
    case NotAvailable => "NOT_AVAILABLE"
  }

  /** The search bar's label for a category. */
  function SearchBarLabel(c: Category): string {
    match c
    case Forbidden => "FORBIDDEN ROUTE"
    case Restricted => "RESTRICTED"
    case NotAvailable => "NOT AVAILABLE"
  }

  /** The categories whose keyword occurs in `u`, in test order. */
  function Mentioned(u: string): (r: seq<Category>)
    ensures forall c :: c in r <==> Contains(u, Keyword(c))
    ensures Distinct(r)
  {
    (if Contains(u, "FORBIDDEN") then [Forbidden] else []) +
    (if Contains(u, "RESTRICTED") then [Restricted] else []) +
    (if Contains(u, "NOT AVAILABLE") then [NotAvailable] else [])
  }

  /** Sequential `if`s: the last keyword in test order that occurs wins. */
  function EngineCategory(u: string): (r: Option<Category>)
    ensures r.None? <==> Mentioned(u) == []
    ensures r.Some? ==> r.value == Mentioned(u)[|Mentioned(u)| - 1]
  {
    if Contains(u, "NOT AVAILABLE") then Some(NotAvailable)
    else if Contains(u, "RESTRICTED") then Some(Restricted)
    else if Contains(u, "FORBIDDEN") then Some(Forbidden)
    else None
  }

  /** An `if`/`else if` chain: the first keyword in test order that occurs
      wins. */
  function SearchBarCategory(u: string): (r: Option<Category>)
    ensures r.None? <==> Mentioned(u) == []
    ensures r.Some? ==> r.value == Mentioned(u)[0]
  {
    if Contains(u, "FORBIDDEN") then Some(Forbidden)
    else if Contains(u, "RESTRICTED") then Some(Restricted)
    else if Contains(u, "NOT AVAILABLE") then Some(NotAvailable)
    else None
  }

  function LabelOf(c: Option<Category>, name: Category -> string): Option<string> {
    if c.Some? then Some(name(c.value)) else None
  }

  /** What `_extractErrorInfo` returns for a message: the engine's own
      method is proved to compute this. */
  function EngineErrorInfo(msg: string): (r: ErrorInfo)
    ensures msg == "" ==> r == NoInfo
    ensures Distinct(r.points)
    ensures forall k :: 0 <= k < |r.points| ==> IsPointWord(r.points[k]) && r.points[k] !in EngineStoplist
    ensures r.kind.Some? <==> exists c :: Contains(ToUpper(msg), Keyword(c))
    ensures msg != "" && Contains(ToUpper(msg), "NOT AVAILABLE") ==> r.kind == Some("NOT_AVAILABLE")
    ensures msg != "" && Contains(ToUpper(msg), "RESTRICTED") && !Contains(ToUpper(msg), "NOT AVAILABLE") ==> r.kind == Some("RESTRICTED")
    ensures msg != "" && Contains(ToUpper(msg), "FORBIDDEN") && !Contains(ToUpper(msg), "RESTRICTED") && !Contains(ToUpper(msg), "NOT AVAILABLE") ==> r.kind == Some("FORBIDDEN")
    ensures msg != "" ==> r.refCode == RefCode(ToUpper(msg)) && r.annex == AnnexCode(ToUpper(msg)) && r.points == Points(ToUpper(msg), EngineStoplist)
  {
    if msg == "" then NoInfo
    else
      var u := ToUpper(msg);
      var c := EngineCategory(u);
      assert c.Some? ==> c.value in Mentioned(u);
      ErrorInfo(RefCode(u), AnnexCode(u), Points(u, EngineStoplist), LabelOf(c, EngineLabel))
  }

  /** `extractErrorCode` in the search bar. */
  function ExtractErrorCode(msg: string): (r: ErrorInfo)
    ensures msg == "" ==> r == NoInfo
    ensures Distinct(r.points)
    ensures forall k :: 0 <= k < |r.points| ==> IsPointWord(r.points[k]) && r.points[k] !in SearchBarStoplist
    ensures r.kind.Some? <==> exists c :: Contains(ToUpper(msg), Keyword(c))
    ensures msg != "" && Contains(ToUpper(msg), "FORBIDDEN") ==> r.kind == Some("FORBIDDEN ROUTE")
    ensures msg != "" && Contains(ToUpper(msg), "RESTRICTED") && !Contains(ToUpper(msg), "FORBIDDEN") ==> r.kind == Some("RESTRICTED")
    ensures msg != "" && Contains(ToUpper(msg), "NOT AVAILABLE") && !Contains(ToUpper(msg), "FORBIDDEN") && !Contains(ToUpper(msg), "RESTRICTED") ==> r.kind == Some("NOT AVAILABLE")
    ensures msg != "" ==> r.refCode == RefCode(ToUpper(msg)) && r.annex == AnnexCode(ToUpper(msg)) && r.points == Points(ToUpper(msg), SearchBarStoplist)
  {
    if msg == "" then NoInfo
    else
      var u := ToUpper(msg);
      var c := SearchBarCategory(u);
      assert c.Some? ==> c.value in Mentioned(u);
      ErrorInfo(RefCode(u), AnnexCode(u), Points(u, SearchBarStoplist), LabelOf(c, SearchBarLabel))
  }

  // ------------------------------------------------------------ comparison

  /** Both parsers extract the same reference code and annex from every
      message. */
  lemma CodesAgree(msg: string)
    ensures ExtractErrorCode(msg).refCode == EngineErrorInfo(msg).refCode
    ensures ExtractErrorCode(msg).annex == EngineErrorInfo(msg).annex
  {
  }

  predicate NotError(w: string) { w != "ERROR" }

  /** The engine's points are the search bar's points without "ERROR". */
  lemma PointsDifferOnlyByError(msg: string)
    ensures EngineErrorInfo(msg).points == Filter(ExtractErrorCode(msg).points, NotError)
  {
    if msg != "" {
      StoplistsDiffer(ToUpper(msg));
    }
  }

  lemma StoplistsDiffer(u: string)
    ensures Points(u, EngineStoplist) == Filter(Points(u, SearchBarStoplist), NotError)
  {
    var d := Dedup(PointMatches(u, 0));
    FilterTwice(d, Unstopped(SearchBarStoplist), NotError);
    var both := Both(Unstopped(SearchBarStoplist), NotError);
    assert EngineStoplist == SearchBarStoplist + ["ERROR"];
    forall x ensures both(x) == Unstopped(EngineStoplist)(x) {
      assert both(x) == (Unstopped(SearchBarStoplist)(x) && NotError(x));
      assert Unstopped(SearchBarStoplist)(x) == (x !in SearchBarStoplist);
      assert Unstopped(EngineStoplist)(x) == (x !in EngineStoplist);
    }
    FilterSame(d, both, Unstopped(EngineStoplist));
  }

  /** "ERROR" standing alone in a message is a point for the search bar and
      never for the engine. */
  lemma ErrorWordOnlyInSearchBar(msg: string, p: nat)
    requires msg != "" && PointAt(ToUpper(msg), p) && ToUpper(msg)[p..p + 5] == "ERROR"
    ensures "ERROR" in ExtractErrorCode(msg).points
    ensures "ERROR" !in EngineErrorInfo(msg).points
  {
    var u := ToUpper(msg);
    assert "ERROR" !in SearchBarStoplist && "ERROR" in EngineStoplist;
    PointsExact(u, SearchBarStoplist, "ERROR");
    PointsExact(u, EngineStoplist, "ERROR");
    assert ExtractErrorCode(msg).points == Points(u, SearchBarStoplist);
    assert EngineErrorInfo(msg).points == Points(u, EngineStoplist);
  }

  /** The two parsers name the same category exactly when at most one of the
      three keywords occurs; with two or more, the engine reports the last
      and the search bar the first. */
  lemma CategoriesAgreeIff(msg: string)
    requires msg != ""
    ensures EngineCategory(ToUpper(msg)) == SearchBarCategory(ToUpper(msg)) <==> |Mentioned(ToUpper(msg))| <= 1
  {
    var m := Mentioned(ToUpper(msg));
    if |m| > 1 {
      assert m[0] != m[|m| - 1];
    }
  }

  /** Both parsers ignore letter case: messages equal up to case give the
      same result. */
  lemma CaseInsensitive(a: string, b: string)
    requires ToUpper(a) == ToUpper(b)
    ensures ExtractErrorCode(a) == ExtractErrorCode(b)
    ensures EngineErrorInfo(a) == EngineErrorInfo(b)
  {
    assert |a| == |ToUpper(a)| == |ToUpper(b)| == |b|;
  }

  // ------------------------------------------------------------ the documented example

  /** The message of the documented example, built word by word so that each
      suffix can be reasoned about on its own. */
  const Rest8 := "[" + "LSLF" + "1139C]"
  const Tail8 := "REF:" + Rest8
  const Tail7 := "ROUTE" + " " + Tail8
  const Tail6 := "FORBIDDEN" + " " + Tail7
  const Tail5 := "ON" + " " + Tail6
  const Tail4 := "IS" + " " + Tail5
  const Tail3 := "OMASI" + " " + Tail4
  const Tail2 := "VIA" + " " + Tail3
  const Tail1 := "TRAFFIC" + " " + Tail2
  const Example := "RS:" + " " + Tail1

  /** "RS: TRAFFIC VIA OMASI IS ON FORBIDDEN ROUTE REF:[LSLF1139C]" gives the
      code LSLF1139C, no annex, the single point OMASI (ROUTE is stopped) and
      the category "FORBIDDEN ROUTE". */
  lemma DocumentedExample()
    ensures ExtractErrorCode(Example) == ErrorInfo(Some("LSLF1139C"), None, ["OMASI"], Some("FORBIDDEN ROUTE"))
  {
    ExampleUpper();
    ExampleRef();
    ExampleAnnex();
    ExamplePointList();
    ExampleKind();
  }

  /** The engine's parser finds the same reference code. */
  lemma EngineExampleRef()
    ensures EngineErrorInfo(Example).refCode == Some("LSLF1139C")
  {
    ExampleUpper();
    ExampleRef();
  }

  lemma ExampleKind()
    ensures SearchBarCategory(Example) == Some(Forbidden)
  {
    ExampleForbidden();
    OccursContains(Example, 28, "FORBIDDEN");
  }

  lemma ExampleForbidden()
    ensures OccursAt(Example, 28, "FORBIDDEN")
  {
  }

  lemma ExampleRef()
    ensures RefCode(Example) == Some("LSLF1139C")
  {
    ExampleRefAt();
    forall j | 0 <= j < 44 ensures RefAt(Example, j).None? {
      if RefAt(Example, j).Some? {
        ExampleRefs(j);
      }
    }
    RefCodeIsLeftmost(Example, 44);
  }

  lemma ExampleAnnex()
    ensures AnnexCode(Example) == None
  {
    ExampleNoX();
    forall j | 0 <= j <= |Example| ensures AnnexAt(Example, j).None? {
      OccursChar(Example, j, "ANNEX", 4);
    }
    AnnexCodeNone(Example);
  }

  lemma ExamplePointList()
    ensures Points(Example, SearchBarStoplist) == ["OMASI"]
  {
    var pts := Points(Example, SearchBarStoplist);
    assert "OMASI" in pts by {
      ExampleWords();
      assert "OMASI" !in SearchBarStoplist;
      PointsExact(Example, SearchBarStoplist, "OMASI");
    }
    forall k | 0 <= k < |pts| ensures pts[k] == "OMASI" {
      var w := pts[k];
      PointsExact(Example, SearchBarStoplist, w);
      var p: nat :| PointAt(Example, p) && Example[p..p + 5] == w;
      ExamplePoints(p);
      ExampleWords();
    }
    SingleDistinct(pts, "OMASI");
  }

  lemma ExampleNoX()
    ensures 'X' !in Example
  {
  }

  lemma ExampleWords()
    ensures PointAt(Example, 16) && Example[16..21] == "OMASI"
    ensures Example[38..43] == "ROUTE"
  {
  }

  lemma ExampleUpper()
    ensures ToUpper(Example) == Example
  {
  }

  lemma ExampleRefAt()
    ensures RefAt(Example, 44) == Some("LSLF1139C")
  {
    assert Example[44..] == Tail8;
    assert Tail8[5..14] == "LSLF1139C";
    BracketedRef(Tail8, 9);
  }

  /** "REF:", a bracket and a run of n code characters that ends there
      capture that run. */
  lemma BracketedRef(t: string, n: nat)
    requires "REF:" <= t && 5 + n <= |t| && t[4] == '[' && n > 0
    requires forall k :: 5 <= k < 5 + n ==> IsCodeChar(t[k])
    requires 5 + n == |t| || !IsCodeChar(t[5 + n])
    ensures RefPrefix(t) == Some(t[5..5 + n])
  {
    assert RunLength(t, 4, IsJsSpace) == 0;
    RunExactly(t, 5, n, IsCodeChar);
  }

  /** "REF:" occurs in the example only in its last word. */
  lemma ExampleRefs(j: nat)
    requires OccursAt(Example, j, "REF:")
    ensures j == 44
  {
    OccursSplit("RS:", ' ', Tail1, j, "REF:");
    Tail1Refs(j - 4);
  }

  lemma Tail1Refs(j: nat)
    requires OccursAt(Tail1, j, "REF:")
    ensures j == 40
  {
    OccursSplit("TRAFFIC", ' ', Tail2, j, "REF:");
    if j + 4 <= 7 { NotOccurs("TRAFFIC", "REF:", j); } else { Tail2Refs(j - 8); }
  }

  lemma Tail2Refs(j: nat)
    requires OccursAt(Tail2, j, "REF:")
    ensures j == 32
  {
    OccursSplit("VIA", ' ', Tail3, j, "REF:");
    Tail3Refs(j - 4);
  }

  lemma Tail3Refs(j: nat)
    requires OccursAt(Tail3, j, "REF:")
    ensures j == 28
  {
    OccursSplit("OMASI", ' ', Tail4, j, "REF:");
    if j + 4 <= 5 { NotOccurs("OMASI", "REF:", j); } else { Tail4Refs(j - 6); }
  }

  lemma Tail4Refs(j: nat)
    requires OccursAt(Tail4, j, "REF:")
    ensures j == 22
  {
    OccursSplit("IS", ' ', Tail5, j, "REF:");
    Tail5Refs(j - 3);
  }

  lemma Tail5Refs(j: nat)
    requires OccursAt(Tail5, j, "REF:")
    ensures j == 19
  {
    OccursSplit("ON", ' ', Tail6, j, "REF:");
    Tail6Refs(j - 3);
  }

  lemma Tail6Refs(j: nat)
    requires OccursAt(Tail6, j, "REF:")
    ensures j == 16
  {
    OccursSplit("FORBIDDEN", ' ', Tail7, j, "REF:");
    if j + 4 <= 9 { NotOccurs("FORBIDDEN", "REF:", j); } else { Tail7Refs(j - 10); }
  }

  lemma Tail7Refs(j: nat)
    requires OccursAt(Tail7, j, "REF:")
    ensures j == 6
  {
    OccursSplit("ROUTE", ' ', Tail8, j, "REF:");
    if j + 4 <= 5 { NotOccurs("ROUTE", "REF:", j); } else { Tail8Refs(j - 6); }
  }

  lemma Tail8Refs(j: nat)
    requires OccursAt(Tail8, j, "REF:")
    ensures j == 0
  {
    var w := Tail8[j..j + 4];
    assert w[3] == ':' && Tail8[j + 3] == w[3];
    Tail8Colon(j + 3);
  }

  lemma Tail8Colon(k: nat)
    ensures k < |Tail8| && Tail8[k] == ':' ==> k == 3
  {
    if 4 <= k < |Tail8| {
      assert Tail8[k] == Rest8[k - 4];
      assert ':' !in Rest8;
    }
  }

  lemma NoPointInRef(p: nat)
    ensures !PointAt(Tail8, p)
  {
  }

  lemma Tail7Points(p: nat)
    requires PointAt(Tail7, p)
    ensures p == 0
  {
    PointAtSplit("ROUTE", ' ', Tail8, p);
    if p + 5 <= 5 { WordPointAt("ROUTE", p); } else { NoPointInRef(p - 6); }
  }

  lemma Tail6Points(p: nat)
    requires PointAt(Tail6, p)
    ensures p == 10
  {
    PointAtSplit("FORBIDDEN", ' ', Tail7, p);
    if p + 5 <= 9 { WordPointAt("FORBIDDEN", p); } else { Tail7Points(p - 10); }
  }

  lemma Tail5Points(p: nat)
    requires PointAt(Tail5, p)
    ensures p == 13
  {
    PointAtSplit("ON", ' ', Tail6, p);
    Tail6Points(p - 3);
  }

  lemma Tail4Points(p: nat)
    requires PointAt(Tail4, p)
    ensures p == 16
  {
    PointAtSplit("IS", ' ', Tail5, p);
    Tail5Points(p - 3);
  }

  lemma Tail3Points(p: nat)
    requires PointAt(Tail3, p)
    ensures p == 0 || p == 22
  {
    PointAtSplit("OMASI", ' ', Tail4, p);
    if p + 5 <= 5 { WordPointAt("OMASI", p); } else { Tail4Points(p - 6); }
  }

  lemma Tail2Points(p: nat)
    requires PointAt(Tail2, p)
    ensures p == 4 || p == 26
  {
    PointAtSplit("VIA", ' ', Tail3, p);
    Tail3Points(p - 4);
  }

  lemma Tail1Points(p: nat)
    requires PointAt(Tail1, p)
    ensures p == 12 || p == 34
  {
    PointAtSplit("TRAFFIC", ' ', Tail2, p);
    if p + 5 <= 7 { WordPointAt("TRAFFIC", p); } else { Tail2Points(p - 8); }
  }

  /** The five-capital words of the example are OMASI and ROUTE. */
  lemma ExamplePoints(p: nat)
    requires PointAt(Example, p)
    ensures p == 16 || p == 38
  {
    PointAtSplit("RS:", ' ', Tail1, p);
    Tail1Points(p - 4);
  }

  lemma SingleDistinct(r: seq<string>, w: string)
    requires Distinct(r) && w in r
    requires forall k :: 0 <= k < |r| ==> r[k] == w
    ensures r == [w]
  {
    AllSame(r, w);
  }

  lemma AllSame(r: seq<string>, w: string)
    requires forall k :: 0 <= k < |r| ==> r[k] == w
    ensures |r| > 1 ==> r[0] == r[1]
  {
  }

}

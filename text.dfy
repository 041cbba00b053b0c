/** ASCII string operations shared by the JavaScript front end and the Python
    scripts: case mapping, the two whitespace notions (JavaScript `trim`/`\s`
    and Python `str.strip`), substring search, joining and splitting. */
module Text {

  predicate IsUpper(c: char) { 'A' <= c <= 'Z' }
  predicate IsLower(c: char) { 'a' <= c <= 'z' }
  predicate IsDigit(c: char) { '0' <= c <= '9' }
  predicate IsLetter(c: char) { IsUpper(c) || IsLower(c) }

  /** A regular-expression word character, the class that `\b` separates. */
  predicate IsWordChar(c: char) { IsLetter(c) || IsDigit(c) || c == '_' }

  /** JavaScript `\s` and `String.prototype.trim`, restricted to ASCII. */
  predicate IsJsSpace(c: char) {
    c == ' ' || c == '\t' || c == '\n' || c == '\r' || c == '\U{B}' || c == '\U{C}'
  }

  /** Python `str.isspace`, restricted to ASCII: it also counts the four
      information separators 0x1C to 0x1F. */
  predicate IsPySpace(c: char) {
    IsJsSpace(c) || ('\U{1C}' <= c <= '\U{1F}')
  }

  function UpperChar(c: char): (r: char)
    ensures !IsLower(r)
    ensures IsLetter(c) <==> IsUpper(r)
    ensures !IsLower(c) ==> r == c
  {
    if IsLower(c) then (c as int - 32) as char else c
  }

  function LowerChar(c: char): (r: char)
    ensures !IsUpper(r)
    ensures IsLetter(c) <==> IsLower(r)
    ensures !IsUpper(c) ==> r == c
  {
    if IsUpper(c) then (c as int + 32) as char else c
  }

  /** `toUpperCase` / Python `upper` on ASCII letters. */
  function ToUpper(s: string): (r: string)
    ensures |r| == |s|
    ensures forall i :: 0 <= i < |s| ==> r[i] == UpperChar(s[i])
  {
    seq(|s|, i requires 0 <= i < |s| => UpperChar(s[i]))
  }

  /** `toLowerCase` / Python `lower` on ASCII letters. */
  function ToLower(s: string): (r: string)
    ensures |r| == |s|
    ensures forall i :: 0 <= i < |s| ==> r[i] == LowerChar(s[i])
  {
    seq(|s|, i requires 0 <= i < |s| => LowerChar(s[i]))
  }

  lemma ToUpperIdempotent(s: string)
    ensures ToUpper(ToUpper(s)) == ToUpper(s)
  {
  }

  lemma ToUpperConcat(a: string, b: string)
    ensures ToUpper(a + b) == ToUpper(a) + ToUpper(b)
  {
  }

  /** Drops the leading characters that satisfy `sp`. */
  function TrimStart(s: string, sp: char -> bool): (r: string)
    ensures |r| <= |s| && r == s[|s| - |r|..]
    ensures r == [] || !sp(r[0])
    ensures forall i :: 0 <= i < |s| - |r| ==> sp(s[i])
  {
    if |s| > 0 && sp(s[0]) then
      var r := TrimStart(s[1..], sp);
      assert forall i :: 1 <= i < |s| - |r| ==> s[i] == s[1..][i - 1];
      r
    else s
  }

  /** Drops the trailing characters that satisfy `sp`. */
  function TrimEnd(s: string, sp: char -> bool): (r: string)
    ensures |r| <= |s| && r == s[..|r|]
    ensures r == [] || !sp(r[|r| - 1])
    ensures forall i :: |r| <= i < |s| ==> sp(s[i])
  {
    if |s| > 0 && sp(s[|s| - 1]) then
      var r := TrimEnd(s[..|s| - 1], sp);
      assert forall i :: |r| <= i < |s| - 1 ==> s[i] == s[..|s| - 1][i];
      r
    else s
  }

  function Trim(s: string, sp: char -> bool): (r: string)
    ensures |r| <= |s|
    ensures r == [] || (!sp(r[0]) && !sp(r[|r| - 1]))
    ensures (forall i :: 0 <= i < |s| ==> !sp(s[i])) ==> r == s
    ensures (forall i :: 0 <= i < |s| ==> sp(s[i])) ==> r == []
  {
    TrimEnd(TrimStart(s, sp), sp)
  }

  /** The trimmed text is a slice of the text. */
  lemma TrimIsSlice(s: string, sp: char -> bool) returns (a: nat)
    ensures a + |Trim(s, sp)| <= |s| && Trim(s, sp) == s[a..a + |Trim(s, sp)|]
  {
    var t := TrimStart(s, sp);
    var r := TrimEnd(t, sp);
    a := |s| - |t|;
    assert t == s[a..] && r == t[..|r|];
    assert s[a..][..|r|] == s[a..a + |r|];
  }

  /** JavaScript `String.prototype.trim`. */
  function JsTrim(s: string): string { Trim(s, IsJsSpace) }

  /** Python `str.strip()` with no argument. */
  function PyStrip(s: string): string { Trim(s, IsPySpace) }

  /** Whether `sub` occurs in `s` at position `i`. */
  predicate OccursAt(s: string, i: nat, sub: string) {
    i + |sub| <= |s| && s[i..i + |sub|] == sub
  }

  /** JavaScript `includes` and Python `in` on strings. */
  predicate Contains(s: string, sub: string)
    decreases |s|
  {
    sub <= s || (|s| > 0 && Contains(s[1..], sub))
  }

  /** An occurrence at a known position is found by `includes`. */
  lemma {:induction false} OccursContains(s: string, i: nat, sub: string)
    requires OccursAt(s, i, sub)
    ensures Contains(s, sub)
  {
    if i == 0 {
      assert s[..|sub|] == sub;
    } else {
      assert s[1..][i - 1..i - 1 + |sub|] == s[i..i + |sub|];
      OccursContains(s[1..], i - 1, sub);
    }
  }

  lemma OccursChar(s: string, i: nat, sub: string, k: nat)
    ensures OccursAt(s, i, sub) && k < |sub| ==> s[i + k] == sub[k]
  {
    if OccursAt(s, i, sub) && k < |sub| {
      assert s[i..i + |sub|][k] == s[i + k];
    }
  }

  /** An occurrence of a text that does not contain `c` lies wholly on one
      side of a `c`. */
  lemma OccursSplit(a: string, c: char, b: string, j: nat, sub: string)
    requires c !in sub && OccursAt(a + [c] + b, j, sub)
    ensures j + |sub| <= |a| ==> OccursAt(a, j, sub)
    ensures j + |sub| > |a| ==> j > |a| && OccursAt(b, j - |a| - 1, sub)
  {
    var s := a + [c] + b;
    if j + |sub| <= |a| {
      assert s[j..j + |sub|] == a[j..j + |sub|];
    } else if j > |a| {
      assert s[j..j + |sub|] == b[j - |a| - 1..j - |a| - 1 + |sub|];
    } else {
      SeparatorInside(a, c, b, j, sub);
      assert false;
    }
  }

  lemma SeparatorInside(a: string, c: char, b: string, j: nat, sub: string)
    ensures OccursAt(a + [c] + b, j, sub) && j <= |a| < j + |sub| ==> c in sub
  {
    var s := a + [c] + b;
    if OccursAt(s, j, sub) && j <= |a| < j + |sub| {
      assert sub[|a| - j] == s[|a|];
    }
  }

  /** A text whose last character does not occur in `w` does not occur in
      `w`. */
  lemma NotOccurs(w: string, sub: string, j: nat)
    requires |sub| > 0 && sub[|sub| - 1] !in w
    ensures !OccursAt(w, j, sub)
  {
  }

  /** Python `sep.join(parts)` and JavaScript `parts.join(sep)`. */
  function Join(parts: seq<string>, sep: string): (r: string)
    ensures parts == [] ==> r == []
    ensures |parts| == 1 ==> r == parts[0]
  {
    if parts == [] then ""
    else if |parts| == 1 then parts[0]
    else parts[0] + sep + Join(parts[1..], sep)
  }

  /** A join of two or more parts is the first part, the separator and
      the join of the rest. */
  lemma JoinCons(parts: seq<string>, sep: string)
    requires |parts| >= 2
    ensures Join(parts, sep) == parts[0] + sep + Join(parts[1..], sep)
  {
  }

  /** The index of the first `c` in `s`, or `|s|` when there is none. */
  function IndexOfChar(s: string, c: char): (k: nat)
    ensures k <= |s|
    ensures k < |s| ==> s[k] == c
    ensures forall i :: 0 <= i < k ==> s[i] != c
  {
    if s == [] then 0 else if s[0] == c then 0 else 1 + IndexOfChar(s[1..], c)
  }

  /** JavaScript `s.split(c)` for a one-character separator. */
  function Split(s: string, c: char): (r: seq<string>)
    ensures |r| >= 1
    decreases |s|
  {
    var k := IndexOfChar(s, c);
    if k == |s| then [s] else [s[..k]] + Split(s[k + 1..], c)
  }

  predicate Free(s: string, c: char) { forall i :: 0 <= i < |s| ==> s[i] != c }

  lemma SplitCons(x: string, rest: string, c: char)
    requires Free(x, c)
    ensures Split(x + [c] + rest, c) == [x] + Split(rest, c)
  {
    var s := x + [c] + rest;
    assert forall i :: 0 <= i < |x| ==> s[i] == x[i];
    assert s[|x|] == c;
    assert IndexOfChar(s, c) == |x|;
    assert s[..|x|] == x;
    assert s[|x| + 1..] == rest;
  }

  /** Splitting a joined text on the separator gives back the leading parts
      that do not themselves contain it. */
  lemma {:induction false} SplitJoinPrefix(parts: seq<string>, c: char, k: nat)
    requires k < |parts|
    requires forall j :: 0 <= j < k ==> Free(parts[j], c)
    ensures k < |Split(Join(parts, [c]), c)|
    ensures Split(Join(parts, [c]), c)[..k] == parts[..k]
  {
    if k > 0 {
      var x, tail := parts[0], parts[1..];
      var r := Split(Join(tail, [c]), c);
      assert Split(Join(parts, [c]), c) == [x] + r by {
        JoinCons(parts, [c]);
        SplitCons(x, Join(tail, [c]), c);
      }
      assert k - 1 < |r| && r[..k - 1] == tail[..k - 1] by {
        assert forall j :: 0 <= j < k - 1 ==> tail[j] == parts[j + 1];
        SplitJoinPrefix(tail, c, k - 1);
      }
      ConsPrefix(x, r, k);
      ConsPrefix(x, tail, k);
    }
  }

  lemma ConsPrefix<T>(x: T, r: seq<T>, k: nat)
    requires 0 < k <= |r| + 1
    ensures ([x] + r)[..k] == [x] + r[..k - 1]
  {
  }

  /** Splitting a joined text on the separator gives the parts back when
      none of them contains it. */
  lemma {:induction false} SplitJoin(parts: seq<string>, c: char)
    requires parts != []
    requires forall j :: 0 <= j < |parts| ==> Free(parts[j], c)
    ensures Split(Join(parts, [c]), c) == parts
  {
    if |parts| == 1 {
      assert IndexOfChar(parts[0], c) == |parts[0]|;
    } else {
      var x, tail := parts[0], parts[1..];
      assert Split(Join(parts, [c]), c) == [x] + Split(Join(tail, [c]), c) by {
        JoinCons(parts, [c]);
        SplitCons(x, Join(tail, [c]), c);
      }
      assert Split(Join(tail, [c]), c) == tail by {
        assert forall j :: 0 <= j < |tail| ==> tail[j] == parts[j + 1];
        SplitJoin(tail, c);
      }
      assert parts == [x] + tail;
    }
  }

  /** The first `k` parts come back from the split when none of them
      contains the separator, whatever the later parts hold. */
  lemma SplitJoinLeading(parts: seq<string>, c: char, k: nat)
    requires k <= |parts|
    requires forall j :: 0 <= j < k ==> Free(parts[j], c)
    ensures k <= |Split(Join(parts, [c]), c)|
    ensures Split(Join(parts, [c]), c)[..k] == parts[..k]
  {
    if k < |parts| {
      SplitJoinPrefix(parts, c, k);
    } else if k > 0 {
      SplitJoin(parts, c);
    }
  }

  /** Trimming leaves alone a text that neither starts nor ends with a
      blank. */
  lemma TrimKeeps(s: string, sp: char -> bool)
    requires s != [] && !sp(s[0]) && !sp(s[|s| - 1])
    ensures Trim(s, sp) == s
  {
    var t := TrimStart(s, sp);
    assert t == s;
  }

  /** A trimmed text that is not empty starts where the text starts when
      that is not a blank. */
  lemma TrimStartsAt(s: string, sp: char -> bool)
    requires s != [] && !sp(s[0])
    ensures Trim(s, sp) != [] && Trim(s, sp)[0] == s[0]
  {
    var t := TrimStart(s, sp);
    assert t == s;
  }
}

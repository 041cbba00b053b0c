/** The three regular expressions that both error-text parsers of the front
    end run on the upper-cased operator message, written out as functions.
    Each pattern is described by "matches at position i" and the parser takes
    the leftmost match, as JavaScript's `String.prototype.match` does.

    - `/REF:\s*\[?([A-Z0-9]+)\]?/i`  gives the reference code (group 1);
    - `/ANNEX\s+(\d[A-C]?)/i`        gives the annex (group 1);
    - `/\b[A-Z]{5}\b/g`               gives every candidate point name.

    The `/i` flag makes the letter classes accept both cases; the parsers
    apply them to an upper-cased string. */
module ErrorPatterns {
  import opened Wrappers
  import opened Text
  import opened Seqs

  /** `[A-Z0-9]` under the `/i` flag. */
  predicate IsCodeChar(c: char) { IsLetter(c) || IsDigit(c) }

  /** `[A-C]` under the `/i` flag. */
  predicate IsAnnexLetter(c: char) { 'A' <= c <= 'C' || 'a' <= c <= 'c' }

  /** Length of the longest run of characters satisfying `p` starting at `i`
      (what a greedy `p*` consumes). */
  function RunLength(s: string, i: nat, p: char -> bool): (n: nat)
    requires i <= |s|
    ensures i + n <= |s|
    ensures forall k :: i <= k < i + n ==> p(s[k])
    ensures i + n == |s| || !p(s[i + n])
    decreases |s| - i
  {
    if i < |s| && p(s[i]) then 1 + RunLength(s, i + 1, p) else 0
  }

  /** A run of exactly n characters satisfying `p` that ends where one
      does not, or at the end, is what the greedy run consumes. */
  lemma {:induction false} RunExactly(s: string, i: nat, n: nat, p: char -> bool)
    requires i + n <= |s|
    requires forall k :: i <= k < i + n ==> p(s[k])
    requires i + n == |s| || !p(s[i + n])
    ensures RunLength(s, i, p) == n
    decreases n
  {
    if n > 0 {
      RunExactly(s, i + 1, n - 1, p);
    }
  }

  /** The first position at or after `i` where `at` reports a match, or
      `|s| + 1` when there is none: how a non-global `match` searches. */
  function Leftmost<T>(s: string, i: nat, at: nat -> Option<T>): (k: nat)
    requires i <= |s| + 1
    ensures i <= k <= |s| + 1
    ensures k <= |s| ==> at(k).Some?
    ensures forall j :: i <= j < k ==> at(j).None?
    decreases |s| + 1 - i
  {
    if i > |s| then i
    else if at(i).Some? then i
    else Leftmost(s, i + 1, at)
  }

  lemma {:induction false} LeftmostUnique<T>(s: string, i: nat, at: nat -> Option<T>, k: nat)
    requires i <= k <= |s| && at(k).Some?
    requires forall j :: i <= j < k ==> at(j).None?
    ensures Leftmost(s, i, at) == k
    decreases k - i
  {
    if i < k {
      LeftmostUnique(s, i + 1, at, k);
    }
  }

  // ---------------------------------------------------------------- REF:

  /** Group 1 of `REF:\s*\[?([A-Z0-9]+)\]?` when a match starts at `i`. */
  function RefAt(s: string, i: nat): (r: Option<string>)
    ensures r.Some? ==> OccursAt(s, i, "REF:")
    ensures r.Some? ==> |r.value| > 0 && forall k :: 0 <= k < |r.value| ==> IsCodeChar(r.value[k])
  {
    if i > |s| then None
    else
      var r := RefPrefix(s[i..]);
      assert r.Some? ==> s[i..][..4] == s[i..i + 4];
      r
  }

  /** Group 1 of the pattern when it matches at the start of `t`. After the
      greedy `\s*`, either `[` and a code follows, or the code follows
      directly; giving back whitespace or the bracket cannot help, since
      neither is a code character. The trailing `\]?` always matches. */
  function RefPrefix(t: string): (r: Option<string>)
    ensures r.Some? ==> "REF:" <= t
    ensures r.Some? ==> |r.value| > 0 && forall k :: 0 <= k < |r.value| ==> IsCodeChar(r.value[k])
  {
    if !("REF:" <= t) then None
    else
      var q := 4 + RunLength(t, 4, IsJsSpace);
      var start := if q < |t| && t[q] == '[' then q + 1 else q;
      var n := RunLength(t, start, IsCodeChar);
      if n == 0 then None else Some(t[start..start + n])
  }

  /** `s.match(/REF:\s*\[?([A-Z0-9]+)\]?/i)?.[1]`: the capture of the
      leftmost match. */
  function RefCode(s: string): Option<string> {
    var k := Leftmost(s, 0, (j: nat) => RefAt(s, j));
    if k <= |s| then RefAt(s, k) else None
  }

  /** The reference code is the capture at the leftmost position where the
      pattern matches. */
  lemma RefCodeIsLeftmost(s: string, k: nat)
    requires k <= |s| && RefAt(s, k).Some?
    requires forall j :: 0 <= j < k ==> RefAt(s, j).None?
    ensures RefCode(s) == RefAt(s, k)
  {
    LeftmostUnique(s, 0, (j: nat) => RefAt(s, j), k);
  }

  /** No match anywhere gives no reference code, and conversely. */
  lemma RefCodeNone(s: string)
    ensures RefCode(s).None? <==> forall j :: 0 <= j <= |s| ==> RefAt(s, j).None?
  {
    var at := (j: nat) => RefAt(s, j);
    var k := Leftmost(s, 0, at);
    if k <= |s| {
      assert RefAt(s, k).Some?;
    } else {
      forall j | 0 <= j <= |s| ensures RefAt(s, j).None? {
        assert at(j).None?;
      }
    }
  }

  // ---------------------------------------------------------------- ANNEX

  /** Group 1 of `ANNEX\s+(\d[A-C]?)` when a match starts at `i`. */
  function AnnexAt(s: string, i: nat): (r: Option<string>)
    ensures r.Some? ==> OccursAt(s, i, "ANNEX")
    ensures r.Some? ==> (|r.value| == 1 || |r.value| == 2) && IsDigit(r.value[0])
    ensures r.Some? && |r.value| == 2 ==> IsAnnexLetter(r.value[1])
  {
    if !OccursAt(s, i, "ANNEX") then None
    else
      var n := RunLength(s, i + 5, IsJsSpace);
      var q := i + 5 + n;
      if n == 0 || q >= |s| || !IsDigit(s[q]) then None
      else if q + 1 < |s| && IsAnnexLetter(s[q + 1]) then Some(s[q..q + 2])
      else Some(s[q..q + 1])
  }

  /** `s.match(/ANNEX\s+(\d[A-C]?)/i)?.[1]`: the capture of the leftmost
      match. */
  function AnnexCode(s: string): Option<string> {
    var k := Leftmost(s, 0, (j: nat) => AnnexAt(s, j));
    if k <= |s| then AnnexAt(s, k) else None
  }

  lemma AnnexCodeIsLeftmost(s: string, k: nat)
    requires k <= |s| && AnnexAt(s, k).Some?
    requires forall j :: 0 <= j < k ==> AnnexAt(s, j).None?
    ensures AnnexCode(s) == AnnexAt(s, k)
  {
    LeftmostUnique(s, 0, (j: nat) => AnnexAt(s, j), k);
  }

  lemma AnnexCodeNone(s: string)
    ensures AnnexCode(s).None? <==> forall j :: 0 <= j <= |s| ==> AnnexAt(s, j).None?
  {
    var at := (j: nat) => AnnexAt(s, j);
    var k := Leftmost(s, 0, at);
    if k <= |s| {
      assert AnnexAt(s, k).Some?;
    } else {
      forall j | 0 <= j <= |s| ensures AnnexAt(s, j).None? {
        assert at(j).None?;
      }
    }
  }

  // ---------------------------------------------------------------- points

  /** `\b[A-Z]{5}\b` matches at `p`: five letters with a word boundary on
      each side (`\b` separates `[A-Za-z0-9_]` from anything else or from the
      ends of the text). */
  predicate PointAt(s: string, p: nat) {
    && p + 5 <= |s|
    && (forall k :: p <= k < p + 5 ==> IsUpper(s[k]))
    && (p == 0 || !IsWordChar(s[p - 1]))
    && (p + 5 == |s| || !IsWordChar(s[p + 5]))
  }

  /** A word (maximal run of word characters) that is exactly five letters. */
  predicate IsPointWord(w: string) {
    |w| == 5 && forall k :: 0 <= k < 5 ==> IsUpper(w[k])
  }

  /** The global match `s.match(/\b[A-Z]{5}\b/g)` from `lastIndex = i`: after
      a match the scan resumes at its end, otherwise one position further. */
  function PointMatches(s: string, i: nat): (r: seq<string>)
    requires i <= |s|
    ensures forall k :: 0 <= k < |r| ==> IsPointWord(r[k])
    ensures forall k :: 0 <= k < |r| ==> exists p :: i <= p && PointAt(s, p) && r[k] == s[p..p + 5]
    ensures forall p :: i <= p && PointAt(s, p) ==> s[p..p + 5] in r
    decreases |s| - i
  {
    if i + 5 > |s| then []
    else if PointAt(s, i) then
      var rest := PointMatches(s, i + 5);
      NoPointOverlap(s, i);
      [s[i..i + 5]] + rest
    else PointMatches(s, i + 1)
  }

  /** `ps` lists, in increasing order, every position from `i` on where the
      pattern matches, and `m` the words matched there. */
  ghost predicate InTextOrder(s: string, i: nat, ps: seq<nat>, m: seq<string>) {
    && |ps| == |m|
    && (forall k :: 0 <= k < |ps| ==> i <= ps[k] && PointAt(s, ps[k]) && m[k] == s[ps[k]..ps[k] + 5])
    && (forall k, l :: 0 <= k < l < |ps| ==> ps[k] < ps[l])
    && (forall p :: i <= p && PointAt(s, p) ==> p in ps)
  }

  /** The matches come in text order: the `k`-th is the word at the `k`-th
      position, from `i` on, where the pattern matches. */
  lemma {:induction false} PointMatchesInOrder(s: string, i: nat) returns (ps: seq<nat>)
    requires i <= |s|
    ensures InTextOrder(s, i, ps, PointMatches(s, i))
    decreases |s| - i
  {
    if i + 5 > |s| {
      ps := [];
    } else if PointAt(s, i) {
      var rest := PointMatchesInOrder(s, i + 5);
      ps := ConsPosition(s, i, rest, PointMatches(s, i + 5));
    } else {
      ps := PointMatchesInOrder(s, i + 1);
      SkipPosition(s, i, ps, PointMatches(s, i + 1));
    }
  }

  lemma ConsPosition(s: string, i: nat, rest: seq<nat>, r: seq<string>) returns (ps: seq<nat>)
    requires PointAt(s, i) && InTextOrder(s, i + 5, rest, r)
    ensures ps == [i] + rest && InTextOrder(s, i, ps, [s[i..i + 5]] + r)
  {
    ps := [i] + rest;
    NoPointOverlap(s, i);
    forall k | 0 <= k < |ps| ensures i <= ps[k] && PointAt(s, ps[k]) && ([s[i..i + 5]] + r)[k] == s[ps[k]..ps[k] + 5] {
      if k > 0 {
        assert ps[k] == rest[k - 1] && ([s[i..i + 5]] + r)[k] == r[k - 1];
      }
    }
  }

  lemma SkipPosition(s: string, i: nat, ps: seq<nat>, m: seq<string>)
    requires !PointAt(s, i) && InTextOrder(s, i + 1, ps, m)
    ensures InTextOrder(s, i, ps, m)
  {
    forall p | i <= p && PointAt(s, p) ensures p in ps {
      assert i + 1 <= p;
    }
  }

  /** Two matches of `\b[A-Z]{5}\b` never overlap: inside a five-letter word
      there is no boundary. */
  lemma NoPointOverlap(s: string, p: nat)
    requires PointAt(s, p)
    ensures forall q :: p < q < p + 5 ==> !PointAt(s, q)
  {
    forall q | p < q < p + 5 ensures !PointAt(s, q) {
      assert IsUpper(s[q - 1]);
    }
  }

  /** A match never spans a separator that is not a word character: it lies
      wholly on one side. */
  lemma PointAtSplit(a: string, c: char, b: string, p: nat)
    requires !IsWordChar(c) && PointAt(a + [c] + b, p)
    ensures p + 5 <= |a| ==> PointAt(a, p)
    ensures p + 5 > |a| ==> p > |a| && PointAt(b, p - |a| - 1)
  {
    var s := a + [c] + b;
    if p + 5 <= |a| {
      assert forall k :: 0 <= k < |a| ==> s[k] == a[k];
    } else if p > |a| {
      var q := p - |a| - 1;
      forall k | q <= k < q + 5 ensures IsUpper(b[k]) {
        assert b[k] == s[k + |a| + 1];
      }
      assert q == 0 || !IsWordChar(b[q - 1]) by {
        if q > 0 { assert b[q - 1] == s[p - 1]; }
      }
      assert q + 5 == |b| || !IsWordChar(b[q + 5]) by {
        if q + 5 < |b| { assert b[q + 5] == s[p + 5]; }
      }
    } else {
      SeparatorNotUpper(a, c, b, p);
      assert false;
    }
  }

  lemma SeparatorNotUpper(a: string, c: char, b: string, p: nat)
    ensures p <= |a| < p + 5 && PointAt(a + [c] + b, p) ==> IsUpper(c)
  {
    var s := a + [c] + b;
    if p <= |a| < p + 5 && PointAt(s, p) {
      assert s[|a|] == c;
    }
  }

  /** Inside a run of word characters the pattern matches only a run of
      exactly five, at its start. */
  lemma WordPointAt(w: string, p: nat)
    requires forall k :: 0 <= k < |w| ==> IsWordChar(w[k])
    requires PointAt(w, p)
    ensures p == 0 && |w| == 5
  {
  }

  /** The candidate points of a text: the distinct five-letter words in
      order of first occurrence, minus a stoplist (`[...new Set(matches)]
      .filter(p => !stop.includes(p))`). */
  function Points(s: string, stop: seq<string>): (r: seq<string>)
    ensures Distinct(r)
    ensures forall k :: 0 <= k < |r| ==> IsPointWord(r[k]) && r[k] !in stop
  {
    var d := Dedup(PointMatches(s, 0));
    FilterDistinct(d, Unstopped(stop));
    Filter(d, Unstopped(stop))
  }

  /** `p => !stop.includes(p)`. */
  function Unstopped(stop: seq<string>): string -> bool {
    w => w !in stop
  }

  /** A word is a candidate point exactly when it is not stopped and the
      pattern matches it somewhere in the text. */
  lemma PointsExact(s: string, stop: seq<string>, w: string)
    ensures w in Points(s, stop) <==> w !in stop && exists p: nat :: PointAt(s, p) && s[p..p + 5] == w
  {
    var all := PointMatches(s, 0);
    var d := Dedup(all);
    var r := Filter(d, Unstopped(stop));
    assert r == Points(s, stop);
    if w in r {
      var k :| 0 <= k < |r| && r[k] == w;
      assert w in d;
      var m :| 0 <= m < |d| && d[m] == w;
      assert w in all;
    }
    if w !in stop && exists p: nat :: PointAt(s, p) && s[p..p + 5] == w {
      var p: nat :| PointAt(s, p) && s[p..p + 5] == w;
      assert w in all;
      var m :| 0 <= m < |all| && all[m] == w;
      assert w in d;
      var n :| 0 <= n < |d| && d[n] == w;
    }
  }

  /** The points keep the order of first occurrence: wherever a later point
      occurs in the text, an earlier one occurs before it. */
  lemma PointsInTextOrder(s: string, stop: seq<string>, a: nat, b: nat, q: nat)
    requires a < b < |Points(s, stop)|
    requires PointAt(s, q) && s[q..q + 5] == Points(s, stop)[b]
    ensures exists p: nat :: p < q && PointAt(s, p) && s[p..p + 5] == Points(s, stop)[a]
  {
    PointsFirstSeen(s, stop, a, b);
    MatchedBefore(s, Points(s, stop)[a], Points(s, stop)[b], q);
  }

  /** A word matched first occurs before every occurrence of a word matched
      later. */
  lemma MatchedBefore(s: string, x: string, y: string, q: nat)
    requires x in PointMatches(s, 0) && y in PointMatches(s, 0)
    requires IndexOf(PointMatches(s, 0), x) < IndexOf(PointMatches(s, 0), y)
    requires PointAt(s, q) && s[q..q + 5] == y
    ensures exists p: nat :: p < q && PointAt(s, p) && s[p..p + 5] == x
  {
    var m := PointMatches(s, 0);
    var ps := PointMatchesInOrder(s, 0);
    var c := PositionIndex(s, ps, m, q);
    SeenLater(m, y, c);
    var ia := IndexOf(m, x);
    EarlierPosition(s, ps, m, ia, c);
  }

  /** A matching position has its index in the position list. */
  lemma PositionIndex(s: string, ps: seq<nat>, m: seq<string>, q: nat) returns (c: nat)
    requires InTextOrder(s, 0, ps, m) && PointAt(s, q)
    ensures c < |ps| && ps[c] == q && m[c] == s[q..q + 5]
  {
    assert q in ps;
    c :| 0 <= c < |ps| && ps[c] == q;
  }

  /** An earlier entry of the position list is an earlier match. */
  lemma EarlierPosition(s: string, ps: seq<nat>, m: seq<string>, a: nat, c: nat)
    requires InTextOrder(s, 0, ps, m) && a < c < |ps|
    ensures ps[a] < ps[c] && PointAt(s, ps[a]) && s[ps[a]..ps[a] + 5] == m[a]
  {
  }

  /** Earlier points were matched first. */
  lemma PointsFirstSeen(s: string, stop: seq<string>, a: nat, b: nat)
    requires a < b < |Points(s, stop)|
    ensures Points(s, stop)[a] in PointMatches(s, 0) && Points(s, stop)[b] in PointMatches(s, 0)
    ensures IndexOf(PointMatches(s, 0), Points(s, stop)[a]) < IndexOf(PointMatches(s, 0), Points(s, stop)[b])
  {
    var d := Dedup(PointMatches(s, 0));
    var r := Filter(d, Unstopped(stop));
    FilterInOrder(d, Unstopped(stop));
    var pos := Positions(d, Unstopped(stop));
    assert r[a] == d[pos[a]] && r[b] == d[pos[b]] && pos[a] < pos[b];
  }

  /** Any occurrence of `y` is at or after its first one. */
  lemma SeenLater<T>(m: seq<T>, y: T, c: nat)
    requires c < |m| && m[c] == y
    ensures IndexOf(m, y) <= c
  {
    var iy := IndexOf(m, y);
    assert forall j :: 0 <= j < iy ==> m[..iy][j] == m[j];
  }

  lemma {:induction false} FilterDistinct<T>(s: seq<T>, p: T -> bool)
    requires Distinct(s)
    ensures Distinct(Filter(s, p))
  {
    if s != [] {
      var init := s[..|s| - 1];
      FilterDistinct(init, p);
      assert s[|s| - 1] !in init;
    }
  }

  /** A stoplist word longer than five letters (such as "TRAFFIC") can never
      be a candidate point, with or without the stoplist. */
  lemma LongWordsNeverPoints(s: string, w: string)
    requires |w| != 5
    ensures w !in PointMatches(s, 0)
  {
  }
}

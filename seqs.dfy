/** Sequence helpers: first-occurrence de-duplication (JavaScript
    `[...new Set(xs)]` and `xs.filter((x, i, a) => a.indexOf(x) === i)`) and
    counters keyed in insertion order (a JavaScript object used as a
    dictionary of counts). */
module Seqs {
  import opened Wrappers

  predicate Distinct<T(==)>(s: seq<T>) {
    forall i, j :: 0 <= i < j < |s| ==> s[i] != s[j]
  }

  /** JavaScript `indexOf`: the position of the first occurrence. */
  function IndexOf<T(==)>(s: seq<T>, x: T): (k: nat)
    requires x in s
    ensures k < |s| && s[k] == x && x !in s[..k]
  {
    if s[0] == x then 0 else
      var k := IndexOf(s[1..], x);
      assert s[..k + 1] == [s[0]] + s[1..][..k];
      k + 1
  }

  lemma {:induction false} IndexOfPrefix<T>(s: seq<T>, t: seq<T>, x: T)
    requires x in s
    ensures IndexOf(s + t, x) == IndexOf(s, x)
  {
    if s[0] != x {
      assert (s + t)[1..] == s[1..] + t;
      IndexOfPrefix(s[1..], t, x);
    }
  }

  /** Keeps the first occurrence of every element, in order of first
      occurrence. */
  function Dedup<T(==)>(s: seq<T>): (r: seq<T>)
    ensures Distinct(r)
    ensures forall i :: 0 <= i < |r| ==> r[i] in s
    ensures forall i :: 0 <= i < |s| ==> s[i] in r
    ensures forall i, j :: 0 <= i < j < |r| ==> IndexOf(s, r[i]) < IndexOf(s, r[j])
  {
    if s == [] then []
    else
      var init, last := s[..|s| - 1], s[|s| - 1];
      var d := Dedup(init);
      assert s == init + [last];
      forall x | x in init ensures IndexOf(s, x) == IndexOf(init, x) {
        IndexOfPrefix(init, [last], x);
      }
      if last in d then d
      else
        var r := d + [last];
        assert last !in init;
        assert IndexOf(s, last) == |s| - 1;
        r
  }

  lemma DedupLength<T>(s: seq<T>)
    ensures |Dedup(s)| <= |s|
  {
    var r := Dedup(s);
    DistinctSubsetLength(r, s);
  }

  lemma {:induction false} DistinctSubsetLength<T>(r: seq<T>, s: seq<T>)
    requires Distinct(r)
    requires forall x :: x in r ==> x in s
    ensures |r| <= |s|
  {
    var rs, ss := set x | x in r, set x | x in s;
    DistinctCard(r);
    assert rs <= ss;
    assert ss == rs + (ss - rs);
    assert |ss| == |rs| + |ss - rs|;
    SetCardSeq(s);
  }

  lemma {:induction false} DistinctCard<T>(r: seq<T>)
    requires Distinct(r)
    ensures |set x | x in r| == |r|
  {
    if r != [] {
      var init := r[..|r| - 1];
      DistinctCard(init);
      assert (set x | x in r) == (set x | x in init) + {r[|r| - 1]};
      assert r[|r| - 1] !in init;
    }
  }

  lemma {:induction false} SetCardSeq<T>(s: seq<T>)
    ensures |set x | x in s| <= |s|
  {
    if s != [] {
      var init := s[..|s| - 1];
      SetCardSeq(init);
      assert (set x | x in s) == (set x | x in init) + {s[|s| - 1]};
    }
  }

  /** JavaScript `filter` / a Python list comprehension with a condition:
      the elements satisfying `p`, in their original order. */
  function Filter<T>(s: seq<T>, p: T -> bool): (r: seq<T>)
    ensures |r| <= |s|
    ensures forall i :: 0 <= i < |r| ==> p(r[i]) && r[i] in s
    ensures forall i :: 0 <= i < |s| && p(s[i]) ==> s[i] in r
    ensures (forall i :: 0 <= i < |s| ==> !p(s[i])) <==> r == []
  {
    if s == [] then []
    else
      var init, last := s[..|s| - 1], s[|s| - 1];
      assert s == init + [last];
      Filter(init, p) + (if p(last) then [last] else [])
  }

  /** The positions of the elements of `s` that satisfy `p`, in increasing
      order: an index-based description of what `Filter` keeps. */
  function Positions<T>(s: seq<T>, p: T -> bool): (ps: seq<nat>)
    ensures forall k :: 0 <= k < |ps| ==> ps[k] < |s| && p(s[ps[k]])
    ensures forall k, l :: 0 <= k < l < |ps| ==> ps[k] < ps[l]
    ensures forall i :: 0 <= i < |s| && p(s[i]) ==> i in ps
  {
    if s == [] then []
    else
      var init := s[..|s| - 1];
      assert forall i :: 0 <= i < |init| ==> init[i] == s[i];
      Positions(init, p) + (if p(s[|s| - 1]) then [|s| - 1] else [])
  }

  /** `r` lists the elements of `s` that satisfy `p`, each as often as it
      occurs there and in the order of `s`: its `k`-th element is the one at
      the `k`-th such position. */
  ghost predicate Picks<T>(r: seq<T>, s: seq<T>, p: T -> bool) {
    var ps := Positions(s, p);
    |r| == |ps| && forall k :: 0 <= k < |r| ==> r[k] == s[ps[k]]
  }

  /** `Filter` keeps exactly the elements that satisfy `p`, in their order
      and with their multiplicity. */
  lemma {:induction false} FilterInOrder<T>(s: seq<T>, p: T -> bool)
    ensures Picks(Filter(s, p), s, p)
  {
    if s != [] {
      var init, last := s[..|s| - 1], s[|s| - 1];
      assert s == init + [last];
      FilterInOrder(init, p);
      var f, ps := Filter(init, p), Positions(init, p);
      var r, qs := Filter(s, p), Positions(s, p);
      assert r == f + (if p(last) then [last] else []);
      assert qs == ps + (if p(last) then [|s| - 1] else []);
      forall k | 0 <= k < |r| ensures r[k] == s[qs[k]] {
        if k < |f| {
          assert r[k] == f[k] == init[ps[k]] == s[ps[k]];
        }
      }
    }
  }

  /** A filter that every element passes keeps the sequence as it is. */
  lemma {:induction false} FilterKeepsAll<T>(s: seq<T>, p: T -> bool)
    requires forall x :: x in s ==> p(x)
    ensures Filter(s, p) == s
  {
    if s != [] {
      var init, last := s[..|s| - 1], s[|s| - 1];
      assert s == init + [last];
      FilterKeepsAll(init, p);
    }
  }

  lemma {:induction false} FilterAppend<T>(s: seq<T>, t: seq<T>, p: T -> bool)
    ensures Filter(s + t, p) == Filter(s, p) + Filter(t, p)
    decreases |t|
  {
    if t == [] {
      assert s + t == s;
    } else {
      var tinit := t[..|t| - 1];
      assert (s + t)[..|s + t| - 1] == s + tinit;
      FilterAppend(s, tinit, p);
    }
  }

  function Both<T>(p: T -> bool, q: T -> bool): T -> bool {
    x => p(x) && q(x)
  }

  /** Two filters in a row are one filter with both conditions. */
  lemma {:induction false} FilterTwice<T>(s: seq<T>, p: T -> bool, q: T -> bool)
    ensures Filter(Filter(s, p), q) == Filter(s, Both(p, q))
  {
    if s != [] {
      var init, last := s[..|s| - 1], s[|s| - 1];
      FilterTwice(init, p, q);
      FilterAppend(Filter(init, p), if p(last) then [last] else [], q);
    }
  }

  lemma {:induction false} FilterSame<T>(s: seq<T>, p: T -> bool, q: T -> bool)
    requires forall x :: p(x) == q(x)
    ensures Filter(s, p) == Filter(s, q)
  {
    if s != [] {
      FilterSame(s[..|s| - 1], p, q);
    }
  }

  /** JavaScript `slice(0, n)` for `n >= 0`. */
  function Take<T>(s: seq<T>, n: nat): (r: seq<T>)
    ensures |r| == if n < |s| then n else |s|
    ensures r <= s
  {
    if n < |s| then s[..n] else s
  }

  /** The first `n` distinct elements of `s` are distinct and drawn from
      `s`. */
  lemma TakeDistinct<T>(s: seq<T>, n: nat)
    ensures Distinct(Take(Dedup(s), n))
    ensures forall k :: 0 <= k < |Take(Dedup(s), n)| ==> Take(Dedup(s), n)[k] in s
  {
    var d := Dedup(s);
    var r := Take(d, n);
    assert forall k :: 0 <= k < |r| ==> r[k] == d[k];
  }

  /** A dictionary of counts that remembers the order in which keys were
      first counted. */
  type Counter<K> = seq<(K, nat)>

  /** The keys of a dictionary kept as a sequence of pairs, in order. */
  function Keys<K, V>(c: seq<(K, V)>): seq<K> {
    seq(|c|, i requires 0 <= i < |c| => c[i].0)
  }

  /** `c[k] || 0`. */
  function Get<K(==)>(c: Counter<K>, k: K): nat {
    if c == [] then 0 else if c[0].0 == k then c[0].1 else Get(c[1..], k)
  }

  /** `c[k] = (c[k] || 0) + 1`. */
  function Bump<K(==)>(c: Counter<K>, k: K): Counter<K> {
    if c == [] then [(k, 1)]
    else if c[0].0 == k then [(k, c[0].1 + 1)] + c[1..]
    else [c[0]] + Bump(c[1..], k)
  }

  /** The sum of all counts. */
  function Total<K>(c: Counter<K>): nat {
    if c == [] then 0 else c[0].1 + Total(c[1..])
  }

  lemma {:induction false} BumpGet<K>(c: Counter<K>, k: K, q: K)
    ensures Get(Bump(c, k), q) == Get(c, q) + (if k == q then 1 else 0)
  {
    if c != [] && c[0].0 != k {
      BumpGet(c[1..], k, q);
    }
  }

  lemma {:induction false} BumpTotal<K>(c: Counter<K>, k: K)
    ensures Total(Bump(c, k)) == Total(c) + 1
  {
    if c != [] && c[0].0 != k {
      BumpTotal(c[1..], k);
    }
  }

  lemma {:induction false} BumpDistinct<K>(c: Counter<K>, k: K)
    requires Distinct(Keys(c))
    ensures Distinct(Keys(Bump(c, k)))
    ensures forall q :: q in Keys(Bump(c, k)) <==> q in Keys(c) || q == k
  {
    if c == [] {
      assert Keys(Bump(c, k)) == [k];
    } else if c[0].0 != k {
      var rest := c[1..];
      assert Keys(c) == [c[0].0] + Keys(rest) by { KeysCons(c); }
      assert Keys(Bump(c, k)) == [c[0].0] + Keys(Bump(rest, k)) by {
        KeysCons(Bump(c, k));
      }
      assert Distinct(Keys(rest)) && c[0].0 !in Keys(rest) by {
        DistinctTail(c[0].0, Keys(rest));
      }
      BumpDistinct(rest, k);
      DistinctCons(c[0].0, Keys(Bump(rest, k)));
    } else {
      assert Keys(Bump(c, k)) == Keys(c);
      assert k == Keys(c)[0];
    }
  }

  lemma KeysCons<K, V>(c: seq<(K, V)>)
    requires c != []
    ensures Keys(c) == [c[0].0] + Keys(c[1..])
  {
    assert forall j :: 0 <= j < |c| - 1 ==> Keys(c[1..])[j] == Keys(c)[j + 1];
  }

  lemma DistinctTail<T>(x: T, t: seq<T>)
    requires Distinct([x] + t)
    ensures Distinct(t) && x !in t
  {
    var s := [x] + t;
    forall i, j | 0 <= i < j < |t| ensures t[i] != t[j] {
      assert t[i] == s[i + 1] && t[j] == s[j + 1];
    }
    forall j | 0 <= j < |t| ensures t[j] != x {
      assert s[0] == x && t[j] == s[j + 1];
    }
  }

  lemma DistinctCons<T>(x: T, t: seq<T>)
    requires Distinct(t) && x !in t
    ensures Distinct([x] + t)
  {
    var s := [x] + t;
    forall i, j | 0 <= i < j < |s| ensures s[i] != s[j] {
      if i > 0 { assert s[i] == t[i - 1] && s[j] == t[j - 1]; }
      else { assert s[j] == t[j - 1]; }
    }
  }

  /** Counts every key of `ks`, in order, on top of `c`. */
  function BumpAll<K(==)>(c: Counter<K>, ks: seq<K>): Counter<K> {
    if ks == [] then c else Bump(BumpAll(c, ks[..|ks| - 1]), ks[|ks| - 1])
  }

  /** Counting keys in one pass or in two consecutive passes is the same. */
  lemma {:induction false} BumpAllAppend<K>(c: Counter<K>, xs: seq<K>, ys: seq<K>)
    ensures BumpAll(c, xs + ys) == BumpAll(BumpAll(c, xs), ys)
    decreases |ys|
  {
    if ys == [] {
      assert xs + ys == xs;
    } else {
      assert (xs + ys)[..|xs + ys| - 1] == xs + ys[..|ys| - 1];
      BumpAllAppend(c, xs, ys[..|ys| - 1]);
    }
  }

  /** Counting `ks` on top of `c` adds each key's number of occurrences to
      its count, adds `|ks|` to the total, and never lists a key twice. */
  lemma {:induction false} BumpAllCounts<K>(c: Counter<K>, ks: seq<K>)
    requires Distinct(Keys(c))
    ensures forall q :: Get(BumpAll(c, ks), q) == Get(c, q) + multiset(ks)[q]
    ensures Total(BumpAll(c, ks)) == Total(c) + |ks|
    ensures Distinct(Keys(BumpAll(c, ks)))
    ensures forall q :: q in Keys(BumpAll(c, ks)) <==> q in Keys(c) || q in ks
  {
    if ks != [] {
      var init, last := ks[..|ks| - 1], ks[|ks| - 1];
      BumpAllCounts(c, init);
      assert ks == init + [last];
      forall q ensures Get(BumpAll(c, ks), q) == Get(c, q) + multiset(ks)[q] {
        BumpGet(BumpAll(c, init), last, q);
      }
      BumpTotal(BumpAll(c, init), last);
      BumpDistinct(BumpAll(c, init), last);
    }
  }

  /** The counter obtained by counting `ks` one key at a time from nothing. */
  function Tally<K(==)>(ks: seq<K>): Counter<K> {
    BumpAll([], ks)
  }

  /** Counting a sequence of keys gives each key its number of occurrences,
      all counts sum to the number of keys, and no key is listed twice. */
  lemma TallyCounts<K>(ks: seq<K>)
    ensures forall q :: Get(Tally(ks), q) == multiset(ks)[q]
    ensures Total(Tally(ks)) == |ks|
    ensures Distinct(Keys(Tally(ks)))
    ensures forall q :: q in Keys(Tally(ks)) <==> q in ks
  {
    assert Keys<K, nat>([]) == [];
    BumpAllCounts([], ks);
  }

  // ------------------------------------------------------------ dictionaries

  /** An insertion-ordered dictionary: a Python `dict`, a JavaScript object or
      a JSON object, with its keys in insertion order. */
  type Dict<K, V> = seq<(K, V)>

  /** `d.get(k)` / `d[k]`, `None` standing for a missing key. */
  function Lookup<K(==), V>(d: Dict<K, V>, k: K): (r: Option<V>)
    ensures r.Some? <==> k in Keys(d)
    ensures r.Some? ==> (k, r.value) in d
  {
    if d == [] then None
    else
      assert Keys(d) == [d[0].0] + Keys(d[1..]);
      if d[0].0 == k then Some(d[0].1) else Lookup(d[1..], k)
  }

  /** `d[k] = v`: replaces the value of an existing key where it stands, or
      appends a new key. */
  function Put<K(==), V>(d: Dict<K, V>, k: K, v: V): (r: Dict<K, V>)
    ensures Keys(r) == if k in Keys(d) then Keys(d) else Keys(d) + [k]
  {
    if d == [] then [(k, v)]
    else
      KeysCons(d);
      if d[0].0 == k then
        var r := [(k, v)] + d[1..];
        KeysCons(r);
        assert r[1..] == d[1..];
        r
      else
        var rest := Put(d[1..], k, v);
        var r := [d[0]] + rest;
        KeysCons(r);
        assert r[1..] == rest;
        r
  }

  /** After `d[k] = v`, `k` maps to `v` and every other key is unchanged. */
  lemma {:induction false} PutLookup<K, V>(d: Dict<K, V>, k: K, v: V, q: K)
    ensures Lookup(Put(d, k, v), q) == if q == k then Some(v) else Lookup(d, q)
  {
    if d != [] && d[0].0 != k {
      PutLookup(d[1..], k, v, q);
    }
  }

  /** Looking a key up in two dictionaries laid end to end finds it in the
      first when it is there. */
  lemma {:induction false} LookupAppend<K, V>(a: Dict<K, V>, b: Dict<K, V>, k: K)
    ensures Lookup(a + b, k) == if k in Keys(a) then Lookup(a, k) else Lookup(b, k)
  {
    if a != [] {
      assert (a + b)[1..] == a[1..] + b;
      assert Keys(a) == [a[0].0] + Keys(a[1..]);
      LookupAppend(a[1..], b, k);
    } else {
      assert a + b == b;
    }
  }

  /** `d[k] = v` for a key that is new appends it. */
  lemma {:induction false} PutNew<K, V>(d: Dict<K, V>, k: K, v: V)
    requires k !in Keys(d)
    ensures Put(d, k, v) == d + [(k, v)]
  {
    if d != [] {
      var tail := d[1..];
      KeysCons(d);
      assert d[0].0 != k && k !in Keys(tail);
      PutNew(tail, k, v);
      PutPast(d, k, v);
      ConsTailSnoc(d, (k, v));
    }
  }

  /** Putting the head back on `d[1..] + [x]` gives `d + [x]`. */
  lemma ConsTailSnoc<T>(d: seq<T>, x: T)
    requires d != []
    ensures [d[0]] + (d[1..] + [x]) == d + [x]
  {
    assert [d[0]] + d[1..] == d;
  }

  /** `d[k] = v` passes over a first key other than `k`. */
  lemma PutPast<K, V>(d: Dict<K, V>, k: K, v: V)
    requires d != [] && d[0].0 != k
    ensures Put(d, k, v) == [d[0]] + Put(d[1..], k, v)
  {
  }

  /** `d[k] = v` for a key first found at index `i` replaces that pair. */
  lemma {:induction false} PutAt<K, V>(d: Dict<K, V>, i: nat, k: K, v: V)
    requires i < |d| && d[i].0 == k
    requires forall j :: 0 <= j < i ==> d[j].0 != k
    ensures Put(d, k, v) == d[i := (k, v)]
  {
    if i > 0 {
      var tail := d[1..];
      assert forall j :: 0 <= j < i - 1 ==> tail[j].0 != k by {
        assert forall j :: 0 <= j < i - 1 ==> tail[j] == d[j + 1];
      }
      PutAt(tail, i - 1, k, v);
      assert d[0].0 != k;
      assert Put(d, k, v) == [d[0]] + Put(tail, k, v);
      UpdateCons(d, i, (k, v));
    } else {
      assert Put(d, k, v) == [(k, v)] + d[1..];
      assert d[0 := (k, v)] == [(k, v)] + d[1..];
    }
  }

  /** Updating past the head of a sequence updates its tail. */
  lemma UpdateCons<T>(d: seq<T>, i: nat, x: T)
    requires 0 < i < |d|
    ensures d[i := x] == [d[0]] + d[1..][i - 1 := x]
  {
    var r := [d[0]] + d[1..][i - 1 := x];
    assert forall j :: 0 <= j < |d| ==> r[j] == d[i := x][j];
  }
}

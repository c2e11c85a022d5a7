/** Ordering of (key, value) entries by value, as the leaderboards and the
    rank tally do it: `sorted(..., key=value, reverse=True)`, which is
    stable, a top-N slice of it, and `Counter(...).most_common()`. */
module Ranking {

  /** (member name, statistic) for a leaderboard, (rank, count) for the tally. */
  type Entry = (string, int)

  ghost predicate NonIncreasing(s: seq<Entry>) {
    forall i, j :: 0 <= i < j < |s| ==> s[i].1 >= s[j].1
  }

  /** The entries of `s` whose value is `v`, in their order in `s`. */
  function WithValue(s: seq<Entry>, v: int): seq<Entry> {
    if |s| == 0 then []
    else (if s[0].1 == v then [s[0]] else []) + WithValue(s[1..], v)
  }

  /** Places `x` after the entries of greater value and before the others. */
  function InsertDesc(x: Entry, s: seq<Entry>): seq<Entry> {
    if |s| == 0 then [x]
    else if s[0].1 > x.1 then [s[0]] + InsertDesc(x, s[1..])
    else [x] + s
  }

  lemma {:induction false} InsertDescPermutes(x: Entry, s: seq<Entry>)
    ensures multiset(InsertDesc(x, s)) == multiset(s) + multiset{x}
  {
    if |s| > 0 && s[0].1 > x.1 {
      assert s == [s[0]] + s[1..];
      InsertDescPermutes(x, s[1..]);
    }
  }

  lemma NonIncreasingTail(s: seq<Entry>)
    requires NonIncreasing(s) && |s| > 0
    ensures NonIncreasing(s[1..])
  {
    forall i, j | 0 <= i < j < |s| - 1 ensures s[1..][i].1 >= s[1..][j].1 {
      assert s[1..][i] == s[i + 1];
    }
  }

  lemma NonIncreasingCons(e: Entry, t: seq<Entry>)
    requires NonIncreasing(t)
    requires forall k :: 0 <= k < |t| ==> e.1 >= t[k].1
    ensures NonIncreasing([e] + t)
  {
    forall i, j | 0 <= i < j < |t| + 1 ensures ([e] + t)[i].1 >= ([e] + t)[j].1 {
      assert ([e] + t)[j] == t[j - 1];
    }
  }

  /** The head of an ordered list bounds a permutation of its tail plus a
      smaller entry. */
  lemma HeadBound(s: seq<Entry>, x: Entry, t: seq<Entry>)
    requires NonIncreasing(s) && |s| > 0 && s[0].1 > x.1
    requires multiset(t) == multiset(s[1..]) + multiset{x}
    ensures forall k :: 0 <= k < |t| ==> s[0].1 >= t[k].1
  {
    forall k | 0 <= k < |t| ensures s[0].1 >= t[k].1 {
      assert t[k] in multiset(t);
      if t[k] != x {
        assert t[k] in s[1..];
      }
    }
  }

  lemma {:induction false} InsertDescOrdered(x: Entry, s: seq<Entry>)
    requires NonIncreasing(s)
    ensures NonIncreasing(InsertDesc(x, s))
    ensures multiset(InsertDesc(x, s)) == multiset(s) + multiset{x}
  {
    InsertDescPermutes(x, s);
    if |s| > 0 && s[0].1 > x.1 {
      NonIncreasingTail(s);
      InsertDescOrdered(x, s[1..]);
      HeadBound(s, x, InsertDesc(x, s[1..]));
      NonIncreasingCons(s[0], InsertDesc(x, s[1..]));
    }
  }

  lemma {:induction false} InsertDescWithValue(x: Entry, s: seq<Entry>, v: int)
    requires NonIncreasing(s)
    ensures WithValue(InsertDesc(x, s), v) == (if x.1 == v then [x] else []) + WithValue(s, v)
  {
    if |s| == 0 {
      assert InsertDesc(x, s) == [x];
      assert WithValue([x], v) == (if x.1 == v then [x] else []) + WithValue([x][1..], v);
    } else if s[0].1 > x.1 {
      var t := InsertDesc(x, s[1..]);
      assert InsertDesc(x, s) == [s[0]] + t;
      assert ([s[0]] + t)[1..] == t;
      assert NonIncreasing(s[1..]) by {
        forall i, j | 0 <= i < j < |s[1..]| ensures s[1..][i].1 >= s[1..][j].1 {
          assert s[1..][i] == s[i + 1] && s[1..][j] == s[j + 1];
        }
      }
      InsertDescWithValue(x, s[1..], v);
      var head := if s[0].1 == v then [s[0]] else [];
      var mid := if x.1 == v then [x] else [];
      assert head == [] || mid == [];
      calc {
        WithValue(InsertDesc(x, s), v);
        head + WithValue(t, v);
        head + (mid + WithValue(s[1..], v));
        mid + (head + WithValue(s[1..], v));
        mid + WithValue(s, v);
      }
    } else {
      assert InsertDesc(x, s) == [x] + s;
      assert ([x] + s)[1..] == s;
    }
  }

  /** `sorted(entries, key=value, reverse=True)`: ordered by value, a
      permutation of its input, and stable: the entries sharing a value keep
      their input order. */
  function SortDesc(s: seq<Entry>): (r: seq<Entry>)
    ensures |r| == |s|
    ensures NonIncreasing(r)
    ensures multiset(r) == multiset(s)
    ensures forall v :: WithValue(r, v) == WithValue(s, v)
  {
    if |s| == 0 then []
    else
      assert s == [s[0]] + s[1..];
      var t := SortDesc(s[1..]);
      InsertDescOrdered(s[0], t);
      assert |InsertDesc(s[0], t)| == |multiset(InsertDesc(s[0], t))| == |s|;
      assert forall v :: WithValue(InsertDesc(s[0], t), v) == WithValue(s, v) by {
        forall v ensures WithValue(InsertDesc(s[0], t), v) == WithValue(s, v) {
          InsertDescWithValue(s[0], t, v);
        }
      }
      InsertDesc(s[0], t)
  }

  function Min(a: int, b: int): int {
    if a <= b then a else b
  }

  /** The entries of value `v` in a prefix of `s` are a prefix of those in `s`. */
  lemma {:induction false} WithValuePrefix(s: seq<Entry>, k: nat, v: int)
    requires k <= |s|
    ensures WithValue(s[..k], v) <= WithValue(s, v)
  {
    if k > 0 {
      assert s[..k][1..] == s[1..][..k - 1];
      WithValuePrefix(s[1..], k - 1, v);
    }
  }

  /** What the slice leaves out of an ordered list is worth no more than
      what it keeps. */
  lemma LeftOutNoGreater(sorted: seq<Entry>, m: nat, e: Entry, k: nat)
    requires NonIncreasing(sorted) && m <= |sorted|
    requires e in sorted && e !in sorted[..m] && k < m
    ensures sorted[k].1 >= e.1
  {
    var i :| 0 <= i < |sorted| && sorted[i] == e;
    assert forall j :: 0 <= j < m ==> sorted[..m][j] == sorted[j];
    assert i >= m;
  }

  /** `sorted(entries, key=value, reverse=True)[:n]`. */
  function Top(s: seq<Entry>, n: nat): seq<Entry> {
    SortDesc(s)[..Min(n, |s|)]
  }

  /** The slice is as long as asked, or the whole list, and ordered. */
  lemma TopOrdered(s: seq<Entry>, n: nat)
    ensures |Top(s, n)| == Min(n, |s|)
    ensures NonIncreasing(Top(s, n))
  {
    var sorted := SortDesc(s);
    var m := Min(n, |s|);
    assert forall i :: 0 <= i < m ==> sorted[..m][i] == sorted[i];
  }

  /** The slice only keeps entries of the input. */
  lemma TopSubset(s: seq<Entry>, n: nat)
    ensures multiset(Top(s, n)) <= multiset(s)
  {
    var sorted := SortDesc(s);
    var m := Min(n, |s|);
    assert sorted == sorted[..m] + sorted[m..];
  }

  /** No entry left out is worth more than one kept. */
  lemma TopLeftOut(s: seq<Entry>, n: nat)
    ensures forall e, k :: e in s && e !in Top(s, n) && 0 <= k < |Top(s, n)| ==> Top(s, n)[k].1 >= e.1
  {
    var sorted := SortDesc(s);
    var m := Min(n, |s|);
    forall e, k | e in s && e !in sorted[..m] && 0 <= k < m
      ensures sorted[..m][k].1 >= e.1
    {
      assert e in multiset(sorted);
      LeftOutNoGreater(sorted, m, e, k);
    }
  }

  /** Entries of equal value keep their input order. */
  lemma TopStable(s: seq<Entry>, n: nat)
    ensures forall v :: WithValue(Top(s, n), v) <= WithValue(s, v)
  {
    var sorted := SortDesc(s);
    var m := Min(n, |s|);
    forall v ensures WithValue(sorted[..m], v) <= WithValue(s, v) {
      WithValuePrefix(sorted, m, v);
    }
  }

  /** What `Top` promises: the n best entries, best first, ties in input
      order, nothing better left out. */
  lemma TopRanked(s: seq<Entry>, n: nat)
    ensures var r := Top(s, n);
            && |r| == Min(n, |s|)
            && NonIncreasing(r)
            && multiset(r) <= multiset(s)
            && (forall e, k :: e in s && e !in r && 0 <= k < |r| ==> r[k].1 >= e.1)
            && (forall v :: WithValue(r, v) <= WithValue(s, v))
  {
    TopOrdered(s, n);
    TopSubset(s, n);
    TopLeftOut(s, n);
    TopStable(s, n);
  }

  /** The keys of a list of entries, in order. */
  function KeySeq(t: seq<Entry>): (keys: seq<string>)
    ensures |keys| == |t|
    ensures forall i :: 0 <= i < |t| ==> keys[i] == t[i].0
  {
    if |t| == 0 then [] else [t[0].0] + KeySeq(t[1..])
  }

  /** The elements of `s` in order of first occurrence: the key order of a
      Python dict filled from `s`. */
  function Distinct(s: seq<string>): (d: seq<string>)
    ensures forall k :: k in d <==> k in s
    ensures forall i, j :: 0 <= i < j < |d| ==> d[i] != d[j]
  {
    if |s| == 0 then []
    else
      var p := Distinct(s[..|s| - 1]);
      assert s == s[..|s| - 1] + [s[|s| - 1]];
      if s[|s| - 1] in s[..|s| - 1] then p else p + [s[|s| - 1]]
  }

  /** Each key paired with its number of occurrences in `s`. */
  function CountsOf(keys: seq<string>, s: seq<string>): (r: seq<Entry>)
    ensures |r| == |keys|
    ensures forall i :: 0 <= i < |r| ==> r[i] == (keys[i], multiset(s)[keys[i]])
  {
    if |keys| == 0 then [] else [(keys[0], multiset(s)[keys[0]])] + CountsOf(keys[1..], s)
  }

  /** `Counter(s)`, as its list of items: the distinct elements of `s` in
      order of first occurrence, each with the number of times it occurs. */
  function Tally(s: seq<string>): (r: seq<Entry>)
    ensures KeySeq(r) == Distinct(s)
    ensures forall i :: 0 <= i < |r| ==> r[i].1 == multiset(s)[r[i].0]
  {
    var r := CountsOf(Distinct(s), s);
    assert KeySeq(r) == Distinct(s) by {
      forall i | 0 <= i < |r| ensures KeySeq(r)[i] == Distinct(s)[i] {
        assert r[i].0 == Distinct(s)[i];
      }
    }
    r
  }

  /** `Counter(s).most_common()`: the tally ordered by count, most common
      first, equal counts in order of first occurrence. */
  function MostCommon(s: seq<string>): (r: seq<Entry>)
    ensures NonIncreasing(r)
    ensures multiset(r) == multiset(Tally(s))
    ensures forall v :: WithValue(r, v) == WithValue(Tally(s), v)
  {
    SortDesc(Tally(s))
  }

  /** Every entry of `most_common()` is an element of `s` with the number
      of times it occurs, and every element of `s` has an entry. */
  lemma MostCommonCounts(s: seq<string>)
    ensures forall i :: 0 <= i < |MostCommon(s)| ==>
              MostCommon(s)[i].0 in s && MostCommon(s)[i].1 == multiset(s)[MostCommon(s)[i].0] >= 1
    ensures forall x :: x in s ==> exists i :: 0 <= i < |MostCommon(s)| && MostCommon(s)[i] == (x, multiset(s)[x])
  {
    var r, t := MostCommon(s), Tally(s);
    forall i | 0 <= i < |r|
      ensures r[i].0 in s && r[i].1 == multiset(s)[r[i].0] >= 1
    {
      assert r[i] in multiset(t);
      var j :| 0 <= j < |t| && t[j] == r[i];
      assert KeySeq(t)[j] == t[j].0;
      assert t[j].0 in Distinct(s);
    }
    forall x | x in s
      ensures exists i :: 0 <= i < |r| && r[i] == (x, multiset(s)[x])
    {
      assert x in Distinct(s);
      var j :| 0 <= j < |t| && KeySeq(t)[j] == x;
      assert t[j] in multiset(r);
      var i :| 0 <= i < |r| && r[i] == t[j];
    }
  }
}

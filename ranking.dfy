/**
 * Ranking by a numeric key, best first: the stable descending sort that the
 * leaderboards use, and the "keep the first n" step of the top-n lists.
 */
module Ranking {
  import opened Common

  /** No entry is ranked below one with a smaller key. */
  ghost predicate SortedDesc<T>(s: seq<T>, key: T -> nat) {
    forall i, j :: 0 <= i < j < |s| ==> key(s[i]) >= key(s[j])
  }

  /** Inserts `x` into a ranking after every entry whose key is at least its own. */
  function InsertDesc<T>(x: T, s: seq<T>, key: T -> nat): (r: seq<T>)
    requires SortedDesc(s, key)
    ensures SortedDesc(r, key)
    ensures multiset(r) == multiset(s) + multiset{x}
    ensures |r| == |s| + 1
    ensures r[0] == if |s| == 0 || key(x) > key(s[0]) then x else s[0]
  {
    if |s| == 0 then [x]
    else if key(x) > key(s[0]) then [x] + s
    else
      var rest := InsertDesc(x, s[1..], key);
      assert s == [s[0]] + s[1..];
      assert key(rest[0]) <= key(s[0]);
      [s[0]] + rest
  }

  /** Ranks `s` by `key`, best first; entries with equal keys keep their relative order. */
  function SortDesc<T>(s: seq<T>, key: T -> nat): (r: seq<T>)
    ensures SortedDesc(r, key)
    ensures multiset(r) == multiset(s)
    ensures |r| == |s|
  {
    if |s| == 0 then []
    else
      assert s == s[..|s| - 1] + [s[|s| - 1]];
      InsertDesc(s[|s| - 1], SortDesc(s[..|s| - 1], key), key)
  }

  /**
   * The first n entries of a ranking are a ranking too, and every entry
   * left out ranks no higher than any entry kept.
   */
  lemma TopPrefix<T>(s: seq<T>, key: T -> nat, n: nat)
    requires SortedDesc(s, key)
    ensures SortedDesc(s[..Min(n, |s|)], key)
    ensures forall i, j :: 0 <= i < Min(n, |s|) <= j < |s| ==> key(s[i]) >= key(s[j])
  {
  }

  /** An element found at two positions is counted at least twice. */
  lemma TwiceCounted<T>(s: seq<T>, i: nat, j: nat)
    requires i < j < |s| && s[i] == s[j]
    ensures multiset(s)[s[i]] >= 2
  {
    assert s == s[..i] + [s[i]] + s[i + 1..j] + [s[j]] + s[j + 1..];
  }

  /** In a list whose entries have distinct ids, no entry is counted twice. */
  lemma {:induction false} CountedOnce<T>(all: seq<T>, id: T -> nat, e: T)
    requires forall a, b :: 0 <= a < b < |all| ==> id(all[a]) != id(all[b])
    ensures multiset(all)[e] <= 1
  {
    if |all| > 0 {
      assert all == [all[0]] + all[1..];
      CountedOnce(all[1..], id, e);
      if all[0] == e {
        assert e !in all[1..];
      }
    }
  }

  /** Entries with distinct ids keep distinct ids once rearranged, for instance by SortDesc. */
  lemma DistinctKeysSurviveRanking<T>(all: seq<T>, ranked: seq<T>, id: T -> nat, i: nat, j: nat)
    requires multiset(ranked) == multiset(all)
    requires forall a, b :: 0 <= a < b < |all| ==> id(all[a]) != id(all[b])
    requires i < j < |ranked|
    ensures id(ranked[i]) != id(ranked[j])
  {
    if id(ranked[i]) == id(ranked[j]) {
      assert ranked[i] in multiset(all) && ranked[j] in multiset(all);
      var a :| 0 <= a < |all| && all[a] == ranked[i];
      var b :| 0 <= b < |all| && all[b] == ranked[j];
      assert a == b;
      TwiceCounted(ranked, i, j);
      CountedOnce(all, id, ranked[i]);
      assert false;
    }
  }
}

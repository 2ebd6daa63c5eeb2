/**
 * What the modelled queries ask of the database, over row sequences: WHERE (Filter),
 * LIMIT (Limit) and ORDER BY on a text column (SortBy, with the byte-wise order Less).
 */
module Relational {
  import opened JavaText

  /** WHERE: the rows that satisfy `p`, in their original order. */
  function Filter<T>(s: seq<T>, p: T -> bool): (r: seq<T>)
    ensures |r| <= |s|
    ensures forall i :: 0 <= i < |r| ==> r[i] in s && p(r[i])
    ensures forall i :: 0 <= i < |s| && p(s[i]) ==> s[i] in r
  {
    if s == [] then [] else (if p(s[0]) then [s[0]] else []) + Filter(s[1..], p)
  }

  /** WHERE keeps a qualifying row as many times as the view holds it, and drops any other. */
  lemma {:induction false} FilterCountOf<T>(s: seq<T>, p: T -> bool, x: T)
    ensures multiset(Filter(s, p))[x] == (if p(x) then multiset(s)[x] else 0)
  {
    if s != [] {
      FilterCountOf(s[1..], p, x);
      assert s == [s[0]] + s[1..];
    }
  }

  /** The multiplicities Count relies on, for every row of the view. */
  lemma FilterMultiplicity<T>(s: seq<T>, p: T -> bool)
    ensures multiset(Filter(s, p)) <= multiset(s)
    ensures forall x :: x in multiset(s) ==>
      multiset(Filter(s, p))[x] == (if p(x) then multiset(s)[x] else 0)
  {
    forall x | x in multiset(s) {
      FilterCountOf(s, p, x);
    }
    forall x | x in multiset(Filter(s, p)) ensures x in multiset(s) {
      FilterCountOf(s, p, x);
    }
  }

  /**
   * `column > key` with the key bound as a parameter, as Oracle evaluates it: Oracle stores
   * the empty string as NULL, and a comparison with NULL holds for no row.
   */
  predicate SqlAfter(key: string, value: string)
  {
    key != "" && Less(key, value)
  }

  /** The number of rows that satisfy `p`, as `select count(*) ... where p` returns it. */
  function Count<T>(s: seq<T>, p: T -> bool): nat
  {
    |Filter(s, p)|
  }

  /** LIMIT n: the first `n` rows; a limit of zero or less returns none. */
  function Limit<T>(s: seq<T>, n: int): (r: seq<T>)
    ensures |r| <= |s| && |r| <= (if n < 0 then 0 else n)
    ensures r == s[..|r|]
    ensures |r| == (if n <= 0 then 0 else if n < |s| then n else |s|)
    ensures multiset(r) <= multiset(s)
  {
    if n <= 0 then []
    else if n < |s| then
      assert s == s[..n] + s[n..];
      s[..n]
    else s
  }

  /** `s` is in ascending `key` order (ties in any order). */
  ghost predicate SortedBy<T>(s: seq<T>, key: T -> string)
  {
    forall i, j :: 0 <= i < j < |s| ==> !Less(key(s[j]), key(s[i]))
  }

  /** Places `x` before the first element whose key is not below `x`'s. */
  function InsertBy<T>(x: T, s: seq<T>, key: T -> string): (r: seq<T>)
    requires SortedBy(s, key)
    ensures SortedBy(r, key)
    ensures multiset(r) == multiset(s) + multiset{x}
  {
    if s == [] then [x]
    else if !Less(key(s[0]), key(x)) then
      assert SortedBy([x] + s, key) by {
        forall j | 0 < j < |[x] + s| ensures !Less(key(([x] + s)[j]), key(x)) {
          if j > 1 {
            assert !Less(key(s[j - 1]), key(s[0]));
          } else {
            LessIrreflexive(key(s[0]));
          }
          LessEqTransitive(key(x), key(s[0]), key(s[j - 1]));
        }
      }
      [x] + s
    else
      var rest := InsertBy(x, s[1..], key);
      assert s == [s[0]] + s[1..];
      assert SortedBy([s[0]] + rest, key) by {
        LessAsymmetric(key(s[0]), key(x));
        forall j | 0 <= j < |rest| ensures !Less(key(rest[j]), key(s[0])) {
          assert rest[j] in multiset(rest);
          if rest[j] != x {
            assert rest[j] in multiset(s[1..]);
            var k :| 0 <= k < |s[1..]| && s[1..][k] == rest[j];
            assert s[k + 1] == rest[j];
          }
        }
      }
      [s[0]] + rest
  }

  /** ORDER BY key: the same rows, ascending. */
  function SortBy<T>(s: seq<T>, key: T -> string): (r: seq<T>)
    ensures SortedBy(r, key)
    ensures multiset(r) == multiset(s)
    ensures |r| == |s|
  {
    if s == [] then []
    else
      assert s == [s[0]] + s[1..];
      InsertBy(s[0], SortBy(s[1..], key), key)
  }

  /**
   * ORDER BY key LIMIT n returns the smallest keys: every candidate row left out of a
   * non-empty page has a key no smaller than the page's last key.
   */
  lemma LimitOfSortedKeepsLeast<T>(s: seq<T>, key: T -> string, n: int, x: T)
    requires x in s
    requires x !in Limit(SortBy(s, key), n)
    requires Limit(SortBy(s, key), n) != []
    ensures var page := Limit(SortBy(s, key), n);
      !Less(key(x), key(page[|page| - 1]))
  {
    var sorted := SortBy(s, key);
    var page := Limit(sorted, n);
    assert x in multiset(sorted);
    var j :| 0 <= j < |sorted| && sorted[j] == x;
    assert |page| - 1 < j;
  }

  /** Rows that come out of ORDER BY + LIMIT are candidate rows. */
  lemma LimitOfSortedFrom<T>(s: seq<T>, key: T -> string, n: int, x: T)
    requires x in Limit(SortBy(s, key), n)
    ensures x in s
  {
    assert x in multiset(Limit(SortBy(s, key), n));
  }

  /** A prefix of a sorted sequence is sorted. */
  lemma LimitOfSortedIsSorted<T>(s: seq<T>, key: T -> string, n: int)
    ensures SortedBy(Limit(SortBy(s, key), n), key)
  {
  }

  /** A page shorter than its limit holds every candidate row. */
  lemma LimitShortKeepsAll<T>(s: seq<T>, key: T -> string, n: int, x: T)
    requires x in s
    requires |Limit(SortBy(s, key), n)| < n
    ensures x in Limit(SortBy(s, key), n)
  {
    var sorted := SortBy(s, key);
    assert x in multiset(s);
    assert x in multiset(sorted);
  }

  /**
   * WHERE p ORDER BY key LIMIT n: qualifying rows only, in key order, as many as the limit
   * allows.
   */
  function OrderedPage<T>(s: seq<T>, p: T -> bool, key: T -> string, n: int): (r: seq<T>)
    ensures forall i :: 0 <= i < |r| ==> r[i] in s && p(r[i])
    ensures SortedBy(r, key)
    ensures |r| == (if n <= 0 then 0 else if n < Count(s, p) then n else Count(s, p))
    ensures multiset(r) <= multiset(Filter(s, p))
  {
    var candidates := Filter(s, p);
    var page := Limit(SortBy(candidates, key), n);
    LimitOfSortedIsSorted(candidates, key, n);
    forall i | 0 <= i < |page| ensures page[i] in s && p(page[i]) {
      LimitOfSortedFrom(candidates, key, n, page[i]);
      assert page[i] in multiset(candidates);
    }
    page
  }

  /**
   * The page holds the least keys: a qualifying row left out of a non-empty page sorts no
   * earlier than the page's last row, and a page shorter than its limit holds every
   * qualifying row.
   */
  lemma OrderedPageIsLeast<T>(s: seq<T>, p: T -> bool, key: T -> string, n: int, x: T)
    requires x in s && p(x)
    ensures var page := OrderedPage(s, p, key, n);
      && (x !in page && page != [] ==> !Less(key(x), key(page[|page| - 1])))
      && (|page| < n ==> x in page)
  {
    var candidates := Filter(s, p);
    assert x in multiset(s);
    FilterCountOf(s, p, x);
    assert x in multiset(candidates);
    var page := Limit(SortBy(candidates, key), n);
    if x !in page && page != [] {
      LimitOfSortedKeepsLeast(candidates, key, n, x);
    }
    if |page| < n {
      LimitShortKeepsAll(candidates, key, n, x);
    }
  }
}

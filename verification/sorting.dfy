/**
 * Orderings used by the listing queries (`orderBy: { date: 'asc' }`, `orderBy: { name: 'asc' }`, ...)
 * and a selection that returns the chosen keys of a table in such an order.
 */
module Sorting {

  /** `le` compares any two elements and its comparisons chain: a total preorder (ties allowed). */
  ghost predicate TotalPreorder<T(!new)>(le: (T, T) -> bool) {
    && (forall a, b :: le(a, b) || le(b, a))
    && (forall a, b, c :: le(a, b) && le(b, c) ==> le(a, c))
  }

  /** Every earlier element is `le` every later one. */
  predicate SortedBy<T>(xs: seq<T>, le: (T, T) -> bool) {
    forall i, j :: 0 <= i < j < |xs| ==> le(xs[i], xs[j])
  }

  /** No element occurs twice. */
  predicate Distinct<T(==)>(xs: seq<T>) {
    forall i, j :: 0 <= i < j < |xs| ==> xs[i] != xs[j]
  }

  /** Ascending order of an integer rank (dates are ranked by their instant). */
  function Ascending<T>(rank: T -> int): (T, T) -> bool {
    (a: T, b: T) => rank(a) <= rank(b)
  }

  /** Descending order of an integer rank. */
  function Descending<T>(rank: T -> int): (T, T) -> bool {
    (a: T, b: T) => rank(a) >= rank(b)
  }

  lemma AscendingIsTotalPreorder<T(!new)>(rank: T -> int)
    ensures TotalPreorder(Ascending(rank))
  {
  }

  lemma DescendingIsTotalPreorder<T(!new)>(rank: T -> int)
    ensures TotalPreorder(Descending(rank))
  {
  }

  /**
   * Lexicographic order on strings, character by character (code point by code point), a proper
   * prefix first. This is the order of a binary ("C") collation on UTF-8 text, one of the
   * collations a database may sort a text column by.
   */
  predicate TextLe(a: string, b: string) {
    if |a| == 0 then true
    else if |b| == 0 then false
    else a[0] < b[0] || (a[0] == b[0] && TextLe(a[1..], b[1..]))
  }

  lemma {:induction false} TextLeTotal(a: string, b: string)
    ensures TextLe(a, b) || TextLe(b, a)
  {
    if |a| > 0 && |b| > 0 && a[0] == b[0] {
      TextLeTotal(a[1..], b[1..]);
    }
  }

  lemma {:induction false} TextLeTransitive(a: string, b: string, c: string)
    requires TextLe(a, b) && TextLe(b, c)
    ensures TextLe(a, c)
  {
    if |a| > 0 && |b| > 0 && |c| > 0 && a[0] == b[0] && b[0] == c[0] {
      TextLeTransitive(a[1..], b[1..], c[1..]);
    }
  }

  /** Two strings that are each `TextLe` the other are the same string. */
  lemma {:induction false} TextLeAntisymmetric(a: string, b: string)
    requires TextLe(a, b) && TextLe(b, a)
    ensures a == b
  {
    if |a| > 0 && |b| > 0 {
      TextLeAntisymmetric(a[1..], b[1..]);
      assert a == [a[0]] + a[1..];
      assert b == [b[0]] + b[1..];
    }
  }

  /** Character order is a total preorder, so a listing may sort by it like by any collation. */
  lemma CodePointCollation()
    ensures TotalPreorder((a: string, b: string) => TextLe(a, b))
  {
    var le := (a: string, b: string) => TextLe(a, b);
    forall a, b
      ensures le(a, b) || le(b, a)
    {
      TextLeTotal(a, b);
    }
    forall a, b, c | le(a, b) && le(b, c)
      ensures le(a, c)
    {
      TextLeTransitive(a, b, c);
    }
  }

  /**
   * Ascending order of a text key under `collate`, the order the database compares text in
   * (`orderBy: { name: 'asc' }` leaves it to the column's collation).
   */
  function Alphabetical<T>(key: T -> string, collate: (string, string) -> bool): (T, T) -> bool {
    (a: T, b: T) => collate(key(a), key(b))
  }

  lemma AlphabeticalIsTotalPreorder<T(!new)>(key: T -> string, collate: (string, string) -> bool)
    requires TotalPreorder(collate)
    ensures TotalPreorder(Alphabetical(key, collate))
  {
    var le := Alphabetical(key, collate);
    forall a, b
      ensures le(a, b) || le(b, a)
    {
      assert collate(key(a), key(b)) || collate(key(b), key(a));
    }
    forall a, b, c | le(a, b) && le(b, c)
      ensures le(a, c)
    {
      assert collate(key(a), key(b)) && collate(key(b), key(c));
    }
  }

  /** The number of leading elements of sorted `xs` that are `le` x: where x is inserted. */
  function InsertionPoint<T>(x: T, xs: seq<T>, le: (T, T) -> bool): (p: nat)
    ensures p <= |xs|
    ensures forall i :: 0 <= i < p ==> le(xs[i], x)
    ensures p < |xs| ==> !le(xs[p], x)
  {
    if xs == [] || !le(xs[0], x) then 0 else 1 + InsertionPoint(x, xs[1..], le)
  }

  /** Inserting x after every element `le` it keeps a sorted sequence sorted. */
  function Insert<T(!new)>(x: T, xs: seq<T>, le: (T, T) -> bool): (r: seq<T>)
    requires TotalPreorder(le)
    requires SortedBy(xs, le)
    ensures SortedBy(r, le)
    ensures r == xs[..InsertionPoint(x, xs, le)] + [x] + xs[InsertionPoint(x, xs, le)..]
  {
    var p := InsertionPoint(x, xs, le);
    var r := xs[..p] + [x] + xs[p..];
    assert p < |xs| ==> le(x, xs[p]);
    forall i, j | 0 <= i < j < |r|
      ensures le(r[i], r[j])
    {
      if j < p {
        assert r[i] == xs[i] && r[j] == xs[j];
      } else if j == p {
        assert r[j] == x && r[i] == xs[i];
      } else if i == p {
        assert r[i] == x && r[j] == xs[j - 1];
        assert le(xs[p], xs[j - 1]) || p == j - 1;
      } else if i < p {
        assert r[i] == xs[i] && r[j] == xs[j - 1];
      } else {
        assert r[i] == xs[i - 1] && r[j] == xs[j - 1];
      }
    }
    r
  }

  /**
   * The keys of `keys` that satisfy `keep`, each exactly once, sorted by `le`.
   * This is the shape of every `findMany({ where, orderBy })` of the services.
   */
  method SortedSelection<K(!new)>(keys: set<K>, keep: K -> bool, le: (K, K) -> bool) returns (r: seq<K>)
    requires TotalPreorder(le)
    ensures forall k :: k in r <==> k in keys && keep(k)
    ensures Distinct(r)
    ensures SortedBy(r, le)
  {
    var remaining := set k | k in keys && keep(k);
    r := [];
    while remaining != {}
      invariant forall k :: k in remaining ==> k in keys && keep(k)
      invariant forall k :: k in r <==> k in keys && keep(k) && k !in remaining
      invariant Distinct(r)
      invariant SortedBy(r, le)
      decreases remaining
    {
      var k :| k in remaining;
      var p := InsertionPoint(k, r, le);
      var r' := Insert(k, r, le);
      assert r' == r[..p] + [k] + r[p..];
      forall i, j | 0 <= i < j < |r'|
        ensures r'[i] != r'[j]
      {
        if j < p {
        } else if j == p {
          assert r[i] in r;
        } else if i == p {
          assert r[j - 1] in r;
        } else if i < p {
        } else {
        }
      }
      r := r';
      remaining := remaining - {k};
    }
  }
}

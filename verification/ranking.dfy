/** The result ranker: the route's four-key comparator and the stable sort
    (`Array.prototype.sort` is stable) that orders the cleaned listings. */
module Ranking {
  import opened Options
  import opened Places

  /** `x ?? -1`: a null count or rating ranks below every real one. */
  function OrMinusOne(o: Option<nat>): int {
    match o
    case Some(n) => n
    case None => -1
  }

  /** `s && s !== "" ? 0 : 1`: 0 when the field has text. */
  function AbsentRank(s: string): int {
    if s != "" then 0 else 1
  }

  /** The sort comparator of the route: negative when `a` goes first,
      positive when `b` does, zero on a full tie. */
  function Compare(a: Listing, b: Listing): (r: int)
    ensures r < 0 <==> Ahead(KeyOf(a), KeyOf(b))
    ensures r == 0 <==> KeyOf(a) == KeyOf(b)
    ensures r > 0 <==> Ahead(KeyOf(b), KeyOf(a))
  {
    var reviews := OrMinusOne(b.totalUserRating) - OrMinusOne(a.totalUserRating);
    if reviews != 0 then reviews
    else
      var rating := OrMinusOne(b.ratings) - OrMinusOne(a.ratings);
      if rating != 0 then rating
      else
        var phone := AbsentRank(a.phone) - AbsentRank(b.phone);
        if phone != 0 then phone
        else AbsentRank(a.website) - AbsentRank(b.website)
  }

  /** The four things the ranking looks at. */
  datatype SortKey = SortKey(reviews: int, rating: int, hasPhone: bool, hasWebsite: bool)

  function KeyOf(l: Listing): SortKey {
    SortKey(OrMinusOne(l.totalUserRating), OrMinusOne(l.ratings), l.phone != "", l.website != "")
  }

  /** The intended order, written independently of `Compare`: `k` is strictly
      ahead of `m` when it has more reviews, or as many and a higher rating,
      or both equal and only `k` has a phone, or all that equal and only `k`
      has a website. */
  predicate Ahead(k: SortKey, m: SortKey) {
    || k.reviews > m.reviews
    || (k.reviews == m.reviews && k.rating > m.rating)
    || (k.reviews == m.reviews && k.rating == m.rating && k.hasPhone && !m.hasPhone)
    || (k.reviews == m.reviews && k.rating == m.rating && k.hasPhone == m.hasPhone
        && k.hasWebsite && !m.hasWebsite)
  }

  /** Any real review count or rating outranks a null one, other keys equal. */
  lemma NullRanksLast(a: Listing, b: Listing)
    ensures a.totalUserRating.Some? && b.totalUserRating.None? ==> Compare(a, b) < 0
    ensures a.totalUserRating == b.totalUserRating && a.ratings.Some? && b.ratings.None?
            ==> Compare(a, b) < 0
  {
  }

  lemma CompareFlip(a: Listing, b: Listing)
    ensures Compare(a, b) == -Compare(b, a)
  {
  }

  lemma NotBehindTransitive(a: Listing, b: Listing, c: Listing)
    requires Compare(a, b) <= 0 && Compare(b, c) <= 0
    ensures Compare(a, c) <= 0
  {
  }

  /** No element is ahead of an earlier one. */
  predicate Sorted(s: seq<Listing>) {
    forall i, j :: 0 <= i < j < |s| ==> Compare(s[i], s[j]) <= 0
  }

  /** The elements of `s` whose keys are `k`, in their order in `s`. */
  function WithKey(s: seq<Listing>, k: SortKey): (r: seq<Listing>)
    ensures forall x :: x in r ==> x in s && KeyOf(x) == k
  {
    if s == [] then []
    else (if KeyOf(s[0]) == k then [s[0]] else []) + WithKey(s[1..], k)
  }

  lemma SortedCons(x: Listing, s: seq<Listing>)
    requires Sorted(s)
    requires forall e :: e in s ==> Compare(x, e) <= 0
    ensures Sorted([x] + s)
  {
    var r := [x] + s;
    forall i, j | 0 <= i < j < |r|
      ensures Compare(r[i], r[j]) <= 0
    {
      if i > 0 {
        assert r[i] == s[i - 1] && r[j] == s[j - 1];
      } else {
        assert r[j] == s[j - 1];
      }
    }
  }

  /** Puts `x` in front of the first element it is not behind, so that it
      precedes every element of its own key. */
  function Insert(x: Listing, s: seq<Listing>): (r: seq<Listing>)
    requires Sorted(s)
    ensures Sorted(r)
    ensures multiset(r) == multiset(s) + multiset{x}
  {
    if s == [] then [x]
    else if Compare(x, s[0]) <= 0 then
      InsertFront(x, s);
      [x] + s
    else
      var rest := Insert(x, s[1..]);
      InsertBehind(x, s, rest);
      assert s == [s[0]] + s[1..];
      [s[0]] + rest
  }

  lemma InsertFront(x: Listing, s: seq<Listing>)
    requires Sorted(s) && s != [] && Compare(x, s[0]) <= 0
    ensures Sorted([x] + s)
  {
    forall e | e in s
      ensures Compare(x, e) <= 0
    {
      var j :| 0 <= j < |s| && s[j] == e;
      if j > 0 {
        NotBehindTransitive(x, s[0], e);
      }
    }
    SortedCons(x, s);
  }

  lemma InsertBehind(x: Listing, s: seq<Listing>, rest: seq<Listing>)
    requires Sorted(s) && s != [] && Compare(x, s[0]) > 0
    requires Sorted(rest) && multiset(rest) == multiset(s[1..]) + multiset{x}
    ensures Sorted([s[0]] + rest)
  {
    forall e | e in rest
      ensures Compare(s[0], e) <= 0
    {
      assert e in multiset(rest);
      if e == x {
        CompareFlip(x, s[0]);
      } else {
        assert e in multiset(s[1..]);
        assert e in s[1..];
        var j :| 0 <= j < |s[1..]| && s[1..][j] == e;
        assert s[j + 1] == e;
      }
    }
    SortedCons(s[0], rest);
  }

  /** The ranker: a stable insertion sort under `Compare`. */
  function Rank(s: seq<Listing>): (r: seq<Listing>)
    ensures Sorted(r)
    ensures multiset(r) == multiset(s)
  {
    if s == [] then []
    else
      assert s == [s[0]] + s[1..];
      Insert(s[0], Rank(s[1..]))
  }

  /** Filtering by key looks at the head, then at the rest. */
  lemma WithKeyCons(y: Listing, t: seq<Listing>, k: SortKey)
    ensures WithKey([y] + t, k) == (if KeyOf(y) == k then [y] else []) + WithKey(t, k)
  {
    assert ([y] + t)[1..] == t;
  }

  lemma {:induction false} InsertWithKey(x: Listing, s: seq<Listing>, k: SortKey)
    requires Sorted(s)
    ensures WithKey(Insert(x, s), k)
            == if KeyOf(x) == k then [x] + WithKey(s, k) else WithKey(s, k)
  {
    if s == [] {
    } else if Compare(x, s[0]) <= 0 {
      WithKeyCons(x, s, k);
    } else {
      var rest := Insert(x, s[1..]);
      assert Insert(x, s) == [s[0]] + rest;
      InsertWithKey(x, s[1..], k);
      WithKeyCons(s[0], rest, k);
      WithKeyCons(s[0], s[1..], k);
      assert s == [s[0]] + s[1..];
      // `x` is strictly behind the head, so the two have different keys.
      assert KeyOf(x) != KeyOf(s[0]);
    }
  }

  /** Stability: for every key, the listings with that key come out in the
      order they went in. */
  lemma {:induction false} RankStable(s: seq<Listing>, k: SortKey)
    ensures WithKey(Rank(s), k) == WithKey(s, k)
  {
    if s != [] {
      RankStable(s[1..], k);
      InsertWithKey(s[0], Rank(s[1..]), k);
    }
  }

  /** An input already in order comes back unchanged. */
  lemma {:induction false} RankOfSorted(s: seq<Listing>)
    requires Sorted(s)
    ensures Rank(s) == s
  {
    if s != [] {
      SortedTail(s);
      RankOfSorted(s[1..]);
      if |s| > 1 {
        assert s[1..][0] == s[1];
      }
      assert [s[0]] + s[1..] == s;
    }
  }

  /** Ranking twice is ranking once. */
  lemma RankIdempotent(s: seq<Listing>)
    ensures Rank(Rank(s)) == Rank(s)
  {
    RankOfSorted(Rank(s));
  }

  lemma KeysTotal(k: SortKey, m: SortKey)
    requires !Ahead(k, m) && !Ahead(m, k)
    ensures k == m
  {
  }

  lemma WithKeyTail(s: seq<Listing>, k: SortKey)
    requires s != [] && KeyOf(s[0]) != k
    ensures WithKey(s[1..], k) == WithKey(s, k)
  {
  }

  lemma SortedTail(s: seq<Listing>)
    requires Sorted(s) && s != []
    ensures Sorted(s[1..])
  {
    forall a, b | 0 <= a < b < |s[1..]|
      ensures Compare(s[1..][a], s[1..][b]) <= 0
    {
      assert s[1..][a] == s[a + 1] && s[1..][b] == s[b + 1];
    }
  }

  /** In a sorted sequence, the head is not behind any listing of key `k`. */
  lemma HeadNotBehind(s: seq<Listing>, k: SortKey)
    requires Sorted(s) && WithKey(s, k) != []
    ensures !Ahead(k, KeyOf(s[0]))
  {
    var e := WithKey(s, k)[0];
    assert e in WithKey(s, k);
    var j :| 0 <= j < |s| && s[j] == e;
    if j > 0 {
      assert Compare(s[0], s[j]) <= 0;
    }
  }

  /** Two sorted sequences that agree on every key's listings share a head. */
  lemma SameHead(t: seq<Listing>, u: seq<Listing>)
    requires Sorted(t) && Sorted(u) && t != [] && u != []
    requires forall k :: WithKey(t, k) == WithKey(u, k)
    ensures t[0] == u[0]
  {
    var kt, ku := KeyOf(t[0]), KeyOf(u[0]);
    assert WithKey(t, kt)[0] == t[0];
    assert WithKey(u, ku)[0] == u[0];
    HeadNotBehind(u, kt);
    HeadNotBehind(t, ku);
    KeysTotal(kt, ku);
    assert WithKey(u, kt)[0] == u[0];
  }

  lemma HeadKeyListed(s: seq<Listing>)
    ensures s != [] ==> WithKey(s, KeyOf(s[0])) != []
  {
  }

  /** Two sequences that are both in order and agree on the listings of every
      key (in order) are the same sequence. */
  lemma {:induction false} SortedStableUnique(t: seq<Listing>, u: seq<Listing>)
    requires Sorted(t) && Sorted(u)
    requires forall k :: WithKey(t, k) == WithKey(u, k)
    ensures t == u
    decreases |t|
  {
    if t == [] || u == [] {
      HeadKeyListed(t);
      HeadKeyListed(u);
    } else {
      SameHead(t, u);
      SortedTail(t);
      SortedTail(u);
      forall k
        ensures WithKey(t[1..], k) == WithKey(u[1..], k)
      {
        if k == KeyOf(t[0]) {
          assert KeyOf(u[0]) == k;
          assert WithKey(t[1..], k) == WithKey(t, k)[1..];
          assert WithKey(u[1..], k) == WithKey(u, k)[1..];
        } else {
          WithKeyTail(t, k);
          WithKeyTail(u, k);
        }
      }
      SortedStableUnique(t[1..], u[1..]);
      assert t == [t[0]] + t[1..] && u == [u[0]] + u[1..];
    }
  }

  /** The ranker's output is the only ordering that is both sorted by the
      comparator and stable, i.e. what any stable sort with it returns. */
  lemma RankIsTheStableSort(s: seq<Listing>, t: seq<Listing>)
    requires Sorted(t)
    requires forall k :: WithKey(t, k) == WithKey(s, k)
    ensures t == Rank(s)
  {
    forall k
      ensures WithKey(t, k) == WithKey(Rank(s), k)
    {
      RankStable(s, k);
    }
    SortedStableUnique(t, Rank(s));
  }

  /** A listing with the four ranked fields set and the rest blank. */
  function Sample(id: string, reviews: nat, rating: nat, phone: string, website: string): Listing {
    Listing(id, id, "", None, Some(rating), [], Some(reviews), phone, website, "")
  }

  /** More reviews win over a higher rating (4.5 stars with 100 reviews
      before 4.8 stars with 50), whatever the input order. */
  lemma ReviewCountDominatesRating()
    ensures Rank([Sample("B", 50, 48, "", ""), Sample("A", 100, 45, "x", "")])
            == [Sample("A", 100, 45, "x", ""), Sample("B", 50, 48, "", "")]
    ensures Rank([Sample("A", 100, 45, "x", ""), Sample("B", 50, 48, "", "")])
            == [Sample("A", 100, 45, "x", ""), Sample("B", 50, 48, "", "")]
  {
  }

  /** At equal reviews and rating, a phone number wins over a website. */
  lemma PhoneBeatsWebsite()
    ensures Rank([Sample("A", 10, 40, "", "w"), Sample("B", 10, 40, "p", "")])
            == [Sample("B", 10, 40, "p", ""), Sample("A", 10, 40, "", "w")]
  {
  }

  /** Full ties keep their input order. */
  lemma TiesKeepInputOrder()
    ensures Rank([Sample("A", 7, 30, "", ""), Sample("B", 7, 30, "", "")])
            == [Sample("A", 7, 30, "", ""), Sample("B", 7, 30, "", "")]
  {
  }
}

/** The ordering the group record applies to its BSS observations:
    `OrderByDescending(x => x.LinkQuality)`, a stable sort, written here as an insertion sort. */
module LinkQualityOrder {
  import opened Collaborators

  /** Non-increasing by link quality. */
  ghost predicate SortedByLinkQuality(s: seq<BssNetworkPack>)
  {
    forall i, j :: 0 <= i < j < |s| ==> s[i].LinkQuality >= s[j].LinkQuality
  }

  /** Places `x` in front of the first element of `t` whose link quality is not higher,
      so `x`, which came earlier in the input than all of `t`, precedes its equals. */
  function Insert(x: BssNetworkPack, t: seq<BssNetworkPack>): (r: seq<BssNetworkPack>)
    ensures |r| == |t| + 1
    ensures multiset(r) == multiset(t) + multiset{x}
    ensures r[0] == x || (|t| > 0 && r[0] == t[0])
  {
    if t == [] || x.LinkQuality >= t[0].LinkQuality then [x] + t
    else
      assert t == [t[0]] + t[1..];
      [t[0]] + Insert(x, t[1..])
  }

  /** Inserting into a non-increasing sequence keeps it non-increasing. */
  lemma {:induction false} InsertKeepsOrder(x: BssNetworkPack, t: seq<BssNetworkPack>)
    requires SortedByLinkQuality(t)
    ensures SortedByLinkQuality(Insert(x, t))
  {
    if t == [] || x.LinkQuality >= t[0].LinkQuality {
      var r := [x] + t;
      assert r == Insert(x, t);
      forall i, j | 0 <= i < j < |r| ensures r[i].LinkQuality >= r[j].LinkQuality {
        if i > 0 {
          assert r[i] == t[i - 1] && r[j] == t[j - 1];
        } else {
          assert r[j] == t[j - 1];
        }
      }
    } else {
      var rest := Insert(x, t[1..]);
      assert SortedByLinkQuality(t[1..]);
      InsertKeepsOrder(x, t[1..]);
      var r := [t[0]] + rest;
      assert r == Insert(x, t);
      assert t[0].LinkQuality >= rest[0].LinkQuality;
      forall i, j | 0 <= i < j < |r| ensures r[i].LinkQuality >= r[j].LinkQuality {
        if i > 0 {
          assert r[i] == rest[i - 1] && r[j] == rest[j - 1];
        } else {
          assert r[j] == rest[j - 1];
        }
      }
    }
  }

  /** The observations ordered by descending link quality: a sorted permutation of the input. */
  function OrderByLinkQualityDescending(s: seq<BssNetworkPack>): (r: seq<BssNetworkPack>)
    ensures |r| == |s|
    ensures multiset(r) == multiset(s)
    ensures SortedByLinkQuality(r)
  {
    if s == [] then []
    else
      var rest := OrderByLinkQualityDescending(s[1..]);
      assert s == [s[0]] + s[1..];
      InsertKeepsOrder(s[0], rest);
      Insert(s[0], rest)
  }

  /** The observations of `s` whose link quality is `q`, in their order in `s`. */
  function WithLinkQuality(s: seq<BssNetworkPack>, q: int): seq<BssNetworkPack>
  {
    if s == [] then []
    else (if s[0].LinkQuality == q then [s[0]] else []) + WithLinkQuality(s[1..], q)
  }

  /** Inserting `x` puts it first among the observations of its quality. */
  lemma {:induction false} InsertKeepsEqualsInOrder(x: BssNetworkPack, t: seq<BssNetworkPack>, q: int)
    ensures WithLinkQuality(Insert(x, t), q) == (if x.LinkQuality == q then [x] else []) + WithLinkQuality(t, q)
  {
    if t == [] || x.LinkQuality >= t[0].LinkQuality {
      assert Insert(x, t) == [x] + t;
      assert ([x] + t)[1..] == t;
    } else {
      var rest := Insert(x, t[1..]);
      assert Insert(x, t) == [t[0]] + rest;
      assert ([t[0]] + rest)[1..] == rest;
      var head := if t[0].LinkQuality == q then [t[0]] else [];
      assert WithLinkQuality([t[0]] + rest, q) == head + WithLinkQuality(rest, q);
      assert WithLinkQuality(t, q) == head + WithLinkQuality(t[1..], q);
      InsertKeepsEqualsInOrder(x, t[1..], q);
    }
  }

  /** Stability: for every link quality, the observations having it appear in the output in
      the same relative order as in the input. */
  lemma {:induction false} OrderIsStable(s: seq<BssNetworkPack>, q: int)
    ensures WithLinkQuality(OrderByLinkQualityDescending(s), q) == WithLinkQuality(s, q)
  {
    if s != [] {
      OrderIsStable(s[1..], q);
      InsertKeepsEqualsInOrder(s[0], OrderByLinkQualityDescending(s[1..]), q);
    }
  }

  /** The filter keeps exactly the observations of quality `q`. */
  lemma {:induction false} InWithLinkQuality(s: seq<BssNetworkPack>, q: int, x: BssNetworkPack)
    ensures x in WithLinkQuality(s, q) <==> x in s && x.LinkQuality == q
  {
    if s != [] {
      InWithLinkQuality(s[1..], q, x);
      assert s == [s[0]] + s[1..];
    }
  }

  /** The head of a sorted sequence has the greatest link quality in it. */
  lemma HeadBoundsSorted(r: seq<BssNetworkPack>, x: BssNetworkPack)
    requires SortedByLinkQuality(r) && x in r
    ensures x.LinkQuality <= r[0].LinkQuality
  {
    var i :| 0 <= i < |r| && r[i] == x;
  }

  /** No observation of a non-empty sorted sequence has a higher link quality than its head. */
  lemma SortedHeadIsMaximum(r: seq<BssNetworkPack>)
    ensures SortedByLinkQuality(r) && r != [] ==> forall x :: x in r ==> x.LinkQuality <= r[0].LinkQuality
  {
    if SortedByLinkQuality(r) && r != [] {
      forall x | x in r ensures x.LinkQuality <= r[0].LinkQuality {
        HeadBoundsSorted(r, x);
      }
    }
  }

  /** Sequences with the same observations of every quality are empty together. */
  lemma SameQualitiesAgreeOnEmptiness(r1: seq<BssNetworkPack>, r2: seq<BssNetworkPack>)
    requires forall q :: WithLinkQuality(r1, q) == WithLinkQuality(r2, q)
    ensures r1 == [] <==> r2 == []
  {
    if r1 != [] {
      InWithLinkQuality(r1, r1[0].LinkQuality, r1[0]);
      InWithLinkQuality(r2, r1[0].LinkQuality, r1[0]);
    }
    if r2 != [] {
      InWithLinkQuality(r2, r2[0].LinkQuality, r2[0]);
      InWithLinkQuality(r1, r2[0].LinkQuality, r2[0]);
    }
  }

  /** A sorted sequence that keeps every link quality's observations in the same order as
      another sorted sequence is that sequence: a stable descending order is unique. */
  lemma {:induction false} StableOrderIsUnique(r1: seq<BssNetworkPack>, r2: seq<BssNetworkPack>)
    requires SortedByLinkQuality(r1) && SortedByLinkQuality(r2)
    requires forall q :: WithLinkQuality(r1, q) == WithLinkQuality(r2, q)
    ensures r1 == r2
    decreases |r1|
  {
    SameQualitiesAgreeOnEmptiness(r1, r2);
    if r1 != [] {
      var k1, k2 := r1[0].LinkQuality, r2[0].LinkQuality;
      InWithLinkQuality(r2, k2, r2[0]);
      InWithLinkQuality(r1, k2, r2[0]);
      HeadBoundsSorted(r1, r2[0]);
      InWithLinkQuality(r1, k1, r1[0]);
      InWithLinkQuality(r2, k1, r1[0]);
      HeadBoundsSorted(r2, r1[0]);
      assert k1 == k2;
      assert WithLinkQuality(r1, k1) == [r1[0]] + WithLinkQuality(r1[1..], k1);
      assert WithLinkQuality(r2, k1) == [r2[0]] + WithLinkQuality(r2[1..], k1);
      assert WithLinkQuality(r1, k1) == WithLinkQuality(r2, k1);
      assert r1[0] == WithLinkQuality(r1, k1)[0] == WithLinkQuality(r2, k1)[0] == r2[0];
      forall q ensures WithLinkQuality(r1[1..], q) == WithLinkQuality(r2[1..], q) {
        assert WithLinkQuality(r1, q) == WithLinkQuality(r2, q);
        if q == k1 {
          assert WithLinkQuality(r1, q) == [r1[0]] + WithLinkQuality(r1[1..], q);
          assert WithLinkQuality(r2, q) == [r2[0]] + WithLinkQuality(r2[1..], q);
          assert ([r1[0]] + WithLinkQuality(r1[1..], q))[1..] == WithLinkQuality(r1[1..], q);
          assert ([r2[0]] + WithLinkQuality(r2[1..], q))[1..] == WithLinkQuality(r2[1..], q);
        } else {
          assert WithLinkQuality(r1, q) == WithLinkQuality(r1[1..], q);
          assert WithLinkQuality(r2, q) == WithLinkQuality(r2[1..], q);
        }
      }
      assert SortedByLinkQuality(r1[1..]) && SortedByLinkQuality(r2[1..]);
      StableOrderIsUnique(r1[1..], r2[1..]);
      assert r1 == [r1[0]] + r1[1..] && r2 == [r2[0]] + r2[1..];
    }
  }

  /** Any stable sort by descending link quality, LINQ's `OrderByDescending` included,
      produces exactly OrderByLinkQualityDescending's output. */
  lemma StableSortIsOrderByLinkQualityDescending(s: seq<BssNetworkPack>, r: seq<BssNetworkPack>)
    requires SortedByLinkQuality(r)
    requires forall q :: WithLinkQuality(r, q) == WithLinkQuality(s, q)
    ensures r == OrderByLinkQualityDescending(s)
  {
    var o := OrderByLinkQualityDescending(s);
    forall q ensures WithLinkQuality(r, q) == WithLinkQuality(o, q) {
      OrderIsStable(s, q);
    }
    StableOrderIsUnique(r, o);
  }

  /** `s[k]` has the greatest link quality in `s` and is the first element that has it. */
  ghost predicate IsFirstMaximum(s: seq<BssNetworkPack>, k: int)
  {
    0 <= k < |s| &&
    (forall j :: 0 <= j < |s| ==> s[j].LinkQuality <= s[k].LinkQuality) &&
    (forall j :: 0 <= j < k ==> s[j].LinkQuality < s[k].LinkQuality)
  }

  /** The first maximum of `s` is `s[0]` or the first maximum of its tail, whichever has
      the higher link quality (`s[0]` on a tie). */
  lemma FirstMaximumOfCons(s: seq<BssNetworkPack>, k: int)
    requires |s| > 1 && IsFirstMaximum(s[1..], k)
    ensures s[0].LinkQuality >= s[k + 1].LinkQuality ==> IsFirstMaximum(s, 0)
    ensures s[0].LinkQuality < s[k + 1].LinkQuality ==> IsFirstMaximum(s, k + 1)
  {
    forall j | 1 <= j < |s| ensures s[j].LinkQuality <= s[k + 1].LinkQuality {
      assert s[j] == s[1..][j - 1];
    }
    forall j | 1 <= j < k + 1 ensures s[j].LinkQuality < s[k + 1].LinkQuality {
      assert s[j] == s[1..][j - 1];
    }
  }

  /** The head of the ordered sequence is the first observation of maximal link quality. */
  lemma {:induction false} HeadIsFirstMaximum(s: seq<BssNetworkPack>)
    requires s != []
    ensures exists k :: IsFirstMaximum(s, k) && OrderByLinkQualityDescending(s)[0] == s[k]
  {
    if |s| == 1 {
      assert IsFirstMaximum(s, 0);
    } else {
      var o := OrderByLinkQualityDescending(s[1..]);
      assert OrderByLinkQualityDescending(s) == Insert(s[0], o);
      HeadIsFirstMaximum(s[1..]);
      var k :| IsFirstMaximum(s[1..], k) && o[0] == s[1..][k];
      FirstMaximumOfCons(s, k);
      if s[0].LinkQuality >= o[0].LinkQuality {
        assert Insert(s[0], o)[0] == s[0];
      } else {
        assert Insert(s[0], o)[0] == o[0] == s[k + 1];
      }
    }
  }

  /** Observations of qualities 10, 90, 50 come out as 90, 50, 10. */
  lemma OrdersByDescendingQuality(a: BssNetworkPack, b: BssNetworkPack, c: BssNetworkPack)
    requires a.LinkQuality == 10 && b.LinkQuality == 90 && c.LinkQuality == 50
    ensures OrderByLinkQualityDescending([a, b, c]) == [b, c, a]
  {
    assert [a, b, c][1..] == [b, c];
    assert [b, c][1..] == [c];
  }

  /** Two observations of equal quality keep their input order. */
  lemma KeepsOrderOfEqualQualities(a: BssNetworkPack, b: BssNetworkPack)
    requires a.LinkQuality == b.LinkQuality
    ensures OrderByLinkQualityDescending([a, b]) == [a, b]
  {
    assert [a, b][1..] == [b];
  }
}

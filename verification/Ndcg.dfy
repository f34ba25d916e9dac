/** Normalised discounted cumulative gain of a ranking, over the reals and any positive non-increasing discount. */
module Ndcg {
  import opened Basics

  /** One entry of the relevance table; a table lists each item once. */
  datatype Entry = Entry(item: string, grade: real)

  // ---- Sums of reals ----------------------------------------------------------------------------

  function Total<T>(s: seq<T>, f: T -> real): real {
    if s == [] then 0.0 else Total(s[..|s| - 1], f) + f(s[|s| - 1])
  }

  lemma TotalSnoc<T>(s: seq<T>, x: T, f: T -> real)
    ensures Total(s + [x], f) == Total(s, f) + f(x)
  {
    assert (s + [x])[..|s|] == s;
  }

  lemma {:induction false} TotalConcat<T>(a: seq<T>, b: seq<T>, f: T -> real)
    ensures Total(a + b, f) == Total(a, f) + Total(b, f)
  {
    if b == [] {
      assert a + b == a;
    } else {
      assert a + b == (a + b[..|b| - 1]) + [b[|b| - 1]];
      TotalSnoc(a + b[..|b| - 1], b[|b| - 1], f);
      TotalConcat(a, b[..|b| - 1], f);
    }
  }

  lemma {:induction false} TotalNonNegative<T>(s: seq<T>, f: T -> real)
    requires forall x :: x in s ==> f(x) >= 0.0
    ensures Total(s, f) >= 0.0
  {
    if s != [] {
      TotalNonNegative(s[..|s| - 1], f);
    }
  }

  lemma {:induction false} TotalZero<T>(s: seq<T>, f: T -> real)
    requires forall x :: x in s ==> f(x) == 0.0
    ensures Total(s, f) == 0.0
  {
    if s != [] {
      TotalZero(s[..|s| - 1], f);
    }
  }

  // ---- The measure ------------------------------------------------------------------------------

  function Clip(x: real): real { if x > 0.0 then x else 0.0 }

  /** relevance.get(item, 0.0). */
  function Grade(relevance: seq<Entry>, item: string): real {
    if relevance == [] then 0.0
    else if relevance[|relevance| - 1].item == item then relevance[|relevance| - 1].grade
    else Grade(relevance[..|relevance| - 1], item)
  }

  function Gains(ranked: seq<string>, relevance: seq<Entry>): (g: seq<real>)
    ensures |g| == |ranked| && forall i :: 0 <= i < |g| ==> g[i] == Clip(Grade(relevance, ranked[i]))
  {
    seq(|ranked|, i requires 0 <= i < |ranked| => Clip(Grade(relevance, ranked[i])))
  }

  function Grades(relevance: seq<Entry>): seq<real> {
    seq(|relevance|, i requires 0 <= i < |relevance| => Clip(relevance[i].grade))
  }

  predicate Descending(s: seq<real>) { forall i, k :: 0 <= i < k < |s| ==> s[i] >= s[k] }

  function Insert(x: real, s: seq<real>): seq<real> {
    if s == [] || s[|s| - 1] >= x then s + [x] else Insert(x, s[..|s| - 1]) + [s[|s| - 1]]
  }

  /** sorted(..., reverse=True). */
  function SortDescending(s: seq<real>): seq<real> {
    if s == [] then [] else Insert(s[|s| - 1], SortDescending(s[..|s| - 1]))
  }

  function Take<T>(s: seq<T>, k: nat): seq<T> { if k < |s| then s[..k] else s }

  function At(s: seq<real>, i: nat): real { if i < |s| then s[i] else 0.0 }

  /** Discounted sum of the first `n` gains. */
  function Discounted(s: seq<real>, n: nat, discount: nat -> real): real {
    if n == 0 then 0.0 else Discounted(s, n - 1, discount) + At(s, n - 1) * discount(n - 1)
  }

  /** _dcg. */
  function Dcg(gains: seq<real>, discount: nat -> real): real { Discounted(gains, |gains|, discount) }

  /** ndcg_at_k; None is the error for a k that is not positive. */
  function NdcgAt(ranked: seq<string>, relevance: seq<Entry>, k: int, discount: nat -> real): Option<real> {
    if k <= 0 then None
    else
      var dcg := Dcg(Gains(Take(ranked, k), relevance), discount);
      var ideal := Dcg(Take(SortDescending(Grades(relevance)), k), discount);
      Some(if ideal == 0.0 then 0.0 else dcg / ideal)
  }

  ghost predicate IsDiscount(discount: nat -> real) {
    && (forall i :: discount(i) > 0.0)
    && forall i, k :: i <= k ==> discount(i) >= discount(k)
  }

  predicate Distinct(ranked: seq<string>) { forall i, k :: 0 <= i < k < |ranked| ==> ranked[i] != ranked[k] }

  predicate Table(relevance: seq<Entry>) { forall i, k :: 0 <= i < k < |relevance| ==>
                                          relevance[i].item != relevance[k].item }

  // ---- Sorting ----------------------------------------------------------------------------------

  lemma {:induction false} InsertDescending(x: real, s: seq<real>)
    requires Descending(s)
    ensures |Insert(x, s)| == |s| + 1 && Descending(Insert(x, s))
    ensures forall y :: y in Insert(x, s) <==> y == x || y in s
  {
    if s != [] && s[|s| - 1] < x {
      var front, last := s[..|s| - 1], s[|s| - 1];
      assert s == front + [last];
      InsertDescending(x, front);
      forall i | 0 <= i < |Insert(x, front)| ensures Insert(x, front)[i] >= last {
        assert Insert(x, front)[i] in Insert(x, front);
      }
    }
  }

  lemma {:induction false} SortedDescending(s: seq<real>)
    ensures |SortDescending(s)| == |s| && Descending(SortDescending(s))
    ensures forall y :: y in SortDescending(s) <==> y in s
  {
    if s != [] {
      assert s == s[..|s| - 1] + [s[|s| - 1]];
      SortedDescending(s[..|s| - 1]);
      InsertDescending(s[|s| - 1], SortDescending(s[..|s| - 1]));
    }
  }

  lemma {:induction false} InsertTotal(x: real, s: seq<real>, f: real -> real)
    ensures Total(Insert(x, s), f) == Total(s, f) + f(x)
  {
    if s == [] || s[|s| - 1] >= x {
      TotalSnoc(s, x, f);
    } else {
      InsertTotal(x, s[..|s| - 1], f);
      TotalSnoc(Insert(x, s[..|s| - 1]), s[|s| - 1], f);
    }
  }

  /** Sorting does not change any sum over the values. */
  lemma {:induction false} SortTotal(s: seq<real>, f: real -> real)
    ensures Total(SortDescending(s), f) == Total(s, f)
  {
    if s != [] {
      SortTotal(s[..|s| - 1], f);
      InsertTotal(s[|s| - 1], SortDescending(s[..|s| - 1]), f);
    }
  }

  // ---- Prefix sums and thresholds ---------------------------------------------------------------

  /** Sum of the first `n` gains. */
  function Prefix(s: seq<real>, n: nat): real {
    if n == 0 then 0.0 else Prefix(s, n - 1) + At(s, n - 1)
  }

  function Above(t: real): real -> real {
    (x: real) => if x > t then x - t else 0.0
  }

  function Times(n: nat, t: real): real { if n == 0 then 0.0 else Times(n - 1, t) + t }

  predicate NonNegative(s: seq<real>) { forall i :: 0 <= i < |s| ==> s[i] >= 0.0 }

  /** `n` gains are at most `n` times a threshold plus everything above the threshold. */
  lemma {:induction false} PrefixBelow(s: seq<real>, n: nat, t: real)
    requires t >= 0.0
    ensures Prefix(s, n) <= Times(n, t) + Total(Take(s, n), Above(t))
  {
    if n > 0 {
      PrefixBelow(s, n - 1, t);
      if n <= |s| {
        assert Take(s, n) == Take(s, n - 1) + [s[n - 1]];
        TotalSnoc(Take(s, n - 1), s[n - 1], Above(t));
      } else {
        assert Take(s, n) == Take(s, n - 1);
      }
    }
  }

  lemma TakeBelow(s: seq<real>, n: nat, t: real)
    ensures Total(Take(s, n), Above(t)) <= Total(s, Above(t))
  {
    if n < |s| {
      assert s == s[..n] + s[n..];
      TotalConcat(s[..n], s[n..], Above(t));
      forall x | x in s[n..] ensures Above(t)(x) >= 0.0 {
      }
      TotalNonNegative(s[n..], Above(t));
    }
  }

  /** The threshold that makes the bound exact for descending gains: the n-th gain. */
  function Threshold(s: seq<real>, n: nat): real { if n == 0 || n > |s| then 0.0 else s[n - 1] }

  lemma {:induction false} ExactPrefix(s: seq<real>, n: nat, t: real)
    requires forall i :: 0 <= i < n && i < |s| ==> s[i] >= t
    requires n <= |s| || t == 0.0
    ensures Prefix(s, n) == Times(n, t) + Total(Take(s, n), Above(t))
  {
    if n > 0 {
      ExactPrefix(s, n - 1, t);
      if n <= |s| {
        assert Take(s, n) == Take(s, n - 1) + [s[n - 1]];
        TotalSnoc(Take(s, n - 1), s[n - 1], Above(t));
      } else {
        assert Take(s, n) == Take(s, n - 1);
      }
    }
  }

  lemma NothingAbove(s: seq<real>, t: real)
    requires forall i :: 0 <= i < |s| ==> s[i] <= t
    ensures Total(s, Above(t)) == 0.0
  {
    forall x | x in s ensures Above(t)(x) == 0.0 {
    }
    TotalZero(s, Above(t));
  }

  lemma DescendingPrefix(s: seq<real>, n: nat)
    requires Descending(s) && NonNegative(s) && n > 0
    ensures var t := Threshold(s, n); t >= 0.0 && Prefix(s, n) == Times(n, t) + Total(s, Above(t))
  {
    var t := Threshold(s, n);
    hide Total, Prefix, Above, Times;
    ExactPrefix(s, n, t);
    if n <= |s| {
      TailNotAbove(s, n);
      hide Descending, NonNegative;
      assert s == s[..n] + s[n..];
      TotalConcat(s[..n], s[n..], Above(t));
      assert Take(s, n) == s[..n];
    } else {
      assert Take(s, n) == s;
    }
  }

  lemma TailNotAbove(s: seq<real>, n: nat)
    requires Descending(s) && 0 < n <= |s|
    ensures Total(s[n..], Above(s[n - 1])) == 0.0
  {
    NothingAbove(s[n..], s[n - 1]);
  }

  /** If no threshold is exceeded by more in `g` than in the descending `h`, then `h` has the larger prefix sums. */
  lemma PrefixesDominated(g: seq<real>, h: seq<real>, n: nat)
    requires Descending(h) && NonNegative(h)
    requires Total(g, Above(Threshold(h, n))) <= Total(h, Above(Threshold(h, n)))
    ensures Prefix(g, n) <= Prefix(h, n)
  {
    if n > 0 {
      var t := Threshold(h, n);
      DescendingPrefix(h, n);
      PrefixBelow(g, n, t);
      TakeBelow(g, n, t);
    }
  }

  // ---- Gains of a ranking are a part of the grades ----------------------------------------------

  function Excess(x: real, t: real): real { if x > t && x > 0.0 then x - t else 0.0 }

  function Of(relevance: seq<Entry>, t: real): string -> real {
    (item: string) => Excess(Grade(relevance, item), t)
  }

  function OfEntry(t: real): Entry -> real {
    (e: Entry) => Excess(e.grade, t)
  }

  lemma OfIs(relevance: seq<Entry>, t: real, item: string)
    ensures Of(relevance, t)(item) == Excess(Grade(relevance, item), t) >= 0.0
    ensures t >= 0.0 ==> Of(relevance, t)(item) == Above(t)(Clip(Grade(relevance, item)))
  {
  }

  lemma OfEntryIs(t: real, e: Entry)
    ensures OfEntry(t)(e) == Excess(e.grade, t) >= 0.0
    ensures t >= 0.0 ==> OfEntry(t)(e) == Above(t)(Clip(e.grade))
  {
  }

  lemma {:induction false} UnknownItem(relevance: seq<Entry>, item: string)
    requires forall i :: 0 <= i < |relevance| ==> relevance[i].item != item
    ensures Grade(relevance, item) == 0.0
  {
    if relevance != [] {
      UnknownItem(relevance[..|relevance| - 1], item);
    }
  }

  /** One more entry adds its own share once if the ranking lists its item, and nothing otherwise. */
  lemma {:induction false} OneMoreEntry(ranked: seq<string>, relevance: seq<Entry>, e: Entry, t: real)
    requires Distinct(ranked) && t >= 0.0 && forall i :: 0 <= i < |relevance| ==> relevance[i].item != e.item
    ensures Total(ranked, Of(relevance + [e], t))
         == Total(ranked, Of(relevance, t)) + if e.item in ranked then OfEntry(t)(e) else 0.0
  {
    if ranked != [] {
      var front, last := ranked[..|ranked| - 1], ranked[|ranked| - 1];
      assert ranked == front + [last];
      OneMoreEntry(front, relevance, e, t);
      assert (relevance + [e])[..|relevance|] == relevance;
      UnknownItem(relevance, e.item);
      OfIs(relevance + [e], t, last);
      OfIs(relevance, t, last);
      OfEntryIs(t, e);
      assert Grade(relevance + [e], last) == if last == e.item then e.grade else Grade(relevance, last);
      assert e.item in ranked <==> e.item in front || e.item == last;
    }
  }

  /**
   What a duplicate-free ranking collects above a threshold is at most what the table holds, and all of it if
   it lists every item.
   */
  lemma {:induction false} RankingTotal(ranked: seq<string>, relevance: seq<Entry>, t: real)
    requires Distinct(ranked) && Table(relevance) && t >= 0.0
    ensures Total(ranked, Of(relevance, t)) <= Total(relevance, OfEntry(t))
    ensures (forall i :: 0 <= i < |relevance| ==> relevance[i].item in ranked) ==>
              Total(ranked, Of(relevance, t)) == Total(relevance, OfEntry(t))
  {
    if relevance == [] {
      forall x | x in ranked ensures Of(relevance, t)(x) == 0.0 {
        OfIs(relevance, t, x);
      }
      TotalZero(ranked, Of(relevance, t));
    } else {
      var front, e := relevance[..|relevance| - 1], relevance[|relevance| - 1];
      assert relevance == front + [e];
      RankingTotal(ranked, front, t);
      OneMoreEntry(ranked, front, e, t);
      OfEntryIs(t, e);
      assert forall i :: 0 <= i < |front| ==> front[i] == relevance[i];
    }
  }

  lemma {:induction false} GainsTotal(ranked: seq<string>, relevance: seq<Entry>, t: real)
    requires t >= 0.0
    ensures Total(Gains(ranked, relevance), Above(t)) == Total(ranked, Of(relevance, t))
  {
    if ranked != [] {
      OfIs(relevance, t, ranked[|ranked| - 1]);
      var front := ranked[..|ranked| - 1];
      GainsTotal(front, relevance, t);
      assert Gains(ranked, relevance)[..|ranked| - 1] == Gains(front, relevance);
    }
  }

  lemma {:induction false} GradesTotal(relevance: seq<Entry>, t: real)
    requires t >= 0.0
    ensures Total(Grades(relevance), Above(t)) == Total(relevance, OfEntry(t))
  {
    if relevance != [] {
      OfEntryIs(t, relevance[|relevance| - 1]);
      var front := relevance[..|relevance| - 1];
      GradesTotal(front, t);
      assert Grades(relevance)[..|relevance| - 1] == Grades(front);
    }
  }

  function Ideal(relevance: seq<Entry>): seq<real> { SortDescending(Grades(relevance)) }

  lemma IdealShape(relevance: seq<Entry>)
    ensures Descending(Ideal(relevance)) && NonNegative(Ideal(relevance))
  {
    SortedDescending(Grades(relevance));
    forall i | 0 <= i < |Ideal(relevance)| ensures Ideal(relevance)[i] >= 0.0 {
      assert Ideal(relevance)[i] in Ideal(relevance);
    }
  }

  /** The totals of a ranking and of the ideal order above any threshold. */
  lemma TotalsCompare(ranked: seq<string>, relevance: seq<Entry>, t: real)
    requires Distinct(ranked) && Table(relevance) && t >= 0.0
    ensures Total(Gains(ranked, relevance), Above(t)) <= Total(Ideal(relevance), Above(t))
    ensures (forall i :: 0 <= i < |relevance| ==> relevance[i].item in ranked) ==>
              Total(Gains(ranked, relevance), Above(t)) == Total(Ideal(relevance), Above(t))
  {
    GainsTotal(ranked, relevance, t);
    RankingTotal(ranked, relevance, t);
    GradesTotal(relevance, t);
    SortTotal(Grades(relevance), Above(t));
  }

  // ---- Rearrangement ----------------------------------------------------------------------------

  lemma OneMoreTerm(hd: real, gd: real, lead: real, a: real, b: real, small: real, large: real)
    requires hd - gd >= lead * large && lead >= 0.0 && small <= large
    ensures (hd + a * small) - (gd + b * small) >= (lead + (a - b)) * small
  {
    Scale(lead, small, large);
    assert (lead + (a - b)) * small == lead * small + a * small - b * small;
  }

  /** The last discount a sum of `n` terms used. */
  function LastDiscount(n: nat, discount: nat -> real): real { discount(if n == 0 then 0 else n - 1) }

  /** Larger prefix sums mean a larger discounted sum: summation by parts over a non-increasing discount. */
  lemma {:induction false} ByParts(g: seq<real>, h: seq<real>, n: nat, discount: nat -> real)
    requires IsDiscount(discount) && forall j :: 0 <= j <= n ==> Prefix(g, j) <= Prefix(h, j)
    ensures Discounted(h, n, discount) - Discounted(g, n, discount) >= (Prefix(h, n) - Prefix(g, n)) * LastDiscount(n,
        discount)
  {
    if n > 0 {
      ByParts(g, h, n - 1, discount);
      assert LastDiscount(n, discount) <= LastDiscount(n - 1, discount);
      hide LastDiscount, IsDiscount;
      assert discount(n - 1) == LastDiscount(n, discount) by {
        LastIs(n, discount);
      }
      assert Prefix(g, n - 1) <= Prefix(h, n - 1);
      OneMoreTerm(Discounted(h, n - 1, discount), Discounted(g, n - 1, discount), Prefix(h, n - 1) - Prefix(g, n - 1),
                  At(h, n - 1), At(g, n - 1), LastDiscount(n, discount), LastDiscount(n - 1, discount));
    }
  }

  lemma LastIs(n: nat, discount: nat -> real)
    requires n > 0
    ensures LastDiscount(n, discount) == discount(n - 1)
  {
  }

  lemma NonNegativeProduct(x: real, y: real)
    requires x >= 0.0 && y >= 0.0
    ensures x * y >= 0.0
  {
  }

  lemma Scale(x: real, small: real, large: real)
    requires x >= 0.0 && small <= large
    ensures x * small <= x * large
  {
  }

  lemma {:induction false} DiscountedBeyond(s: seq<real>, n: nat, discount: nat -> real)
    requires n >= |s|
    ensures Discounted(s, n, discount) == Dcg(s, discount)
  {
    if n > |s| {
      DiscountedBeyond(s, n - 1, discount);
    }
  }

  /** Cutting off after k changes no prefix sum up to k, and keeps the later ones at the k-th. */
  lemma {:induction false} PrefixTake(s: seq<real>, k: nat, n: nat)
    ensures Prefix(Take(s, k), n) == Prefix(s, if n <= k then n else k)
  {
    if n > 0 {
      PrefixTake(s, k, n - 1);
    }
  }

  lemma CutDominated(g: seq<real>, h: seq<real>, k: nat, discount: nat -> real)
    requires IsDiscount(discount) && forall j: nat :: Prefix(g, j) <= Prefix(h, j)
    ensures Dcg(Take(g, k), discount) <= Dcg(Take(h, k), discount)
  {
    var n := |g| + |h| + 1;
    forall j | 0 <= j <= n ensures Prefix(Take(g, k), j) <= Prefix(Take(h, k), j) {
      PrefixTake(g, k, j);
      PrefixTake(h, k, j);
    }
    ByParts(Take(g, k), Take(h, k), n, discount);
    assert Prefix(Take(g, k), n) <= Prefix(Take(h, k), n) && LastDiscount(n, discount) >= 0.0;
    hide Prefix, LastDiscount, IsDiscount;
    NonNegativeProduct(Prefix(Take(h, k), n) - Prefix(Take(g, k), n), LastDiscount(n, discount));
    DiscountedBeyond(Take(g, k), n, discount);
    DiscountedBeyond(Take(h, k), n, discount);
  }

  lemma GainsTake(ranked: seq<string>, relevance: seq<Entry>, k: nat)
    ensures Gains(Take(ranked, k), relevance) == Take(Gains(ranked, relevance), k)
  {
  }

  /** No duplicate-free ranking gains more than the ideal order. */
  lemma AtMostIdeal(ranked: seq<string>, relevance: seq<Entry>, k: nat, discount: nat -> real)
    requires IsDiscount(discount) && Distinct(ranked) && Table(relevance)
    ensures Dcg(Gains(Take(ranked, k), relevance), discount) <= Dcg(Take(Ideal(relevance), k), discount)
  {
    var g, h := Gains(ranked, relevance), Ideal(relevance);
    IdealShape(relevance);
    forall j: nat ensures Prefix(g, j) <= Prefix(h, j) {
      TotalsCompare(ranked, relevance, Threshold(h, j));
      PrefixesDominated(g, h, j);
    }
    CutDominated(g, h, k, discount);
    GainsTake(ranked, relevance, k);
  }

  /** The ranking lists every item of the table, best first. */
  predicate BestFirst(ranked: seq<string>, relevance: seq<Entry>) {
    && Descending(Gains(ranked, relevance))
    && forall i :: 0 <= i < |relevance| ==> relevance[i].item in ranked
  }

  lemma AtLeastIdeal(ranked: seq<string>, relevance: seq<Entry>, k: nat, discount: nat -> real)
    requires IsDiscount(discount) && Distinct(ranked) && Table(relevance) && BestFirst(ranked, relevance)
    ensures Dcg(Gains(Take(ranked, k), relevance), discount) >= Dcg(Take(Ideal(relevance), k), discount)
  {
    var g, h := Gains(ranked, relevance), Ideal(relevance);
    forall j: nat ensures Prefix(h, j) <= Prefix(g, j) {
      TotalsCompare(ranked, relevance, Threshold(g, j));
      PrefixesDominated(h, g, j);
    }
    CutDominated(h, g, k, discount);
    GainsTake(ranked, relevance, k);
  }

  lemma {:induction false} DiscountedNonNegative(s: seq<real>, n: nat, discount: nat -> real)
    requires IsDiscount(discount) && NonNegative(s)
    ensures Discounted(s, n, discount) >= 0.0
    ensures n > 0 && At(s, 0) > 0.0 ==> Discounted(s, n, discount) > 0.0
  {
    if n > 0 {
      DiscountedNonNegative(s, n - 1, discount);
      assert At(s, n - 1) >= 0.0;
      Scale(discount(n - 1), 0.0, At(s, n - 1));
      if n == 1 && At(s, 0) > 0.0 {
        assert At(s, 0) * discount(0) > 0.0;
      }
    }
  }

  // ---- Main results -----------------------------------------------------------------------------

  /** The measure lies between 0 and 1 for every table, if k is positive and the first k places repeat no item. */
  lemma Bounded(ranked: seq<string>, relevance: seq<Entry>, k: int, discount: nat -> real)
    requires IsDiscount(discount) && k > 0 && Distinct(Take(ranked, k)) && Table(relevance)
    ensures NdcgAt(ranked, relevance, k, discount).Some?
    ensures 0.0 <= NdcgAt(ranked, relevance, k, discount).value <= 1.0
  {
    var g, h := Gains(Take(ranked, k), relevance), Take(Ideal(relevance), k);
    AtMostIdeal(Take(ranked, k), relevance, k, discount);
    assert Take(Take(ranked, k), k) == Take(ranked, k);
    IdealShape(relevance);
    DiscountedNonNegative(g, |g|, discount);
    DiscountedNonNegative(h, |h|, discount);
    if Dcg(h, discount) > 0.0 {
      Quotient(Dcg(g, discount), Dcg(h, discount));
    }
  }

  lemma Quotient(a: real, b: real)
    requires 0.0 <= a <= b && b > 0.0
    ensures 0.0 <= a / b <= 1.0
  {
    assert a / b * b == a;
  }

  predicate SomePositive(relevance: seq<Entry>) {
    exists i :: 0 <= i < |relevance| && relevance[i].grade > 0.0
  }

  lemma IdealPositive(relevance: seq<Entry>, k: nat, discount: nat -> real)
    requires IsDiscount(discount) && SomePositive(relevance) && k > 0
    ensures Dcg(Take(Ideal(relevance), k), discount) > 0.0
  {
    var h := Ideal(relevance);
    IdealShape(relevance);
    SortedDescending(Grades(relevance));
    var i :| 0 <= i < |relevance| && relevance[i].grade > 0.0;
    assert Grades(relevance)[i] in h;
    var j :| 0 <= j < |h| && h[j] == Grades(relevance)[i];
    assert h[0] >= h[j];
    DiscountedNonNegative(Take(h, k), |Take(h, k)|, discount);
  }

  /** The measure is 1 when the ranking lists every item best first and some relevance is positive. */
  lemma PerfectRanking(ranked: seq<string>, relevance: seq<Entry>, k: int, discount: nat -> real)
    requires IsDiscount(discount) && Distinct(ranked) && Table(relevance) && k > 0
    requires BestFirst(ranked, relevance) && SomePositive(relevance)
    ensures NdcgAt(ranked, relevance, k, discount) == Some(1.0)
  {
    AtMostIdeal(ranked, relevance, k, discount);
    AtLeastIdeal(ranked, relevance, k, discount);
    IdealPositive(relevance, k, discount);
    Whole(Dcg(Take(Ideal(relevance), k), discount));
  }

  lemma Whole(a: real)
    requires a != 0.0
    ensures a / a == 1.0
  {
  }

  // ---- Repeats ----------------------------------------------------------------------------------

  /** A ranking with a repeat has a first one: a place whose item was listed before, after a part without repeats. */
  lemma {:induction false} FirstRepeat(ranked: seq<string>) returns (j: nat)
    requires !Distinct(ranked)
    ensures 0 < j < |ranked| && Distinct(ranked[..j]) && ranked[j] in ranked[..j]
  {
    var last := |ranked| - 1;
    if Distinct(ranked[..last]) {
      j := last;
    } else {
      j := FirstRepeat(ranked[..last]);
      assert ranked[..last][..j] == ranked[..j];
    }
  }

  /** Every listed item, with grade 1. */
  function Ones(items: seq<string>): seq<Entry> {
    seq(|items|, i requires 0 <= i < |items| => Entry(items[i], 1.0))
  }

  lemma {:induction false} GradeOfOnes(items: seq<string>, item: string)
    ensures Grade(Ones(items), item) == if item in items then 1.0 else 0.0
  {
    if items != [] {
      var front, last := items[..|items| - 1], items[|items| - 1];
      assert items == front + [last] && Ones(items)[..|items| - 1] == Ones(front);
      GradeOfOnes(front, item);
    }
  }

  /** Sum of the first `n` discounts. */
  function Discounts(n: nat, discount: nat -> real): real {
    if n == 0 then 0.0 else Discounts(n - 1, discount) + discount(n - 1)
  }

  lemma {:induction false} DiscountsPositive(n: nat, discount: nat -> real)
    requires IsDiscount(discount) && n > 0
    ensures Discounts(n, discount) > 0.0
  {
    if n > 1 {
      DiscountsPositive(n - 1, discount);
    }
  }

  lemma {:induction false} DiscountedOnes(s: seq<real>, n: nat, discount: nat -> real)
    requires n <= |s| && forall i :: 0 <= i < n ==> s[i] == 1.0
    ensures Discounted(s, n, discount) == Discounts(n, discount)
  {
    if n > 0 {
      DiscountedOnes(s, n - 1, discount);
    }
  }

  lemma {:induction false} DiscountedGrows(s: seq<real>, m: nat, n: nat, discount: nat -> real)
    requires IsDiscount(discount) && NonNegative(s) && m <= n
    ensures Discounted(s, m, discount) <= Discounted(s, n, discount)
  {
    if m < n {
      DiscountedGrows(s, m, n - 1, discount);
      NonNegativeProduct(At(s, n - 1), discount(n - 1));
    }
  }

  /** In the ideal order of equal grades every place gains 1. */
  lemma IdealAllOnes(items: seq<string>)
    ensures |Ideal(Ones(items))| == |items|
    ensures forall i :: 0 <= i < |items| ==> Ideal(Ones(items))[i] == 1.0
  {
    var s := Grades(Ones(items));
    assert forall x :: x in s ==> x == 1.0;
    SortedDescending(s);
    hide SortDescending, Grades, Ones;
    forall i | 0 <= i < |items| ensures Ideal(Ones(items))[i] == 1.0 {
      assert SortDescending(s)[i] in SortDescending(s);
    }
  }

  lemma IdealOfOnes(items: seq<string>, discount: nat -> real)
    ensures Dcg(Ideal(Ones(items)), discount) == Discounts(|items|, discount)
  {
    hide Ideal, Ones, Discounted, Discounts;
    IdealAllOnes(items);
    DiscountedOnes(Ideal(Ones(items)), |items|, discount);
  }

  lemma GainsOfOnes(top: seq<string>, items: seq<string>)
    ensures forall i :: 0 <= i < |top| ==> Gains(top, Ones(items))[i] == if top[i] in items then 1.0 else 0.0
  {
    hide Grade, Ones;
    forall i | 0 <= i < |top| ensures Gains(top, Ones(items))[i] == if top[i] in items then 1.0 else 0.0 {
      GradeOfOnes(items, top[i]);
    }
  }

  /** Grading what precedes the first repeat with 1, the repeat gains a place more than the ideal order has. */
  lemma RepeatGains(top: seq<string>, j: nat, discount: nat -> real)
    requires IsDiscount(discount) && j < |top| && top[j] in top[..j]
    ensures Dcg(Gains(top, Ones(top[..j])), discount) >= Discounts(j, discount) + discount(j)
  {
    var g := Gains(top, Ones(top[..j]));
    GainsOfOnes(top, top[..j]);
    hide Gains, Ones, Discounted, IsDiscount;
    forall i | 0 <= i < j + 1 ensures g[i] == 1.0 {
      assert i < j ==> top[..j][i] == top[i];
    }
    DiscountedOnes(g, j + 1, discount);
    DiscountedGrows(g, j + 1, |g|, discount);
  }

  predicate AtMostOne(ranked: seq<string>, relevance: seq<Entry>, k: int, discount: nat -> real) {
    NdcgAt(ranked, relevance, k, discount).Some? && NdcgAt(ranked, relevance, k, discount).value <= 1.0
  }

  /** Some table takes a ranking that repeats an item within its first k places above 1. */
  lemma DuplicatesExceed(ranked: seq<string>, k: int, discount: nat -> real)
    requires IsDiscount(discount) && k > 0 && !Distinct(Take(ranked, k))
    ensures exists relevance :: Table(relevance) && !AtMostOne(ranked, relevance, k, discount)
  {
    var top := Take(ranked, k);
    var j := FirstRepeat(top);
    var relevance := Ones(top[..j]);
    IdealOfOnes(top[..j], discount);
    RepeatGains(top, j, discount);
    DiscountsPositive(j, discount);
    SortedDescending(Grades(relevance));
    assert Take(Ideal(relevance), k) == Ideal(relevance);
    More(Discounts(j, discount), discount(j), Dcg(Gains(top, relevance), discount));
    assert Table(relevance) && !AtMostOne(ranked, relevance, k, discount);
  }

  lemma More(a: real, b: real, c: real)
    requires a > 0.0 && b > 0.0 && c >= a + b
    ensures c / a > 1.0
  {
    assert c / a * a == c;
    if c / a <= 1.0 {
      Scale(a, c / a, 1.0);
    }
  }

  /** The measure stays at 1 or below for every table if and only if the first k places repeat no item. */
  lemma BoundedIff(ranked: seq<string>, k: int, discount: nat -> real)
    requires IsDiscount(discount) && k > 0
    ensures (forall relevance :: Table(relevance) ==> AtMostOne(ranked, relevance, k, discount))
      <==> Distinct(Take(ranked, k))
  {
    if Distinct(Take(ranked, k)) {
      forall relevance | Table(relevance) ensures AtMostOne(ranked, relevance, k, discount) {
        Bounded(ranked, relevance, k, discount);
      }
    } else {
      DuplicatesExceed(ranked, k, discount);
    }
  }
}

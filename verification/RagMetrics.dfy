/**
  Retrieval metrics: normalised discounted cumulative gain and recall. The discount
  1 / log2(rank + 1) is any positive nonincreasing real function here, and arithmetic is exact.
 */
module RagMetrics {
  import opened Options
  import opened Sets

  type Judgments = map<string, int>

  predicate Graded(judgments: Judgments) {
    forall l | l in judgments :: judgments[l] >= 0
  }

  ghost predicate Discount(d: nat -> real) {
    (forall i :: d(i) > 0.0) && (forall i, j | i <= j :: d(j) <= d(i))
  }

  function Pow2(n: nat): (p: nat)
    ensures p >= 1
  {
    if n == 0 then 1 else 2 * Pow2(n - 1)
  }

  function Gain(judgments: Judgments, l: string): (g: real)
    requires Graded(judgments)
    ensures g >= 0.0
  {
    if l in judgments then (Pow2(judgments[l]) - 1) as real else 0.0
  }

  function PositiveLocators(judgments: Judgments): set<string> {
    set l | l in judgments && judgments[l] >= 1
  }

  function Take(items: seq<string>, k: nat): seq<string> {
    if k < |items| then items[..k] else items
  }

  /** The n-th item's discount counts from zero, so d(0) is the discount of rank one. */
  function Dcg(judgments: Judgments, d: nat -> real, items: seq<string>): real
    requires Graded(judgments)
  {
    if items == [] then 0.0
    else Dcg(judgments, d, items[..|items| - 1]) + Gain(judgments, items[|items| - 1]) * d(|items| - 1)
  }

  predicate Distinct(items: seq<string>) {
    forall i, j | 0 <= i < j < |items| :: items[i] != items[j]
  }

  /** Every judged locator once, best grade first; how ties are broken does not matter. */
  predicate Ideal(judgments: Judgments, ranking: seq<string>) {
    && Distinct(ranking)
    && (forall l | l in judgments :: l in ranking)
    && (forall i | 0 <= i < |ranking| :: ranking[i] in judgments)
    && (forall i, j | 0 <= i < j < |ranking| :: judgments[ranking[j]] <= judgments[ranking[i]])
  }

  // ---- The sort of the judged locators ----

  /** Strings in code-point order, a prefix first. */
  predicate Lex(a: string, b: string) {
    a == [] || (b != [] && (a[0] < b[0] || (a[0] == b[0] && Lex(a[1..], b[1..]))))
  }

  /** The order of the sort key: better grade first, then the locator. */
  predicate Precedes(judgments: Judgments, a: string, b: string)
    requires a in judgments && b in judgments
  {
    judgments[a] > judgments[b] || (judgments[a] == judgments[b] && Lex(a, b))
  }

  lemma {:induction false} LexIsTotal(a: string, b: string)
    ensures Lex(a, b) || Lex(b, a)
    ensures Lex(a, b) && Lex(b, a) ==> a == b
  {
    if a != [] && b != [] && a[0] == b[0] {
      LexIsTotal(a[1..], b[1..]);
      assert a == [a[0]] + a[1..] && b == [b[0]] + b[1..];
    }
  }

  lemma {:induction false} LexIsTransitive(a: string, b: string, c: string)
    requires Lex(a, b) && Lex(b, c)
    ensures Lex(a, c)
  {
    if a != [] && a[0] == b[0] == c[0] {
      LexIsTransitive(a[1..], b[1..], c[1..]);
    }
  }

  predicate First(judgments: Judgments, among: set<string>, l: string)
    requires among <= judgments.Keys
  {
    l in among && forall x | x in among :: Precedes(judgments, l, x)
  }

  lemma {:induction false} FirstExists(judgments: Judgments, among: set<string>)
    requires among != {} && among <= judgments.Keys
    ensures exists l | l in among :: First(judgments, among, l)
  {
    var x :| x in among;
    LexIsTotal(x, x);
    if among == {x} {
      assert First(judgments, among, x);
    } else {
      assert among - {x} != {};
      FirstExists(judgments, among - {x});
      var y :| y in among - {x} && First(judgments, among - {x}, y);
      LexIsTotal(x, y);
      if Precedes(judgments, x, y) {
        forall z | z in among
          ensures Precedes(judgments, x, z)
        {
          if Lex(x, y) && Lex(y, z) { LexIsTransitive(x, y, z); }
          assert z == x || z in among - {x};
        }
        assert First(judgments, among, x);
      } else {
        assert First(judgments, among, y);
      }
    }
  }

  lemma FirstIsUnique(judgments: Judgments, among: set<string>)
    requires among <= judgments.Keys
    ensures forall x, y | First(judgments, among, x) && First(judgments, among, y) :: x == y
  {
    forall x, y | First(judgments, among, x) && First(judgments, among, y)
      ensures x == y
    {
      LexIsTotal(x, y);
    }
  }

  function SortedFrom(judgments: Judgments, among: set<string>): seq<string>
    requires among <= judgments.Keys
  {
    if among == {} then []
    else
      FirstExists(judgments, among);
      FirstIsUnique(judgments, among);
      var l :| l in among && First(judgments, among, l);
      [l] + SortedFrom(judgments, among - {l})
  }

  /** The judged locators sorted by grade, best first, and then by locator. */
  function Ranking(judgments: Judgments): seq<string> {
    SortedFrom(judgments, judgments.Keys)
  }

  /** Each of these locators once, in the order of the key. */
  ghost predicate Sorts(judgments: Judgments, among: set<string>, ranking: seq<string>)
    requires among <= judgments.Keys
  {
    && Distinct(ranking)
    && (forall l :: l in ranking <==> l in among)
    && (forall i, j | 0 <= i < j < |ranking| ::
          ranking[i] in among && ranking[j] in among && Precedes(judgments, ranking[i], ranking[j]))
  }

  lemma SortedHead(judgments: Judgments, among: set<string>, head: string, rest: seq<string>)
    requires among <= judgments.Keys && First(judgments, among, head)
    requires Sorts(judgments, among - {head}, rest)
    ensures Sorts(judgments, among, [head] + rest)
  {
    var r := [head] + rest;
    forall i, j | 0 <= i < j < |r|
      ensures r[i] in among && r[j] in among && r[i] != r[j] && Precedes(judgments, r[i], r[j])
    {
      assert r[j] == rest[j - 1] && rest[j - 1] in rest;
      if i > 0 { assert r[i] == rest[i - 1] && rest[i - 1] in rest; }
    }
  }

  lemma {:induction false} SortedFromSorts(judgments: Judgments, among: set<string>)
    requires among <= judgments.Keys
    ensures Sorts(judgments, among, SortedFrom(judgments, among))
  {
    if among != {} {
      FirstExists(judgments, among);
      FirstIsUnique(judgments, among);
      var r := SortedFrom(judgments, among);
      SortedFromSorts(judgments, among - {r[0]});
      SortedHead(judgments, among, r[0], r[1..]);
      assert r == [r[0]] + r[1..];
    }
  }

  /** Taking off the head of a sorted list leaves the rest sorted, and the head comes first. */
  lemma SortedTail(judgments: Judgments, among: set<string>, r: seq<string>)
    requires among <= judgments.Keys && r != [] && Sorts(judgments, among, r)
    ensures First(judgments, among, r[0]) && Sorts(judgments, among - {r[0]}, r[1..])
  {
    var rest := r[1..];
    assert r[0] in r;
    LexIsTotal(r[0], r[0]);
    forall l
      ensures l in rest <==> l in among - {r[0]}
    {
      if l in rest {
        var i :| 0 <= i < |rest| && rest[i] == l;
        assert r[i + 1] == l && r[i + 1] in r;
      }
      if l in among - {r[0]} {
        var i :| 0 <= i < |r| && r[i] == l;
        assert rest[i - 1] == l;
      }
    }
    forall i, j | 0 <= i < j < |rest|
      ensures rest[i] in rest && rest[j] in rest && rest[i] != rest[j] && Precedes(judgments, rest[i], rest[j])
    {
      assert rest[i] == r[i + 1] && rest[j] == r[j + 1];
    }
    forall x | x in among
      ensures Precedes(judgments, r[0], x)
    {
      var i :| 0 <= i < |r| && r[i] == x;
    }
  }

  lemma {:induction false} SortedFromIsUnique(judgments: Judgments, among: set<string>, r: seq<string>)
    requires among <= judgments.Keys && Sorts(judgments, among, r)
    ensures r == SortedFrom(judgments, among)
    decreases among
  {
    hide Precedes, Distinct;
    if r == [] {
      assert among == {};
    } else {
      assert r[0] in r;
      SortedTail(judgments, among, r);
      FirstExists(judgments, among);
      FirstIsUnique(judgments, among);
      SortedFromIsUnique(judgments, among - {r[0]}, r[1..]);
      assert r == [r[0]] + r[1..];
    }
  }

  /** The ranking is the one arrangement of the judged locators in the order of the key. */
  lemma RankingIsTheSort(judgments: Judgments, r: seq<string>)
    ensures Sorts(judgments, judgments.Keys, r) <==> r == Ranking(judgments)
  {
    SortedFromSorts(judgments, judgments.Keys);
    if Sorts(judgments, judgments.Keys, r) { SortedFromIsUnique(judgments, judgments.Keys, r); }
  }

  lemma RankingIsIdeal(judgments: Judgments)
    ensures Ideal(judgments, Ranking(judgments))
  {
    hide SortedFrom;
    SortedFromSorts(judgments, judgments.Keys);
    var r := Ranking(judgments);
    assert forall i | 0 <= i < |r| :: r[i] in r;
  }

  function Ndcg(retrieved: seq<string>, judgments: Judgments, k: nat, d: nat -> real): Option<real>
    requires Graded(judgments)
  {
    if PositiveLocators(judgments) == {} then None
    else
      var actual, ideal := Dcg(judgments, d, Take(retrieved, k)), Dcg(judgments, d, Take(Ranking(judgments), k));
      Some(if ideal != 0.0 then actual / ideal else 0.0)
  }

  // ---- Gains without discount ----

  function Sum(judgments: Judgments, items: seq<string>): (s: real)
    requires Graded(judgments)
    ensures s >= 0.0
  {
    if items == [] then 0.0 else Sum(judgments, items[..|items| - 1]) + Gain(judgments, items[|items| - 1])
  }

  lemma {:induction false} SumWithout(judgments: Judgments, items: seq<string>, j: nat)
    requires Graded(judgments) && j < |items|
    ensures Sum(judgments, items[..j] + items[j + 1..]) == Sum(judgments, items) - Gain(judgments, items[j])
  {
    var without := items[..j] + items[j + 1..];
    if j == |items| - 1 {
      assert without == items[..j];
    } else {
      var init := items[..|items| - 1];
      SumWithout(judgments, init, j);
      assert without[..|without| - 1] == init[..j] + init[j + 1..];
      assert without[|without| - 1] == items[|items| - 1];
    }
  }

  lemma {:induction false} SumFromFront(judgments: Judgments, items: seq<string>)
    requires Graded(judgments) && items != []
    ensures Sum(judgments, items) == Gain(judgments, items[0]) + Sum(judgments, items[1..])
  {
    SumWithout(judgments, items, 0);
    assert items[..0] + items[1..] == items[1..];
  }

  lemma GainFollowsGrade(judgments: Judgments, a: string, b: string)
    requires Graded(judgments) && a in judgments && b in judgments && judgments[b] <= judgments[a]
    ensures Gain(judgments, b) <= Gain(judgments, a)
  {
    Pow2Grows(judgments[b], judgments[a]);
  }

  lemma {:induction false} Pow2Grows(m: nat, n: nat)
    requires m <= n
    ensures Pow2(m) <= Pow2(n)
  {
    if m < n { Pow2Grows(m, n - 1); }
  }

  /** Best first, and nothing outside is worth anything. */
  ghost predicate BestFirst(judgments: Judgments, ranking: seq<string>)
    requires Graded(judgments)
  {
    forall i, j | 0 <= i < j < |ranking| :: Gain(judgments, ranking[j]) <= Gain(judgments, ranking[i])
  }

  lemma {:induction false} WorthlessSum(judgments: Judgments, items: seq<string>)
    requires Graded(judgments)
    requires forall i | 0 <= i < |items| :: Gain(judgments, items[i]) == 0.0
    ensures Sum(judgments, items) == 0.0
  {
    hide Gain, Graded;
    if items != [] { WorthlessSum(judgments, items[..|items| - 1]); }
  }

  /** Taking out one item leaves items that are distinct and not it. */
  lemma OthersStay(items: seq<string>, j: nat)
    requires Distinct(items) && j < |items|
    ensures var others := items[..j] + items[j + 1..];
      Distinct(others) && forall i | 0 <= i < |others| :: others[i] in items && others[i] != items[j]
  {
    var others := items[..j] + items[j + 1..];
    forall i | 0 <= i < |others|
      ensures others[i] in items && others[i] != items[j]
    {
      assert others[i] == items[if i < j then i else i + 1];
    }
  }

  lemma InRest(ranking: seq<string>, l: string)
    requires ranking != [] && l in ranking && l != ranking[0]
    ensures l in ranking[1..]
  {
    var i :| 0 <= i < |ranking| && ranking[i] == l;
    assert ranking[1..][i - 1] == l;
  }

  /** Any distinct items whose worth comes from the ranking sum to no more than as many of its best. */
  lemma {:induction false} BestSum(judgments: Judgments, ranking: seq<string>, items: seq<string>)
    requires Graded(judgments) && BestFirst(judgments, ranking) && Distinct(items)
    requires forall i | 0 <= i < |items| :: items[i] in ranking || Gain(judgments, items[i]) == 0.0
    ensures Sum(judgments, items) <= Sum(judgments, Take(ranking, |items|))
    decreases |items|
  {
    hide Gain, Graded, Sum, Distinct, BestFirst;
    if items == [] {
      EmptySum(judgments);
    } else if ranking == [] {
      WorthlessSum(judgments, items);
    } else {
      var j := Swapped(items, ranking[0]);
      var rest, others := ranking[1..], items[..j] + items[j + 1..];
      SumWithout(judgments, items, j);
      OthersStay(items, j);
      forall i | 0 <= i < |others|
        ensures others[i] in rest || Gain(judgments, others[i]) == 0.0
      {
        var at :| 0 <= at < |items| && items[at] == others[i];
        if others[i] in ranking { InRest(ranking, others[i]); }
      }
      RestIsBestFirst(judgments, ranking);
      BestSum(judgments, rest, others);
      HeadIsBest(judgments, ranking, items[j]);
      SumFromFront(judgments, Take(ranking, |items|));
      assert Take(ranking, |items|)[1..] == Take(rest, |others|);
    }
  }

  lemma EmptySum(judgments: Judgments)
    requires Graded(judgments)
    ensures Sum(judgments, []) == 0.0
  {
  }

  lemma RestIsBestFirst(judgments: Judgments, ranking: seq<string>)
    requires Graded(judgments) && ranking != [] && BestFirst(judgments, ranking)
    ensures BestFirst(judgments, ranking[1..])
  {
    var rest := ranking[1..];
    forall i, j | 0 <= i < j < |rest|
      ensures Gain(judgments, rest[j]) <= Gain(judgments, rest[i])
    {
      assert rest[i] == ranking[i + 1] && rest[j] == ranking[j + 1];
    }
  }

  lemma HeadIsBest(judgments: Judgments, ranking: seq<string>, l: string)
    requires Graded(judgments) && ranking != [] && BestFirst(judgments, ranking)
    requires l in ranking || Gain(judgments, l) == 0.0
    ensures Gain(judgments, l) <= Gain(judgments, ranking[0])
  {
  }

  /** The item to exchange for the best one: itself where it occurs, any item where it does not. */
  function Swapped(items: seq<string>, best: string): (j: nat)
    requires items != []
    ensures j < |items|
    ensures best in items ==> items[j] == best
  {
    if items[0] == best || |items| == 1 then 0
    else if best in items then 1 + Swapped(items[1..], best) else 0
  }

  // ---- Discounting keeps the order of prefix sums ----

  function At(judgments: Judgments, items: seq<string>, i: nat): (g: real)
    requires Graded(judgments)
    ensures g >= 0.0
  {
    if i < |items| then Gain(judgments, items[i]) else 0.0
  }

  function Prefix(judgments: Judgments, items: seq<string>, n: nat): real
    requires Graded(judgments)
  {
    if n == 0 then 0.0 else Prefix(judgments, items, n - 1) + At(judgments, items, n - 1)
  }

  function Discounted(judgments: Judgments, d: nat -> real, items: seq<string>, n: nat): real
    requires Graded(judgments)
  {
    if n == 0 then 0.0 else Discounted(judgments, d, items, n - 1) + At(judgments, items, n - 1) * d(n - 1)
  }

  lemma {:induction false} PrefixIsSum(judgments: Judgments, items: seq<string>, n: nat)
    requires Graded(judgments)
    ensures Prefix(judgments, items, n) == Sum(judgments, Take(items, n))
  {
    if n > 0 {
      PrefixIsSum(judgments, items, n - 1);
      if n <= |items| {
        assert Take(items, n)[..n - 1] == Take(items, n - 1);
      }
    }
  }

  lemma {:induction false} DiscountedIsDcg(judgments: Judgments, d: nat -> real, items: seq<string>, n: nat)
    requires Graded(judgments)
    ensures Discounted(judgments, d, items, n) == Dcg(judgments, d, Take(items, n))
  {
    if n > 0 {
      DiscountedIsDcg(judgments, d, items, n - 1);
      if n <= |items| {
        assert Take(items, n)[..n - 1] == Take(items, n - 1);
      }
    }
  }

  lemma Positive(x: real, y: real)
    requires x > 0.0 && y >= 0.0
    ensures x * y >= 0.0
  {
  }

  lemma Weigh(lead: real, before: real, a: real, b: real, least: real)
    requires lead >= least * before && least > 0.0 && before + (b - a) >= 0.0
    ensures lead + (b * least - a * least) >= least * (before + (b - a)) >= 0.0
  {
    assert least * (before + (b - a)) == least * before + (b * least - a * least);
    Positive(least, before + (b - a));
  }

  lemma Lower(lead: real, gap: real, d: real, e: real)
    requires lead >= d * gap && gap >= 0.0 && e <= d
    ensures lead >= e * gap
  {
    assert (d - e) * gap >= 0.0;
  }

  /** Summation by parts: where no prefix of `a` outweighs `b`, no nonincreasing discount makes it. */
  lemma {:induction false} DominanceSurvivesDiscount(
    judgments: Judgments, d: nat -> real, a: seq<string>, b: seq<string>, n: nat)
    requires Graded(judgments) && Discount(d)
    requires forall m | 0 <= m <= n :: Prefix(judgments, a, m) <= Prefix(judgments, b, m)
    ensures n > 0 ==>
      Discounted(judgments, d, b, n) - Discounted(judgments, d, a, n)
        >= d(n - 1) * (Prefix(judgments, b, n) - Prefix(judgments, a, n))
    ensures Discounted(judgments, d, a, n) <= Discounted(judgments, d, b, n)
  {
    hide Graded, Discount, At;
    if n > 0 {
      DiscountsFall(d, n);
      DominanceSurvivesDiscount(judgments, d, a, b, n - 1);
      var lead := Discounted(judgments, d, b, n - 1) - Discounted(judgments, d, a, n - 1);
      var before := Prefix(judgments, b, n - 1) - Prefix(judgments, a, n - 1);
      if n > 1 { Lower(lead, before, d(n - 2), d(n - 1)); }
      assert Prefix(judgments, b, n) - Prefix(judgments, a, n)
        == before + (At(judgments, b, n - 1) - At(judgments, a, n - 1));
      Weigh(lead, before, At(judgments, a, n - 1), At(judgments, b, n - 1), d(n - 1));
    }
  }

  lemma DiscountsFall(d: nat -> real, n: nat)
    requires Discount(d) && n > 0
    ensures d(n - 1) > 0.0
    ensures n > 1 ==> d(n - 1) <= d(n - 2)
  {
  }

  // ---- The bounds ----

  lemma IdealIsBestFirst(judgments: Judgments, ranking: seq<string>)
    requires Graded(judgments) && Ideal(judgments, ranking)
    ensures BestFirst(judgments, ranking)
  {
    forall i, j | 0 <= i < j < |ranking|
      ensures Gain(judgments, ranking[j]) <= Gain(judgments, ranking[i])
    {
      GainFollowsGrade(judgments, ranking[i], ranking[j]);
    }
  }

  lemma NoPrefixBeatsTheIdeal(judgments: Judgments, ranking: seq<string>, retrieved: seq<string>, k: nat, m: nat)
    requires Graded(judgments) && Ideal(judgments, ranking) && Distinct(retrieved) && m <= k
    ensures Prefix(judgments, Take(retrieved, k), m) <= Prefix(judgments, Take(ranking, k), m)
  {
    var items := Take(Take(retrieved, k), m);
    IdealIsBestFirst(judgments, ranking);
    BestSum(judgments, ranking, items);
    PrefixIsSum(judgments, Take(retrieved, k), m);
    PrefixIsSum(judgments, Take(ranking, k), m);
    assert Take(Take(ranking, k), m) == Take(ranking, m);
    PrefixIsSum(judgments, ranking, m);
    PrefixIsSum(judgments, ranking, |items|);
    PrefixGrows(judgments, ranking, |items|, m);
  }

  lemma {:induction false} PrefixGrows(judgments: Judgments, items: seq<string>, m: nat, n: nat)
    requires Graded(judgments) && m <= n
    ensures Prefix(judgments, items, m) <= Prefix(judgments, items, n)
  {
    if m < n { PrefixGrows(judgments, items, m, n - 1); }
  }

  lemma {:induction false} DcgIsNonnegative(judgments: Judgments, d: nat -> real, items: seq<string>)
    requires Graded(judgments) && Discount(d)
    ensures Dcg(judgments, d, items) >= 0.0
  {
    if items != [] {
      DcgIsNonnegative(judgments, d, items[..|items| - 1]);
      Positive(d(|items| - 1), Gain(judgments, items[|items| - 1]));
    }
  }

  lemma IdealDcgIsGreatest(retrieved: seq<string>, judgments: Judgments, k: nat, ranking: seq<string>, d: nat -> real)
    requires Graded(judgments) && Ideal(judgments, ranking) && Discount(d) && Distinct(retrieved)
    ensures 0.0 <= Dcg(judgments, d, Take(retrieved, k)) <= Dcg(judgments, d, Take(ranking, k))
  {
    forall m | 0 <= m <= k
      ensures Prefix(judgments, Take(retrieved, k), m) <= Prefix(judgments, Take(ranking, k), m)
    {
      NoPrefixBeatsTheIdeal(judgments, ranking, retrieved, k, m);
    }
    DominanceSurvivesDiscount(judgments, d, Take(retrieved, k), Take(ranking, k), k);
    DiscountedIsDcg(judgments, d, Take(retrieved, k), k);
    DiscountedIsDcg(judgments, d, Take(ranking, k), k);
    assert Take(Take(retrieved, k), k) == Take(retrieved, k) && Take(Take(ranking, k), k) == Take(ranking, k);
    DcgIsNonnegative(judgments, d, Take(retrieved, k));
  }

  lemma Ratio(a: real, b: real)
    requires 0.0 <= a <= b && b > 0.0
    ensures 0.0 <= a / b <= 1.0
  {
  }

  /** nDCG lies in [0, 1] for every duplicate-free list, all nonnegative grades and every cutoff. */
  lemma NdcgInUnitInterval(retrieved: seq<string>, judgments: Judgments, k: nat, d: nat -> real)
    requires Graded(judgments) && Discount(d) && Distinct(retrieved)
    ensures Ndcg(retrieved, judgments, k, d).None? <==> forall l | l in judgments :: judgments[l] < 1
    ensures var n := Ndcg(retrieved, judgments, k, d); n.Some? ==> 0.0 <= n.value <= 1.0
  {
    hide Ranking, Gain, Pow2;
    RankingIsIdeal(judgments);
    IdealDcgIsGreatest(retrieved, judgments, k, Ranking(judgments), d);
    var actual, ideal := Dcg(judgments, d, Take(retrieved, k)), Dcg(judgments, d, Take(Ranking(judgments), k));
    if ideal != 0.0 { Ratio(actual, ideal); }
    if PositiveLocators(judgments) == {} {
      forall l | l in judgments
        ensures judgments[l] < 1
      {
        assert l !in PositiveLocators(judgments);
      }
    }
  }

  /** Whatever breaks the ties, every ideal ranking has the same value. */
  lemma TiesDoNotMatter(judgments: Judgments, k: nat, r1: seq<string>, r2: seq<string>, d: nat -> real)
    requires Graded(judgments) && Discount(d) && Ideal(judgments, r1) && Ideal(judgments, r2)
    ensures Dcg(judgments, d, Take(r1, k)) == Dcg(judgments, d, Take(r2, k))
  {
    IdealDcgIsGreatest(r1, judgments, k, r2, d);
    IdealDcgIsGreatest(r2, judgments, k, r1, d);
  }

  // ---- What the value says ----

  /** Unjudged or grade zero is worth nothing, and each grade one more than twice the grade below. */
  lemma GainsOfGrades(judgments: Judgments, a: string, b: string)
    requires Graded(judgments)
    ensures a !in judgments || judgments[a] == 0 ==> Gain(judgments, a) == 0.0
    ensures a in judgments && b in judgments && judgments[b] == judgments[a] + 1 ==>
              Gain(judgments, b) == 2.0 * Gain(judgments, a) + 1.0
  {
  }

  /** A single hit scores its gain times the discount of its place. */
  lemma {:induction false} LoneHitScores(judgments: Judgments, d: nat -> real, items: seq<string>, i: nat)
    requires Graded(judgments) && i < |items|
    requires forall j | 0 <= j < |items| && j != i :: Gain(judgments, items[j]) == 0.0
    ensures Dcg(judgments, d, items) == Gain(judgments, items[i]) * d(i)
  {
    hide Gain, Graded;
    var init := items[..|items| - 1];
    if i == |items| - 1 {
      NoHitScoresNothing(judgments, d, init);
    } else {
      assert Gain(judgments, items[|items| - 1]) == 0.0;
      LoneHitScores(judgments, d, init, i);
    }
  }

  lemma {:induction false} NoHitScoresNothing(judgments: Judgments, d: nat -> real, items: seq<string>)
    requires Graded(judgments)
    requires forall j | 0 <= j < |items| :: Gain(judgments, items[j]) == 0.0
    ensures Dcg(judgments, d, items) == 0.0
  {
    hide Gain, Graded;
    if items != [] {
      assert Gain(judgments, items[|items| - 1]) == 0.0;
      NoHitScoresNothing(judgments, d, items[..|items| - 1]);
    }
  }

  lemma {:induction false} HitsScore(judgments: Judgments, d: nat -> real, items: seq<string>, i: nat)
    requires Graded(judgments) && Discount(d) && i < |items| && Gain(judgments, items[i]) > 0.0
    ensures Dcg(judgments, d, items) > 0.0
  {
    hide Gain, Graded;
    var n := |items| - 1;
    DcgIsNonnegative(judgments, d, items[..n]);
    if i == n {
      StrictlyPositive(Gain(judgments, items[n]), d(n));
    } else {
      HitsScore(judgments, d, items[..n], i);
      Positive(d(n), Gain(judgments, items[n]));
    }
  }

  lemma StrictlyPositive(x: real, y: real)
    requires x > 0.0 && y > 0.0
    ensures x * y > 0.0
  {
  }

  lemma RelevantGain(judgments: Judgments, l: string)
    requires Graded(judgments)
    ensures Gain(judgments, l) > 0.0 <==> l in judgments && judgments[l] >= 1
  {
    if l in judgments && judgments[l] >= 1 { Pow2Grows(1, judgments[l]); }
  }

  lemma BestIsRelevant(judgments: Judgments)
    requires Graded(judgments) && (exists l :: l in judgments && judgments[l] >= 1)
    ensures Ranking(judgments) != [] && Gain(judgments, Ranking(judgments)[0]) > 0.0
  {
    hide Ranking, Gain;
    RankingIsIdeal(judgments);
    var l :| l in judgments && judgments[l] >= 1;
    var i :| 0 <= i < |Ranking(judgments)| && Ranking(judgments)[i] == l;
    RelevantGain(judgments, Ranking(judgments)[0]);
  }

  lemma SomeRelevant(judgments: Judgments)
    ensures PositiveLocators(judgments) != {} <==> exists l :: l in judgments && judgments[l] >= 1
  {
    if l :| l in judgments && judgments[l] >= 1 { assert l in PositiveLocators(judgments); }
    if PositiveLocators(judgments) != {} { var l :| l in PositiveLocators(judgments); }
  }

  lemma Self(x: real)
    requires x > 0.0
    ensures x / x == 1.0
  {
  }

  lemma QuotientSign(x: real, y: real)
    requires x >= 0.0 && y > 0.0
    ensures x / y == 0.0 <==> x == 0.0
  {
    assert (x / y) * y == x;
  }

  /**
    With something relevant and a cutoff of at least one: retrieving the judged locators in the
    order of their ranking scores one, and a retrieval scores zero exactly when nothing relevant
    is among its first k.
   */
  lemma NdcgEndpoints(retrieved: seq<string>, judgments: Judgments, k: nat, d: nat -> real)
    requires Graded(judgments) && Discount(d) && k >= 1
    requires exists l :: l in judgments && judgments[l] >= 1
    ensures Ndcg(Ranking(judgments), judgments, k, d) == Some(1.0)
    ensures Ndcg(retrieved, judgments, k, d).Some?
    ensures Ndcg(retrieved, judgments, k, d).value == 0.0
        <==> forall i | 0 <= i < |retrieved| && i < k :: retrieved[i] !in judgments || judgments[retrieved[i]] < 1
  {
    hide Ranking, Gain, Graded, Discount, Dcg;
    SomeRelevant(judgments);
    BestIsRelevant(judgments);
    var top, found := Take(Ranking(judgments), k), Take(retrieved, k);
    HitsScore(judgments, d, top, 0);
    Self(Dcg(judgments, d, top));
    DcgIsNonnegative(judgments, d, found);
    QuotientSign(Dcg(judgments, d, found), Dcg(judgments, d, top));
    forall i | 0 <= i < |found|
      ensures Gain(judgments, found[i]) > 0.0 <==> found[i] in judgments && judgments[found[i]] >= 1
      ensures Gain(judgments, found[i]) >= 0.0
    {
      RelevantGain(judgments, found[i]);
    }
    if i :| 0 <= i < |found| && Gain(judgments, found[i]) > 0.0 {
      HitsScore(judgments, d, found, i);
      assert found[i] == retrieved[i];
    } else {
      NoHitScoresNothing(judgments, d, found);
      forall i | 0 <= i < |retrieved| && i < k
        ensures retrieved[i] !in judgments || judgments[retrieved[i]] < 1
      {
        assert found[i] == retrieved[i];
      }
    }
  }

  /** A relevant locator retrieved twice can push the value above one. */
  lemma DuplicatesExceedOne(d: nat -> real)
    requires Discount(d)
    ensures var judgments := map["a" := 1];
      Ndcg(["a", "a"], judgments, 2, d).Some? && Ndcg(["a", "a"], judgments, 2, d).value > 1.0
  {
    var judgments: Judgments := map["a" := 1];
    RankingIsTheSort(judgments, ["a"]);
    assert Pow2(1) == 2 * Pow2(0);
    assert ["a", "a"][..1] == ["a"] && ["a"][..0] == [];
    assert Dcg(judgments, d, ["a"]) == d(0);
    assert Dcg(judgments, d, ["a", "a"]) == d(0) + d(1);
    assert "a" in PositiveLocators(judgments);
    Above(d(0), d(1));
  }

  lemma Above(x: real, y: real)
    requires x > 0.0 && y > 0.0
    ensures (x + y) / x > 1.0
  {
    var q := (x + y) / x;
    assert q * x == x + y;
    assert q <= 1.0 ==> (1.0 - q) * x >= 0.0;
  }

  // ---- Recall ----

  function Found(retrieved: seq<string>, judgments: Judgments, k: nat): set<string> {
    set l | l in Take(retrieved, k) && l in PositiveLocators(judgments)
  }

  function Recall(retrieved: seq<string>, judgments: Judgments, k: nat): Option<real> {
    var relevant := PositiveLocators(judgments);
    if relevant == {} then None else Some(|Found(retrieved, judgments, k)| as real / |relevant| as real)
  }

  lemma Share(a: int, b: int, n: int)
    requires 0 <= a <= b <= n && n > 0
    ensures 0.0 <= a as real / n as real <= b as real / n as real <= 1.0
  {
    var x, y := a as real / n as real, b as real / n as real;
    assert x * n as real == a as real && y * n as real == b as real;
    assert x > y ==> (x - y) * n as real > 0.0;
    assert y > 1.0 ==> (y - 1.0) * n as real > 0.0;
    assert x < 0.0 ==> (0.0 - x) * n as real > 0.0;
  }

  predicate AmongFirst(retrieved: seq<string>, k: nat, l: string) {
    exists i :: 0 <= i < |retrieved| && i < k && retrieved[i] == l
  }

  lemma Fractions(a: int, n: int)
    requires 0 <= a <= n && n > 0
    ensures a as real / n as real == 1.0 <==> a == n
    ensures a as real / n as real == 0.0 <==> a == 0
  {
    assert (a as real / n as real) * n as real == a as real;
  }

  lemma FoundIsAll(retrieved: seq<string>, judgments: Judgments, k: nat)
    ensures |Found(retrieved, judgments, k)| == |PositiveLocators(judgments)|
        <==> forall l | l in judgments && judgments[l] >= 1 :: AmongFirst(retrieved, k, l)
  {
    var found, relevant := Found(retrieved, judgments, k), PositiveLocators(judgments);
    assert found <= relevant;
    if |found| == |relevant| {
      SameSize(found, relevant);
      forall l | l in judgments && judgments[l] >= 1
        ensures AmongFirst(retrieved, k, l)
      {
        assert l in found;
        var i :| 0 <= i < |Take(retrieved, k)| && Take(retrieved, k)[i] == l;
        assert retrieved[i] == l;
      }
    }
    if forall l | l in judgments && judgments[l] >= 1 :: AmongFirst(retrieved, k, l) {
      forall l | l in relevant
        ensures l in found
      {
        var i :| 0 <= i < |retrieved| && i < k && retrieved[i] == l;
        assert Take(retrieved, k)[i] == l;
      }
      assert found == relevant;
    }
  }

  lemma SameSize(a: set<string>, b: set<string>)
    requires a <= b && |a| == |b|
    ensures a == b
  {
    if x :| x in b && x !in a {
      SubsetSize(a, b - {x});
    }
  }

  lemma FoundIsNone(retrieved: seq<string>, judgments: Judgments, k: nat)
    ensures |Found(retrieved, judgments, k)| == 0
        <==> forall i | 0 <= i < |retrieved| && i < k :: retrieved[i] !in judgments || judgments[retrieved[i]] < 1
  {
    var found := Found(retrieved, judgments, k);
    if found == {} {
      forall i | 0 <= i < |retrieved| && i < k
        ensures retrieved[i] !in judgments || judgments[retrieved[i]] < 1
      {
        assert Take(retrieved, k)[i] == retrieved[i];
        assert retrieved[i] !in found;
      }
    } else {
      var l :| l in found;
      var i :| 0 <= i < |Take(retrieved, k)| && Take(retrieved, k)[i] == l;
      assert retrieved[i] == l;
    }
  }

  /**
    Recall lies in [0, 1], never falls as the cutoff grows, is one exactly when every relevant
    locator is among the first k and zero exactly when none is.
   */
  lemma RecallIsAShare(retrieved: seq<string>, judgments: Judgments, k: nat, more: nat)
    requires k <= more && PositiveLocators(judgments) != {}
    ensures 0.0 <= Recall(retrieved, judgments, k).value <= Recall(retrieved, judgments, more).value <= 1.0
    ensures Recall(retrieved, judgments, k) == Some(1.0)
        <==> forall l | l in judgments && judgments[l] >= 1 :: AmongFirst(retrieved, k, l)
    ensures Recall(retrieved, judgments, k) == Some(0.0)
        <==> forall i | 0 <= i < |retrieved| && i < k :: retrieved[i] !in judgments || judgments[retrieved[i]] < 1
  {
    var relevant := PositiveLocators(judgments);
    forall l | l in Take(retrieved, k)
      ensures l in Take(retrieved, more)
    {
      var i :| 0 <= i < |Take(retrieved, k)| && Take(retrieved, k)[i] == l;
      assert Take(retrieved, more)[i] == l;
    }
    SubsetSize(Found(retrieved, judgments, k), Found(retrieved, judgments, more));
    SubsetSize(Found(retrieved, judgments, more), relevant);
    Share(|Found(retrieved, judgments, k)|, |Found(retrieved, judgments, more)|, |relevant|);
    FoundIsAll(retrieved, judgments, k);
    FoundIsNone(retrieved, judgments, k);
    Fractions(|Found(retrieved, judgments, k)|, |relevant|);
  }

  // ---- The loops ----

  method DcgLoop(judgments: Judgments, d: nat -> real, items: seq<string>) returns (total: real)
    requires Graded(judgments)
    ensures total == Dcg(judgments, d, items)
  {
    total := 0.0;
    for rank := 0 to |items|
      invariant total == Dcg(judgments, d, items[..rank])
    {
      assert items[..rank + 1][..rank] == items[..rank];
      total := total + Gain(judgments, items[rank]) * d(rank);
    }
    assert items[..|items|] == items;
  }

  method NdcgAtK(retrieved: seq<string>, judgments: Judgments, k: nat, d: nat -> real) returns (n: Option<real>)
    requires Graded(judgments) && Discount(d)
    ensures n == Ndcg(retrieved, judgments, k, d)
    ensures Distinct(retrieved) && n.Some? ==> 0.0 <= n.value <= 1.0
  {
    if PositiveLocators(judgments) == {} { return None; }
    var actual := DcgLoop(judgments, d, Take(retrieved, k));
    var ideal := DcgLoop(judgments, d, Take(Ranking(judgments), k));
    n := Some(if ideal != 0.0 then actual / ideal else 0.0);
    if Distinct(retrieved) { NdcgInUnitInterval(retrieved, judgments, k, d); }
  }
}

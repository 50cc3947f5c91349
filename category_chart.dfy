/**
 * The spending breakdown of components/category-chart.tsx: a fold of the
 * expenses into a dictionary from category to summed amount, the chart data
 * read back from it in insertion order, labelled from the chart's own table
 * (falling back to the raw category), and one colour per slice from a cycle
 * of eight.
 *
 * A JavaScript object keeps its string keys in insertion order, so the
 * dictionary is the pair of a map and the sequence of its keys in the order
 * they were first assigned.
 */
module CategoryChart {
  import opened Records

  /** The chart's label table (a different, older table than the expense list's). */
  const CategoryLabels: map<string, string> := map[
    "food" := "Food & Dining",
    "transport" := "Transportation",
    "shopping" := "Shopping",
    "bills" := "Bills & Utilities",
    "entertainment" := "Entertainment",
    "coffee" := "Coffee & Drinks",
    "health" := "Health & Fitness",
    "education" := "Education"
  ]

  const Colors: seq<string> := ["#6366f1", "#8b5cf6", "#06b6d4", "#10b981", "#f59e0b", "#ef4444", "#ec4899", "#84cc16"]

  /** One entry of `chartData`. */
  datatype Slice = Slice(name: string, value: int)

  /** A drawn pie sector: the slice and its fill. */
  datatype Sector = Sector(name: string, value: int, fill: string)

  /** What the component renders: the empty state, or the pie. */
  datatype ChartView = EmptyBreakdown | Breakdown(sectors: seq<Sector>)

  // ---------------------------------------------------------------------------
  // Specification of the fold

  /** Some expense in `s` has category `c`. */
  predicate Occurs(s: seq<Expense>, c: string)
  {
    exists i :: 0 <= i < |s| && s[i].category == c
  }

  /** The sum of the amounts of the expenses in `s` whose category is `c`. */
  function CategorySum(s: seq<Expense>, c: string): int
  {
    if s == [] then 0
    else CategorySum(s[..|s| - 1], c) + (if s[|s| - 1].category == c then s[|s| - 1].amount else 0)
  }

  /** The distinct categories of `s`, in the order of their first occurrence. */
  function FirstSeen(s: seq<Expense>): seq<string>
  {
    if s == [] then []
    else
      var p := FirstSeen(s[..|s| - 1]);
      var c := s[|s| - 1].category;
      if c in p then p else p + [c]
  }

  /** The first-seen categories are distinct and are exactly the categories that occur. */
  lemma {:induction false} FirstSeenMeaning(s: seq<Expense>)
    ensures forall i, j :: 0 <= i < j < |FirstSeen(s)| ==> FirstSeen(s)[i] != FirstSeen(s)[j]
    ensures forall c :: c in FirstSeen(s) <==> Occurs(s, c)
  {
    if s != [] {
      var p := s[..|s| - 1];
      var c := s[|s| - 1].category;
      FirstSeenMeaning(p);
      forall d | Occurs(p, d) ensures Occurs(s, d) {
        var i :| 0 <= i < |p| && p[i].category == d;
        assert s[i].category == d;
      }
      forall d | Occurs(s, d) && d != c ensures Occurs(p, d) {
        var i :| 0 <= i < |s| && s[i].category == d;
        assert p[i].category == d;
      }
    }
  }

  /** The position of the first expense of category `c`. */
  function FirstIndex(s: seq<Expense>, c: string): (k: nat)
    requires Occurs(s, c)
    ensures k < |s| && s[k].category == c
    ensures forall j :: 0 <= j < k ==> s[j].category != c
  {
    if s[0].category == c then 0
    else
      assert Occurs(s[1..], c) by {
        var i :| 0 <= i < |s| && s[i].category == c;
        assert s[1..][i - 1].category == c;
      }
      1 + FirstIndex(s[1..], c)
  }

  /** The sum of the category sums of `cs`. */
  function SumOf(cs: seq<string>, s: seq<Expense>): int
  {
    if cs == [] then 0 else SumOf(cs[..|cs| - 1], s) + CategorySum(s, cs[|cs| - 1])
  }

  // ---------------------------------------------------------------------------
  // The fold

  /** The accumulator after folding `s`: its keys in first-seen order, each summed. */
  ghost predicate Folded(s: seq<Expense>, totals: map<string, int>, order: seq<string>)
  {
    && order == FirstSeen(s)
    && (forall c :: c in totals <==> c in order)
    && (forall c :: c in totals ==> totals[c] == CategorySum(s, c))
  }

  /** Appending an expense adds its category to the first-seen order only if it is new. */
  lemma FirstSeenSnoc(s: seq<Expense>, e: Expense)
    ensures FirstSeen(s + [e]) == if e.category in FirstSeen(s) then FirstSeen(s) else FirstSeen(s) + [e.category]
  {
    assert (s + [e])[..|s|] == s;
  }

  /** Appending an expense adds its amount to its own category's sum only. */
  lemma CategorySumSnoc(s: seq<Expense>, e: Expense, c: string)
    ensures CategorySum(s + [e], c) == CategorySum(s, c) + (if e.category == c then e.amount else 0)
  {
    assert (s + [e])[..|s|] == s;
  }

  /** One step of the reduce callback keeps the accumulator folded. */
  lemma FoldStep(s: seq<Expense>, e: Expense, totals: map<string, int>, order: seq<string>,
                 totals': map<string, int>, order': seq<string>)
    requires Folded(s, totals, order)
    requires totals' == totals[e.category := (if e.category in totals then totals[e.category] else 0) + e.amount]
    requires order' == if e.category in totals then order else order + [e.category]
    ensures Folded(s + [e], totals', order')
  {
    FirstSeenSnoc(s, e);
    if e.category !in totals {
      FirstSeenMeaning(s);
      CategorySumAbsent(s, e.category);
    }
    forall c | c in totals'
      ensures totals'[c] == CategorySum(s + [e], c)
    {
      CategorySumSnoc(s, e, c);
    }
  }

  /** A fold of the whole input states the dictionary's meaning. */
  lemma FoldedMeaning(s: seq<Expense>, totals: map<string, int>, order: seq<string>)
    requires Folded(s, totals, order)
    ensures order == FirstSeen(s)
    ensures forall c :: c in order <==> c in totals
    ensures forall c :: c in totals <==> Occurs(s, c)
    ensures forall c :: c in totals ==> totals[c] == CategorySum(s, c)
  {
    FirstSeenMeaning(s);
  }

  /**
   * The `categoryTotals` reduce: each expense adds its amount to its category's
   * entry, which starts at 0. `totals` is the dictionary, `order` its keys in
   * insertion order.
   */
  method CategoryTotals(expenses: seq<Expense>) returns (totals: map<string, int>, order: seq<string>)
    ensures order == FirstSeen(expenses)
    ensures forall c :: c in order <==> c in totals
    ensures forall c :: c in totals <==> Occurs(expenses, c)
    ensures forall c :: c in totals ==> totals[c] == CategorySum(expenses, c)
  {
    totals, order := map[], [];
    var i := 0;
    while i < |expenses|
      invariant 0 <= i <= |expenses|
      invariant Folded(expenses[..i], totals, order)
    {
      var e := expenses[i];
      var before := if e.category in totals then totals[e.category] else 0;
      var order' := if e.category in totals then order else order + [e.category];
      var totals' := totals[e.category := before + e.amount];
      FoldStep(expenses[..i], e, totals, order, totals', order');
      assert expenses[..i + 1] == expenses[..i] + [e];
      totals, order := totals', order';
      i := i + 1;
    }
    assert expenses[..i] == expenses;
    FoldedMeaning(expenses, totals, order);
  }

  // ---------------------------------------------------------------------------
  // Chart data and rendering

  /** The chart's label for a category, or the category itself when its table lacks it. */
  function ChartLabel(c: string): (name: string)
    ensures c in CategoryLabels ==> name == CategoryLabels[c]
    ensures c !in CategoryLabels ==> name == c
  {
    if c in CategoryLabels then CategoryLabels[c] else c
  }

  /** The palette colour of the slice at `index`, cycling through the eight. */
  function SliceColor(index: nat): (fill: string)
    ensures fill in Colors
  {
    Colors[index % |Colors|]
  }

  /** `chartData`: one labelled slice per dictionary entry, in the dictionary's key order. */
  function ChartData(totals: map<string, int>, order: seq<string>): (data: seq<Slice>)
    requires forall c :: c in order ==> c in totals
    ensures |data| == |order|
    ensures forall i :: 0 <= i < |data| ==> data[i] == Slice(ChartLabel(order[i]), totals[order[i]])
  {
    seq(|order|, i requires 0 <= i < |order| => Slice(ChartLabel(order[i]), totals[order[i]]))
  }

  /** The pie's cells: each slice filled with the palette colour of its position. */
  function Colored(data: seq<Slice>): (sectors: seq<Sector>)
    ensures |sectors| == |data|
    ensures forall i :: 0 <= i < |sectors| ==> sectors[i] == Sector(data[i].name, data[i].value, Colors[i % 8])
  {
    seq(|data|, i requires 0 <= i < |data| => Sector(data[i].name, data[i].value, SliceColor(i)))
  }

  /** The sum of the drawn sector values. */
  function SectorTotal(sectors: seq<Sector>): int
  {
    if sectors == [] then 0 else SectorTotal(sectors[..|sectors| - 1]) + sectors[|sectors| - 1].value
  }

  /**
   * The component: the empty state for no expenses; otherwise one sector per
   * distinct category in first-seen order, labelled, summed and coloured.
   */
  method Render(expenses: seq<Expense>) returns (view: ChartView)
    ensures view.EmptyBreakdown? <==> expenses == []
    ensures view.Breakdown? ==> |view.sectors| == |FirstSeen(expenses)| > 0
    ensures view.Breakdown? ==> forall i :: 0 <= i < |view.sectors| ==>
              view.sectors[i] == Sector(ChartLabel(FirstSeen(expenses)[i]), CategorySum(expenses, FirstSeen(expenses)[i]), Colors[i % 8])
    ensures view.Breakdown? ==> SectorTotal(view.sectors) == Total(expenses)
  {
    var totals, order := CategoryTotals(expenses);
    var data := ChartData(totals, order);
    if |expenses| == 0 {
      view := EmptyBreakdown;
    } else {
      var sectors := Colored(data);
      BreakdownMeaning(expenses, totals, order, sectors);
      view := Breakdown(sectors);
    }
  }

  /** The drawn sectors of a non-empty input are its labelled category sums, adding up to the total. */
  lemma BreakdownMeaning(expenses: seq<Expense>, totals: map<string, int>, order: seq<string>, sectors: seq<Sector>)
    requires expenses != []
    requires order == FirstSeen(expenses)
    requires forall c :: c in order <==> c in totals
    requires forall c :: c in totals ==> totals[c] == CategorySum(expenses, c)
    requires sectors == Colored(ChartData(totals, order))
    ensures |sectors| == |order| > 0
    ensures forall i :: 0 <= i < |sectors| ==>
              sectors[i] == Sector(ChartLabel(order[i]), CategorySum(expenses, order[i]), Colors[i % 8])
    ensures SectorTotal(sectors) == Total(expenses)
  {
    FirstSeenMeaning(expenses);
    assert Occurs(expenses, expenses[0].category);
    assert expenses[0].category in order;
    forall i | 0 <= i < |sectors|
      ensures sectors[i] == Sector(ChartLabel(order[i]), CategorySum(expenses, order[i]), Colors[i % 8])
    {
      assert order[i] in order;
    }
    SectorTotalIsSumOf(sectors, order, expenses);
    SlicesAddUp(expenses);
  }

  // ---------------------------------------------------------------------------
  // Properties

  lemma {:induction false} CategorySumAbsent(s: seq<Expense>, c: string)
    requires !Occurs(s, c)
    ensures CategorySum(s, c) == 0
  {
    if s != [] {
      assert s[|s| - 1].category != c;
      var p := s[..|s| - 1];
      forall i | 0 <= i < |p|
        ensures p[i].category != c
      {
        assert p[i] == s[i];
      }
      CategorySumAbsent(s[..|s| - 1], c);
    }
  }

  /** Appending an expense adds its amount to the sum over `cs` once if its category is in `cs`. */
  lemma {:induction false} SumOfAppend(cs: seq<string>, s: seq<Expense>, e: Expense)
    requires forall i, j :: 0 <= i < j < |cs| ==> cs[i] != cs[j]
    ensures SumOf(cs, s + [e]) == SumOf(cs, s) + (if e.category in cs then e.amount else 0)
  {
    assert (s + [e])[..|s|] == s;
    if cs != [] {
      var init := cs[..|cs| - 1];
      assert cs == init + [cs[|cs| - 1]];
      SumOfAppend(init, s, e);
    }
  }

  /** The values of categoryTotals add up to the sum of all amounts. */
  lemma {:induction false} SlicesAddUp(s: seq<Expense>)
    ensures SumOf(FirstSeen(s), s) == Total(s)
  {
    if s != [] {
      var p, e := s[..|s| - 1], s[|s| - 1];
      assert s == p + [e];
      var f := FirstSeen(p);
      FirstSeenMeaning(p);
      assert s[..|s| - 1] == p;
      SlicesAddUp(p);
      SumOfAppend(f, p, e);
      TotalAppend(p, [e]);
      assert Total([e]) == e.amount;
      if e.category !in f {
        assert !Occurs(p, e.category);
        CategorySumAbsent(p, e.category);
        assert (f + [e.category])[..|f|] == f;
      }
    }
  }

  /** Drawn sectors whose values are the category sums of `order` add up to the sum over `order`. */
  lemma {:induction false} SectorTotalIsSumOf(sectors: seq<Sector>, order: seq<string>, s: seq<Expense>)
    requires |sectors| == |order|
    requires forall i :: 0 <= i < |sectors| ==> sectors[i].value == CategorySum(s, order[i])
    ensures SectorTotal(sectors) == SumOf(order, s)
  {
    if sectors != [] {
      SectorTotalIsSumOf(sectors[..|sectors| - 1], order[..|order| - 1], s);
    }
  }

  /** The categories come out in the order of their first occurrence in the input. */
  lemma {:induction false} FirstSeenInOrder(s: seq<Expense>)
    ensures forall i, j :: 0 <= i < j < |FirstSeen(s)| ==>
              Occurs(s, FirstSeen(s)[i]) && Occurs(s, FirstSeen(s)[j])
              && FirstIndex(s, FirstSeen(s)[i]) < FirstIndex(s, FirstSeen(s)[j])
  {
    FirstSeenMeaning(s);
    if s != [] {
      var p, e := s[..|s| - 1], s[|s| - 1];
      var f := FirstSeen(p);
      FirstSeenMeaning(p);
      FirstSeenInOrder(p);
      forall c | Occurs(p, c)
        ensures Occurs(s, c) && FirstIndex(s, c) == FirstIndex(p, c)
      {
        var k := FirstIndex(p, c);
        assert s[k] == p[k];
        FirstIndexIs(s, c, k);
      }
      forall i | 0 <= i < |f|
        ensures Occurs(s, f[i]) && FirstIndex(s, f[i]) == FirstIndex(p, f[i]) < |p|
      {
        assert f[i] in f;
      }
      if e.category !in f {
        assert !Occurs(p, e.category);
        FirstIndexIs(s, e.category, |p|);
        assert FirstSeen(s) == f + [e.category];
      } else {
        assert FirstSeen(s) == f;
      }
      var g := FirstSeen(s);
      forall i, j | 0 <= i < j < |g|
        ensures Occurs(s, g[i]) && Occurs(s, g[j]) && FirstIndex(s, g[i]) < FirstIndex(s, g[j])
      {
        assert g[i] == f[i];
        if j < |f| {
          assert g[j] == f[j];
        }
      }
    } else {
      assert FirstSeen(s) == [];
    }
  }

  /** The first position of a category is the one position before which it does not occur. */
  lemma FirstIndexIs(s: seq<Expense>, c: string, k: nat)
    requires k < |s| && s[k].category == c
    requires forall j :: 0 <= j < k ==> s[j].category != c
    ensures Occurs(s, c) && FirstIndex(s, c) == k
  {
  }

  /** Slices fewer than eight apart never share a colour; the cycle repeats every eight. */
  lemma ColorsCycle(i: nat, j: nat)
    ensures i < j < i + 8 ==> SliceColor(i) != SliceColor(j)
    ensures SliceColor(i + 8) == SliceColor(i)
  {
    assert forall a, b :: 0 <= a < b < 8 ==> Colors[a] != Colors[b];
  }

  /**
   * The chart labels "food" from its own table, and shows the four categories
   * of the expense form that its table lacks under their raw names.
   */
  lemma LabelExamples()
    ensures ChartLabel("food") == "Food & Dining"
    ensures ChartLabel("dining") == "dining" && ChartLabel("gas") == "gas"
    ensures ChartLabel("subscriptions") == "subscriptions" && ChartLabel("home") == "home"
  {
  }
}

/**
 * The page of app/page.tsx: the in-memory list of expenses, the two actions
 * that change it, and the figures derived from it on every render.
 *
 * The page keeps its list in component state only; it never reads or writes
 * the persistent store. The clock is a parameter: `now` is the current date
 * and `id` the fresh id that `Date.now().toString()` would supply.
 */
module BudgetApp {
  import opened Records
  import ExpenseList

  // ---------------------------------------------------------------------------
  // Derived figures

  /** The list without the records whose id is `id`, the rest in their order. */
  function WithoutId(s: seq<Expense>, id: string): (r: seq<Expense>)
    ensures |r| <= |s|
    ensures forall e :: e in r <==> e in s && e.id != id
  {
    if s == [] then []
    else if s[0].id == id then WithoutId(s[1..], id)
    else [s[0]] + WithoutId(s[1..], id)
  }

  /** The expense falls in the same calendar month and year as `now`. */
  predicate InMonthOf(e: Expense, now: Date)
  {
    e.date.month == now.month && e.date.year == now.year
  }

  /** The filter step of `thisMonthExpenses`. */
  function ThisMonth(s: seq<Expense>, now: Date): (r: seq<Expense>)
    ensures |r| <= |s|
    ensures forall e :: e in r <==> e in s && InMonthOf(e, now)
  {
    if s == [] then []
    else if InMonthOf(s[0], now) then [s[0]] + ThisMonth(s[1..], now)
    else ThisMonth(s[1..], now)
  }

  /** The records the month filter drops. */
  function ThisMonthComplement(s: seq<Expense>, now: Date): (r: seq<Expense>)
    ensures forall e :: e in r <==> e in s && !InMonthOf(e, now)
  {
    if s == [] then []
    else if InMonthOf(s[0], now) then ThisMonthComplement(s[1..], now)
    else [s[0]] + ThisMonthComplement(s[1..], now)
  }

  /** `totalExpenses`: the sum of all amounts. */
  function TotalExpenses(s: seq<Expense>): int
  {
    Total(s)
  }

  /** `thisMonthExpenses`: the sum of the amounts dated in the current month. */
  function ThisMonthExpenses(s: seq<Expense>, now: Date): int
  {
    Total(ThisMonth(s, now))
  }

  /** Number of times `id` occurs in the list. */
  function Occurrences(s: seq<Expense>, id: string): nat
  {
    if s == [] then 0 else (if s[0].id == id then 1 else 0) + Occurrences(s[1..], id)
  }

  // ---------------------------------------------------------------------------
  // Page state

  class BudgetApp {
    /** The `expenses` state. */
    var expenses: seq<Expense>
    /** The `showAddForm` state. */
    var showAddForm: bool

    constructor ()
      ensures expenses == [] && !showAddForm
    {
      expenses := [];
      showAddForm := false;
    }

    /** The "Add Expense" button. */
    method OpenAddForm()
      modifies this`showAddForm
      ensures showAddForm
    {
      showAddForm := true;
    }

    /** The form's cancel action. */
    method CancelAddForm()
      modifies this`showAddForm
      ensures !showAddForm
    {
      showAddForm := false;
    }

    /**
     * `addExpense`: the submitted draft, given the fresh id, goes in front of the
     * unchanged list, and the form closes.
     */
    method AddExpense(draft: Draft, id: string)
      modifies this
      ensures expenses == [WithId(draft, id)] + old(expenses)
      ensures |expenses| == |old(expenses)| + 1
      ensures expenses[0].id == id && expenses[1..] == old(expenses)
      ensures !showAddForm
    {
      var added := WithId(draft, id);
      expenses := [added] + expenses;
      showAddForm := false;
    }

    /** `deleteExpense`: every record with that id goes; the rest keep their order. */
    method DeleteExpense(id: string)
      modifies this`expenses
      ensures expenses == WithoutId(old(expenses), id)
      ensures forall e :: e in expenses ==> e.id != id
    {
      expenses := WithoutId(expenses, id);
    }
  }

  // ---------------------------------------------------------------------------
  // Properties of the derived figures

  /** Filtering distributes over concatenation, so it keeps the relative order of what it keeps. */
  lemma {:induction false} WithoutIdAppend(s: seq<Expense>, t: seq<Expense>, id: string)
    ensures WithoutId(s + t, id) == WithoutId(s, id) + WithoutId(t, id)
  {
    if s == [] {
      assert s + t == t;
    } else {
      assert (s + t)[0] == s[0] && (s + t)[1..] == s[1..] + t;
      WithoutIdAppend(s[1..], t, id);
    }
  }

  /** Deleting an id that is not in the list leaves the list as it was. */
  lemma {:induction false} WithoutAbsentId(s: seq<Expense>, id: string)
    requires id !in Ids(s)
    ensures WithoutId(s, id) == s
  {
    if s != [] {
      assert s[0] in s;
      assert Ids(s[1..]) <= Ids(s) by {
        forall e | e in s[1..] ensures e in s { }
      }
      WithoutAbsentId(s[1..], id);
      assert s == [s[0]] + s[1..];
    }
  }

  /** Deleting twice is deleting once. */
  lemma WithoutIdIdempotent(s: seq<Expense>, id: string)
    ensures WithoutId(WithoutId(s, id), id) == WithoutId(s, id)
  {
    WithoutAbsentId(WithoutId(s, id), id);
  }

  /** Adding a record under a fresh id and then deleting that id restores the list. */
  lemma AddThenDelete(s: seq<Expense>, draft: Draft, id: string)
    requires id !in Ids(s)
    ensures WithoutId([WithId(draft, id)] + s, id) == s
  {
    assert ([WithId(draft, id)] + s)[1..] == s;
    WithoutAbsentId(s, id);
  }

  /** The count drops by exactly the number of records that carried the id. */
  lemma {:induction false} WithoutIdCount(s: seq<Expense>, id: string)
    ensures |WithoutId(s, id)| == |s| - Occurrences(s, id)
  {
    if s != [] {
      WithoutIdCount(s[1..], id);
    }
  }

  /** The total after an add is the new amount plus the old total. */
  lemma TotalAfterAdd(s: seq<Expense>, draft: Draft, id: string)
    ensures TotalExpenses([WithId(draft, id)] + s) == draft.amount + TotalExpenses(s)
  {
    assert ([WithId(draft, id)] + s)[1..] == s;
  }

  /** What the month filter drops is exactly the rest of the total. */
  lemma {:induction false} ThisMonthSplit(s: seq<Expense>, now: Date)
    ensures ThisMonthExpenses(s, now) + Total(ThisMonthComplement(s, now)) == TotalExpenses(s)
  {
    if s != [] {
      ThisMonthSplit(s[1..], now);
    }
  }

  /** With no negative amounts, this month's figure never exceeds the total. */
  lemma ThisMonthAtMostTotal(s: seq<Expense>, now: Date)
    requires forall e :: e in s ==> e.amount >= 0
    ensures 0 <= ThisMonthExpenses(s, now) <= TotalExpenses(s)
  {
    ThisMonthSplit(s, now);
    TotalNonNegative(ThisMonth(s, now));
    TotalNonNegative(ThisMonthComplement(s, now));
  }

  /** An expense dated outside the current month does not move this month's figure. */
  lemma OtherMonthIgnored(s: seq<Expense>, e: Expense, now: Date)
    requires !InMonthOf(e, now)
    ensures ThisMonthExpenses([e] + s, now) == ThisMonthExpenses(s, now)
  {
    assert ([e] + s)[1..] == s;
  }

  /** An expense dated in the current month adds its amount to this month's figure. */
  lemma SameMonthCounted(s: seq<Expense>, e: Expense, now: Date)
    requires InMonthOf(e, now)
    ensures ThisMonthExpenses([e] + s, now) == e.amount + ThisMonthExpenses(s, now)
  {
    assert ([e] + s)[1..] == s;
  }

  /**
   * The delete button of a row of the list passes that row's expense id, so
   * the page drops that expense and every record of another id survives.
   */
  lemma DeleteFromRow(s: seq<Expense>, i: int)
    requires 0 <= i < |s|
    ensures ExpenseList.Render(s).RecentExpenses?
    ensures ExpenseList.Render(s).rows[i].deleteId == s[i].id
    ensures s[i] !in WithoutId(s, ExpenseList.Render(s).rows[i].deleteId)
    ensures forall e :: e in s && e.id != s[i].id ==> e in WithoutId(s, ExpenseList.Render(s).rows[i].deleteId)
  {
  }
}

/**
 * The record shapes shared by the budget tracker's store, page and components:
 * calendar dates, expenses, the id-less expense a form submits, and the sum
 * of amounts that every total on the page is built from.
 *
 * Amounts are whole cents, so every sum is exact.
 */
module Records {

  datatype Option<+T> = None | Some(value: T)

  /** A calendar date as the "YYYY-MM-DD" strings of the source carry it. */
  datatype Date = Date(year: int, month: int, day: int)

  /** Strictly earlier, in calendar order (the order of `getTime()` on well-formed dates). */
  predicate Earlier(a: Date, b: Date)
  {
    a.year < b.year
    || (a.year == b.year && (a.month < b.month || (a.month == b.month && a.day < b.day)))
  }

  /** A stored or displayed expense. */
  datatype Expense = Expense(id: string, amount: int, category: string, description: string, date: Date)

  /** What the expense form submits: an expense without its id. */
  datatype Draft = Draft(amount: int, category: string, description: string, date: Date)

  /** The expense a draft becomes once it is given an id (the `{ ...expense, id }` spread). */
  function WithId(d: Draft, id: string): (e: Expense)
    ensures e.id == id
    ensures Draft(e.amount, e.category, e.description, e.date) == d
  {
    Expense(id, d.amount, d.category, d.description, d.date)
  }

  /** The sum of the amounts, starting from 0. */
  function Total(s: seq<Expense>): int
  {
    if s == [] then 0 else s[0].amount + Total(s[1..])
  }

  /** The ids occurring in a list of expenses. */
  function Ids(s: seq<Expense>): set<string>
  {
    set e | e in s :: e.id
  }

  lemma {:induction false} TotalAppend(s: seq<Expense>, t: seq<Expense>)
    ensures Total(s + t) == Total(s) + Total(t)
  {
    if s == [] {
      assert s + t == t;
    } else {
      assert (s + t)[1..] == s[1..] + t;
      TotalAppend(s[1..], t);
    }
  }

  lemma {:induction false} TotalNonNegative(s: seq<Expense>)
    requires forall e :: e in s ==> e.amount >= 0
    ensures Total(s) >= 0
  {
    if s != [] {
      assert s[0] in s;
      TotalNonNegative(s[1..]);
    }
  }

  /** Earlier is a strict order on dates. */
  lemma EarlierIsStrictOrder()
    ensures forall a: Date :: !Earlier(a, a)
    ensures forall a: Date, b: Date :: Earlier(a, b) ==> !Earlier(b, a)
    ensures forall a: Date, b: Date, c: Date :: Earlier(a, b) && Earlier(b, c) ==> Earlier(a, c)
    ensures forall a: Date, b: Date :: a == b || Earlier(a, b) || Earlier(b, a)
  {
  }
}

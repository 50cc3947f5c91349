/**
 * The add-expense form of components/expense-form.tsx: four fields, a submit
 * guard that needs an amount and a category, the draft it hands to the page,
 * and the reset that follows an accepted submit.
 *
 * `today` is the current date in UTC, which the clock supplies.
 */
module ExpenseForm {
  import opened Records
  import opened Decimal
  import ExpenseList

  /** One entry of the category select. */
  datatype CategoryOption = CategoryOption(value: string, caption: string, icon: ExpenseList.Icon)

  const Categories: seq<CategoryOption> := [
    CategoryOption("food", "Grocery", ExpenseList.Utensils),
    CategoryOption("dining", "Dining", ExpenseList.HandPlatter),
    CategoryOption("gas", "Gas", ExpenseList.Car),
    CategoryOption("shopping", "Shopping", ExpenseList.ShoppingCart),
    CategoryOption("bills", "Bills & Utilities", ExpenseList.Home),
    CategoryOption("entertainment", "Entertainment", ExpenseList.Clapperboard),
    CategoryOption("coffee", "Coffee & Drinks", ExpenseList.Coffee),
    CategoryOption("health", "Health & Fitness", ExpenseList.Heart),
    CategoryOption("education", "Education", ExpenseList.GraduationCap),
    CategoryOption("subscriptions", "Subscriptions", ExpenseList.DollarSign),
    CategoryOption("home", "Home Maintenance", ExpenseList.PaintBucket)
  ]

  /** `value` is one the select offers. */
  predicate IsOption(value: string)
  {
    exists i :: 0 <= i < |Categories| && Categories[i].value == value
  }

  class ExpenseForm {
    var amount: string
    var category: string
    var description: string
    var date: Date

    /** The number input holds a number or nothing; the select holds an option or nothing. */
    ghost predicate Valid()
      reads this
    {
      IsAmountText(amount) && (category == "" || IsOption(category))
    }

    constructor (today: Date)
      ensures Valid()
      ensures amount == "" && category == "" && description == "" && date == today
    {
      amount, category, description, date := "", "", "", today;
    }

    method SetAmount(text: string)
      requires IsAmountText(text)
      modifies this`amount
      ensures amount == text
    {
      amount := text;
    }

    method SetCategory(value: string)
      requires IsOption(value)
      modifies this`category
      ensures category == value
    {
      category := value;
    }

    method SetDescription(text: string)
      modifies this`description
      ensures description == text
    {
      description := text;
    }

    method SetDate(d: Date)
      modifies this`date
      ensures date == d
    {
      date := d;
    }

    /**
     * `handleSubmit`: with an amount and a category, hand the page the parsed
     * amount and the other fields exactly as entered, then clear the form and
     * set the date back to today; otherwise do nothing.
     */
    method HandleSubmit(today: Date) returns (submitted: Option<Draft>)
      requires Valid()
      modifies this
      ensures Valid()
      ensures submitted.None? <==> old(amount) == "" || old(category) == ""
      ensures submitted.None? ==>
                amount == old(amount) && category == old(category)
                && description == old(description) && date == old(date)
      ensures submitted.Some? ==>
                submitted.value == Draft(Parse(old(amount)).value, old(category), old(description), old(date))
      ensures submitted.Some? ==> amount == "" && category == "" && description == "" && date == today
    {
      if amount == "" || category == "" {
        return None;
      }
      submitted := Some(Draft(Parse(amount).value, category, description, date));
      amount := "";
      category := "";
      description := "";
      date := today;
    }
  }

  /** The select offers eleven distinct categories. */
  lemma OptionsDistinct()
    ensures |Categories| == 11
    ensures forall i, j :: 0 <= i < j < |Categories| ==> Categories[i].value != Categories[j].value
  {
  }

  /**
   * Every category the form can submit is one the expense list knows: it is
   * listed under the same label and icon the select shows for it.
   */
  lemma OptionsMatchList(value: string)
    requires IsOption(value)
    ensures value in ExpenseList.CategoryLabels && value in ExpenseList.CategoryIcons
    ensures exists i :: 0 <= i < |Categories| && Categories[i].value == value
                        && ExpenseList.LabelFor(value) == Categories[i].caption
                        && ExpenseList.IconFor(value) == Categories[i].icon
  {
  }
}

/**
 * The income form of components/income-form.tsx. The record request that
 * runs on mount is an input: its outcome is passed to `LoadExisting`.
 */
module IncomeForm {
  import opened Records
  import opened Decimal
  import opened AmountForms

  const DefaultDescription := "Total income"

  class IncomeForm {
    var amount: string
    var description: string

    /** The number input holds a number or nothing. */
    ghost predicate Valid()
      reads this
    {
      IsAmountText(amount)
    }

    /** `currentIncome` defaults to 0 and is shown as `currentIncome.toString()`. */
    constructor (currentIncome: Option<int>)
      ensures Valid()
      ensures amount == Format(if currentIncome.Some? then currentIncome.value else 0)
      ensures description == ""
    {
      var current := if currentIncome.Some? then currentIncome.value else 0;
      FormattedAmountIsValid(current);
      amount := Format(current);
      description := "";
    }

    /** The mount-time effect: a found record replaces both fields; otherwise nothing changes. */
    method LoadExisting(loaded: Loaded)
      requires Valid()
      modifies this
      ensures Valid()
      ensures loaded.Found? ==>
                amount == Format(loaded.record.amount) && description == loaded.record.description
      ensures !loaded.Found? ==> amount == old(amount) && description == old(description)
    {
      if loaded.Found? {
        FormattedAmountIsValid(loaded.record.amount);
        amount := Format(loaded.record.amount);
        description := loaded.record.description;
      }
    }

    method SetAmount(text: string)
      requires IsAmountText(text)
      modifies this`amount
      ensures amount == text
    {
      amount := text;
    }

    method SetDescription(text: string)
      modifies this`description
      ensures description == text
    {
      description := text;
    }

    /** `handleSubmit`: the form keeps its fields after a submit. */
    method HandleSubmit() returns (submitted: Option<AmountUpdate>)
      requires Valid()
      ensures submitted == Submission(amount, description, DefaultDescription)
      ensures submitted.Some? ==> submitted.value.amount >= 0
    {
      if amount == "" || Parse(amount).value < 0 {
        return None;
      }
      submitted := Some(AmountUpdate(Parse(amount).value, if description != "" then description else DefaultDescription));
    }
  }

  /** A form opened without a current figure and left untouched submits zero under the default description. */
  lemma UntouchedFormSubmitsZero()
    ensures IsAmountText(Format(0))
    ensures Submission(Format(0), "", DefaultDescription) == Some(AmountUpdate(0, "Total income"))
  {
    FormattedAmountIsValid(0);
  }
}

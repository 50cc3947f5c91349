/**
 * What the income form and the savings form share: the submit guard, the
 * figure and description they hand on, and the record their mount-time
 * request may bring back.
 */
module AmountForms {
  import opened Records
  import opened Decimal

  /** A stored total: its amount in cents and its description. */
  datatype StoredAmount = StoredAmount(amount: int, description: string)

  /**
   * How the mount-time request ended: with a record, with nothing, or with a
   * rejected promise (which the component only logs).
   */
  datatype Loaded = Found(record: StoredAmount) | Absent | LoadFailed

  /** The pair handed to `onSubmit`. */
  datatype AmountUpdate = AmountUpdate(amount: int, description: string)

  /**
   * `handleSubmit`: nothing for an empty or negative amount; otherwise the
   * parsed amount, with the description or, when that is empty, `fallback`.
   */
  function Submission(amount: string, description: string, fallback: string): (r: Option<AmountUpdate>)
    requires IsAmountText(amount)
    ensures r.None? <==> amount == "" || Parse(amount).value < 0
    ensures r.Some? ==> r.value.amount == Parse(amount).value && r.value.amount >= 0
    ensures r.Some? && description != "" ==> r.value.description == description
    ensures r.Some? && description == "" ==> r.value.description == fallback
  {
    if amount == "" || Parse(amount).value < 0 then None
    else Some(AmountUpdate(Parse(amount).value, if description != "" then description else fallback))
  }

  /** The amount text a form starts with or loads: `n.toString()`. */
  lemma FormattedAmountIsValid(cents: int)
    ensures IsAmountText(Format(cents))
    ensures Format(cents) != "" && Parse(Format(cents)) == Some(cents)
  {
    ParseFormat(cents);
  }

  /**
   * A loaded record, submitted unedited, hands back its own amount and its own
   * description (or the fallback for an empty one), unless its amount is negative.
   */
  lemma LoadedRecordResubmits(record: StoredAmount, fallback: string)
    ensures IsAmountText(Format(record.amount))
    ensures record.amount >= 0 ==>
              Submission(Format(record.amount), record.description, fallback)
              == Some(AmountUpdate(record.amount, if record.description == "" then fallback else record.description))
    ensures record.amount < 0 ==> Submission(Format(record.amount), record.description, fallback) == None
  {
    FormattedAmountIsValid(record.amount);
  }
}

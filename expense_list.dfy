/**
 * The list of components/expense-list.tsx: an empty state, or one row per
 * expense in the order given, each with an icon and a label looked up by
 * category (falling back to the Utensils icon and to the raw category), an
 * optional description line, and a delete action bound to the row's id.
 */
module ExpenseList {
  import opened Records

  /** The icons the list draws (lucide-react components). */
  datatype Icon =
    | Utensils | HandPlatter | Car | ShoppingCart | Home | Clapperboard
    | Coffee | Heart | GraduationCap | DollarSign | PaintBucket

  const CategoryIcons: map<string, Icon> := map[
    "food" := Utensils,
    "dining" := HandPlatter,
    "gas" := Car,
    "shopping" := ShoppingCart,
    "bills" := Home,
    "entertainment" := Clapperboard,
    "coffee" := Coffee,
    "health" := Heart,
    "education" := GraduationCap,
    "subscriptions" := DollarSign,
    "home" := PaintBucket
  ]

  const CategoryLabels: map<string, string> := map[
    "food" := "Grocery",
    "dining" := "Dining",
    "gas" := "Gas",
    "shopping" := "Shopping",
    "bills" := "Bills & Utilities",
    "entertainment" := "Entertainment",
    "coffee" := "Coffee & Drinks",
    "health" := "Health & Fitness",
    "education" := "Education",
    "subscriptions" := "Subscriptions",
    "home" := "Home Maintenance"
  ]

  /** One row of the list. */
  datatype Row = Row(
    key: string,               // the React key
    icon: Icon,
    heading: string,           // "{categoryLabel}, {expense.category}"
    note: Option<string>,      // the description line, drawn only when non-empty
    date: Date,
    amount: int,
    deleteId: string           // the argument its delete button passes to onDelete
  )

  /** What the component renders. */
  datatype ListView = NoExpenses | RecentExpenses(rows: seq<Row>)

  /** The icon of a known category; Utensils for any other. */
  function IconFor(category: string): (icon: Icon)
    ensures category in CategoryIcons ==> icon == CategoryIcons[category]
    ensures category !in CategoryIcons ==> icon == Utensils
  {
    if category in CategoryIcons then CategoryIcons[category] else Utensils
  }

  /** The list's label of a known category; the category itself for any other. */
  function LabelFor(category: string): (text: string)
    ensures category in CategoryLabels ==> text == CategoryLabels[category]
    ensures category !in CategoryLabels ==> text == category
  {
    if category in CategoryLabels then CategoryLabels[category] else category
  }

  /** The row drawn for one expense. */
  function RowFor(e: Expense): (row: Row)
    ensures row.key == e.id && row.deleteId == e.id
    ensures row.note.Some? <==> e.description != ""
    ensures row.note.Some? ==> row.note.value == e.description
    ensures row.heading == LabelFor(e.category) + ", " + e.category
    ensures row.icon == IconFor(e.category) && row.date == e.date && row.amount == e.amount
  {
    Row(e.id, IconFor(e.category), LabelFor(e.category) + ", " + e.category,
        if e.description != "" then Some(e.description) else None,
        e.date, e.amount, e.id)
  }

  /** The component: the empty state, or the rows in the order of the input. */
  function Render(expenses: seq<Expense>): (view: ListView)
    ensures view.NoExpenses? <==> expenses == []
    ensures view.RecentExpenses? ==> |view.rows| == |expenses|
    ensures view.RecentExpenses? ==> forall i :: 0 <= i < |expenses| ==> view.rows[i] == RowFor(expenses[i])
  {
    if |expenses| == 0 then NoExpenses
    else RecentExpenses(seq(|expenses|, i requires 0 <= i < |expenses| => RowFor(expenses[i])))
  }

  /** The label table and the icon table cover the same categories. */
  lemma TablesAgree()
    ensures CategoryLabels.Keys == CategoryIcons.Keys
  {
  }

  /** Only an unknown category is shown by its raw name; only an unknown category gets the fallback icon. */
  lemma FallbackOnlyForUnknown(category: string)
    ensures category in CategoryLabels ==> LabelFor(category) != category
    ensures category in CategoryLabels && category != "food" ==> IconFor(category) != Utensils
  {
  }
}

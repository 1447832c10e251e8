/** The projection of an expense that the service hands back to clients. */
module ExpenseResponses {
  import opened Results
  import opened Dates
  import opened Categories
  import opened Expenses

  /** There is no owner field: responses never reveal who owns a record. */
  datatype ExpenseResponse = ExpenseResponse(
    id: int,
    description: string,
    amount: real,
    category: Category,
    categoryDisplayName: string,
    categoryColor: string,
    expenseDate: LocalDate,
    notes: Option<string>)

  /** The display fields agree with the catalogue entry of the category. */
  predicate HasCatalogueMetadata(r: ExpenseResponse) {
    r.categoryDisplayName == DisplayName(r.category) && r.categoryColor == Color(r.category)
  }

  /** The expense a response describes, once the owner it omits is supplied. */
  function WithOwner(r: ExpenseResponse, owner: int): Expense {
    Expense(r.id, owner, r.description, r.amount, r.category, r.expenseDate, r.notes)
  }

  function FromExpense(e: Expense): (r: ExpenseResponse)
    ensures HasCatalogueMetadata(r)
    ensures WithOwner(r, e.userId) == e
  {
    ExpenseResponse(
      e.id, e.description, e.amount, e.category,
      DisplayName(e.category), Color(e.category),
      e.expenseDate, e.notes)
  }

  /** Every response with catalogue metadata is the projection of the record
      it describes, whoever owns it. */
  lemma FromExpenseOfWithOwner(r: ExpenseResponse, owner: int)
    requires HasCatalogueMetadata(r)
    ensures FromExpense(WithOwner(r, owner)) == r
  {
  }

  /** Two records project to the same response exactly when they differ at
      most in their owner: the projection drops the owner and nothing else. */
  lemma FromExpenseForgetsOnlyOwner(a: Expense, b: Expense)
    ensures FromExpense(a) == FromExpense(b) <==> a.(userId := b.userId) == b
  {
    if FromExpense(a) == FromExpense(b) {
      assert WithOwner(FromExpense(a), b.userId) == b;
    }
  }
}

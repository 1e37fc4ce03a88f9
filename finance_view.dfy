/**
 * The ledger of components/FinanceView.tsx: the running balance, the
 * transaction form and the quick-expense buttons, as pure functions over an
 * immutable state record.
 */
module FinanceView {
  import opened Records

  /** The starting balance the `reduce` begins from. */
  const BaseBalance: real := 5024.0

  /** The date every new transaction carries. */
  const JustNow: string := "Just now"

  /** The form: `amount` is the text typed, parsed only on save. */
  datatype FinanceForm = FinanceForm(title: string, amount: string, kind: TxType, category: string)

  datatype FinanceState = FinanceState(transactions: seq<Transaction>, modalOpen: bool, form: FinanceForm)

  /** `resetForm`. */
  const EmptyForm: FinanceForm := FinanceForm("", "", Expense, "General")

  /** One step of the balance `reduce`. */
  function Apply(acc: real, tx: Transaction): real {
    if tx.kind == Income then acc + tx.amount else acc - tx.amount
  }

  /** `txs.reduce(Apply, acc)`, a left fold. */
  function Fold(acc: real, txs: seq<Transaction>): real
    decreases |txs|
  {
    if txs == [] then acc else Fold(Apply(acc, txs[0]), txs[1..])
  }

  /** `totalBalance`. */
  function Balance(txs: seq<Transaction>): real {
    Fold(BaseBalance, txs)
  }

  /** Sum of the amounts of the transactions of one kind. */
  function Total(txs: seq<Transaction>, kind: TxType): real
    decreases |txs|
  {
    if txs == [] then 0.0 else (if txs[0].kind == kind then txs[0].amount else 0.0) + Total(txs[1..], kind)
  }

  /** The fold adds the income and subtracts the expenses, whatever its start. */
  lemma {:induction false} FoldIsNet(acc: real, txs: seq<Transaction>)
    ensures Fold(acc, txs) == acc + Total(txs, Income) - Total(txs, Expense)
    decreases |txs|
  {
    if txs != [] {
      FoldIsNet(Apply(acc, txs[0]), txs[1..]);
    }
  }

  /** The balance is 5024 plus all income minus all expenses. */
  lemma BalanceIsBasePlusNet(txs: seq<Transaction>)
    ensures Balance(txs) == 5024.0 + Total(txs, Income) - Total(txs, Expense)
  {
    FoldIsNet(BaseBalance, txs);
  }

  /** The signed effect of one transaction on the balance. */
  function Effect(tx: Transaction): real {
    if tx.kind == Income then tx.amount else -tx.amount
  }

  /** Prepending a transaction moves the balance by its signed amount. */
  lemma BalanceOfPrepend(tx: Transaction, txs: seq<Transaction>)
    ensures Balance([tx] + txs) == Balance(txs) + Effect(tx)
  {
    BalanceIsBasePlusNet(txs);
    BalanceIsBasePlusNet([tx] + txs);
    assert ([tx] + txs)[1..] == txs;
  }

  /**
   * `handleSave`: nothing happens when the title or the amount text is empty;
   * otherwise a transaction with the form's fields is prepended, the modal
   * closes and the form is reset. `amount` is the number `parseFloat` reads
   * from the amount text and `newId` stands for `Date.now().toString()`.
   */
  function Save(s: FinanceState, amount: real, newId: string): (r: FinanceState)
    ensures s.form.title == "" || s.form.amount == "" ==> r == s
    ensures s.form.title != "" && s.form.amount != "" ==>
      && |r.transactions| == |s.transactions| + 1
      && r.transactions[1..] == s.transactions
      && r.transactions[0] == Transaction(newId, s.form.title, amount, s.form.kind, JustNow, s.form.category)
      && !r.modalOpen && r.form == EmptyForm
  {
    if s.form.title == "" || s.form.amount == "" then s
    else
      var tx := Transaction(newId, s.form.title, amount, s.form.kind, JustNow, s.form.category);
      FinanceState([tx] + s.transactions, false, EmptyForm)
  }

  /** `addQuickTransaction`: an expense dated "Just now" goes first; the modal and form are untouched. */
  function AddQuick(s: FinanceState, amount: real, title: string, category: string, newId: string): (r: FinanceState)
    ensures |r.transactions| == |s.transactions| + 1 && r.transactions[1..] == s.transactions
    ensures r.transactions[0].kind == Expense && r.transactions[0].date == JustNow
    ensures r.transactions[0].amount == amount && r.transactions[0].title == title
    ensures r.transactions[0].category == category && r.transactions[0].id == newId
    ensures r.modalOpen == s.modalOpen && r.form == s.form
  {
    s.(transactions := [Transaction(newId, title, amount, Expense, JustNow, category)] + s.transactions)
  }

  /** A quick expense lowers the balance by its amount. */
  lemma QuickLowersBalance(s: FinanceState, amount: real, title: string, category: string, newId: string)
    ensures Balance(AddQuick(s, amount, title, category, newId).transactions) == Balance(s.transactions) - amount
  {
    BalanceOfPrepend(AddQuick(s, amount, title, category, newId).transactions[0], s.transactions);
  }

  /** A saved transaction moves the balance by +amount for income and -amount for an expense. */
  lemma SaveMovesBalance(s: FinanceState, amount: real, newId: string)
    requires s.form.title != "" && s.form.amount != ""
    ensures Balance(Save(s, amount, newId).transactions) ==
      Balance(s.transactions) + (if s.form.kind == Income then amount else -amount)
  {
    BalanceOfPrepend(Save(s, amount, newId).transactions[0], s.transactions);
  }
}

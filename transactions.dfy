/**
 * The ledger store: categories with a cached balance and the transaction log,
 * and its two operations, transferring funds between two categories and deleting
 * a transaction together with its linked counterpart.
 *
 * The backing document store is modelled as two in-memory maps. Each operation
 * first validates and reads, then stages its writes in a batch and commits the
 * batch as one step: either every staged write applies, or (when an error is
 * raised before the commit) none does.
 */
module Transactions {
  import opened Wrappers
  import opened JsText

  /** A document id; the empty string is the "absent" (falsy) id. */
  type Id = string

  /** A `type` other than the two the operations write. */
  type OtherTag = t: string | t != "expense" && t != "income" witness ""

  /** The `type` field of a transaction record: `expense`, `income`, or any other text. */
  datatype TxKind = Expense | Income | OtherKind(tag: OtherTag)

  /** A category document: its title and its balance, in minor currency units. */
  datatype Category = Category(title: string, balance: int)

  /** A transaction document (its server timestamp is not modelled). */
  datatype Txn = Txn(
    categoryId: Id,
    fromUser: string,
    toUser: string,
    amount: int,
    description: string,
    kind: TxKind,
    isSalary: Option<bool>,
    relatedId: Id)

  /** What the caller passes for a category: only its id and its title are used. */
  datatype CategoryRef = CategoryRef(id: Id, title: string)

  /** The two collections of the store. */
  datatype Store = Store(categories: map<Id, Category>, transactions: map<Id, Txn>)

  /** The store never holds a category under the empty id (document ids are non-empty). */
  predicate WellFormed(s: Store) {
    "" !in s.categories
  }

  /** One staged write of a transaction or a batch. */
  datatype Write =
    | SetTxn(id: Id, txn: Txn)
    | DeleteTxn(id: Id)
    | UpdateBalance(id: Id, balance: int)

  /** The effect of one write; a balance update names a category the operation has just read. */
  function ApplyWrite(s: Store, w: Write): Store {
    match w
    case SetTxn(id, t) => s.(transactions := s.transactions[id := t])
    case DeleteTxn(id) => s.(transactions := s.transactions - {id})
    case UpdateBalance(id, b) =>
      if id in s.categories then s.(categories := s.categories[id := s.categories[id].(balance := b)])
      else s
  }

  /** Committing a batch applies its writes in the order they were staged. */
  function Commit(s: Store, batch: seq<Write>): Store
    decreases |batch|
  {
    if batch == [] then s else ApplyWrite(Commit(s, batch[..|batch| - 1]), batch[|batch| - 1])
  }

  lemma CommitAppend(s: Store, batch: seq<Write>, w: Write)
    ensures Commit(s, batch + [w]) == ApplyWrite(Commit(s, batch), w)
  {
    assert (batch + [w])[..|batch|] == batch;
  }

  function Abs(x: int): nat {
    if x < 0 then -x else x
  }

  // ---------------------------------------------------------------- transferFunds

  /** Why a transfer is refused. */
  datatype TransferError = InvalidAmount | MissingDescription | SourceNotFound | TargetNotFound

  /**
   * The ids the store's id generator hands out for the two new records: non-empty,
   * distinct, unused, and not yet the link of any record.
   */
  predicate FreshIds(s: Store, withdrawalId: Id, depositId: Id) {
    && withdrawalId != "" && depositId != "" && withdrawalId != depositId
    && withdrawalId !in s.transactions && depositId !in s.transactions
    && forall k :: k in s.transactions ==> s.transactions[k].relatedId != withdrawalId
  }

  /** The expense ("withdrawal") record of a transfer. */
  function ExpenseRecord(source: CategoryRef, target: CategoryRef, amount: int, description: string,
                         isSalary: Option<bool>, withdrawalId: Id): Txn
  {
    Txn(source.id, source.title, target.title, -amount, description, Expense, isSalary, withdrawalId)
  }

  /** The income ("deposit") record of a transfer, linked to the expense record by its id. */
  function IncomeRecord(source: CategoryRef, target: CategoryRef, amount: int, description: string,
                        isSalary: Option<bool>, withdrawalId: Id): Txn
  {
    Txn(target.id, source.title, target.title, amount, description, Income, isSalary, withdrawalId)
  }

  /**
   * The store after `transferFunds`, or the error it throws. Both balances are read
   * before any write; the target's balance is written last, so when source and
   * target are the same category the target's write is the one that remains.
   */
  function Transfer(s: Store, source: CategoryRef, target: CategoryRef, amount: int, description: string,
                    isSalary: Option<bool>, withdrawalId: Id, depositId: Id): Result<Store, TransferError>
  {
    if amount <= 0 then Failure(InvalidAmount)
    else if Trim(description) == [] then Failure(MissingDescription)
    else if source.id !in s.categories then Failure(SourceNotFound)
    else if target.id !in s.categories then Failure(TargetNotFound)
    else
      var sourceBalance := s.categories[source.id].balance;
      var targetBalance := s.categories[target.id].balance;
      var cats := s.categories[source.id := s.categories[source.id].(balance := sourceBalance - amount)];
      var cats' := cats[target.id := cats[target.id].(balance := targetBalance + amount)];
      var txns := s.transactions[withdrawalId := ExpenseRecord(source, target, amount, description, isSalary, withdrawalId)];
      var txns' := txns[depositId := IncomeRecord(source, target, amount, description, isSalary, withdrawalId)];
      Success(Store(cats', txns'))
  }

  // ---------------------------------------------------------------- deleteTransaction

  /** Why a deletion is refused: no id given, or the generic failure every later error becomes. */
  datatype DeleteError = MissingTransactionId | DeleteFailed

  /** The records whose `relatedTransactionId` is `rel` (the query on that field). */
  function LinkedTo(txns: map<Id, Txn>, rel: Id): set<Id> {
    set k | k in txns && txns[k].relatedId == rel
  }

  /** The ids a deletion of `id` removes: the record and, when it has a link, every record sharing it. */
  function Doomed(txns: map<Id, Txn>, id: Id): set<Id>
    requires id in txns
  {
    var rel := txns[id].relatedId;
    {id} + (if rel == "" then {} else LinkedTo(txns, rel))
  }

  /** The balance of `t`'s own category with `t`'s effect undone; no other category is touched. */
  function Reversal(cats: map<Id, Category>, t: Txn): map<Id, Category> {
    if t.categoryId != "" && t.categoryId in cats then
      var current := cats[t.categoryId].balance;
      var restored := if t.kind == Expense then current + Abs(t.amount) else current - t.amount;
      cats[t.categoryId := cats[t.categoryId].(balance := restored)]
    else cats
  }

  /** The store after `deleteTransaction(id)`, or the error it throws. */
  function Delete(s: Store, id: Id): Result<Store, DeleteError> {
    if id == "" then Failure(MissingTransactionId)
    else if id !in s.transactions then Failure(DeleteFailed)
    else
      var t := s.transactions[id];
      Success(Store(Reversal(s.categories, t), s.transactions - Doomed(s.transactions, id)))
  }

  /** A transfer neither adds nor removes a category. */
  lemma TransferKeepsCategoryIds(s: Store, source: CategoryRef, target: CategoryRef, amount: int, description: string,
                                 isSalary: Option<bool>, withdrawalId: Id, depositId: Id)
    ensures var r := Transfer(s, source, target, amount, description, isSalary, withdrawalId, depositId);
      r.Success? ==> r.value.categories.Keys == s.categories.Keys
  {
  }

  /** A deletion neither adds nor removes a category. */
  lemma DeleteKeepsCategoryIds(s: Store, id: Id)
    ensures Delete(s, id).Success? ==> Delete(s, id).value.categories.Keys == s.categories.Keys
  {
  }

  // ---------------------------------------------------------------- the store object

  /** The shared store that both operations update in place. */
  class Ledger {
    var categories: map<Id, Category>
    var transactions: map<Id, Txn>

    function State(): Store
      reads this
    {
      Store(categories, transactions)
    }

    /** The store is well formed. */
    predicate Valid()
      reads this
    {
      WellFormed(State())
    }

    constructor (initial: Store)
      requires WellFormed(initial)
      ensures State() == initial && Valid()
    {
      categories := initial.categories;
      transactions := initial.transactions;
    }

    /** Writes every staged write of `batch` together. */
    method CommitBatch(batch: seq<Write>)
      modifies this
      ensures State() == Commit(old(State()), batch)
    {
      var s := Commit(State(), batch);
      categories, transactions := s.categories, s.transactions;
    }

    /**
     * `transferFunds`: validate, read both balances, stage the expense record, the
     * income record and the two balance updates, then commit them together.
     * `withdrawalId` and `depositId` are the ids the store generates for the new records.
     */
    method TransferFunds(source: CategoryRef, target: CategoryRef, amount: int, description: string,
                         isSalary: Option<bool>, withdrawalId: Id, depositId: Id)
      returns (r: Outcome<TransferError>)
      requires Valid() && FreshIds(State(), withdrawalId, depositId)
      modifies this
      ensures Valid()
      ensures match Transfer(old(State()), source, target, amount, description, isSalary, withdrawalId, depositId)
        case Success(s') => r == Pass && State() == s'
        case Failure(e) => r == Fail(e) && State() == old(State())
    {
      if amount <= 0 {
        return Fail(InvalidAmount);
      }
      if Trim(description) == [] {
        return Fail(MissingDescription);
      }
      if source.id !in categories {
        return Fail(SourceNotFound);
      }
      if target.id !in categories {
        return Fail(TargetNotFound);
      }
      var sourceBalance := categories[source.id].balance;
      var targetBalance := categories[target.id].balance;
      var s0 := State();
      var expense := ExpenseRecord(source, target, amount, description, isSalary, withdrawalId);
      var income := IncomeRecord(source, target, amount, description, isSalary, withdrawalId);
      var batch: seq<Write> := [SetTxn(withdrawalId, expense)];
      assert batch[..0] == [];
      var txns := transactions[withdrawalId := expense][depositId := income];
      CommitAppend(s0, batch, SetTxn(depositId, income));
      batch := batch + [SetTxn(depositId, income)];
      assert Commit(s0, batch) == Store(categories, txns);
      var cats := categories[source.id := categories[source.id].(balance := sourceBalance - amount)];
      CommitAppend(s0, batch, UpdateBalance(source.id, sourceBalance - amount));
      batch := batch + [UpdateBalance(source.id, sourceBalance - amount)];
      assert Commit(s0, batch) == Store(cats, txns);
      var cats' := cats[target.id := cats[target.id].(balance := targetBalance + amount)];
      CommitAppend(s0, batch, UpdateBalance(target.id, targetBalance + amount));
      batch := batch + [UpdateBalance(target.id, targetBalance + amount)];
      assert Commit(s0, batch) == Store(cats', txns);
      TransferKeepsCategoryIds(s0, source, target, amount, description, isSalary, withdrawalId, depositId);
      CommitBatch(batch);
      r := Pass;
    }

    /**
     * `deleteTransaction`: stage the deletion of the record, then of every other
     * record the link query returns, then the reversal of the record's effect on
     * its own category, and commit the batch.
     */
    method DeleteTransaction(transactionId: Id) returns (r: Outcome<DeleteError>)
      requires Valid()
      modifies this
      ensures Valid()
      ensures match Delete(old(State()), transactionId)
        case Success(s') => r == Pass && State() == s'
        case Failure(e) => r == Fail(e) && State() == old(State())
    {
      if transactionId == "" {
        return Fail(MissingTransactionId);
      }
      if transactionId !in transactions {
        return Fail(DeleteFailed);
      }
      var s0 := State();
      var data := transactions[transactionId];
      var batch := [DeleteTxn(transactionId)];
      var removed: set<Id> := {transactionId};
      assert batch[..0] == [];
      if data.relatedId != "" {
        var docs := LinkedTo(transactions, data.relatedId);
        var pending := docs;
        while pending != {}
          invariant pending <= docs
          invariant removed == {transactionId} + (docs - pending)
          invariant State() == s0
          invariant Commit(s0, batch) == Store(categories, transactions - removed)
          decreases pending
        {
          var k :| k in pending;
          if k != transactionId {
            CommitAppend(s0, batch, DeleteTxn(k));
            batch := batch + [DeleteTxn(k)];
          }
          removed := removed + {k};
          pending := pending - {k};
        }
      }
      assert State() == s0 && removed == Doomed(s0.transactions, transactionId);
      if data.categoryId != "" && data.categoryId in categories {
        var currentAmount := categories[data.categoryId].balance;
        var newAmount := if data.kind == Expense then currentAmount + Abs(data.amount) else currentAmount - data.amount;
        CommitAppend(s0, batch, UpdateBalance(data.categoryId, newAmount));
        batch := batch + [UpdateBalance(data.categoryId, newAmount)];
      }
      DeleteKeepsCategoryIds(s0, transactionId);
      CommitBatch(batch);
      r := Pass;
    }
  }
}

/**
 * What the ledger's two operations guarantee, and what they do not: validation
 * and atomicity, the balance movement of a transfer, the paired records it writes,
 * the records a deletion removes, the single balance it restores, and the effect
 * of both on two invariants: that a balance is the signed sum of its category's
 * records, and that linked records come in cancelling pairs.
 */
module TransactionFacts {
  import opened Wrappers
  import opened JsText
  import opened Transactions

  // ---------------------------------------------------------------- transfer

  /** A transfer fails exactly when one of its four checks fails, with the error of the first failing one. */
  lemma TransferValidation(s: Store, source: CategoryRef, target: CategoryRef, amount: int, description: string,
                           isSalary: Option<bool>, withdrawalId: Id, depositId: Id)
    ensures var r := Transfer(s, source, target, amount, description, isSalary, withdrawalId, depositId);
      && (r.Failure? <==> amount <= 0 || IsBlank(description) || source.id !in s.categories || target.id !in s.categories)
      && (amount <= 0 ==> r == Failure(InvalidAmount))
      && (amount > 0 && IsBlank(description) ==> r == Failure(MissingDescription))
      && (amount > 0 && !IsBlank(description) && source.id !in s.categories ==> r == Failure(SourceNotFound))
      && (amount > 0 && !IsBlank(description) && source.id in s.categories && target.id !in s.categories
          ==> r == Failure(TargetNotFound))
  {
    TrimEmptyIffBlank(description);
  }

  /** The two maps a successful transfer leaves behind. */
  lemma TransferShape(s: Store, source: CategoryRef, target: CategoryRef, amount: int, description: string,
                      isSalary: Option<bool>, withdrawalId: Id, depositId: Id, s': Store)
    requires Transfer(s, source, target, amount, description, isSalary, withdrawalId, depositId) == Success(s')
    ensures amount > 0 && source.id in s.categories && target.id in s.categories
    ensures s'.transactions
         == s.transactions[withdrawalId := ExpenseRecord(source, target, amount, description, isSalary, withdrawalId)]
                          [depositId := IncomeRecord(source, target, amount, description, isSalary, withdrawalId)]
    ensures var cats := s.categories[source.id := s.categories[source.id].(balance := s.categories[source.id].balance - amount)];
      s'.categories == cats[target.id := cats[target.id].(balance := s.categories[target.id].balance + amount)]
  {
  }

  /**
   * A successful transfer changes only the balances of the source and the target.
   * For two distinct categories the source loses `amount`, the target gains it and
   * their sum is preserved; for a self-transfer the target's write is the one that
   * remains, so the category gains `amount`.
   */
  lemma TransferMovesFunds(s: Store, source: CategoryRef, target: CategoryRef, amount: int, description: string,
                           isSalary: Option<bool>, withdrawalId: Id, depositId: Id, s': Store)
    requires Transfer(s, source, target, amount, description, isSalary, withdrawalId, depositId) == Success(s')
    ensures amount > 0 && s'.categories.Keys == s.categories.Keys
    ensures forall c :: c in s.categories ==> s'.categories[c].title == s.categories[c].title
    ensures forall c :: c in s.categories && c != source.id && c != target.id ==> s'.categories[c] == s.categories[c]
    ensures source.id != target.id ==>
      && s'.categories[source.id].balance == s.categories[source.id].balance - amount
      && s'.categories[target.id].balance == s.categories[target.id].balance + amount
      && s'.categories[source.id].balance + s'.categories[target.id].balance
         == s.categories[source.id].balance + s.categories[target.id].balance
    ensures source.id == target.id ==>
      s'.categories[source.id].balance == s.categories[source.id].balance + amount
  {
    TransferShape(s, source, target, amount, description, isSalary, withdrawalId, depositId, s');
  }

  /** A successful transfer adds exactly two records, under the fresh ids, and keeps every old record. */
  lemma TransferAddsTwoRecords(s: Store, source: CategoryRef, target: CategoryRef, amount: int, description: string,
                               isSalary: Option<bool>, withdrawalId: Id, depositId: Id, s': Store)
    requires FreshIds(s, withdrawalId, depositId)
    requires Transfer(s, source, target, amount, description, isSalary, withdrawalId, depositId) == Success(s')
    ensures s'.transactions.Keys == s.transactions.Keys + {withdrawalId, depositId}
    ensures |s'.transactions| == |s.transactions| + 2
    ensures forall k :: k in s.transactions ==> s'.transactions[k] == s.transactions[k]
  {
    TransferShape(s, source, target, amount, description, isSalary, withdrawalId, depositId, s');
    var txns := s.transactions[withdrawalId := ExpenseRecord(source, target, amount, description, isSalary, withdrawalId)];
    assert |txns| == |s.transactions| + 1;
    assert |s'.transactions| == |txns| + 1;
  }

  /**
   * The two new records: an expense of `-amount` on the source and an income of
   * `amount` on the target, both carrying the caller's titles, description and salary
   * flag and the expense's id as their link.
   */
  lemma TransferWritesPair(s: Store, source: CategoryRef, target: CategoryRef, amount: int, description: string,
                           isSalary: Option<bool>, withdrawalId: Id, depositId: Id, s': Store)
    requires FreshIds(s, withdrawalId, depositId)
    requires Transfer(s, source, target, amount, description, isSalary, withdrawalId, depositId) == Success(s')
    ensures withdrawalId in s'.transactions && depositId in s'.transactions
    ensures var e := s'.transactions[withdrawalId];
      && e.amount == -amount && e.kind == Expense && e.categoryId == source.id && e.relatedId == withdrawalId
      && e.fromUser == source.title && e.toUser == target.title
      && e.description == description && e.isSalary == isSalary
    ensures var i := s'.transactions[depositId];
      && i.amount == amount && i.kind == Income && i.categoryId == target.id && i.relatedId == withdrawalId
      && i.fromUser == source.title && i.toUser == target.title
      && i.description == description && i.isSalary == isSalary
  {
    TransferShape(s, source, target, amount, description, isSalary, withdrawalId, depositId, s');
  }

  /** After a transfer, the two new records are the only ones linked to the expense's id. */
  lemma TransferLinksPair(s: Store, source: CategoryRef, target: CategoryRef, amount: int, description: string,
                          isSalary: Option<bool>, withdrawalId: Id, depositId: Id, s': Store)
    requires FreshIds(s, withdrawalId, depositId)
    requires Transfer(s, source, target, amount, description, isSalary, withdrawalId, depositId) == Success(s')
    ensures LinkedTo(s'.transactions, withdrawalId) == {withdrawalId, depositId}
    ensures s'.transactions[withdrawalId].amount + s'.transactions[depositId].amount == 0
  {
    TransferShape(s, source, target, amount, description, isSalary, withdrawalId, depositId, s');
    forall k ensures k in LinkedTo(s'.transactions, withdrawalId) <==> k == withdrawalId || k == depositId {
      if k in s.transactions {
        assert s'.transactions[k] == s.transactions[k];
      }
    }
  }

  // ---------------------------------------------------------------- delete

  /** A deletion fails exactly for an empty id (its own error) or an id not in the store (the generic one). */
  lemma DeleteValidation(s: Store, id: Id)
    ensures var r := Delete(s, id);
      && (r.Failure? <==> id == "" || id !in s.transactions)
      && (id == "" ==> r == Failure(MissingTransactionId))
      && (id != "" && id !in s.transactions ==> r == Failure(DeleteFailed))
  {
  }

  /**
   * A deletion removes the record and every record sharing its non-empty link, and
   * nothing else; a record without a link is removed alone.
   */
  lemma DeleteRemovesLinked(s: Store, id: Id)
    requires Delete(s, id).Success?
    ensures var s' := Delete(s, id).value; var rel := s.transactions[id].relatedId;
      && (forall k :: k in s'.transactions <==>
            k in s.transactions && k != id && (rel == "" || s.transactions[k].relatedId != rel))
      && (forall k :: k in s'.transactions ==> s'.transactions[k] == s.transactions[k])
      && (rel == "" ==> s'.transactions == s.transactions - {id})
  {
  }

  /**
   * A deletion changes at most one balance, that of the deleted record's own category,
   * and only when that category is named and exists: an expense gives back its absolute
   * amount, any other record takes its amount away.
   */
  lemma DeleteReversesOwnCategory(s: Store, id: Id)
    requires Delete(s, id).Success?
    ensures var s' := Delete(s, id).value; var t := s.transactions[id]; var c := t.categoryId;
      && s'.categories.Keys == s.categories.Keys
      && (forall x :: x in s.categories ==> s'.categories[x].title == s.categories[x].title)
      && (forall x :: x in s.categories && x != c ==> s'.categories[x] == s.categories[x])
      && (c == "" || c !in s.categories ==> s'.categories == s.categories)
      && (c != "" && c in s.categories ==>
            s'.categories[c].balance ==
              if t.kind == Expense then s.categories[c].balance + Abs(t.amount)
              else s.categories[c].balance - t.amount)
  {
  }

  // ---------------------------------------------------------------- transfer, then delete

  /** Deleting either record of a fresh transfer removes exactly the pair. */
  lemma {:induction false} TransferPairDoomed(s: Store, source: CategoryRef, target: CategoryRef, amount: int,
                                              description: string, isSalary: Option<bool>, withdrawalId: Id,
                                              depositId: Id, s1: Store)
    requires FreshIds(s, withdrawalId, depositId)
    requires Transfer(s, source, target, amount, description, isSalary, withdrawalId, depositId) == Success(s1)
    ensures withdrawalId in s1.transactions && depositId in s1.transactions
    ensures Doomed(s1.transactions, withdrawalId) == Doomed(s1.transactions, depositId) == {withdrawalId, depositId}
    ensures s1.transactions - {withdrawalId, depositId} == s.transactions
  {
    TransferShape(s, source, target, amount, description, isSalary, withdrawalId, depositId, s1);
    TransferLinksPair(s, source, target, amount, description, isSalary, withdrawalId, depositId, s1);
    assert s1.transactions - {withdrawalId, depositId} == s.transactions;
  }

  /**
   * Deleting the expense record of a transfer between two categories removes both
   * records and restores the source's balance, but leaves the target's balance
   * raised by `amount`: only one side is reversed.
   */
  lemma {:induction false} TransferThenDeleteExpense(s: Store, source: CategoryRef, target: CategoryRef, amount: int,
                                                     description: string, isSalary: Option<bool>, withdrawalId: Id,
                                                     depositId: Id, s1: Store)
    requires WellFormed(s) && source.id != target.id
    requires FreshIds(s, withdrawalId, depositId)
    requires Transfer(s, source, target, amount, description, isSalary, withdrawalId, depositId) == Success(s1)
    ensures Delete(s1, withdrawalId) == Success(Store(s.categories[target.id := s1.categories[target.id]], s.transactions))
    ensures s1.categories[target.id].balance == s.categories[target.id].balance + amount
  {
    TransferPairDoomed(s, source, target, amount, description, isSalary, withdrawalId, depositId, s1);
    var e := s1.transactions[withdrawalId];
    assert Reversal(s1.categories, e) == s.categories[target.id := s1.categories[target.id]] by {
      TransferMovesFunds(s, source, target, amount, description, isSalary, withdrawalId, depositId, s1);
      assert e == ExpenseRecord(source, target, amount, description, isSalary, withdrawalId);
      assert source.id != "" && source.id in s1.categories;
      var restored := s1.categories[source.id].balance + Abs(e.amount);
      assert restored == s.categories[source.id].balance;
      assert s1.categories[source.id].(balance := restored) == s.categories[source.id];
    }
  }

  /**
   * Deleting the income record of a transfer between two categories removes both
   * records and restores the target's balance, but leaves the source's balance
   * lowered by `amount`.
   */
  lemma {:induction false} TransferThenDeleteIncome(s: Store, source: CategoryRef, target: CategoryRef, amount: int,
                                                    description: string, isSalary: Option<bool>, withdrawalId: Id,
                                                    depositId: Id, s1: Store)
    requires WellFormed(s) && source.id != target.id
    requires FreshIds(s, withdrawalId, depositId)
    requires Transfer(s, source, target, amount, description, isSalary, withdrawalId, depositId) == Success(s1)
    ensures Delete(s1, depositId) == Success(Store(s.categories[source.id := s1.categories[source.id]], s.transactions))
    ensures s1.categories[source.id].balance == s.categories[source.id].balance - amount
  {
    TransferPairDoomed(s, source, target, amount, description, isSalary, withdrawalId, depositId, s1);
    var i := s1.transactions[depositId];
    assert Reversal(s1.categories, i) == s.categories[source.id := s1.categories[source.id]] by {
      TransferMovesFunds(s, source, target, amount, description, isSalary, withdrawalId, depositId, s1);
      assert i == IncomeRecord(source, target, amount, description, isSalary, withdrawalId);
      assert target.id != "" && target.id in s1.categories;
      var restored := s1.categories[target.id].balance - i.amount;
      assert restored == s.categories[target.id].balance;
      assert s1.categories[target.id].(balance := restored) == s.categories[target.id];
    }
  }

  // ---------------------------------------------------------------- balance consistency

  /** What a record contributes to category `c`'s balance. */
  function Contribution(t: Txn, c: Id): int {
    if t.categoryId == c then t.amount else 0
  }

  /** The signed sum of the amounts of the records on category `c`. */
  ghost function LedgerSum(txns: map<Id, Txn>, c: Id): int
    decreases |txns|
  {
    if txns == map[] then 0
    else
      var k :| k in txns;
      assert (txns - {k}).Keys == txns.Keys - {k};
      Contribution(txns[k], c) + LedgerSum(txns - {k}, c)
  }

  /** Every category's cached balance equals the signed sum of its records. */
  ghost predicate Consistent(s: Store) {
    forall c :: c in s.categories ==> s.categories[c].balance == LedgerSum(s.transactions, c)
  }

  /** The sum can be split at any record, not only at the one the definition picks. */
  lemma {:induction false} LedgerSumRemove(txns: map<Id, Txn>, k: Id, c: Id)
    requires k in txns
    ensures LedgerSum(txns, c) == Contribution(txns[k], c) + LedgerSum(txns - {k}, c)
    decreases |txns|
  {
    var j :| j in txns && LedgerSum(txns, c) == Contribution(txns[j], c) + LedgerSum(txns - {j}, c);
    if j != k {
      assert (txns - {j}).Keys == txns.Keys - {j};
      assert (txns - {k}).Keys == txns.Keys - {k};
      LedgerSumRemove(txns - {j}, k, c);
      LedgerSumRemove(txns - {k}, j, c);
      assert txns - {j} - {k} == txns - {k} - {j};
    }
  }

  /** Adding a record under a new id adds its contribution to the sum. */
  lemma LedgerSumInsert(txns: map<Id, Txn>, k: Id, t: Txn, c: Id)
    requires k !in txns
    ensures LedgerSum(txns[k := t], c) == Contribution(t, c) + LedgerSum(txns, c)
  {
    LedgerSumRemove(txns[k := t], k, c);
    assert txns[k := t] - {k} == txns;
  }

  /** A transfer between two distinct categories keeps every balance equal to the sum of its records. */
  lemma TransferPreservesConsistency(s: Store, source: CategoryRef, target: CategoryRef, amount: int,
                                     description: string, isSalary: Option<bool>, withdrawalId: Id, depositId: Id,
                                     s': Store)
    requires Consistent(s) && source.id != target.id
    requires FreshIds(s, withdrawalId, depositId)
    requires Transfer(s, source, target, amount, description, isSalary, withdrawalId, depositId) == Success(s')
    ensures Consistent(s')
  {
    TransferShape(s, source, target, amount, description, isSalary, withdrawalId, depositId, s');
    var e := ExpenseRecord(source, target, amount, description, isSalary, withdrawalId);
    var i := IncomeRecord(source, target, amount, description, isSalary, withdrawalId);
    forall c | c in s'.categories
      ensures s'.categories[c].balance == LedgerSum(s'.transactions, c)
    {
      LedgerSumInsert(s.transactions, withdrawalId, e, c);
      LedgerSumInsert(s.transactions[withdrawalId := e], depositId, i, c);
    }
  }

  /**
   * A self-transfer of a positive amount breaks consistency: the two records cancel
   * out in the category's sum, while its balance ends `amount` higher.
   */
  lemma SelfTransferBreaksConsistency(s: Store, source: CategoryRef, target: CategoryRef, amount: int,
                                      description: string, isSalary: Option<bool>, withdrawalId: Id, depositId: Id,
                                      s': Store)
    requires Consistent(s) && source.id == target.id
    requires FreshIds(s, withdrawalId, depositId)
    requires Transfer(s, source, target, amount, description, isSalary, withdrawalId, depositId) == Success(s')
    ensures s'.categories[source.id].balance == LedgerSum(s'.transactions, source.id) + amount
    ensures !Consistent(s')
  {
    TransferShape(s, source, target, amount, description, isSalary, withdrawalId, depositId, s');
    var e := ExpenseRecord(source, target, amount, description, isSalary, withdrawalId);
    var i := IncomeRecord(source, target, amount, description, isSalary, withdrawalId);
    LedgerSumInsert(s.transactions, withdrawalId, e, source.id);
    LedgerSumInsert(s.transactions[withdrawalId := e], depositId, i, source.id);
  }

  /**
   * Reversing a transfer by deleting its expense record leaves the target's balance
   * `amount` above the sum of its records: the one-sided reversal breaks consistency.
   */
  lemma TransferThenDeleteBreaksConsistency(s: Store, source: CategoryRef, target: CategoryRef, amount: int,
                                            description: string, isSalary: Option<bool>, withdrawalId: Id,
                                            depositId: Id, s1: Store)
    requires Consistent(s) && WellFormed(s) && source.id != target.id
    requires FreshIds(s, withdrawalId, depositId)
    requires Transfer(s, source, target, amount, description, isSalary, withdrawalId, depositId) == Success(s1)
    ensures Consistent(s1)
    ensures Delete(s1, withdrawalId).Success?
    ensures var s2 := Delete(s1, withdrawalId).value;
      && s2.categories[target.id].balance == LedgerSum(s2.transactions, target.id) + amount
      && !Consistent(s2)
  {
    TransferPreservesConsistency(s, source, target, amount, description, isSalary, withdrawalId, depositId, s1);
    TransferThenDeleteExpense(s, source, target, amount, description, isSalary, withdrawalId, depositId, s1);
  }

  // ---------------------------------------------------------------- pairing

  /** `j` is the one other record sharing `k`'s link, and the two amounts cancel. */
  predicate PartnerOf(txns: map<Id, Txn>, k: Id, j: Id)
    requires k in txns
  {
    && j in txns && j != k
    && LinkedTo(txns, txns[k].relatedId) == {k, j}
    && txns[j].amount == -txns[k].amount
  }

  /** Some record is `k`'s partner. */
  ghost predicate HasPartner(txns: map<Id, Txn>, k: Id)
    requires k in txns
  {
    exists j :: PartnerOf(txns, k, j)
  }

  /** Every linked record has exactly one partner: the other side of its transfer. */
  ghost predicate AllPaired(txns: map<Id, Txn>) {
    forall k :: k in txns && txns[k].relatedId != "" ==> HasPartner(txns, k)
  }

  /** The pairing invariant of a store. */
  ghost predicate Paired(s: Store) {
    AllPaired(s.transactions)
  }

  lemma InsertKeepsPartner(txns: map<Id, Txn>, m: Id, t: Txn, k: Id, j: Id)
    requires k in txns && PartnerOf(txns, k, j)
    requires m !in txns && t.relatedId != txns[k].relatedId
    ensures k in txns[m := t] && PartnerOf(txns[m := t], k, j)
  {
    assert LinkedTo(txns[m := t], txns[k].relatedId) == LinkedTo(txns, txns[k].relatedId);
  }

  lemma RemoveKeepsPartner(txns: map<Id, Txn>, gone: set<Id>, k: Id, j: Id)
    requires k in txns && PartnerOf(txns, k, j) && k !in gone && j !in gone
    ensures k in txns - gone && PartnerOf(txns - gone, k, j)
  {
    assert LinkedTo(txns - gone, txns[k].relatedId) == LinkedTo(txns, txns[k].relatedId) - gone;
  }

  /** The facts a new transfer record's pair needs: two fresh ids carrying a link nobody else uses. */
  predicate FreshPair(txns: map<Id, Txn>, w: Id, e: Txn, d: Id, i: Txn) {
    && w != "" && w != d && w !in txns && d !in txns
    && (forall k :: k in txns ==> txns[k].relatedId != w)
    && e.relatedId == w && i.relatedId == w && i.amount == -e.amount
  }

  /** The two new records are each other's partners. */
  lemma NewPairPartners(txns: map<Id, Txn>, w: Id, e: Txn, d: Id, i: Txn, after: map<Id, Txn>)
    requires FreshPair(txns, w, e, d, i) && after == txns[w := e][d := i]
    ensures w in after && PartnerOf(after, w, d)
    ensures d in after && PartnerOf(after, d, w)
  {
    assert LinkedTo(after, w) == {w, d};
  }

  lemma AddPairPartner(txns: map<Id, Txn>, w: Id, e: Txn, d: Id, i: Txn, after: map<Id, Txn>, k: Id)
    requires AllPaired(txns) && FreshPair(txns, w, e, d, i) && after == txns[w := e][d := i]
    requires k in after && after[k].relatedId != ""
    ensures HasPartner(after, k)
  {
    if k == w || k == d {
      NewPairPartners(txns, w, e, d, i, after);
    } else {
      assert HasPartner(txns, k);
      var j :| PartnerOf(txns, k, j);
      InsertKeepsPartner(txns, w, e, k, j);
      InsertKeepsPartner(txns[w := e], d, i, k, j);
    }
  }

  /** Adding two fresh records that share a fresh link and cancel keeps every record paired. */
  lemma AddPairKeepsPaired(txns: map<Id, Txn>, w: Id, e: Txn, d: Id, i: Txn)
    requires AllPaired(txns) && FreshPair(txns, w, e, d, i)
    ensures AllPaired(txns[w := e][d := i])
  {
    var after := txns[w := e][d := i];
    forall k | k in after && after[k].relatedId != ""
      ensures HasPartner(after, k)
    {
      AddPairPartner(txns, w, e, d, i, after, k);
    }
  }

  /** The records a deletion removes are closed under partnership. */
  lemma DoomedClosed(txns: map<Id, Txn>, id: Id, k: Id, j: Id)
    requires id in txns && k in txns && txns[k].relatedId != "" && PartnerOf(txns, k, j)
    ensures j in Doomed(txns, id) ==> k in Doomed(txns, id)
  {
    var rk := txns[k].relatedId;
    var rel := txns[id].relatedId;
    assert j in LinkedTo(txns, rk) && k in LinkedTo(txns, rk);
    if j == id || (rel != "" && j in LinkedTo(txns, rel)) {
      assert rel == rk;
    }
  }

  lemma RemoveLinkedPartner(txns: map<Id, Txn>, id: Id, gone: set<Id>, k: Id)
    requires AllPaired(txns) && id in txns && gone == Doomed(txns, id)
    requires k in txns && k !in gone && txns[k].relatedId != ""
    ensures k in txns - gone && HasPartner(txns - gone, k)
  {
    assert HasPartner(txns, k);
    var j :| PartnerOf(txns, k, j);
    DoomedClosed(txns, id, k, j);
    RemoveKeepsPartner(txns, gone, k, j);
  }

  /** Removing a record together with every record sharing its link keeps every survivor paired. */
  lemma RemoveLinkedKeepsPaired(txns: map<Id, Txn>, id: Id)
    requires AllPaired(txns) && id in txns
    ensures AllPaired(txns - Doomed(txns, id))
  {
    var gone := Doomed(txns, id);
    var after := txns - gone;
    forall k | k in after && after[k].relatedId != ""
      ensures HasPartner(after, k)
    {
      RemoveLinkedPartner(txns, id, gone, k);
    }
  }

  /** A transfer keeps every linked record paired, and the two new records are partners. */
  lemma TransferPreservesPairing(s: Store, source: CategoryRef, target: CategoryRef, amount: int,
                                 description: string, isSalary: Option<bool>, withdrawalId: Id,
                                 depositId: Id, s': Store)
    requires Paired(s) && FreshIds(s, withdrawalId, depositId)
    requires Transfer(s, source, target, amount, description, isSalary, withdrawalId, depositId) == Success(s')
    ensures Paired(s')
  {
    TransferShape(s, source, target, amount, description, isSalary, withdrawalId, depositId, s');
    AddPairKeepsPaired(s.transactions,
                       withdrawalId, ExpenseRecord(source, target, amount, description, isSalary, withdrawalId),
                       depositId, IncomeRecord(source, target, amount, description, isSalary, withdrawalId));
  }

  /** A deletion removes whole pairs only, so every record left behind keeps its partner. */
  lemma DeletePreservesPairing(s: Store, id: Id)
    requires Paired(s) && Delete(s, id).Success?
    ensures Paired(Delete(s, id).value)
  {
    RemoveLinkedKeepsPaired(s.transactions, id);
  }
}

# Ledger transfers and the category feed: a Dafny model

This project models two parts of a small bookkeeping web application. Categories are cards with a cached balance. Transactions are records, each booked on one category.

- **The ledger store** (`src/lib/firebase/transactions.ts`).
  - The store holds two collections: categories (title and balance) and transactions (category id, from/to user, amount, description, type, salary flag, related-transaction id).
  - `transferFunds` validates its inputs and reads both balances. It then writes four things as one atomic step: an expense record on the source, an income record on the target linked to the expense's id, and the two new balances.
  - `deleteTransaction` deletes a record together with every record that shares its related-transaction id. It then undoes the deleted record's effect on that record's own category.
  - The model is the class `Transactions.Ledger`, which holds two maps. Each method stages its writes in a batch (`seq<Write>`) and commits them together. Each method is proved equal to a specification function, `Transfer` or `Delete`. The lemmas in `TransactionFacts` state what those functions guarantee.
- **The category feed's state updater** (`src/hooks/useCategories.ts`).
  - Each batch of document changes (`added`, `modified`, `removed`) is merged into a copy of the previous list. A change appends, replaces or splices a card, found by id.
  - A card is built from its document with defaults filled in.
  - When something changed, or on the first batch, the merged list is stably sorted by row and becomes the visible list. Otherwise the previous list is kept.
  - The model is `UseCategories.MergeChanges`, a loop proved equal to the fold `Categories.Merge`, and the class `UseCategories.CategoryFeed`. The lemmas in `Categories` state what a change, a batch and the sort do.
- `JsText` models the two ECMAScript primitives the code relies on:
  - `String.prototype.trim`, which rejects blank transfer comments;
  - global `parseInt` with no radix, which reads a card's row.

## Design decisions

- **Amounts.** Amounts and balances are integers in minor currency units. The amount text codec of the application is not part of this model.
- **Generated ids.** The two record ids that the store generates are parameters of `TransferFunds`. Its precondition `FreshIds` says what the generator provides: the ids are non-empty, distinct and unused, and no record links to the new expense id yet.
- **Absent fields.** An absent related-transaction id or category id is the empty string, since both are falsy in the code.
- **No category under the empty id.** The storage layer cannot hold a document whose id is empty. `Transactions.Ledger.Valid` states this of the store; the constructor establishes it, and both operations require and keep it. A transfer naming the empty category id is therefore refused as "not found", where the code fails earlier with the storage layer's path error; either way nothing is written.
- **Empty id in `deleteTransaction`.** The code tests for an empty id before its `try` block. That error therefore escapes with its own message instead of being turned into the generic failure. Only the later errors become the generic failure. The model has two error kinds to match: `MissingTransactionId` for the empty id, and `DeleteFailed` for everything later.
- **Self-transfer.** A transfer from a category to itself is modelled as the code behaves. Both balances are read before any write, and the target's balance is written last. The category therefore ends `amount` higher while two records that cancel out are added (`TransferMovesFunds`, `SelfTransferBreaksConsistency`).
- **One-sided reversal.** Deleting either record of a transfer removes both records but restores only the deleted record's own category. The other category keeps its changed balance (`TransferThenDeleteExpense`, `TransferThenDeleteIncome`, `TransferThenDeleteBreaksConsistency`).
- **Consistency.** "Consistent" means that every category's balance equals the sum of the signed amounts of the records booked on it. Each record counts with its stored amount, whatever its type; a transfer's expense record stores a negative amount.
- **Pairing.** "Paired" means that every record with a non-empty related-transaction id shares that id with exactly one other record, its partner, and that the two amounts cancel. A transfer creates such a pair, and a deletion removes whole pairs only, so both operations keep the store paired.
- **Row of a card.** The row is the field's text parsed by `parseInt`, or 1 when that gives NaN or 0. An absent field converts to the text `undefined`, which parses to NaN, so its row is 1.
- **Sort key.** The sort comparator substitutes 0 for a falsy row, but a row is never 0, so the key is the row itself.
- **Stable sort.** The sort is stable as ECMAScript requires. It is modelled as an insertion sort that places each card before the first card whose row is not smaller.

## Model

| member | source | states |
|---|---|---|
| Transactions.Ledger.CommitBatch | src/lib/firebase/transactions.ts:137 | committing a batch applies all its staged writes in staging order, as one step |
| Transactions.Ledger.constructor | src/lib/firebase/transactions.ts:2 | the shared store handle starts with the given collections, and no category is stored under the empty id |
| Transactions.Transfer | src/lib/firebase/transactions.ts:13-76 | no contract of its own: its meaning is stated by `TransferValidation`, `TransferMovesFunds`, `TransferAddsTwoRecords`, `TransferWritesPair`, `TransferLinksPair`, `TransferKeepsCategoryIds` and `TransferPreservesConsistency` |
| Transactions.TransferKeepsCategoryIds | src/lib/firebase/transactions.ts:68-76 | a successful transfer keeps the set of category ids: it only updates the two categories it has read |
| Transactions.Doomed | src/lib/firebase/transactions.ts:102-116 | no contract of its own: `DeleteRemovesLinked` and `TransferPairDoomed` state which records a deletion removes |
| Transactions.Reversal | src/lib/firebase/transactions.ts:120-134 | no contract of its own: `DeleteReversesOwnCategory` states that only the record's own category changes, by the reversed amount |
| Transactions.Delete | src/lib/firebase/transactions.ts:84-141 | no contract of its own: its meaning is stated by `DeleteValidation`, `DeleteRemovesLinked`, `DeleteReversesOwnCategory`, `DeleteKeepsCategoryIds` and `TransferThenDeleteExpense` / `TransferThenDeleteIncome` |
| Transactions.DeleteKeepsCategoryIds | src/lib/firebase/transactions.ts:120-134 | a successful deletion keeps the set of category ids: it only updates a category that exists |
| Transactions.Ledger.TransferFunds | src/lib/firebase/transactions.ts:6-82 | on success the result is Pass and the new store is exactly the result of `Transfer`; on each refusal the result is that error and the store is unchanged |
| Transactions.Ledger.DeleteTransaction | src/lib/firebase/transactions.ts:84-142 | the loop over the linked records stages each deletion; on success the new store is exactly `Delete`'s result; on failure the result is the error and the store is unchanged |
| TransactionFacts.TransferValidation | src/lib/firebase/transactions.ts:13-35 | a transfer fails exactly when the amount is not positive, or the description is blank, or the source or target is missing; the error is the one for the first failing check, and each check has its own error |
| JsText.TrimEmptyIffBlank | src/lib/firebase/transactions.ts:17-19 | the trimmed description is empty exactly when it consists of ECMAScript white space only |
| JsText.TrimStartSpec | src/lib/firebase/transactions.ts:17 | leading trim drops a blank prefix and keeps a suffix that is empty or starts with a non-blank |
| JsText.TrimEndSpec | src/lib/firebase/transactions.ts:17 | trailing trim drops a blank suffix and keeps a prefix that is empty or ends with a non-blank |
| JsText.Trim | src/lib/firebase/transactions.ts:17 | no contract of its own: `TrimStartSpec`, `TrimEndSpec` and `TrimEmptyIffBlank` state what it removes |
| TransactionFacts.TransferMovesFunds | src/lib/firebase/transactions.ts:37-38 | keys and titles of categories are unchanged and every other category is unchanged; for distinct categories the source loses `amount`, the target gains it, and their sum is preserved; for a self-transfer the category gains `amount` |
| TransactionFacts.TransferAddsTwoRecords | src/lib/firebase/transactions.ts:40-66 | exactly two records are added, under the fresh ids, and every old record is kept |
| TransactionFacts.TransferWritesPair | src/lib/firebase/transactions.ts:43-66 | the expense has the source id, `-amount`, type expense and the link to its own id; the income has the target id, `+amount`, type income and the same link; both carry the source and target titles, the description and the salary flag |
| TransactionFacts.TransferLinksPair | src/lib/firebase/transactions.ts:52-65 | after a transfer exactly the two new records link to the expense's id, and their amounts sum to zero |
| TransactionFacts.DeleteValidation | src/lib/firebase/transactions.ts:84-96 | deletion fails exactly for an empty id (its own error) or an id that is not stored (the generic error) |
| TransactionFacts.DeleteRemovesLinked | src/lib/firebase/transactions.ts:98-116 | a deletion removes the record and every record with its non-empty link, and only those; without a link only the record goes |
| TransactionFacts.DeleteReversesOwnCategory | src/lib/firebase/transactions.ts:119-135 | only the record's own category can change, and only when that category exists: an expense adds back the absolute amount, any other record subtracts the amount |
| TransactionFacts.TransferPairDoomed | src/lib/firebase/transactions.ts:102-116 | deleting either record of a fresh transfer removes exactly the pair and leaves the old records |
| TransactionFacts.TransferThenDeleteExpense | src/lib/firebase/transactions.ts:120-134 | a transfer followed by deleting its expense record restores the source and all records; the target keeps the `amount` it gained |
| TransactionFacts.TransferThenDeleteIncome | src/lib/firebase/transactions.ts:120-134 | a transfer followed by deleting its income record restores the target and all records; the source keeps the `amount` it lost |
| TransactionFacts.TransferPreservesConsistency | src/lib/firebase/transactions.ts:43-76 | a transfer between distinct categories keeps every balance equal to the sum of its records |
| TransactionFacts.AddPairKeepsPaired | src/lib/firebase/transactions.ts:43-66 | adding two records under fresh ids that carry a link no other record uses, with amounts that cancel, keeps every linked record paired |
| TransactionFacts.TransferPreservesPairing | src/lib/firebase/transactions.ts:43-66 | a transfer on a paired store leaves the store paired: the new expense and income are each other's only partner, and every old pair is intact |
| TransactionFacts.DoomedClosed | src/lib/firebase/transactions.ts:98-116 | when a deletion removes a record's partner it also removes that record |
| TransactionFacts.RemoveLinkedKeepsPaired | src/lib/firebase/transactions.ts:98-116 | removing a record together with every record sharing its link keeps every surviving linked record paired |
| TransactionFacts.DeletePreservesPairing | src/lib/firebase/transactions.ts:98-116 | a successful deletion on a paired store leaves the store paired |
| TransactionFacts.SelfTransferBreaksConsistency | src/lib/firebase/transactions.ts:37-76 | a self-transfer leaves the balance `amount` above the sum of the category's records, so consistency is lost |
| TransactionFacts.TransferThenDeleteBreaksConsistency | src/lib/firebase/transactions.ts:120-134 | after a consistent transfer, deleting its expense record leaves the target `amount` above the sum of its records |
| Categories.RowOf | src/hooks/useCategories.ts:50 | the row is never 0, and an absent row is 1 |
| Categories.RowOfNumber | src/hooks/useCategories.ts:50 | a row stored as the number n reads as n, except that 0 reads as 1 |
| JsText.ParseIntOfIntText | src/hooks/useCategories.ts:50 | parsing the decimal text of an integer gives back that integer |
| JsText.ParseInt | src/hooks/useCategories.ts:50 | no contract of its own: `ParseIntOfIntText` states that it reads back the decimal text of every integer, and `RowOf` that an absent row, whose text `undefined` parses to NaN, gives 1 |
| JsText.LeadingDigits | src/hooks/useCategories.ts:50 | the result is the longest prefix made of digits of the radix |
| JsText.DecimalText | src/hooks/useCategories.ts:50 | the decimal text of a natural number is non-empty and all digits |
| Categories.BuildCard | src/hooks/useCategories.ts:40-52 | id, title, amount and icon name are taken from the document; the color is the document's when it is non-empty and `bg-emerald-500` otherwise; the row is `RowOf` of the document's row, so never 0; visibility is the document's flag and defaults to true |
| Categories.FindIndex | src/hooks/useCategories.ts:54 | -1 exactly when no card has the id; otherwise the first position holding it |
| Categories.StepAdded | src/hooks/useCategories.ts:56-58 | an `added` change appends its card exactly when its id is absent and reports a change; otherwise the list is unchanged |
| Categories.StepModified | src/hooks/useCategories.ts:59-64 | a `modified` change replaces the first card with its id and reports a change exactly when the new card differs; for an unknown id the list is unchanged |
| Categories.StepRemoved | src/hooks/useCategories.ts:65-67 | a `removed` change splices out the first card with its id and reports a change; for an unknown id the list is unchanged |
| Categories.StepIds | src/hooks/useCategories.ts:54-68 | additions add their id, modifications keep the ids, removals drop the id (exactly, on unique lists); unique ids stay unique |
| Categories.StepKeepsOthers | src/hooks/useCategories.ts:54-68 | a card whose id the change does not name is present after the change exactly when it was before |
| Categories.Step | src/hooks/useCategories.ts:37-68 | no contract of its own: `StepAdded`, `StepModified`, `StepRemoved`, `StepIds` and `StepKeepsOthers` state what one change does, and `UseCategories.ApplyChange` is proved equal to it |
| Categories.Merge | src/hooks/useCategories.ts:33-69 | no contract of its own: `MergeNoChange`, `MergeKeepsIdsUnique`, `MergeIds` and `MergeKeepsUntouched` state what a batch does, and `UseCategories.MergeChanges` is proved equal to it |
| Categories.MergeNoChange | src/hooks/useCategories.ts:72-76 | a batch that reports no change leaves the list as it was |
| Categories.MergeKeepsIdsUnique | src/hooks/useCategories.ts:36-69 | a batch applied to a list with unique ids gives a list with unique ids |
| Categories.MergeIds | src/hooks/useCategories.ts:36-69 | the ids afterwards include the old ones except removed ones, and are included in the old ones plus added ones |
| Categories.MergeKeepsUntouched | src/hooks/useCategories.ts:36-69 | a card whose id no change names is in the merged list exactly when it was in the previous one |
| Categories.InsertByRowPermutes | src/hooks/useCategories.ts:74 | inserting a card adds exactly that card to the multiset |
| Categories.InsertByRowSorted | src/hooks/useCategories.ts:74 | inserting into a row-sorted list keeps it row-sorted |
| Categories.InsertByRow | src/hooks/useCategories.ts:74 | no contract of its own: `InsertByRowPermutes`, `InsertByRowSorted`, `InsertByRowWithRow` and `InsertByRowIds` state what an insertion does |
| Categories.InsertByRowWithRow | src/hooks/useCategories.ts:74 | an insertion puts the card ahead of every card of its own row already in the list, and changes no other row |
| Categories.SortByRow | src/hooks/useCategories.ts:74 | no contract of its own: `SortByRowSortsAndPermutes`, `SortByRowStable` and `SortByRowIds` state what the sort does |
| Categories.SortByRowSortsAndPermutes | src/hooks/useCategories.ts:74 | the sort's result is sorted by row and is a permutation of its input |
| Categories.SortByRowStable | src/hooks/useCategories.ts:74 | the cards of each row keep their relative order |
| Categories.SortByRowIds | src/hooks/useCategories.ts:74 | the sort keeps the set of ids, and keeps them unique |
| UseCategories.ApplyChange | src/hooks/useCategories.ts:37-68 | the callback's push, index assignment or splice yields exactly the list of `Step`, and the flag becomes set exactly when it was set or `Step` reports a change |
| UseCategories.MergeChanges | src/hooks/useCategories.ts:33-69 | the loop of push, index assignment and splice computes exactly `Merge`; unique ids stay unique; without a change the list is the previous one |
| UseCategories.CategoryFeed.constructor | src/hooks/useCategories.ts:20-27 | the feed starts empty, before its first batch, sorted and with unique ids |
| UseCategories.CategoryFeed.OnSnapshot | src/hooks/useCategories.ts:32-77 | when the batch changed something or is the first one, the list becomes the merged list sorted by row (a permutation of it) and the first-batch flag is cleared; otherwise list and flag are unchanged; sortedness and unique ids are preserved |

## Left out

- The subscription and storage plumbing is not modelled: transactional reads, write batches, single-document reads, queries and the snapshot listener. The store is two in-memory maps, each operation is one atomic step, and a query is a filter over a map.
- Concurrency is not modelled. This covers the optimistic retries of a transaction and the fact that `deleteTransaction`'s reads sit outside any transaction.
- Amount text is out. The amount text codec (`parseAmount`, `formatAmount`) comes from `src/lib/firebase/categories.ts`, which is not part of this model. Balances are integers and are stored directly.
- Floating point is out, and amounts are integers. So a NaN amount, which the code rejects, cannot be expressed. An infinite amount, which passes the code's check, cannot be expressed either.
- Timestamps (`date`, `updatedAt`) are omitted.
- An absent salary flag is stored as `None` and the transfer succeeds. The code passes an undefined field value to the store. The store accepts that only when configured to ignore undefined properties, and that configuration (`src/lib/firebase/config.ts`) is not part of this model. The model assumes the store accepts the absent field.
- Logging is left out, and the error messages are represented as error kinds.
- Document-path validation is not modelled. The storage layer rejects an id that contains `/`; the model treats such an id like any other. For the empty id, see "No category under the empty id" above.
- The hook shell is left out: its loading and error flags, the unsubscribe closure, the icon map and the rendered icon element. A card keeps its icon name instead.
- Categories.StepModified compares cards by value equality where the code compares their JSON serialisations. The two agree for cards built the same way.
- Categories.RowOf reads integers exactly. The code's `parseInt` loses precision above 2^53.
- Categories.RowOfNumber and JsText.IntText take the text of a stored number to be its plain decimal numeral. For magnitudes of 1e21 and more, the code's number-to-text conversion writes exponent notation (`1e+21`), which `parseInt` reads as 1. So for those rows the lemma's "reads as n" does not hold of the code, and the model does not capture it.
- Transactions.ApplyWrite treats a balance update for a category that is not stored as doing nothing. In the code, both operations only update a category they have just read.

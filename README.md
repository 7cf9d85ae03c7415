# Banking ledger of the voice banking assistant

This project models `DatabaseManager` from `src/database/db_manager.py`, the
banking ledger behind the voice assistant, and proves properties of the model
in Dafny. The ledger keeps three SQLite tables:

- `users`: the primary key `user_id`, a UNIQUE `username` and an
  `account_balance`;
- `transactions`: append-only; each record holds a user id, a type, a signed
  amount and a timestamp;
- `conversation_history`: append-only.

On top of these tables the ledger offers:

- account creation, which the UNIQUE constraint refuses for a taken username;
- exact-match lookup by username;
- the balance query;
- the newest-first history query with a `LIMIT`;
- deposits and withdrawals;
- transfers between two usernames;
- the conversation log;
- an idempotent seed of the demo user.

Layout:

- `records.dfy` (module `Records`) holds the rows of the three tables and the
  lower-casing of transaction types.
- `queries.dfy` (module `Queries`) holds what the read side computes as pure
  functions, with lemmas about them:
  - a user's history, newest first;
  - the `LIMIT` applied to it;
  - the sum of all balances;
  - the users table after a transfer.
- `db_manager.dfy` (module `DbManager`) holds the class `DatabaseManager`.
  - Its fields are the tables: `users` by id, with a `byName` map for the
    UNIQUE username index; `txs` and `convs` as sequences; the next rowid; and
    a `clock`.
  - Its methods change these fields in place and state the whole new state.
  - `Valid()` is the table invariant every method preserves:
    - user ids are 1, 2, … in creation order;
    - the index and the table agree;
    - records and conversation entries are numbered by position and stamped
      in increasing order.

How storage failures are modelled:

- A deposit, withdrawal or transfer opens `BEGIN TRANSACTION` and may see any
  later statement raise (a locked or full database file).
- This is a parameter, `fault: StorageFault`: `Healthy`, or `FailsAt(k)` when
  the k-th statement after BEGIN raises.
- BEGIN is a `Snapshot` of the fields and the rollback restores it, so every
  failure path is proved to leave the tables exactly as they were.
- Python's sqlite3 implicitly opens a transaction before an INSERT, and only
  a commit or a rollback closes it. `create_user` returns on a duplicate
  username without either, so the implicit transaction stays open. The field
  `openTransaction` records this.
  - While it is open, the explicit BEGIN of the next deposit, withdrawal or
    transfer raises. That call fails and changes no table, and its rollback
    closes the transaction.
  - `log_conversation` and the seeding commit, which also closes it.

Where the ledger's code does less than one might expect, the model follows
the code:

- Amounts are not checked to be positive. A negative deposit lowers a
  balance, and a withdrawal or transfer of a negative amount passes the
  balance check whenever the balance is at least that amount, which is always
  the case while the balance is non-negative.
  - So balances are proved to stay non-negative only for non-negative
    amounts.
  - The sum of all balances is preserved by every transfer whatever its
    amount.
- A transfer from a user to themselves is not refused. It leaves the balances
  as they were and still logs both records.
- Usernames are matched exactly, with no case folding and no trimming. An
  empty username is accepted by `create_user`.
- `add_transaction` stores the lower-cased type but the unsigned amount. The
  sign of a deposit and of a withdrawal is only in the type.

## Model

| member | source | states |
|---|---|---|
| Records.Lower | src/database/db_manager.py:127 | the lower-cased type has the same length, maps every ASCII upper-case letter to its lower-case letter, and keeps every other character |
| Records.LowerPointwise | src/database/db_manager.py:127 | lower-casing a type lower-cases each of its characters on its own |
| Records.LowerIdempotent | src/database/db_manager.py:156 | lower-casing the stored type again gives it back, so a stored type passes the same type check |
| Records.IsLedgerKind | src/database/db_manager.py:127 | the type check: the lower-cased type is `deposit` or `withdrawal` |
| Records.LowerEqualsIff | src/database/db_manager.py:127 | a type lower-cases to a lower-case word exactly when it spells that word in any mix of cases |
| Records.IsLedgerKindIgnoresCase | src/database/db_manager.py:127 | the type check accepts exactly the spellings of `deposit` and `withdrawal` in any case (`DEPOSIT`, `Withdrawal`, …) and nothing else |
| Records.LedgerKindsAreLower | src/database/db_manager.py:127 | `deposit` and `withdrawal` as written pass the case-insensitive type check unchanged |
| Records.LowerKeepsLower | src/database/db_manager.py:127 | a type without upper-case letters is stored exactly as given |
| Queries.History | src/database/db_manager.py:89-93 | the history holds exactly the user's records, no others, and is no longer than the log |
| Queries.HistoryNewestFirst | src/database/db_manager.py:93 | in a log stamped in insertion order the history is in strictly decreasing timestamp order (ORDER BY timestamp DESC) |
| Queries.Recent | src/database/db_manager.py:94-95 | SQLite's LIMIT on the history: a non-negative limit keeps at most that many records, a negative one keeps all; what is kept is the front of the history (its order is proved in `RecentNewestFirst`) |
| Queries.RecentNewestFirst | src/database/db_manager.py:89-95 | the returned records belong to the user, are newest first, and each is newer than every record of the user left out |
| Queries.SumUpdate | src/database/db_manager.py:159-163 | replacing one balance changes the total by exactly the difference, and not at all outside the range summed |
| Queries.SumExtend | src/database/db_manager.py:180-183 | a new user with the next id adds exactly their balance to the total |
| Queries.Moved | src/database/db_manager.py:217-229 | the users table after the two UPDATEs: same ids and usernames, the sender down and the receiver up by the amount, every other user unchanged, and no change when both are the same user |
| Queries.MovedConserves | src/database/db_manager.py:217-229 | the two UPDATEs leave the sum of all balances unchanged |
| Queries.MovedNonNegative | src/database/db_manager.py:210-229 | a transfer of a non-negative amount the sender covers keeps every balance non-negative |
| DbManager.RowOf | src/database/db_manager.py:90 | the columns `get_transactions` selects from a record: its type, amount and timestamp |
| DbManager.TransferRecords | src/database/db_manager.py:232-240 | the two records a transfer logs, numbered and stamped consecutively: the sender's `transfer_to_<receiver>` with the negated amount first, then the receiver's `transfer_from_<sender>` with the amount |
| DbManager.TransferStatus.Message | src/database/db_manager.py:208-250 | the strings `transfer_money` returns: NotFound "One or both users not found" (:208), InsufficientBalance "Insufficient balance for transfer" (:211), Successful "Transfer successful" (:244), Failed "Transfer failed" (:250) |
| DbManager.MessagesDistinct | src/database/db_manager.py:208-250 | the four returned strings are pairwise distinct, so the string a caller receives determines the status that `TransferMoney` specifies |
| DbManager.Consistent | src/database/db_manager.py:25-47 | the table constraints as kept by the ledger: user ids are the PRIMARY KEYs 1, 2, … in creation order, each username belongs to exactly one user (UNIQUE), and records and conversation entries are numbered by insertion and stamped in increasing order before the current time |
| DbManager.DatabaseManager.Valid | src/database/db_manager.py:25-47 | the current tables meet `Consistent`; every operation preserves it |
| DbManager.DatabaseManager.Begin | src/database/db_manager.py:150 | BEGIN TRANSACTION (also :215): the state a rollback returns to |
| DbManager.DatabaseManager.Accepts | src/database/db_manager.py:127-145 | the checks before BEGIN: a deposit or withdrawal type in any case, a known user, and for a withdrawal a balance not below the amount |
| DbManager.DatabaseManager.IndexAgrees | src/database/db_manager.py:27 | the username index holds exactly the usernames in the table, and no two users share one (UNIQUE) |
| DbManager.DatabaseManager.constructor | src/database/db_manager.py:11-15 | a fresh ledger holds only the demo user 1 `demo_user` with 1000, no records, no open transaction, and satisfies the table invariant |
| DbManager.DatabaseManager.SetupDatabase | src/database/db_manager.py:52-56 | INSERT OR IGNORE: the demo user is added only when neither its id nor its username is taken, otherwise no table changes; the records and the log are untouched; the commit leaves no transaction open |
| DbManager.DatabaseManager.GetUserDetails | src/database/db_manager.py:64-72 | returns a result exactly when some user has this username, and then that user's id and stored balance |
| DbManager.DatabaseManager.GetBalance | src/database/db_manager.py:74-83 | None exactly for an unknown id, the stored balance otherwise, and nothing changes |
| DbManager.DatabaseManager.GetTransactions | src/database/db_manager.py:85-99 | the (type, amount, timestamp) rows of the user's newest records, at most `limit` of them (default 5), in strictly decreasing timestamp order |
| DbManager.DatabaseManager.LogConversation | src/database/db_manager.py:101-113 | appends exactly one conversation entry with the next id and the current time; users, records and ids unchanged; the commit leaves no transaction open |
| DbManager.DatabaseManager.Rollback | src/database/db_manager.py:170-172 | the tables are exactly those saved at BEGIN and no transaction is open |
| DbManager.DatabaseManager.SetBalance | src/database/db_manager.py:159-163 | one UPDATE: only that user's balance changes, and the table invariant is kept |
| DbManager.DatabaseManager.AppendTx | src/database/db_manager.py:153-156 | one INSERT: exactly one record with the next id and the current time is appended |
| DbManager.DatabaseManager.AddTransaction | src/database/db_manager.py:115-174 | True exactly when the type is deposit or withdrawal in any case, the user exists, a withdrawal is covered (withdrawing the whole balance allowed), no transaction is already open (else BEGIN raises) and no statement fails; on False no table changes; a transaction is open afterwards exactly when one was open and a check before BEGIN refused; on True the balance becomes current ± amount, exactly one record (id, user, lower-cased type, amount) is appended, the total moves by ± amount, and non-negative balances stay non-negative for non-negative amounts |
| DbManager.DatabaseManager.ApplyTransaction | src/database/db_manager.py:149-174 | from BEGIN to the commit: commits exactly when no transaction is already open (else BEGIN raises) and none of the INSERT, the UPDATE and the commit fails, and then exactly one record is appended and the balance set, moving the total by the change; otherwise the state is the one at BEGIN; no transaction is left open |
| DbManager.DatabaseManager.CreateUser | src/database/db_manager.py:176-192 | None exactly when the username is taken: no table changes, but the failed INSERT's implicit transaction stays open (no rollback at :187-189), so the next BEGIN raises; otherwise the commit closes any open transaction and the result is the next unused id, a new row (username, initial balance) found under that username by the index, and the total up by the initial balance |
| DbManager.DatabaseManager.GetUserByUsername | src/database/db_manager.py:194-199 | a row exactly when the user exists, made of the stored id and balance and the username asked for |
| DbManager.DatabaseManager.UpdateTransferBalances | src/database/db_manager.py:217-229 | after both UPDATEs the users table is the moved one; records untouched |
| DbManager.DatabaseManager.InsertTransferRecords | src/database/db_manager.py:231-240 | after both INSERTs exactly the two transfer records are appended, sender's (negated amount) first; balances untouched |
| DbManager.DatabaseManager.ExecuteTransfer | src/database/db_manager.py:213-250 | commits exactly when no transaction is already open (else BEGIN raises) and none of the five statements fails, and then the balances are moved and the two records logged; otherwise the state is the one at BEGIN |
| DbManager.DatabaseManager.TransferMoney | src/database/db_manager.py:201-250 | "not found" exactly when either username is missing, "insufficient" exactly when the sender's balance is below the amount, "successful" exactly when neither, no transaction is already open and no statement fails, "failed" otherwise; a transaction is open afterwards exactly when one was and the call returned "not found" or "insufficient"; on every status but success no table changes; on success the sender is debited, the receiver credited and two records logged; the total of all balances is always preserved, and non-negative balances stay non-negative for non-negative amounts |
| DbManager.OpenTransactionScenario | src/database/db_manager.py:180-189 | after a refused `create_user` of `demo_user`, a deposit on the demo user returns False and leaves balance 1000 and no records |

## Left out

- The SQLite connection, cursors, table creation and the database file path (src/database/db_manager.py:13-24) are I/O; the tables are fields of the class.
- `close` (src/database/db_manager.py:252-256) only closes the connection and has nothing to model.
- Logging calls are side effects with no behaviour to state.
- The constructor models a fresh database file; opening a file that already holds tables is covered only through `SetupDatabase`, whose ignore branch is modelled.
- CURRENT_TIMESTAMP is a counter advanced by one per row inserted, so timestamps are strictly increasing; two rows stamped in the same second, which SQLite may then return in either order, are not modelled.
- Balances and amounts are exact `real` numbers; rounding of SQLite REAL (double precision) is not modelled.
- Records.Lower: lower-cases ASCII letters only, whereas Python's `str.lower` also lower-cases other Unicode letters.
- The check-then-write race between reading balances and BEGIN is moot in a sequential model; concurrent connections are not modelled.
- GetUserDetails: a failing SELECT, which the source turns into None (and so into "One or both users not found" or a missing user), is not modelled; only storage failures after BEGIN are.
- GetBalance, GetTransactions: a failing SELECT, which the source turns into None or an empty list, is not modelled.
- AddTransaction: a failure of the SELECT before BEGIN, which the source turns into False with no change, is not modelled.
- CreateUser: a storage failure other than the UNIQUE violation, which the source also turns into None, is not modelled; nor is `lastrowid` after a prior deletion (there is no deletion in the ledger).
- LogConversation: a failing INSERT, which the source logs and ignores, is not modelled.
- The rest of the application (main.py, the command handler, speech recognition and synthesis, intent classification, response generation, configuration) is not part of this model.

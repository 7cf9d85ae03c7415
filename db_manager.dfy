/** The banking ledger kept by `DatabaseManager`: a users table with a unique
    index on usernames, an append-only transactions table and an append-only
    conversation log, with deposits, withdrawals and transfers that either
    commit completely or roll back. */
module DbManager {
  import opened Records
  import opened Queries

  /** The demo account that setting up the database inserts. */
  const DemoUserId: int := 1
  const DemoUsername: string := "demo_user"
  const DemoBalance: real := 1000.0

  /** The number of records `get_transactions` returns by default. */
  const DefaultLimit: int := 5

  /** How the storage layer behaves during one operation: either every
      statement succeeds, or the `statement`-th statement after BEGIN raises
      (a locked or full database, say). Statements are numbered from 1 in the
      order the operation issues them, the commit last, so `FailsAt(0)`
      hits none and behaves like `Healthy`. */
  datatype StorageFault = Healthy | FailsAt(statement: nat) {
    predicate Hits(k: nat) {
      FailsAt? && statement == k
    }

    /** Whether one of the first `n` statements raises. */
    predicate HitsWithin(n: nat) {
      FailsAt? && 1 <= statement <= n
    }
  }

  /** The dictionary `get_user_by_username` returns. */
  datatype UserRow = UserRow(userId: int, username: string, balance: real)

  /** One `(transaction_type, amount, timestamp)` row of `get_transactions`. */
  datatype TxRow = TxRow(kind: string, amount: real, timestamp: nat)

  function RowOf(tx: Tx): TxRow {
    TxRow(tx.kind, tx.amount, tx.timestamp)
  }

  /** The outcomes of `transfer_money`; `Message` is the string it returns. */
  datatype TransferStatus = NotFound | InsufficientBalance | Successful | Failed {
    function Message(): string {
      match this
      case NotFound => "One or both users not found"
      case InsufficientBalance => "Insufficient balance for transfer"
      case Successful => "Transfer successful"
      case Failed => "Transfer failed"
    }
  }

  /** The four strings `transfer_money` returns are distinct, so the string
      a caller receives names the outcome. */
  lemma MessagesDistinct(a: TransferStatus, b: TransferStatus)
    ensures a.Message() == b.Message() <==> a == b
  {
  }

  /** The two records a transfer logs, numbered from `firstId` and stamped
      from `stamp`: the sender's with the negated amount, then the
      receiver's. */
  function TransferRecords(firstId: int, stamp: nat, from: int, to: int, fromUsername: string, toUsername: string, amount: real)
    : seq<Tx>
  {
    [Tx(firstId, from, "transfer_to_" + toUsername, -amount, stamp),
     Tx(firstId + 1, to, "transfer_from_" + fromUsername, amount, stamp + 1)]
  }

  /** The committed state saved at BEGIN TRANSACTION. */
  datatype Snapshot = Snapshot(
    users: map<int, Account>,
    byName: map<string, int>,
    txs: seq<Tx>,
    convs: seq<Conv>,
    nextUserId: int,
    clock: nat)

  /** The invariants of the tables: user ids are 1, 2, ... in creation order;
      the index maps each username to the one row holding it; records are
      numbered 1, 2, ... and stamped before the clock, in increasing order;
      so are the conversation entries. */
  ghost predicate Consistent(s: Snapshot) {
    && 1 <= s.nextUserId
    && (forall id :: id in s.users <==> 1 <= id < s.nextUserId)
    && (forall name :: name in s.byName ==> s.byName[name] in s.users && s.users[s.byName[name]].username == name)
    && (forall id :: id in s.users ==> s.users[id].username in s.byName && s.byName[s.users[id].username] == id)
    && (forall k :: 0 <= k < |s.txs| ==> s.txs[k].id == k + 1 && s.txs[k].timestamp < s.clock)
    && Chronological(s.txs)
    && (forall k :: 0 <= k < |s.convs| ==> s.convs[k].id == k + 1 && s.convs[k].timestamp < s.clock)
    && (forall i, j :: 0 <= i < j < |s.convs| ==> s.convs[i].timestamp < s.convs[j].timestamp)
  }

  class DatabaseManager {
    /** The users table, by `user_id`. */
    var users: map<int, Account>
    /** The UNIQUE index on `users.username`. */
    var byName: map<string, int>
    /** The transactions table in insertion order. */
    var txs: seq<Tx>
    /** The conversation_history table in insertion order. */
    var convs: seq<Conv>
    /** The rowid the next inserted user gets: one more than the largest. */
    var nextUserId: int
    /** CURRENT_TIMESTAMP: the next row inserted is stamped with this. */
    var clock: nat
    /** A transaction is open on the connection outside any BEGIN of the
        ledger's own. Python's sqlite3 opens one implicitly before an INSERT;
        a commit or a rollback closes it. While it is open, an explicit
        BEGIN TRANSACTION raises. */
    var openTransaction: bool

    ghost predicate Valid()
      reads this
    {
      Consistent(Begin())
    }

    /** Some row of the users table has exactly this username. */
    ghost predicate HasUser(name: string)
      reads this
    {
      exists id :: id in users && users[id].username == name
    }

    /** The money held by all users together. */
    ghost function Total(): real
      reads this
    {
      Sum(users, 1, nextUserId)
    }

    ghost predicate NonNegative()
      reads this
    {
      forall id :: id in users ==> users[id].balance >= 0.0
    }

    /** The index holds exactly the usernames of the table, so no two users
        share a username. */
    lemma IndexAgrees(name: string)
      requires Valid()
      ensures HasUser(name) <==> name in byName
      ensures forall i, j :: i in users && j in users && users[i].username == users[j].username ==> i == j
    {
      if name in byName {
        var id := byName[name];
        assert id in users && users[id].username == name;
      }
    }

    /** A fresh database file: empty tables, then the setup step. */
    constructor ()
      ensures Valid()
      ensures users == map[DemoUserId := Account(DemoUsername, DemoBalance)]
      ensures byName == map[DemoUsername := DemoUserId]
      ensures txs == [] && convs == [] && nextUserId == DemoUserId + 1 && clock == 0
      ensures !openTransaction
    {
      users, byName, txs, convs := map[], map[], [], [];
      nextUserId, clock, openTransaction := 1, 0, false;
      new;
      SetupDatabase();
    }

    /** Seeds the demo user unless its id or its username is taken
        (INSERT OR IGNORE), so running the setup again changes no table; the
        commit closes any open transaction. */
    method SetupDatabase()
      requires Valid()
      modifies this
      ensures Valid()
      ensures txs == old(txs) && convs == old(convs) && clock == old(clock)
      ensures DemoUserId in old(users) || DemoUsername in old(byName) ==>
        users == old(users) && byName == old(byName) && nextUserId == old(nextUserId)
      ensures !(DemoUserId in old(users) || DemoUsername in old(byName)) ==>
        && users == old(users)[DemoUserId := Account(DemoUsername, DemoBalance)]
        && byName == old(byName)[DemoUsername := DemoUserId]
        && nextUserId == DemoUserId + 1
      ensures DemoUserId in users
      ensures !openTransaction
    {
      if DemoUserId in users || DemoUsername in byName {
        if DemoUsername in byName {
          assert 1 <= byName[DemoUsername] < nextUserId;
        }
      } else {
        users := users[DemoUserId := Account(DemoUsername, DemoBalance)];
        byName := byName[DemoUsername := DemoUserId];
        nextUserId := DemoUserId + 1;
      }
      openTransaction := false;
    }

    /** `_get_user_details`: the id and balance of the user with exactly
        this username. */
    method GetUserDetails(username: string) returns (r: Option<(int, real)>)
      requires Valid()
      ensures r.Some? <==> HasUser(username)
      ensures r.Some? ==> r.value.0 in users && users[r.value.0] == Account(username, r.value.1)
    {
      if username in byName {
        var id := byName[username];
        r := Some((id, users[id].balance));
      } else {
        r := None;
      }
    }

    method GetBalance(userId: int) returns (balance: Option<real>)
      ensures balance.Some? <==> userId in users
      ensures balance.Some? ==> balance.value == users[userId].balance
    {
      if userId in users {
        balance := Some(users[userId].balance);
      } else {
        balance := None;
      }
    }

    /** The newest `limit` records of the user, newest first. */
    method GetTransactions(userId: int, limit: int := DefaultLimit) returns (rows: seq<TxRow>)
      requires Chronological(txs)
      ensures |rows| == |Recent(txs, userId, limit)|
      ensures forall k :: 0 <= k < |rows| ==> rows[k] == RowOf(Recent(txs, userId, limit)[k])
      ensures 0 <= limit ==> |rows| <= limit
      ensures forall i, j :: 0 <= i < j < |rows| ==> rows[i].timestamp > rows[j].timestamp
    {
      var recent := Recent(txs, userId, limit);
      RecentNewestFirst(txs, userId, limit);
      rows := seq(|recent|, k requires 0 <= k < |recent| => RowOf(recent[k]));
    }

    method LogConversation(userId: Option<int>, userInput: string, botResponse: string, intent: string, confidence: real)
      requires Valid()
      modifies this
      ensures Valid()
      ensures convs == old(convs) + [Conv(|old(convs)| + 1, userId, userInput, botResponse, intent, confidence, old(clock))]
      ensures clock == old(clock) + 1
      ensures users == old(users) && byName == old(byName) && txs == old(txs) && nextUserId == old(nextUserId)
      ensures !openTransaction
    {
      convs := convs + [Conv(|convs| + 1, userId, userInput, botResponse, intent, confidence, clock)];
      clock := clock + 1;
      openTransaction := false;
    }

    /** BEGIN TRANSACTION: the state a rollback returns to. */
    function Begin(): Snapshot
      reads this
    {
      Snapshot(users, byName, txs, convs, nextUserId, clock)
    }

    method Rollback(saved: Snapshot)
      modifies this
      ensures Begin() == saved && !openTransaction
    {
      users, byName, txs, convs := saved.users, saved.byName, saved.txs, saved.convs;
      nextUserId, clock, openTransaction := saved.nextUserId, saved.clock, false;
    }

    /** `UPDATE users SET account_balance = ...`: one user's balance. */
    method SetBalance(id: int, balance: real)
      requires Valid() && id in users
      modifies this
      ensures Valid()
      ensures users == old(users)[id := old(users)[id].(balance := balance)]
      ensures byName == old(byName) && txs == old(txs) && convs == old(convs)
      ensures nextUserId == old(nextUserId) && clock == old(clock) && openTransaction == old(openTransaction)
    {
      ghost var before := users;
      users := users[id := users[id].(balance := balance)];
      SumUpdate(before, id, users[id], 1, nextUserId);
    }

    /** `INSERT INTO transactions`: one record, numbered and stamped next. */
    method AppendTx(userId: int, kind: string, amount: real)
      requires Valid()
      modifies this
      ensures Valid()
      ensures txs == old(txs) + [Tx(|old(txs)| + 1, userId, kind, amount, old(clock))]
      ensures clock == old(clock) + 1
      ensures users == old(users) && byName == old(byName) && convs == old(convs)
      ensures nextUserId == old(nextUserId) && openTransaction == old(openTransaction)
    {
      txs := txs + [Tx(|txs| + 1, userId, kind, amount, clock)];
      clock := clock + 1;
    }

    /** The checks `add_transaction` makes before BEGIN: a known type, a known
        user, and for a withdrawal a balance that covers the amount. */
    ghost predicate Accepts(userId: int, transactionType: string, amount: real)
      reads this
    {
      && IsLedgerKind(transactionType)
      && userId in users
      && !(Lower(transactionType) == Withdrawal && users[userId].balance < amount)
    }

    /** `add_transaction`: a deposit or a withdrawal, all or nothing. A
        failure after the checks ends in a rollback, which closes any open
        transaction. */
    method AddTransaction(userId: int, transactionType: string, amount: real, fault: StorageFault) returns (ok: bool)
      requires Valid()
      modifies this
      ensures Valid()
      ensures byName == old(byName) && convs == old(convs) && nextUserId == old(nextUserId)
      ensures ok <==> old(Accepts(userId, transactionType, amount)) && !old(openTransaction) && !fault.HitsWithin(3)
      ensures openTransaction == (old(openTransaction) && !old(Accepts(userId, transactionType, amount)))
      ensures !ok ==> users == old(users) && txs == old(txs) && clock == old(clock)
      ensures ok ==>
        var current := old(users)[userId].balance;
        var updated := if Lower(transactionType) == Deposit then current + amount else current - amount;
        && users == old(users)[userId := Account(old(users)[userId].username, updated)]
        && txs == old(txs) + [Tx(|old(txs)| + 1, userId, Lower(transactionType), amount, old(clock))]
        && clock == old(clock) + 1
      ensures ok ==> Total() == old(Total()) + (if Lower(transactionType) == Deposit then amount else -amount)
      ensures ok && Lower(transactionType) == Withdrawal ==> users[userId].balance >= 0.0
      ensures old(NonNegative()) && 0.0 <= amount ==> NonNegative()
    {
      var kind := Lower(transactionType);
      if kind != Deposit && kind != Withdrawal {
        return false;
      }
      if userId !in users {
        return false;
      }
      var currentBalance := users[userId].balance;
      if kind == Withdrawal && currentBalance < amount {
        return false;
      }
      var newBalance := if kind == Deposit then currentBalance + amount else currentBalance - amount;

      ok := ApplyTransaction(userId, kind, amount, newBalance, fault);
    }

    /** The part of `add_transaction` from BEGIN to the commit: the record is
        inserted (statement 1), the balance updated (2) and the commit made
        (3). BEGIN raises when a transaction is already open. On a fault the
        state goes back to what it was at BEGIN. */
    method ApplyTransaction(userId: int, kind: string, amount: real, newBalance: real, fault: StorageFault)
      returns (committed: bool)
      requires Valid() && userId in users
      modifies this
      ensures Valid()
      ensures byName == old(byName) && convs == old(convs) && nextUserId == old(nextUserId)
      ensures committed <==> !old(openTransaction) && !fault.HitsWithin(3)
      ensures !openTransaction
      ensures !committed ==> users == old(users) && txs == old(txs) && clock == old(clock)
      ensures committed ==>
        && users == old(users)[userId := old(users)[userId].(balance := newBalance)]
        && txs == old(txs) + [Tx(|old(txs)| + 1, userId, kind, amount, old(clock))]
        && clock == old(clock) + 1
      ensures committed ==> Total() == old(Total()) + (newBalance - old(users)[userId].balance)
    {
      var saved := Begin();
      if openTransaction || fault.Hits(1) {
        Rollback(saved);
        return false;
      }
      AppendTx(userId, kind, amount);
      if fault.Hits(2) {
        Rollback(saved);
        return false;
      }
      SetBalance(userId, newBalance);
      if fault.Hits(3) {
        Rollback(saved);
        return false;
      }
      SumUpdate(saved.users, userId, users[userId], 1, nextUserId);
      committed := true;
    }

    /** `create_user`: a new row with the next rowid, unless the username is
        taken, in which case the UNIQUE constraint rejects the insert. The
        INSERT opens a transaction implicitly; the commit closes it, but the
        rejection returns without a rollback and leaves it open. */
    method CreateUser(username: string, initialBalance: real := 0.0) returns (userId: Option<int>)
      requires Valid()
      modifies this
      ensures Valid()
      ensures txs == old(txs) && convs == old(convs) && clock == old(clock)
      ensures userId.None? <==> old(HasUser(username))
      ensures userId.None? ==> users == old(users) && byName == old(byName) && nextUserId == old(nextUserId)
      ensures userId.Some? ==>
        && userId.value == old(nextUserId)
        && userId.value !in old(users)
        && users == old(users)[userId.value := Account(username, initialBalance)]
        && byName == old(byName)[username := userId.value]
        && nextUserId == old(nextUserId) + 1
      ensures userId.Some? ==> Total() == old(Total()) + initialBalance
      ensures openTransaction <==> userId.None?
    {
      IndexAgrees(username);
      if username in byName {
        openTransaction := true;
        return None;
      }
      var id := nextUserId;
      ghost var before := users;
      users := users[id := Account(username, initialBalance)];
      byName := byName[username := id];
      nextUserId := id + 1;
      SumUpdate(before, id, users[id], 1, id);
      SumExtend(users, 1, id);
      openTransaction := false;
      userId := Some(id);
    }

    /** `get_user_by_username`: the user's id and balance, with the username
        that was asked for. */
    method GetUserByUsername(username: string) returns (user: Option<UserRow>)
      requires Valid()
      ensures user.Some? <==> HasUser(username)
      ensures user.Some? ==>
        && user.value.username == username
        && user.value.userId in users
        && users[user.value.userId] == Account(username, user.value.balance)
    {
      var details := GetUserDetails(username);
      if details.Some? {
        user := Some(UserRow(details.value.0, username, details.value.1));
      } else {
        user := None;
      }
    }

    /** The two UPDATEs of a transfer, statements 1 and 2: debit the sender,
        then credit the receiver. `ok` is false when one of them raises; the
        state is then partly updated and the caller rolls it back. */
    method UpdateTransferBalances(from: int, to: int, amount: real, fault: StorageFault) returns (ok: bool)
      requires Valid() && from in users && to in users
      modifies this
      ensures Valid()
      ensures byName == old(byName) && txs == old(txs) && convs == old(convs)
      ensures nextUserId == old(nextUserId) && clock == old(clock) && openTransaction == old(openTransaction)
      ensures ok <==> !fault.Hits(1) && !fault.Hits(2)
      ensures ok ==> users == Moved(old(users), from, to, amount)
    {
      if fault.Hits(1) {
        return false;
      }
      SetBalance(from, users[from].balance - amount);
      if fault.Hits(2) {
        return false;
      }
      SetBalance(to, users[to].balance + amount);
      ok := true;
    }

    /** The two INSERTs of a transfer, statements 3 and 4: one record on each
        side. `ok` is false when one of them raises. */
    method InsertTransferRecords(from: int, to: int, fromUsername: string, toUsername: string, amount: real, fault: StorageFault)
      returns (ok: bool)
      requires Valid()
      modifies this
      ensures Valid()
      ensures users == old(users) && byName == old(byName) && convs == old(convs)
      ensures nextUserId == old(nextUserId) && openTransaction == old(openTransaction)
      ensures ok <==> !fault.Hits(3) && !fault.Hits(4)
      ensures ok ==>
        && txs == old(txs) + TransferRecords(|old(txs)| + 1, old(clock), from, to, fromUsername, toUsername, amount)
        && clock == old(clock) + 2
    {
      if fault.Hits(3) {
        return false;
      }
      AppendTx(from, "transfer_to_" + toUsername, -amount);
      if fault.Hits(4) {
        return false;
      }
      AppendTx(to, "transfer_from_" + fromUsername, amount);
      ok := true;
    }

    /** A transfer from BEGIN to the commit (statement 5). BEGIN raises when a
        transaction is already open. On a fault the state goes back to what it
        was at BEGIN, and the rollback closes any open transaction. */
    method ExecuteTransfer(from: int, to: int, fromUsername: string, toUsername: string, amount: real, fault: StorageFault)
      returns (committed: bool)
      requires Valid()
      requires from in users && users[from].username == fromUsername
      requires to in users && users[to].username == toUsername
      modifies this
      ensures Valid()
      ensures byName == old(byName) && convs == old(convs) && nextUserId == old(nextUserId)
      ensures committed <==> !old(openTransaction) && !fault.HitsWithin(5)
      ensures !openTransaction
      ensures !committed ==> users == old(users) && txs == old(txs) && clock == old(clock)
      ensures committed ==>
        && users == Moved(old(users), from, to, amount)
        && txs == old(txs) + TransferRecords(|old(txs)| + 1, old(clock), from, to, fromUsername, toUsername, amount)
        && clock == old(clock) + 2
    {
      var saved := Begin();
      if openTransaction {
        Rollback(saved);
        return false;
      }
      // Each UPDATE selects its row by username; by the unique index those
      // rows are `from` and `to`.
      assert byName[fromUsername] == from && byName[toUsername] == to;
      committed := UpdateTransferBalances(from, to, amount, fault);
      if committed {
        committed := InsertTransferRecords(from, to, fromUsername, toUsername, amount, fault);
      }
      if committed && fault.Hits(5) {
        committed := false;
      }
      if !committed {
        Rollback(saved);
      }
    }

    /** `transfer_money`: debit one user and credit another by username, and
        log one record for each, all or nothing. */
    method TransferMoney(fromUsername: string, toUsername: string, amount: real, fault: StorageFault)
      returns (status: TransferStatus)
      requires Valid()
      modifies this
      ensures Valid()
      ensures byName == old(byName) && convs == old(convs) && nextUserId == old(nextUserId)
      ensures status == NotFound <==> !old(HasUser(fromUsername)) || !old(HasUser(toUsername))
      ensures status == InsufficientBalance <==>
        && fromUsername in old(byName) && toUsername in old(byName)
        && old(users[byName[fromUsername]].balance) < amount
      ensures status == Successful <==>
        && fromUsername in old(byName) && toUsername in old(byName)
        && amount <= old(users[byName[fromUsername]].balance)
        && !old(openTransaction)
        && !fault.HitsWithin(5)
      ensures status != Successful ==> users == old(users) && txs == old(txs) && clock == old(clock)
      ensures status == Successful ==>
        var from, to := old(byName[fromUsername]), old(byName[toUsername]);
        && users == Moved(old(users), from, to, amount)
        && txs == old(txs) + TransferRecords(|old(txs)| + 1, old(clock), from, to, fromUsername, toUsername, amount)
        && clock == old(clock) + 2
      ensures openTransaction == (old(openTransaction) && (status == NotFound || status == InsufficientBalance))
      ensures Total() == old(Total())
      ensures old(NonNegative()) && 0.0 <= amount ==> NonNegative()
    {
      IndexAgrees(fromUsername);
      IndexAgrees(toUsername);
      var fromUser := GetUserDetails(fromUsername);
      var toUser := GetUserDetails(toUsername);
      if fromUser.None? || toUser.None? {
        return NotFound;
      }
      var (fromId, fromBalance) := fromUser.value;
      var toId := toUser.value.0;
      if fromBalance < amount {
        return InsufficientBalance;
      }
      assert fromId == byName[fromUsername] && toId == byName[toUsername];
      ghost var before := users;
      var committed := ExecuteTransfer(fromId, toId, fromUsername, toUsername, amount, fault);
      if !committed {
        return Failed;
      }
      MovedConserves(before, fromId, toId, amount, 1, nextUserId);
      if 0.0 <= amount && forall id :: id in before ==> before[id].balance >= 0.0 {
        MovedNonNegative(before, fromId, toId, amount);
      }
      status := Successful;
    }
  }

  /** Two accounts created on a fresh ledger, then a transfer between them. */
  method TransferScenario() {
    var db := new DatabaseManager();
    db.IndexAgrees("alice");
    var alice := db.CreateUser("alice", 100.0);
    db.IndexAgrees("bob");
    var bob := db.CreateUser("bob");
    assert alice == Some(2) && bob == Some(3);
    var status := db.TransferMoney("alice", "bob", 40.0, Healthy);
    assert status == Successful;
    assert db.users[2].balance == 60.0 && db.users[3].balance == 40.0;
    assert |db.txs| == 2 && db.txs[0].amount == -40.0 && db.txs[1].amount == 40.0;
  }

  /** On the seeded demo account a withdrawal above the balance is refused
      and changes nothing. */
  method RefusedWithdrawalScenario() {
    var db := new DatabaseManager();
    LedgerKindsAreLower();
    var ok := db.AddTransaction(DemoUserId, Withdrawal, 2000.0, Healthy);
    assert !ok && db.users[DemoUserId].balance == DemoBalance && db.txs == [];
  }

  /** A refused `create_user` leaves its implicit transaction open, so the
      next deposit fails at BEGIN and changes nothing, and its rollback
      closes the transaction. */
  method OpenTransactionScenario() {
    var db := new DatabaseManager();
    db.IndexAgrees(DemoUsername);
    var id := db.CreateUser(DemoUsername, 5.0);
    assert id == None && db.openTransaction;
    var ok := db.AddTransaction(DemoUserId, Deposit, 10.0, Healthy);
    assert !ok && db.users[DemoUserId].balance == DemoBalance && db.txs == [];
  }
}

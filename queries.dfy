/** The read side of the ledger as functions over table contents: a user's
    transaction history newest first, the `LIMIT` applied to it, and the sum
    of balances that the money-moving operations change by known amounts. */
module Queries {
  import opened Records

  /** Timestamps strictly increase in insertion order of the log. */
  predicate Chronological(txs: seq<Tx>) {
    forall i, j :: 0 <= i < j < |txs| ==> txs[i].timestamp < txs[j].timestamp
  }

  /** Every record of `uid`, the most recently inserted first. */
  function History(txs: seq<Tx>, uid: int): (h: seq<Tx>)
    ensures |h| <= |txs|
    ensures forall k :: 0 <= k < |h| ==> h[k].userId == uid
    ensures forall tx :: tx in h <==> tx in txs && tx.userId == uid
  {
    if txs == [] then []
    else
      var last := txs[|txs| - 1];
      (if last.userId == uid then [last] else []) + History(txs[..|txs| - 1], uid)
  }

  /** In a chronological log, `History` lists the records in strictly
      decreasing timestamp order, which is what `ORDER BY timestamp DESC`
      returns. */
  lemma {:induction false} HistoryNewestFirst(txs: seq<Tx>, uid: int)
    requires Chronological(txs)
    ensures forall i, j :: 0 <= i < j < |History(txs, uid)| ==>
      History(txs, uid)[i].timestamp > History(txs, uid)[j].timestamp
  {
    if txs != [] {
      var prefix := txs[..|txs| - 1];
      var last := txs[|txs| - 1];
      assert Chronological(prefix);
      HistoryNewestFirst(prefix, uid);
      var rest := History(prefix, uid);
      forall tx | tx in rest
        ensures tx.timestamp < last.timestamp
      {
        var k :| 0 <= k < |prefix| && prefix[k] == tx;
        assert txs[k] == tx;
      }
    }
  }

  /** A user's history with SQLite's `LIMIT`: a negative limit imposes no
      bound. */
  function Recent(txs: seq<Tx>, uid: int, limit: int): (r: seq<Tx>)
    ensures |r| == if 0 <= limit < |History(txs, uid)| then limit else |History(txs, uid)|
    ensures r == History(txs, uid)[..|r|]
  {
    var h := History(txs, uid);
    if 0 <= limit < |h| then h[..limit] else h
  }

  /** The records `Recent` returns belong to `uid`, are newest first, and
      none of the user's records left out is newer than one returned. */
  lemma RecentNewestFirst(txs: seq<Tx>, uid: int, limit: int)
    requires Chronological(txs)
    ensures forall k :: 0 <= k < |Recent(txs, uid, limit)| ==> Recent(txs, uid, limit)[k].userId == uid
    ensures forall i, j :: 0 <= i < j < |Recent(txs, uid, limit)| ==>
      Recent(txs, uid, limit)[i].timestamp > Recent(txs, uid, limit)[j].timestamp
    ensures forall i, k :: 0 <= i < |Recent(txs, uid, limit)| <= k < |History(txs, uid)| ==>
      Recent(txs, uid, limit)[i].timestamp > History(txs, uid)[k].timestamp
  {
    HistoryNewestFirst(txs, uid);
  }

  /** The balance of `id`, or 0 if there is no such user. */
  function Bal(users: map<int, Account>, id: int): real {
    if id in users then users[id].balance else 0.0
  }

  /** The sum of the balances of the users with ids in [lo, hi). */
  function Sum(users: map<int, Account>, lo: int, hi: int): real
    decreases hi - lo
  {
    if lo >= hi then 0.0 else Bal(users, lo) + Sum(users, lo + 1, hi)
  }

  /** Replacing one user's row changes the sum by the change in that
      balance, and not at all when the id lies outside the range. */
  lemma {:induction false} SumUpdate(users: map<int, Account>, id: int, acc: Account, lo: int, hi: int)
    ensures Sum(users[id := acc], lo, hi) ==
      Sum(users, lo, hi) + (if lo <= id < hi then acc.balance - Bal(users, id) else 0.0)
    decreases hi - lo
  {
    if lo < hi {
      SumUpdate(users, id, acc, lo + 1, hi);
    }
  }

  /** Extending the range by one id adds that user's balance. */
  lemma {:induction false} SumExtend(users: map<int, Account>, lo: int, hi: int)
    requires lo <= hi
    ensures Sum(users, lo, hi + 1) == Sum(users, lo, hi) + Bal(users, hi)
    decreases hi - lo
  {
    if lo < hi {
      SumExtend(users, lo + 1, hi);
    }
  }

  /** The users table after a transfer: the sender debited, then the receiver
      (looked up again, so possibly the same row) credited. */
  function Moved(users: map<int, Account>, from: int, to: int, amount: real): (r: map<int, Account>)
    requires from in users && to in users
    ensures r.Keys == users.Keys
    ensures forall id :: id in r ==> r[id].username == users[id].username
    ensures forall id :: id in users && id != from && id != to ==> r[id] == users[id]
    ensures from != to ==> r[from].balance == users[from].balance - amount
    ensures from != to ==> r[to].balance == users[to].balance + amount
    ensures from == to ==> r == users
  {
    var debited := users[from := users[from].(balance := users[from].balance - amount)];
    debited[to := debited[to].(balance := debited[to].balance + amount)]
  }

  /** A transfer between two ids in [lo, hi) leaves the sum over that range
      unchanged: money is neither created nor destroyed. */
  lemma MovedConserves(users: map<int, Account>, from: int, to: int, amount: real, lo: int, hi: int)
    requires from in users && to in users
    requires lo <= from < hi && lo <= to < hi
    ensures Sum(Moved(users, from, to, amount), lo, hi) == Sum(users, lo, hi)
  {
    var debited := users[from := users[from].(balance := users[from].balance - amount)];
    SumUpdate(users, from, debited[from], lo, hi);
    SumUpdate(debited, to, debited[to].(balance := debited[to].balance + amount), lo, hi);
  }

  /** A transfer the sender can cover keeps every balance non-negative,
      provided the amount is. */
  lemma MovedNonNegative(users: map<int, Account>, from: int, to: int, amount: real)
    requires from in users && to in users
    requires forall id :: id in users ==> users[id].balance >= 0.0
    requires 0.0 <= amount <= users[from].balance
    ensures forall id :: id in Moved(users, from, to, amount) ==> Moved(users, from, to, amount)[id].balance >= 0.0
  {
  }
}

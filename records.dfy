/** Rows of the three ledger tables, and the string handling the ledger applies
    to transaction types. */
module Records {

  datatype Option<+T> = None | Some(value: T)

  /** A row of the `users` table, keyed elsewhere by its `user_id`. */
  datatype Account = Account(username: string, balance: real)

  /** A row of the `transactions` table. `kind` is the stored
      `transaction_type`, `amount` the signed amount as written. */
  datatype Tx = Tx(id: int, userId: int, kind: string, amount: real, timestamp: nat)

  /** A row of the `conversation_history` table; `userId` is NULL when no user
      has been identified yet. */
  datatype Conv = Conv(
    id: int,
    userId: Option<int>,
    userInput: string,
    botResponse: string,
    intent: string,
    confidence: real,
    timestamp: nat)

  /** Lower-cases one character (ASCII letters only). */
  function LowerChar(c: char): char {
    if 'A' <= c <= 'Z' then (c as int - 'A' as int + 'a' as int) as char else c
  }

  predicate IsUpper(c: char) {
    'A' <= c <= 'Z'
  }

  /** The ledger's `str.lower()` on a transaction type. */
  function Lower(s: string): (r: string)
    ensures |r| == |s|
    ensures forall k :: 0 <= k < |r| ==> !IsUpper(r[k])
    ensures forall k :: 0 <= k < |s| && !IsUpper(s[k]) ==> r[k] == s[k]
    ensures forall k :: 0 <= k < |s| && IsUpper(s[k]) ==> r[k] as int == s[k] as int + ('a' as int - 'A' as int)
  {
    if s == [] then [] else [LowerChar(s[0])] + Lower(s[1..])
  }

  /** Lower-casing a string twice is lower-casing it once, so a stored
      transaction type is already in the form the type check compares. */
  lemma LowerIdempotent(s: string)
    ensures Lower(Lower(s)) == Lower(s)
  {
  }

  const Deposit := "deposit"
  const Withdrawal := "withdrawal"

  /** A string without upper-case letters is its own lower-case form. */
  lemma LowerKeepsLower(s: string)
    requires forall k :: 0 <= k < |s| ==> !IsUpper(s[k])
    ensures Lower(s) == s
  {
  }

  /** The two transaction types as the callers spell them pass the check
      unchanged. */
  lemma LedgerKindsAreLower()
    ensures Lower(Deposit) == Deposit && Lower(Withdrawal) == Withdrawal
  {
    LowerKeepsLower(Deposit);
    LowerKeepsLower(Withdrawal);
  }

  /** The type check of `add_transaction`: the lower-cased type is one of the
      two the ledger accepts. */
  predicate IsLedgerKind(kind: string) {
    Lower(kind) == Deposit || Lower(kind) == Withdrawal
  }

  /** `a` and `b` spell the same word up to the case of ASCII letters. */
  predicate SameIgnoringCase(a: string, b: string) {
    |a| == |b| && forall k :: 0 <= k < |a| ==> LowerChar(a[k]) == LowerChar(b[k])
  }

  /** Lower-casing is `LowerChar` applied to every character. */
  lemma LowerPointwise(s: string)
    ensures forall k :: 0 <= k < |s| ==> Lower(s)[k] == LowerChar(s[k])
  {
    forall k | 0 <= k < |s|
      ensures Lower(s)[k] == LowerChar(s[k])
    {
      if IsUpper(s[k]) {
        assert Lower(s)[k] as int == LowerChar(s[k]) as int;
      }
    }
  }

  /** A string lower-cases to a word without upper-case letters exactly
      when it spells that word up to case. */
  lemma LowerEqualsIff(s: string, t: string)
    requires forall k :: 0 <= k < |t| ==> !IsUpper(t[k])
    ensures Lower(s) == t <==> SameIgnoringCase(s, t)
  {
    LowerPointwise(s);
    if SameIgnoringCase(s, t) {
      assert forall k :: 0 <= k < |t| ==> LowerChar(t[k]) == t[k];
      assert Lower(s) == t;
    }
  }

  /** The type check accepts exactly the spellings of `deposit` and
      `withdrawal` in any mix of upper and lower case. */
  lemma IsLedgerKindIgnoresCase(kind: string)
    ensures IsLedgerKind(kind) <==> SameIgnoringCase(kind, Deposit) || SameIgnoringCase(kind, Withdrawal)
  {
    LowerEqualsIff(kind, Deposit);
    LowerEqualsIff(kind, Withdrawal);
  }
}

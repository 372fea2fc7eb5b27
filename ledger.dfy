/** Shared model of the ledger: the transaction record every screen reads and
    writes, and the per-user key-value store the records are kept in. */
module Ledger {

  datatype Option<T> = None | Some(value: T)

  /** A strictly positive amount of money in integer cents. The registration
      form's schema admits only positive amounts, and it is the only writer. */
  type Cents = n: int | n > 0 witness 1

  /** A calendar date; `month` runs 1..12. Only the day is significant to the
      screens, so the time of day is not modelled. */
  datatype Date = Date(year: int, month: int, day: int)

  /** The two values the screens write into a record's `type` field. */
  const POSITIVE: string := "positive"
  const NEGATIVE: string := "negative"

  /** One stored transaction. `kind` is the record's `type` field; it is kept a
      string because the screens compare it with string literals and treat
      every value other than "negative" alike in places. */
  datatype Transaction = Transaction(
    id: string,
    name: string,
    amount: Cents,
    kind: string,
    category: string,
    date: Date)

  /** The device's key-value store, with the JSON (de)serialisation folded in. */
  type Store = map<string, seq<Transaction>>

  const KEY_PREFIX: string := "@gofinances:transactions_user:"

  /** The key under which one user's transactions are stored. */
  function TransactionsKey(userId: string): string
  {
    KEY_PREFIX + userId
  }

  /** Different users never share a storage key. */
  lemma {:induction false} KeyInjective(u: string, v: string)
    ensures TransactionsKey(u) == TransactionsKey(v) ==> u == v
  {
    if TransactionsKey(u) == TransactionsKey(v) {
      calc {
        u;
        TransactionsKey(u)[|KEY_PREFIX|..];
        TransactionsKey(v)[|KEY_PREFIX|..];
        v;
      }
    }
  }

  /** What a screen reads for `userId`: the stored list, or the empty list when
      the key is absent. */
  function Load(store: Store, userId: string): seq<Transaction>
  {
    var key := TransactionsKey(userId);
    if key in store then store[key] else []
  }

  /** Sum of the amounts of a list of transactions (the screens' running totals
      and `reduce`). */
  function Sum(txs: seq<Transaction>): int
  {
    if txs == [] then 0 else txs[0].amount + Sum(txs[1..])
  }

  /** Adding a transaction at the end adds its amount, and a list of positive
      amounts never sums below zero. */
  lemma {:induction false} SumAppend(txs: seq<Transaction>, t: Transaction)
    ensures Sum(txs + [t]) == Sum(txs) + t.amount
    ensures Sum(txs) >= 0
  {
    if txs != [] {
      assert (txs + [t])[1..] == txs[1..] + [t];
      SumAppend(txs[1..], t);
    }
  }
}

/** The dashboard's highlight cards: entries, expenses and net total, each with
    a "last transaction" label, and the reformatted transaction list. */
module Dashboard {
  import opened Ledger

  /** The day and month of a date: what the "D de <month name>" text shows.
      Rendering the pt-BR month name is left to the locale formatter. */
  datatype DayOfMonth = DayOfMonth(day: int, month: int)

  /** What `getLastTransaction` returns: the numeric sentinel 0 when there is no
      record of the type, otherwise the day and month of the latest one. */
  datatype LastTransaction = Zero | On(when: DayOfMonth)

  /** The text under a highlight card. */
  datatype Label =
    | NoTransactions                   // "Não há transações"
    | LastEntryDay(when: DayOfMonth)   // "Última entrada dia D de M"
    | LastExpenseDay(when: DayOfMonth) // "Última saída dia D de M"
    | FromFirstTo(when: DayOfMonth)    // "01 a D de M"

  /** One highlight card; `amount` is in cents (the BRL rendering is left out). */
  datatype Highlight = Highlight(amount: int, lastTransaction: Label)

  datatype HighlightData = HighlightData(entries: Highlight, expensive: Highlight, total: Highlight)

  /** An amount rendered as BRL currency text. */
  datatype Money = Brl(cents: int)

  /** A date rendered as "dd/mm/yy". */
  datatype ShortDate = ShortDate(day: int, month: int, year2: int)

  /** A list item as the dashboard shows it: the stored record with amount and
      date replaced by their display forms. */
  datatype FormattedTransaction = FormattedTransaction(
    id: string,
    name: string,
    amount: Money,
    kind: string,
    category: string,
    date: ShortDate)

  /** `a` is no later than `b`: the order of the dates' timestamps. */
  predicate NotAfter(a: Date, b: Date)
  {
    a.year < b.year
    || (a.year == b.year && (a.month < b.month || (a.month == b.month && a.day <= b.day)))
  }

  function DayOf(d: Date): DayOfMonth
  {
    DayOfMonth(d.day, d.month)
  }

  /** `Math.max` over a non-empty list of dates. */
  function Latest(ds: seq<Date>): (m: Date)
    requires |ds| > 0
    ensures m in ds
    ensures forall i :: 0 <= i < |ds| ==> NotAfter(ds[i], m)
  {
    if |ds| == 1 then ds[0]
    else
      var rest := Latest(ds[1..]);
      assert forall i :: 1 <= i < |ds| ==> ds[i] == ds[1..][i - 1];
      if NotAfter(rest, ds[0]) then ds[0] else rest
  }

  /** The records of one type, in stored order (`collection.filter`). */
  function OfKind(txs: seq<Transaction>, kind: string): (f: seq<Transaction>)
    ensures forall t :: t in f <==> t in txs && t.kind == kind
  {
    if txs == [] then []
    else (if txs[0].kind == kind then [txs[0]] else []) + OfKind(txs[1..], kind)
  }

  lemma {:induction false} OfKindAppend(txs: seq<Transaction>, t: Transaction, kind: string)
    ensures OfKind(txs + [t], kind) == OfKind(txs, kind) + (if t.kind == kind then [t] else [])
  {
    if txs != [] {
      assert (txs + [t])[1..] == txs[1..] + [t];
      OfKindAppend(txs[1..], t, kind);
    }
  }

  /** `getLastTransaction`: the sentinel exactly when no record has the type,
      otherwise the day and month of a record of that type dated no earlier
      than any other record of that type. */
  function GetLastTransaction(txs: seq<Transaction>, kind: string): (r: LastTransaction)
    ensures r.Zero? <==> forall t :: t in txs ==> t.kind != kind
    ensures r.On? ==>
      exists t :: t in txs && t.kind == kind && r.when == DayOf(t.date)
        && forall u :: u in txs && u.kind == kind ==> NotAfter(u.date, t.date)
  {
    var filtered := OfKind(txs, kind);
    if |filtered| == 0 then Zero
    else
      var dates := seq(|filtered|, i requires 0 <= i < |filtered| => filtered[i].date);
      var last := Latest(dates);
      var k :| 0 <= k < |dates| && dates[k] == last;
      assert filtered[k] in txs;
      assert forall u :: u in filtered ==> NotAfter(u.date, last) by {
        forall u | u in filtered ensures NotAfter(u.date, last) {
          var j :| 0 <= j < |filtered| && filtered[j] == u;
          assert dates[j] == u.date;
        }
      }
      On(DayOf(last))
  }

  /** Total of the records whose type is "negative". */
  function ExpensesTotal(txs: seq<Transaction>): int
  {
    if txs == [] then 0
    else (if txs[0].kind == NEGATIVE then txs[0].amount else 0) + ExpensesTotal(txs[1..])
  }

  /** Total of every record whose type is not "negative" (not only "positive"). */
  function EntriesTotal(txs: seq<Transaction>): int
  {
    if txs == [] then 0
    else (if txs[0].kind != NEGATIVE then txs[0].amount else 0) + EntriesTotal(txs[1..])
  }

  /** One more record adds its amount to exactly one of the two totals: the
      expense total when its type is "negative", the entries total otherwise. */
  lemma {:induction false} TotalsAppend(txs: seq<Transaction>, t: Transaction)
    ensures ExpensesTotal(txs + [t]) == ExpensesTotal(txs) + (if t.kind == NEGATIVE then t.amount else 0)
    ensures EntriesTotal(txs + [t]) == EntriesTotal(txs) + (if t.kind != NEGATIVE then t.amount else 0)
  {
    if txs != [] {
      assert (txs + [t])[1..] == txs[1..] + [t];
      TotalsAppend(txs[1..], t);
    }
  }

  /** Every record is counted exactly once: the two totals add up to the sum of
      all amounts. */
  lemma {:induction false} EachRecordCountedOnce(txs: seq<Transaction>)
    ensures EntriesTotal(txs) + ExpensesTotal(txs) == Sum(txs)
  {
    if txs != [] {
      EachRecordCountedOnce(txs[1..]);
    }
  }

  function EntriesLabel(last: LastTransaction): Label
  {
    if last.Zero? then NoTransactions else LastEntryDay(last.when)
  }

  function ExpensesLabel(last: LastTransaction): Label
  {
    if last.Zero? then NoTransactions else LastExpenseDay(last.when)
  }

  /** `totalInterval`: anchored to the latest expense, not to the latest
      activity of either type. */
  function IntervalLabel(lastExpense: LastTransaction): Label
  {
    if lastExpense.Zero? then NoTransactions else FromFirstTo(lastExpense.when)
  }

  /** The three highlight cards `loadTransaction` derives from a ledger. The
      entries label looks only at "positive" records, although the entries
      total counts every record that is not "negative"; the net label looks
      only at "negative" records. */
  function Highlights(txs: seq<Transaction>): (h: HighlightData)
    ensures h.entries.amount == EntriesTotal(txs) && h.expensive.amount == ExpensesTotal(txs)
    ensures h.total.amount == h.entries.amount - h.expensive.amount
    ensures (exists t :: t in txs && t.kind == POSITIVE) ==> h.entries.lastTransaction.LastEntryDay?
    ensures (exists t :: t in txs && t.kind == NEGATIVE) ==>
      && h.expensive.lastTransaction.LastExpenseDay?
      && h.total.lastTransaction == FromFirstTo(h.expensive.lastTransaction.when)
    ensures h.entries.lastTransaction == NoTransactions <==> forall t :: t in txs ==> t.kind != POSITIVE
    ensures h.expensive.lastTransaction == NoTransactions <==> forall t :: t in txs ==> t.kind != NEGATIVE
    ensures h.total.lastTransaction == NoTransactions <==> forall t :: t in txs ==> t.kind != NEGATIVE
    ensures h.total.lastTransaction.FromFirstTo? ==>
      h.expensive.lastTransaction == LastExpenseDay(h.total.lastTransaction.when)
    ensures h.entries.lastTransaction.LastEntryDay? ==>
      exists t :: t in txs && t.kind == POSITIVE && DayOf(t.date) == h.entries.lastTransaction.when
        && forall u :: u in txs && u.kind == POSITIVE ==> NotAfter(u.date, t.date)
    ensures h.expensive.lastTransaction.LastExpenseDay? ==>
      exists t :: t in txs && t.kind == NEGATIVE && DayOf(t.date) == h.expensive.lastTransaction.when
        && forall u :: u in txs && u.kind == NEGATIVE ==> NotAfter(u.date, t.date)
  {
    var entries := EntriesTotal(txs);
    var expenses := ExpensesTotal(txs);
    var lastEntries := GetLastTransaction(txs, POSITIVE);
    var lastExpensive := GetLastTransaction(txs, NEGATIVE);
    HighlightData(
      Highlight(entries, EntriesLabel(lastEntries)),
      Highlight(expenses, ExpensesLabel(lastExpensive)),
      Highlight(entries - expenses, IntervalLabel(lastExpensive)))
  }

  /** The per-record map: keeps id, name, type and category; replaces the
      amount by its currency text and the date by its "dd/mm/yy" text. */
  function Format(t: Transaction): FormattedTransaction
  {
    FormattedTransaction(t.id, t.name, Brl(t.amount), t.kind, t.category,
      ShortDate(t.date.day, t.date.month, t.date.year % 100))
  }

  /** A list item shows its record: id, name, type and category are kept, the
      amount is the record's amount as currency, and the date is the record's
      day, month and year modulo 100. */
  predicate Shows(f: FormattedTransaction, t: Transaction)
  {
    && f.id == t.id && f.name == t.name && f.kind == t.kind && f.category == t.category
    && f.amount.cents == t.amount
    && f.date.day == t.date.day && f.date.month == t.date.month
    && 0 <= f.date.year2 < 100 && (t.date.year - f.date.year2) % 100 == 0
  }

  lemma FormatShows(t: Transaction)
    ensures Shows(Format(t), t)
  {
  }

  /** `loadTransaction`: reads the user's list, accumulates both totals in one
      pass while reformatting each record, then builds the highlight cards. */
  method LoadTransaction(store: Store, userId: string)
    returns (highlight: HighlightData, formatted: seq<FormattedTransaction>)
    ensures highlight == Highlights(Load(store, userId))
    ensures |formatted| == |Load(store, userId)|
    ensures forall i :: 0 <= i < |formatted| ==> formatted[i] == Format(Load(store, userId)[i])
    ensures forall i :: 0 <= i < |formatted| ==> Shows(formatted[i], Load(store, userId)[i])
  {
    var transactions := Load(store, userId);
    var entriesTotal := 0;
    var expensiveTotal := 0;
    formatted := [];
    for i := 0 to |transactions|
      invariant entriesTotal == EntriesTotal(transactions[..i])
      invariant expensiveTotal == ExpensesTotal(transactions[..i])
      invariant |formatted| == i
      invariant forall k :: 0 <= k < i ==> formatted[k] == Format(transactions[k])
    {
      var item := transactions[i];
      if item.kind == NEGATIVE {
        expensiveTotal := expensiveTotal + item.amount;
      } else {
        entriesTotal := entriesTotal + item.amount;
      }
      formatted := formatted + [Format(item)];
      assert transactions[..i + 1] == transactions[..i] + [item];
      TotalsAppend(transactions[..i], item);
    }
    assert transactions[..|transactions|] == transactions;
    forall i | 0 <= i < |formatted|
      ensures Shows(formatted[i], transactions[i])
    {
      FormatShows(transactions[i]);
    }

    var lastTransactionEntries := GetLastTransaction(transactions, POSITIVE);
    var lastTransactionExpensive := GetLastTransaction(transactions, NEGATIVE);
    var totalInterval := IntervalLabel(lastTransactionExpensive);
    var total := entriesTotal - expensiveTotal;
    highlight := HighlightData(
      Highlight(entriesTotal, EntriesLabel(lastTransactionEntries)),
      Highlight(expensiveTotal, ExpensesLabel(lastTransactionExpensive)),
      Highlight(total, totalInterval));
  }

  /** A user with nothing stored sees zero on every card and the sentinel on
      every label. */
  lemma EmptyLedger(store: Store, userId: string)
    requires TransactionsKey(userId) !in store
    ensures Highlights(Load(store, userId))
      == HighlightData(Highlight(0, NoTransactions), Highlight(0, NoTransactions), Highlight(0, NoTransactions))
  {
  }

  /** The net card's label ignores income: adding a record whose type is not
      "negative" leaves it as it was, however recent that record is. */
  lemma NetLabelIgnoresEntries(txs: seq<Transaction>, t: Transaction)
    requires t.kind != NEGATIVE
    ensures Highlights(txs + [t]).total.lastTransaction == Highlights(txs).total.lastTransaction
  {
  }

  /** A record whose type is neither "positive" nor "negative" raises the
      entries total while the entries label still reports no transactions. */
  lemma EntriesLabelIgnoresOtherTypes(t: Transaction)
    requires t.kind != POSITIVE && t.kind != NEGATIVE
    ensures Highlights([t]).entries == Highlight(t.amount, NoTransactions)
  {
    assert [t][1..] == [];
    assert EntriesTotal([t]) == t.amount;
    assert GetLastTransaction([t], POSITIVE) == Zero;
  }
}

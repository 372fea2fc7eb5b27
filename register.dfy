/** The registration screen: the form's schema, the two selection guards, and
    the read-append-write of the new record into the user's stored list. */
module Register {
  import opened Ledger
  import Dashboard
  import Resume

  // ---------------------------------------------------------------------------
  // The form schema

  /** What the amount field holds once the form library has read it. */
  datatype AmountInput =
    | Missing               // the field was never filled in
    | NotNumeric            // text that is not a number
    | Numeric(cents: int)   // a number, in cents

  datatype FormData = FormData(name: string, amount: AmountInput)

  /** The schema's error messages, one per failed rule. */
  datatype FieldError =
    | NameRequired        // "Nome é obrigatório"
    | AmountNotNumeric    // "Informe um valor numérico"
    | AmountNotPositive   // "O valor não pode ser negativo"
    | AmountRequired      // "O valor é obrigatório"

  /** A form that passed the schema. */
  datatype ValidForm = ValidForm(name: string, amount: Cents)

  datatype Result<T, E> = Ok(value: T) | Err(errors: E)

  function NameErrors(name: string): seq<FieldError>
  {
    if name == "" then [NameRequired] else []
  }

  function AmountErrors(amount: AmountInput): seq<FieldError>
  {
    match amount
    case Missing => [AmountRequired]
    case NotNumeric => [AmountNotNumeric]
    case Numeric(cents) => if cents > 0 then [] else [AmountNotPositive]
  }

  /** The schema: a non-empty name, and an amount that is present, numeric and
      strictly positive. Every failed field reports its own error. */
  function Validate(form: FormData): (r: Result<ValidForm, seq<FieldError>>)
    ensures r.Ok? <==> form.name != "" && form.amount.Numeric? && form.amount.cents > 0
    ensures r.Ok? ==> r.value.name == form.name && r.value.amount == form.amount.cents
    ensures r.Err? ==> (NameRequired in r.errors <==> form.name == "")
    ensures r.Err? ==> (AmountRequired in r.errors <==> form.amount.Missing?)
    ensures r.Err? ==> (AmountNotNumeric in r.errors <==> form.amount.NotNumeric?)
    ensures r.Err? ==> (AmountNotPositive in r.errors <==> form.amount.Numeric? && form.amount.cents <= 0)
  {
    var errors := NameErrors(form.name) + AmountErrors(form.amount);
    if errors == [] then Ok(ValidForm(form.name, form.amount.cents)) else Err(errors)
  }

  // ---------------------------------------------------------------------------
  // Appending to the store

  /** The store after `t` is appended to `userId`'s list (`[...currentData, newData]`
      written back under the user's key). */
  function Registered(items: Store, userId: string, t: Transaction): Store
  {
    items[TransactionsKey(userId) := Load(items, userId) + [t]]
  }

  /** The user's list grows by exactly one record, at the end; the old records
      keep their values and their order. A user with nothing stored gets a
      one-element list. */
  lemma RegisteredAppends(items: Store, userId: string, t: Transaction)
    ensures var before, after := Load(items, userId), Load(Registered(items, userId, t), userId);
      |after| == |before| + 1 && after[..|before|] == before && after[|before|] == t
    ensures TransactionsKey(userId) !in items ==> Load(Registered(items, userId, t), userId) == [t]
  {
  }

  /** No other user's list changes, and no other key of the store. */
  lemma {:induction false} RegisteredOthersUntouched(items: Store, userId: string, t: Transaction, other: string)
    requires other != userId
    ensures Load(Registered(items, userId, t), other) == Load(items, other)
    ensures forall k :: k != TransactionsKey(userId) ==>
      (k in Registered(items, userId, t) <==> k in items)
      && (k in items ==> Registered(items, userId, t)[k] == items[k])
  {
    KeyInjective(userId, other);
  }

  /** The dashboard sees the new record: its amount joins the expense total
      when its type is "negative" and the entries total otherwise. */
  lemma RegisterThenHighlights(items: Store, userId: string, t: Transaction)
    ensures var before, after :=
      Dashboard.Highlights(Load(items, userId)), Dashboard.Highlights(Load(Registered(items, userId, t), userId));
      && after.expensive.amount == before.expensive.amount + (if t.kind == NEGATIVE then t.amount else 0)
      && after.entries.amount == before.entries.amount + (if t.kind != NEGATIVE then t.amount else 0)
  {
    Dashboard.TotalsAppend(Load(items, userId), t);
  }

  /** The resume of the new record's month sees it when it is an expense: the
      month's total grows by its amount. */
  lemma RegisterThenResume(items: Store, userId: string, t: Transaction, selected: Date)
    ensures var before, after :=
      Resume.SelectExpenses(Load(items, userId), selected),
      Resume.SelectExpenses(Load(Registered(items, userId, t), userId), selected);
      Sum(after) == Sum(before) + (if Resume.IsSelectedExpense(t, selected) then t.amount else 0)
  {
    var before := Load(items, userId);
    assert Load(Registered(items, userId, t), userId) == before + [t];
    Resume.SelectExpensesAppend(before, t, selected);
    var selectedBefore := Resume.SelectExpenses(before, selected);
    if Resume.IsSelectedExpense(t, selected) {
      SumAppend(selectedBefore, t);
    } else {
      assert selectedBefore + [] == selectedBefore;
    }
  }

  // ---------------------------------------------------------------------------
  // The screen

  /** The category selector's value: a catalog key and name, or the placeholder. */
  datatype CategoryChoice = CategoryChoice(key: string, name: string)

  const PLACEHOLDER: CategoryChoice := CategoryChoice("category", "Categoria")

  /** The screen's own state: the selected type ("" for none) and category. */
  datatype ScreenState = ScreenState(transactionType: string, category: CategoryChoice)

  const INITIAL: ScreenState := ScreenState("", PLACEHOLDER)

  datatype RegisterOutcome =
    | TypeNotSelected       // "Selecione o tipo da transação"
    | CategoryNotSelected   // "Selecione a categoria"
    | Saved(record: Transaction)

  /** What one `handleRegister` call does, as a value. */
  datatype Step = Step(outcome: RegisterOutcome, state: ScreenState, items: Store)

  /** `handleRegister` on a form that passed the schema: abort without writing
      when no type is selected or the category is still the placeholder;
      otherwise append the new record to the user's list and reset the type and
      category. The id and the date are supplied by the caller. */
  function RegisterStep(state: ScreenState, items: Store, form: ValidForm, userId: string, id: string, now: Date): (r: Step)
    ensures r.outcome.Saved? <==> state.transactionType != "" && state.category.key != PLACEHOLDER.key
    ensures !r.outcome.Saved? ==> r.items == items && r.state == state
    ensures state.transactionType == "" ==> r.outcome == TypeNotSelected
    ensures state.transactionType != "" && state.category.key == PLACEHOLDER.key ==> r.outcome == CategoryNotSelected
    ensures r.outcome.Saved? ==>
      && r.outcome.record == Transaction(id, form.name, form.amount, state.transactionType, state.category.key, now)
      && r.state == INITIAL
      && Load(r.items, userId) == Load(items, userId) + [r.outcome.record]
      && r.items == Registered(items, userId, r.outcome.record)
  {
    if state.transactionType == "" then Step(TypeNotSelected, state, items)
    else if state.category.key == PLACEHOLDER.key then Step(CategoryNotSelected, state, items)
    else
      var newData := Transaction(id, form.name, form.amount, state.transactionType, state.category.key, now);
      Step(Saved(newData), INITIAL, Registered(items, userId, newData))
  }

  /** The device store, as the screens use it: one list of records per key. */
  class Storage {
    var items: Store

    constructor (initial: Store)
      ensures items == initial
    {
      items := initial;
    }

    /** `getItem`: the stored list, or nothing when the key is absent. */
    method GetItem(key: string) returns (value: Option<seq<Transaction>>)
      ensures key in items <==> value.Some?
      ensures value.Some? ==> value.value == items[key]
    {
      value := if key in items then Some(items[key]) else None;
    }

    /** `setItem`: replaces the value under one key and nothing else. */
    method SetItem(key: string, value: seq<Transaction>)
      modifies this
      ensures items == old(items)[key := value]
    {
      items := items[key := value];
    }
  }

  class RegisterScreen {
    var transactionType: string
    var category: CategoryChoice

    /** Only the two type buttons ever set the type. */
    predicate Valid()
      reads this
    {
      transactionType in {"", POSITIVE, NEGATIVE}
    }

    function State(): ScreenState
      reads this
    {
      ScreenState(transactionType, category)
    }

    constructor ()
      ensures Valid() && State() == INITIAL
    {
      transactionType := "";
      category := PLACEHOLDER;
    }

    /** `handleTransactionTypeSelect`. */
    method SelectTransactionType(kind: string)
      requires Valid()
      requires kind == POSITIVE || kind == NEGATIVE
      modifies this
      ensures Valid() && State() == ScreenState(kind, old(category))
    {
      transactionType := kind;
    }

    /** The category selector's `setCategory`. */
    method SelectCategory(choice: CategoryChoice)
      requires Valid()
      modifies this
      ensures Valid() && State() == ScreenState(old(transactionType), choice)
    {
      category := choice;
    }

    /** `handleRegister`: the guards, then read the user's list (absent means
        empty), append the new record and write the list back, then reset the
        type and category. Every record it saves has type "positive" or
        "negative". */
    method HandleRegister(form: ValidForm, userId: string, id: string, now: Date, storage: Storage)
      returns (outcome: RegisterOutcome)
      requires Valid()
      modifies this, storage
      ensures Valid()
      ensures Step(outcome, State(), storage.items)
        == RegisterStep(old(State()), old(storage.items), form, userId, id, now)
      ensures outcome.Saved? ==> outcome.record.kind == POSITIVE || outcome.record.kind == NEGATIVE
    {
      var key := TransactionsKey(userId);
      if transactionType == "" {
        return TypeNotSelected;
      }
      if category.key == PLACEHOLDER.key {
        return CategoryNotSelected;
      }
      var newData := Transaction(id, form.name, form.amount, transactionType, category.key, now);
      var data := storage.GetItem(key);
      var currentData := if data.Some? then data.value else [];
      var dataFormatted := currentData + [newData];
      storage.SetItem(key, dataFormatted);
      transactionType := "";
      category := PLACEHOLDER;
      outcome := Saved(newData);
    }

    /** The submit button, `handleSubmit(handleRegister)`: a form that fails the
        schema reports its errors and changes nothing; a valid one is handed to
        `handleRegister`. */
    method Submit(form: FormData, userId: string, id: string, now: Date, storage: Storage)
      returns (result: Result<RegisterOutcome, seq<FieldError>>)
      requires Valid()
      modifies this, storage
      ensures Valid()
      ensures Validate(form).Err? ==>
        result == Err(Validate(form).errors) && State() == old(State()) && storage.items == old(storage.items)
      ensures Validate(form).Ok? ==>
        && result.Ok?
        && Step(result.value, State(), storage.items)
             == RegisterStep(old(State()), old(storage.items), Validate(form).value, userId, id, now)
    {
      var checked := Validate(form);
      if checked.Err? {
        return Err(checked.errors);
      }
      var outcome := HandleRegister(checked.value, userId, id, now, storage);
      result := Ok(outcome);
    }
  }
}

/** Record shapes of the database tables (accounts, categories, transactions),
    their default values, and the timezone-naive timestamps they carry. */
module Models {
  import opened Common

  // ---------------------------------------------------------------------------
  // Calendar values
  // ---------------------------------------------------------------------------

  /** Range of years a timestamp can represent. */
  const MIN_YEAR: int := 1
  const MAX_YEAR: int := 9999
  const SECONDS_PER_DAY: int := 86400

  /** A calendar day: what SQL `date(created_at)` keeps of a timestamp. */
  datatype Date = Date(year: int, month: int, day: int)

  /** A timezone-naive timestamp: a calendar day and the time since its midnight. */
  datatype DateTime = DateTime(date: Date, secondOfDay: int)

  predicate IsLeapYear(year: int) {
    year % 4 == 0 && (year % 100 != 0 || year % 400 == 0)
  }

  function DaysInMonth(year: int, month: int): (n: int)
    requires 1 <= month <= 12
    ensures 28 <= n <= 31
    ensures n == 29 <==> month == 2 && IsLeapYear(year)
  {
    if month == 2 then (if IsLeapYear(year) then 29 else 28)
    else if month == 4 || month == 6 || month == 9 || month == 11 then 30
    else 31
  }

  predicate ValidDate(d: Date) {
    && MIN_YEAR <= d.year <= MAX_YEAR
    && 1 <= d.month <= 12
    && 1 <= d.day <= DaysInMonth(d.year, d.month)
  }

  predicate ValidDateTime(t: DateTime) {
    ValidDate(t.date) && 0 <= t.secondOfDay < SECONDS_PER_DAY
  }

  /** Chronological order of days: year, then month, then day. */
  predicate DateBefore(a: Date, b: Date) {
    || a.year < b.year
    || (a.year == b.year && a.month < b.month)
    || (a.year == b.year && a.month == b.month && a.day < b.day)
  }

  /** Chronological order of timestamps: day, then time of day. */
  predicate Before(a: DateTime, b: DateTime) {
    DateBefore(a.date, b.date) || (a.date == b.date && a.secondOfDay < b.secondOfDay)
  }

  /** The timestamp constructor `datetime(year, month, day)`: the first instant
      of that day, or None where the constructor raises. */
  function MakeDateTime(year: int, month: int, day: int): (r: Option<DateTime>)
    ensures r.Some? <==> ValidDate(Date(year, month, day))
    ensures r.Some? ==> ValidDateTime(r.value) && r.value.date == Date(year, month, day)
    ensures r.Some? ==> forall t :: ValidDateTime(t) && t.date == r.value.date ==> !Before(t, r.value)
  {
    var d := Date(year, month, day);
    if ValidDate(d) then Some(DateTime(d, 0)) else None
  }

  /** Both orders are strict total orders; the sorts and range splits rely on it. */
  lemma DateBeforeIsStrictTotalOrder(a: Date, b: Date, c: Date)
    ensures !DateBefore(a, a)
    ensures DateBefore(a, b) && DateBefore(b, c) ==> DateBefore(a, c)
    ensures a != b ==> DateBefore(a, b) || DateBefore(b, a)
    ensures !(DateBefore(a, b) && DateBefore(b, a))
  {
  }

  lemma BeforeIsStrictTotalOrder(a: DateTime, b: DateTime, c: DateTime)
    ensures !Before(a, a)
    ensures Before(a, b) && Before(b, c) ==> Before(a, c)
    ensures a != b ==> Before(a, b) || Before(b, a)
    ensures !(Before(a, b) && Before(b, a))
  {
  }

  // ---------------------------------------------------------------------------
  // Accounts
  // ---------------------------------------------------------------------------

  const DEFAULT_CURRENCY: string := "EUR"

  /** Request body for creating an account; the currency is only a label. */
  datatype AccountCreate = AccountCreate(name: string, currency: string)

  /** An account row; `id` is None until the table assigns one. */
  datatype Account = Account(id: Option<int>, name: string, currency: string)

  /** An account payload that leaves the currency at its default. */
  function AccountCreateWithDefaults(name: string): (p: AccountCreate)
    ensures p.name == name && p.currency == "EUR"
  {
    AccountCreate(name, DEFAULT_CURRENCY)
  }

  /** The unsaved row built from a payload. */
  function AccountFromPayload(p: AccountCreate): (a: Account)
    ensures a.id.None? && a.name == p.name && a.currency == p.currency
  {
    Account(None, p.name, p.currency)
  }

  // ---------------------------------------------------------------------------
  // Categories
  // ---------------------------------------------------------------------------

  /** The category table as the reports read it: the name of each
      category id. */
  type CategoryTable = map<int, string>

  // ---------------------------------------------------------------------------
  // Transactions
  // ---------------------------------------------------------------------------

  /** Request body for creating a transaction. `amount` is in cents: positive
      is income, negative is expense, zero is allowed. */
  datatype TransactionCreate = TransactionCreate(
    accountId: int,
    amount: int,
    note: string,
    categoryId: Option<int>,
    createdAt: DateTime)

  /** A transaction row; `id` is None until the table assigns one. */
  datatype Transaction = Transaction(
    id: Option<int>,
    accountId: int,
    amount: int,
    note: string,
    categoryId: Option<int>,
    createdAt: DateTime)

  /** A transaction payload that leaves note and category at their defaults.
      The default timestamp reads the clock, so it is passed in. */
  function TransactionCreateWithDefaults(accountId: int, amount: int, now: DateTime): (p: TransactionCreate)
    ensures p.note == "" && p.categoryId.None?
    ensures p.accountId == accountId && p.amount == amount && p.createdAt == now
  {
    TransactionCreate(accountId, amount, "", None, now)
  }

  /** The unsaved row built from a payload. */
  function TransactionFromPayload(p: TransactionCreate): (t: Transaction)
    ensures t.id.None?
    ensures t.accountId == p.accountId && t.amount == p.amount && t.note == p.note
    ensures t.categoryId == p.categoryId && t.createdAt == p.createdAt
  {
    Transaction(None, p.accountId, p.amount, p.note, p.categoryId, p.createdAt)
  }

  /** The calendar day of a transaction's timestamp. */
  function DayOf(t: Transaction): Date {
    t.createdAt.date
  }
}

# Ledger storage layer and reports, modelled in Dafny

This project models the core of a personal-finance ledger: the storage layer
that keeps the category, bank-account and transaction tables, and the
read-side reports computed from the transaction table (account balance,
per-category summary, ASCII bar chart).

- `records.dfy` (module `Records`): the rows. An account is `Account(id,
  name, accountType, description)`, a transaction is `Txn(id, date,
  description, amount, category, accountId)`. Amounts are fixed-point with
  two fractional digits and are held as integer cents; dates are integer
  day ordinals; the optional category is `Option<string>`. It also holds the
  rule by which SQLite numbers a new row of an INTEGER PRIMARY KEY table:
  one more than the largest id, 1 for an empty table.
- `storage.dfy` (module `Storage`): the category table as pure functions on a
  sequence of distinct names (`Seeded`, `WithCategory`, `Without`), the
  account lookup (`FindAccount`), the conjunctive query (`Matches`, `Query`),
  and the class `Store` whose three sequence fields are the three tables and
  whose methods change them as `ledger/storage.py` does.
- `analysis.dfy` (module `Analysis`): `AccountBalance`, the
  `CategorySummary` loop that builds an insertion-ordered dictionary as a
  sequence of `Entry(category, amount)`, and the bar chart (`BarChart`, its
  output loop `GenerateBarChart`, and the lemmas about its rows).
- `scenarios.dfy` (module `Scenarios`): two client methods that exercise the
  store: category get-or-create and protected delete, and a transaction
  round trip through the query.

Where the code does less than its callers might expect, the model follows the code:

- `create_bank_account` does not reject an empty name or account type; the
  model stores whatever it is given.
- `create_transaction` does not check that the account id exists (SQLite
  does not enforce the foreign key unless asked to), and it is not atomic:
  `get_or_create_category` commits on its own before the transaction row is
  added. The model stores the account id as given and has no failing path.
- The bar length is `int(abs(amount) / max_val * width)`, a truncation, not a
  rounding.
- `get_transactions` tests its filters for truthiness (an empty category or
  account id 0 impose nothing), while `get_account_balance` tests them
  against `None` (account id 0 restricts the sum to account 0).
  `BalanceIsQueryTotal` and `BalanceAndQueryDifferAtZero` state both sides.
- `ledger/models.py` declares neither `BankAccount` nor a `Transaction.account_id`
  column; the model takes both from the migration's schema and from the way
  `ledger/storage.py` uses them.
- `ledger/storage.py:122-127` attaches an `else:` to a `with` statement,
  which Python does not allow, so that module cannot be imported as it
  stands; the model takes the evident intent (create the tables, then seed
  the default categories) and models only the seeding.

Deleting a category does not touch transactions: the category column is a
plain string, so a transaction keeps a deleted category's name.

## Model

| member | source | states |
|---|---|---|
| Records.MaxRowId | alembic/versions/initial_schema.py:22-28 | the largest id of a table is at least every stored id and is either 0 or one of them |
| Records.NextRowId | alembic/versions/initial_schema.py:41-50 | a new row's id is positive and differs from every id already in the table (1 for an empty table) |
| Records.Ids | alembic/versions/initial_schema.py:41-50 | the id column of a table lists each row's id, in row order |
| Records.AppendFreshId | ledger/storage.py:143-145 | appending a row with a new id keeps the primary key unique |
| Storage.DefaultsDistinct | ledger/storage.py:20-24 | the ten default category names are pairwise different |
| Storage.Missing | ledger/storage.py:32-38 | the defaults the bootstrap adds are exactly those absent from the existing names, each once |
| Storage.MissingStep | ledger/storage.py:34-38 | examining one more default appends it exactly when the existing table lacks it |
| Storage.Seeded | ledger/storage.py:27-40 | after the bootstrap every default is present, the old rows are an unchanged prefix, nothing but defaults is added, and names stay unique |
| Storage.SeededIdempotent | ledger/storage.py:32-38 | running the bootstrap on its own result changes nothing |
| Storage.WithCategory | ledger/storage.py:57-69 | after get-or-create the name is present, a present name leaves the table unchanged, an absent one is appended once, and names stay unique |
| Storage.OneRowPerName | alembic/versions/initial_schema.py:32-37 | a stored name has exactly one row, however often get-or-create was called |
| Storage.Without | ledger/storage.py:82-87 | deletion removes exactly the named row, keeps every other name, changes nothing for an absent name, and shrinks a unique table by one |
| Storage.WithoutKeepsOrder | ledger/storage.py:82-87 | in a table of unique names, deleting the row at index k leaves exactly the rows before it followed by the rows after it, each in their order |
| Storage.DeleteUndoesCreate | ledger/storage.py:57-87 | deleting a category just created by get-or-create restores the previous table |
| Storage.FindAccount | ledger/storage.py:153-155 | the lookup is None exactly when no account has the id, otherwise an account with that id |
| Storage.FindAfterAppend | ledger/storage.py:137-155 | after an account is added, earlier lookups are unchanged and its own id finds it when no earlier account had it |
| Storage.Matches | ledger/storage.py:196-203 | a date bound applies whenever given and is inclusive; an empty or absent category and an absent account id or account id 0 impose nothing; a supplied category or non-zero account id must equal the transaction's |
| Storage.Query | ledger/storage.py:186-205 | the result holds exactly the stored transactions passing every supplied filter, and never more rows than the table |
| Storage.QueryMultiplicity | ledger/storage.py:186-205 | a matching transaction occurs in the result as often as in the table, a non-matching one not at all |
| Storage.QueryAppend | ledger/storage.py:171-183 | a new transaction is added to the end of exactly the queries it matches |
| Storage.QueryNoFilter | ledger/storage.py:186-205 | with no filters the query returns the whole table in order |
| Storage.DateRangeInclusive | ledger/storage.py:196-199 | a date-range query keeps a stored transaction exactly when its date lies in the range, both ends included |
| Storage.Store.constructor | ledger/storage.py:116-119 | a new database has three empty tables |
| Storage.Store.InitializeDefaultCategories | ledger/storage.py:27-40 | the category table becomes `Seeded` of the old one; accounts and transactions are unchanged |
| Storage.Store.AddMissing | ledger/storage.py:32-38 | the loop appends, in list order, exactly the given names the table lacked when it started; accounts and transactions unchanged |
| Storage.Store.GetOrCreateCategory | ledger/storage.py:57-69 | returns the name; the category table becomes `WithCategory` of the old one; nothing else changes |
| Storage.Store.DeleteCategory | ledger/storage.py:71-87 | returns true exactly for a stored non-default name, removes only that name, and otherwise changes nothing; transactions are never touched |
| Storage.Store.CreateBankAccount | ledger/storage.py:130-147 | appends exactly one account with the given fields and an id no stored account has; other tables unchanged |
| Storage.Store.GetBankAccounts | ledger/storage.py:149-151 | returns every stored account in table order |
| Storage.Store.GetBankAccount | ledger/storage.py:153-155 | None exactly when no stored account has the id, otherwise a stored account with that id |
| Storage.Store.CreateTransaction | ledger/storage.py:157-183 | appends exactly one transaction with the given fields and a new id; a non-empty category is in the category table afterwards; accounts unchanged and the account id unchecked |
| Storage.Store.GetTransactions | ledger/storage.py:186-205 | returns exactly the stored transactions passing every supplied filter |
| Analysis.CountsToBalance | ledger/analysis.py:29-32 | the balance filters are tested against None only: any supplied account id, 0 included, must equal the transaction's, and a supplied end date bounds its date inclusively |
| Analysis.AccountBalance | ledger/analysis.py:21-35 | the balance is exactly 0 when no transaction passes the filters |
| Analysis.BalanceConcat | ledger/analysis.py:27-35 | the balance over two runs of transactions is the sum of their balances |
| Analysis.BalanceIsQueryTotal | ledger/analysis.py:27-33 | for any account filter but 0, the balance is the total amount of the matching transaction query |
| Analysis.BalanceAndQueryDifferAtZero | ledger/analysis.py:29-30 | for every table, with account id 0 the query returns what it returns with no account filter, while the balance counts only account 0 and is 0 when no transaction belongs to it; a one-row table shows both |
| Analysis.BalanceWithoutAccount | ledger/analysis.py:29-35 | the balance filtered on an account that no stored transaction belongs to is 0 |
| Analysis.QueryIgnoresAccountZero | ledger/storage.py:202-203 | a query filtered on account id 0 equals the same query with no account filter |
| Analysis.Effective | ledger/analysis.py:48 | a transaction is summed under its category, or under "Uncategorized" when the category is None or empty |
| Analysis.FirstSeen | ledger/analysis.py:46-51 | the summary keys are distinct and are exactly the effective categories that occur |
| Analysis.CategorySummary | ledger/analysis.py:37-51 | the keys are the effective categories of the matched transactions in first-seen order, and each value is the signed sum of the amounts under that key |
| Analysis.SumByCategory | ledger/analysis.py:46-49 | the accumulation loop yields the first-seen keys of its input, each with the sum of the amounts under it |
| Analysis.SummaryStep | ledger/analysis.py:47-49 | adding one transaction to its key's entry, or appending a new entry, keeps the keys in first-seen order and every entry equal to its key's sum |
| Analysis.UnseenSumsToZero | ledger/analysis.py:46-49 | a key that no transaction is summed under sums to 0 |
| Analysis.SummaryTotal | ledger/analysis.py:44-51 | the summary values together add up to the total of the matched amounts |
| Analysis.Unnamed | ledger/analysis.py:48 | the transactions whose category is None or empty, in table order |
| Analysis.UncategorizedCollects | ledger/analysis.py:46-49 | for any table, the "Uncategorized" entry is the total of the transactions with a missing or empty category plus that of the transactions literally categorised "Uncategorized", and the key is present whenever one transaction has a missing or empty category |
| Analysis.UncategorizedSum | ledger/analysis.py:46-49 | the "Uncategorized" sum splits into the unnamed transactions and those named "Uncategorized" |
| Analysis.AllUncategorized | ledger/analysis.py:46-49 | when no transaction has a category name, the summary has the single key "Uncategorized", which carries the whole total |
| Analysis.SignFilter | ledger/analysis.py:63-64 | keeps exactly the entries whose sign matches the requested one, zero counting as positive |
| Analysis.MaxMagnitude | ledger/analysis.py:70 | the maximum is at least every absolute amount and equal to one of them |
| Analysis.SortByMagnitude | ledger/analysis.py:74-76 | the result is ordered by non-increasing absolute amount and is a permutation of the input |
| Analysis.Ranked | ledger/analysis.py:63-76 | the charted entries are a permutation of the sign-filtered ones, largest absolute amount first, none above the maximum |
| Analysis.TruncDiv | ledger/analysis.py:77 | `int()` of a quotient truncates toward zero: for a non-negative numerator the result is the floor, for a negative one the ceiling |
| Analysis.BarLength | ledger/analysis.py:77 | a bar length lies in [0, width], and equals width exactly for the largest absolute amount |
| Analysis.RowFor | ledger/analysis.py:77-80 | a row shows the entry's category and absolute amount, and a bar length in [0, width] that is the full width exactly for the largest absolute amount |
| Analysis.BarChart | ledger/analysis.py:59-80 | the chart is "No data available" for empty data or no entry of the requested sign, a division by zero when the largest absolute amount is 0, and otherwise one row per ranked entry |
| Analysis.ChartNoData | ledger/analysis.py:59-67 | "No data available" is produced exactly when no entry has the requested sign |
| Analysis.ChartDivisionUndefined | ledger/analysis.py:66-77 | the division by zero happens exactly for the positive chart when every non-negative entry is 0 |
| Analysis.ChartRowsAreRanked | ledger/analysis.py:73-80 | row i shows the category and absolute amount of the i-th ranked entry, one row per ranked entry |
| Analysis.ChartRowsFromData | ledger/analysis.py:63-80 | one row per entry of the requested sign, each an entry of the data shown with its absolute amount |
| Analysis.ChartRowsOrdered | ledger/analysis.py:74-80 | the rows are ordered by non-increasing absolute amount |
| Analysis.ChartBarLengths | ledger/analysis.py:70-78 | every bar fits in the width and exactly the largest entries get the full width |
| Analysis.DrawRows | ledger/analysis.py:73-80 | the output loop produces one row per ranked entry, in order |
| Analysis.GenerateBarChart | ledger/analysis.py:53-82 | the method computes the chart that `BarChart` specifies |

## Left out

- Sessions, commits, rollbacks and connection handling (`get_db`), schema creation, `backup_database` and `migrate_database`: database and file-system plumbing with no logic of the ledger's own.
- Failure paths of the database (constraint violations, I/O errors) and therefore atomicity: the model's operations cannot fail, as the code performs no validation of its own.
- `created_at` timestamps: wall-clock values.
- `print_financial_report`, the command-line menus and the configuration files: presentation and environment.
- The category table's own surrogate id; categories are modelled by name.
- Analysis.GenerateBarChart: the row text (`{category:20} {amount_str:>10} {bar}`, the `$1,234.56` currency format, the `█` bar string) and the joining of rows with newlines are not modelled; a row is its category, absolute amount and bar length.
- Analysis.BarLength: computed exactly as a truncated integer quotient of cents; the source divides Decimals in a 28-digit context first, which can round differently when the exact quotient is an integer but the decimal expansion does not terminate (absolute amount 1, maximum 3, width 3 gives 0 in the source and 1 here). For the default width 40 the two agree.
- Analysis.SortByMagnitude: it keeps the input order of entries with equal absolute amounts, as Python's stable sort does, but no contract states that tie order.
- Analysis.AccountBalance: the sum is taken over the given table directly; it is not expressed as an SQL aggregate.

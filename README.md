# Expense tracker agent: a Dafny model of its in-memory state

This project models the in-memory core of the expense tracker's
`ExpenseTrackerAgent` (agent.py) and the registration rule of its terminal
loop:

- **Expense ledger.** `expenses` maps a username to that user's list of expense
  records. `next_id` maps a username to the id the user's next expense receives.
  The constructor derives the counters from the loaded lists as length + 1.
  `add_expense` creates a user's entry on first use, stamps the record with the
  current counter, appends it, and increments the counter.
- **Reporting.** `get_total_expenses` sums a user's amounts.
  `get_expenses_by_category` builds a category-to-sum dictionary in one loop.
  `generate_report` pairs the two.
- **Sessions.** `sessions` maps a username to a logged-in flag. `login` succeeds
  only for a registered user whose password verifies and who is not logged in
  already. `logout` succeeds only for a logged-in user. `is_logged_in` defaults
  to false.
- **Credential store.** `users_db` maps a username to `{'password': hash}`.
  Registration refuses a username that is already taken and otherwise binds it
  to the hash of the password.

Files:

- `ledger.dfy` (module `Ledger`): the `Expense` record, the counters invariant
  `CountersMatch`, and `Numbered` (ids are 1, 2, … in list order).
- `reporting.dfy` (module `Reporting`): `Sum`, `CategorySum`, `Categories`, the
  breakdown `ByCategory`, and `SumValues`, the sum of all values of a map. It
  proves that the total equals the sum of the breakdown's values.
- `agent.dfy` (module `Agent`): class `ExpenseTrackerAgent`, with the three
  dictionaries as `map` fields. Its methods update them in place.
- `credentials.dfy` (module `Credentials`): class `UserStore`, holding `users_db`
  and `Register`.
- `scenarios.dfy` (module `Scenarios`): call sequences such as a double login, a
  logout, interleaved additions, a repeated registration, and a full
  register/login/add/report walk-through. Each is proved from the contracts alone.

Modelling choices:

- Amounts are `real`, so sums are exact; the source uses Python floats.
- The password-hashing library is passed in as parameters.
  `get_password_hash` becomes `hash: string -> string`. `verify_password(plain,
  hashed)` becomes `verify: (string, string) -> bool`. The model assumes
  both are deterministic functions. bcrypt salts each hash, so the real
  `get_password_hash` gives a different digest for the same password on each
  call; that salting is not modelled. Nothing else is assumed about
  either function, except in the two scenarios that state one fact about
  `verify` as a precondition.
- `users_db` is a module-level dictionary in the source. Here it is the `users`
  field of a `UserStore` object. `Login` receives its current contents.
- The constructors take the loaded contents as a parameter. This stands in for
  `load_expenses()` and `load_users()`. Both return an empty dictionary when
  their file is missing. `load_expenses()` also returns one when its file is
  not valid JSON. Otherwise each returns the parsed file. The start-up failures
  these functions do not catch are listed under "## Left out".
- The counters invariant is kept as `Valid()`. `AddExpense` requires it, because
  with a list but no counter the source's `self.next_id[username]` would raise
  `KeyError`. The constructor establishes `Valid()`, and every method keeps it.
- "The sum of the breakdown's values" is `SumValues(m)`. It sums `m` over some
  listing of its keys. `SumValuesAnyOrder` shows that every listing without
  repetitions gives the same sum. `CategoryOrder` is the order in which the
  source's loop inserts the keys.
- Ids run 1..N for a user only if the loaded list was numbered that way. The
  constructor does not check the ids in the file; it only counts the records. So
  `Numbered` is not part of `Valid()`. Instead, `AddExpense` preserves it, and
  every user created by `AddExpense` starts with an empty list.
  `FreshUserIds` proves that N additions for a fresh user return the ids 1..N
  in call order, for any N, with an addition for another user after each one.
  `InterleavedIds` shows the case N = 2 with concrete records.

## Model

| member | source | states |
|---|---|---|
| `Agent.ExpenseTrackerAgent.constructor` | agent.py:82-86 | The ledger is the loaded one. Each loaded user's counter is the length of their list plus one, so the counters invariant holds. No one is logged in. |
| `Agent.ExpenseTrackerAgent.AddExpense` | agent.py:88-96 | The returned record's id is the user's previous counter, or 1 for a user with no entry. That id is one past the user's previous list length. The user's list grows by exactly that record at its end, and the user's counter becomes id + 1. Other users' lists and counters are unchanged, sessions are unchanged, and the counters invariant is preserved. A list numbered 1..n stays numbered. |
| `Agent.ExpenseTrackerAgent.GetTotalExpenses` | agent.py:99-102 | The total is 0 for a user with no entry, and otherwise the sum of the user's amounts. It also equals the sum of the values of the user's category breakdown. |
| `Agent.ExpenseTrackerAgent.GetExpensesByCategory` | agent.py:104-111 | An unknown user gets the empty map. Otherwise the keys are exactly the categories in the user's list, and each value is the sum of the amounts with that category. The proof goes through the loop, one record at a time. |
| `Agent.ExpenseTrackerAgent.GenerateReport` | agent.py:113-116 | The report's total is the user's sum of amounts, and its breakdown is the per-category map. The total equals the sum of the breakdown's values. |
| `Agent.ExpenseTrackerAgent.IsLoggedIn` | agent.py:133-135 | A username without a session entry reads as logged out. Otherwise the result is the stored flag. |
| `Agent.ExpenseTrackerAgent.Login` | agent.py:118-124 | The result is true exactly when the username is registered, the password verifies against the stored hash, and the user was not logged in. Then, and only then, the session becomes true. A failed login changes nothing. |
| `Agent.ExpenseTrackerAgent.Logout` | agent.py:126-131 | The result is true exactly when the user was logged in, and then the session becomes false. Otherwise nothing changes. |
| `Credentials.UserStore.constructor` | agent.py:22-26 | The store holds what was loaded: the parsed file, or nothing. |
| `Credentials.UserStore.Register` | agent.py:175-181 | Registration succeeds exactly when the username is new. A refused registration leaves the store unchanged. A successful one adds exactly that key, bound to the hash of the password, and keeps every existing entry. |
| `Ledger.NextIdIsLengthPlusOne` | agent.py:89-92 | Under the counters invariant, the id handed out next is one past the user's current list length. This holds whether or not the user has an entry yet. |
| `Ledger.NumberedAppend` | agent.py:92-94 | Appending a record whose id is one past the list length keeps the ids 1..n in order. |
| `Reporting.CategoryOrder` | agent.py:107-109 | The order in which the loop first inserts categories lists each category of the list exactly once, and nothing else. |
| `Reporting.CategoriesOccur` | agent.py:107-108 | A category is a key of the breakdown exactly when some expense of the list carries it. |
| `Reporting.CategorySumAbsent` | agent.py:108-109 | A category that does not occur sums to 0, the value the loop starts a new key at. |
| `Reporting.ByCategoryLast` | agent.py:107-110 | One iteration of the loop. The breakdown of a list is the breakdown of its prefix with only the last record's category changed: that key is created at 0 if new, then increased by the amount. |
| `Reporting.SumValuesAnyOrder` | agent.py:105-111 | The sum of a dictionary's values does not depend on the order in which its keys were inserted. |
| `Reporting.SumByCategoryOrder` | agent.py:99-111 | The sum of the amounts equals the per-category sums added up in first-occurrence order. |
| `Reporting.TotalIsSumOfCategories` | agent.py:113-116 | For every list, the total equals the sum of the values of the category breakdown. This is the report's consistency. |
| `Scenarios.AliceReport` | agent.py:173-220 | Starting from empty stores: register, log in, then add 3.5 "food" and 2.0 "transport". The ids are 1 and 2, and the report is total 5.5 with breakdown food 3.5 and transport 2.0. The only assumption is that verify accepts the hash of its own password. |
| `Scenarios.TwoCategories` | agent.py:104-111 | Two records of different categories give a breakdown with one key per category, each holding that record's amount, and a total equal to the two amounts added. |
| `Scenarios.WrongPassword` | agent.py:118-124 | A login whose password does not verify is refused, and the user stays logged out. |
| `Scenarios.LoginTwice` | agent.py:118-124 | A second login without a logout in between is always refused, and it does not log the user out. The ledger is untouched. |
| `Scenarios.LoginThenLogout` | agent.py:118-131 | A logout after a successful login succeeds and leaves the user logged out. A further logout is refused. |
| `Scenarios.InterleavedIds` | agent.py:88-96 | Two additions for a new user get ids 1 and 2, in call order, even with another user's addition between them. The other user's record gets that user's own counter. |
| `Scenarios.FreshUserIds` | agent.py:88-96 | For any N, N additions for a user with no entry return the ids 1..N in call order, even with another user's addition after each one. The user's list then holds N records numbered 1..N, and the counters invariant still holds. |
| `Scenarios.RegisterTwice` | agent.py:175-181 | Registering a taken username again is refused and keeps the first hash. |

## Left out

- File persistence is not modelled: `load_users`, `save_users`, `load_expenses`, `save_expenses`, and the `save_expenses()` call at the end of `add_expense`. This is file I/O. The loaded contents enter through the constructors. A caller passing an empty map stands for the empty-dictionary fallback. That fallback covers a missing file for either store, and an expense file that is not valid JSON.
- Start-up crashes and malformed stored records are not represented. A credential file that is not valid JSON makes `load_users` raise when the module loads (agent.py:22-26, 62). An expense file that is valid JSON but holds records that do not fit `Expense` makes `Expense(**expense)` raise when the agent is built (agent.py:42, 139). A credential record without a `'password'` key makes `login` raise `KeyError` (agent.py:120). `UserRecord` always holds a password, so it cannot represent such a record.
- The bcrypt hashing and verification (`pwd_context`, `get_password_hash`, `verify_password`) is a foreign library. It is passed in as deterministic function parameters. Its cryptographic properties and its per-hash salt are not modelled. A `verify` that raises on a malformed hash is not modelled either.
- The FastAPI app, the uvicorn server thread, `asyncio`, and the uagents `Agent` base class with its `Context` parameters are left out. They are network wiring and concurrency, and the model's calls are sequential. The source has no locking, so there is no lock to model. Any interleaving of whole calls is covered by the per-call contracts. Interleavings inside a call are not.
- The Rich console output, the prompts, `display_expense_report`, and the menu loop are left out as presentation. The exception is the registration branch, which is `UserStore.Register`. The walk-through scenarios stand for the sequences of calls the menu makes.
- Floating-point rounding and the `:.2f` formatting are left out. Amounts are exact reals, so the sums and grouping properties hold exactly. With floats they would hold only up to rounding.
- Python dictionaries keep insertion order, and the model's maps do not. The order is recorded separately by `CategoryOrder`.
- The `ExpenseCreate` request model is left out. It is declared but not used by the core.

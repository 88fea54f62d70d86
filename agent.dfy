/** The in-memory state of the expense tracker agent: the expense ledger with
    its per-user id counters, the reports computed from it, and the sessions. */
module Agent {
  import opened Ledger
  import opened Reporting
  import opened Credentials

  class ExpenseTrackerAgent {
    var expenses: map<string, seq<Expense>>
    var nextId: map<string, int>
    var sessions: map<string, bool>

    /** Every user with a list has a counter one past the list's length. */
    ghost predicate Valid()
      reads this
    {
      CountersMatch(expenses, nextId)
    }

    /** `loaded` is what reading the expense file produced: the parsed ledger,
        or the empty map when the file is missing or is not valid JSON. The counters are
        derived from the list lengths and nobody is logged in. */
    constructor (loaded: map<string, seq<Expense>>)
      ensures Valid()
      ensures expenses == loaded
      ensures forall u :: u in loaded ==> nextId[u] == |loaded[u]| + 1
      ensures sessions == map[]
    {
      expenses := loaded;
      nextId := map u | u in loaded :: |loaded[u]| + 1;
      sessions := map[];
    }

    /** Records an expense for `username`, creating the user's entry with counter 1
        on first use. The record gets the current counter as its id and goes at
        the end of the user's list; the counter goes up by one; no other user's
        list or counter changes. */
    method AddExpense(username: string, description: string, amount: real, category: string)
      returns (expense: Expense)
      requires Valid()
      modifies this`expenses, this`nextId
      ensures Valid()
      ensures expense == Expense(old(NextIdOf(nextId, username)), description, amount, category)
      ensures expense.id == |old(Entries(expenses, username))| + 1
      ensures expenses == old(expenses)[username := old(Entries(expenses, username)) + [expense]]
      ensures nextId == old(nextId)[username := expense.id + 1]
      ensures old(Numbered(Entries(expenses, username))) ==> Numbered(expenses[username])
    {
      NextIdIsLengthPlusOne(expenses, nextId, username);
      if username !in expenses {
        expenses := expenses[username := []];
        nextId := nextId[username := 1];
      }
      expense := Expense(nextId[username], description, amount, category);
      expenses := expenses[username := expenses[username] + [expense]];
      nextId := nextId[username := nextId[username] + 1];
      if old(Numbered(Entries(expenses, username))) {
        NumberedAppend(old(Entries(expenses, username)), expense);
      }
    }

    /** The sum of the user's amounts, 0 for a user without an entry; it is also
        the sum of the values of the user's category breakdown. */
    function GetTotalExpenses(username: string): (total: real)
      reads this
      ensures username !in expenses ==> total == 0.0
      ensures total == Sum(Entries(expenses, username))
      ensures total == SumValues(ByCategory(Entries(expenses, username)))
    {
      TotalIsSumOfCategories(Entries(expenses, username));
      if username in expenses then Sum(expenses[username]) else 0.0
    }

    /** Builds the category breakdown in one pass over the user's list: its keys
        are exactly the categories that occur, each mapped to the sum of that
        category's amounts; an unknown user gets the empty map. */
    method GetExpensesByCategory(username: string) returns (byCategory: map<string, real>)
      ensures username !in expenses ==> byCategory == map[]
      ensures forall c :: c in byCategory <==> c in Categories(Entries(expenses, username))
      ensures forall c :: c in byCategory ==> byCategory[c] == CategorySum(Entries(expenses, username), c)
      ensures byCategory == ByCategory(Entries(expenses, username))
    {
      byCategory := map[];
      if username in expenses {
        var list := expenses[username];
        var i := 0;
        while i < |list|
          invariant 0 <= i <= |list|
          invariant byCategory == ByCategory(list[..i])
        {
          var expense := list[i];
          if expense.category !in byCategory {
            byCategory := byCategory[expense.category := 0.0];
          }
          byCategory := byCategory[expense.category := byCategory[expense.category] + expense.amount];
          assert list[..i + 1][..i] == list[..i];
          ByCategoryLast(list[..i + 1]);
          i := i + 1;
        }
        assert list[..|list|] == list;
      }
    }

    /** The report pairs the total with the breakdown, and the total is the sum
        of the breakdown's values. */
    method GenerateReport(username: string) returns (report: ExpenseReport)
      ensures report.totalExpenses == Sum(Entries(expenses, username))
      ensures report.expensesByCategory == ByCategory(Entries(expenses, username))
      ensures report.totalExpenses == SumValues(report.expensesByCategory)
    {
      var total := GetTotalExpenses(username);
      var byCategory := GetExpensesByCategory(username);
      report := ExpenseReport(total, byCategory);
    }

    /** A username without a session entry reads as logged out. */
    function IsLoggedIn(username: string): (loggedIn: bool)
      reads this
      ensures username !in sessions ==> !loggedIn
      ensures username in sessions ==> loggedIn == sessions[username]
    {
      if username in sessions then sessions[username] else false
    }

    /** Logs in when the user is registered, the password verifies against the
        stored hash and the user is not logged in already; only then does the
        session change. `verify` stands for the password-hashing library's check
        of a plain password against a hash. */
    method Login(users: map<string, UserRecord>, verify: (string, string) -> bool,
                 username: string, password: string) returns (ok: bool)
      modifies this`sessions
      ensures ok <==> username in users && verify(password, users[username].password)
                      && !old(IsLoggedIn(username))
      ensures sessions == if ok then old(sessions)[username := true] else old(sessions)
    {
      ok := false;
      if username in users && verify(password, users[username].password) {
        if !IsLoggedIn(username) {
          sessions := sessions[username := true];
          ok := true;
        }
      }
    }

    /** Logs out exactly when the user is logged in; otherwise nothing changes. */
    method Logout(username: string) returns (ok: bool)
      modifies this`sessions
      ensures ok == old(IsLoggedIn(username))
      ensures sessions == if ok then old(sessions)[username := false] else old(sessions)
    {
      ok := false;
      if IsLoggedIn(username) {
        sessions := sessions[username := false];
        ok := true;
      }
    }
  }
}

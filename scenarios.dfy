/** Sequences of calls as the terminal loop and the API make them, with what
    the contracts of the agent and the credential store guarantee about them. */
module Scenarios {
  import opened Ledger
  import opened Reporting
  import opened Credentials
  import opened Agent

  /** Starting from empty stores: register "alice", log in, add a 3.5 "food"
      expense and a 2.0 "transport" one, then ask for the report. The ids are 1
      and 2 and the report is total 5.5 split into food 3.5 and transport 2.0.
      The only thing assumed of the hashing library is that it accepts the
      password it hashed. */
  method AliceReport(hash: string -> string, verify: (string, string) -> bool)
    returns (registered: bool, loggedIn: bool, first: Expense, second: Expense, report: ExpenseReport)
    requires verify("pw1", hash("pw1"))
    ensures registered && loggedIn
    ensures first.id == 1 && second.id == 2
    ensures report == ExpenseReport(5.5, map["food" := 3.5, "transport" := 2.0])
  {
    var store := new UserStore(map[]);
    var agent := new ExpenseTrackerAgent(map[]);
    registered := store.Register("alice", "pw1", hash);
    loggedIn := agent.Login(store.users, verify, "alice", "pw1");
    first := agent.AddExpense("alice", "coffee", 3.5, "food");
    second := agent.AddExpense("alice", "bus", 2.0, "transport");
    report := agent.GenerateReport("alice");
    assert agent.expenses["alice"] == [first, second];
    assert "food"[0] != "transport"[0];
    TwoCategories(first, second);
  }

  /** The breakdown of two expenses of different categories. */
  lemma TwoCategories(a: Expense, b: Expense)
    requires a.category != b.category
    ensures Sum([a, b]) == a.amount + b.amount
    ensures ByCategory([a, b]) == map[a.category := a.amount, b.category := b.amount]
  {
    var list := [a, b];
    assert list[..1] == [a] && [a][..0] == [];
    assert Sum([a]) == a.amount;
    assert Sum(list) == Sum([a]) + b.amount;
    assert Categories([a]) == {a.category};
    assert Categories(list) == Categories([a]) + {b.category};
    assert CategorySum([a], a.category) == a.amount;
    assert CategorySum([a], b.category) == 0.0;
    assert CategorySum(list, a.category) == CategorySum([a], a.category);
    assert CategorySum(list, b.category) == CategorySum([a], b.category) + b.amount;
  }

  /** A wrong password for a registered user is refused and leaves the user
      logged out. */
  method WrongPassword(hash: string -> string, verify: (string, string) -> bool)
    returns (ok: bool, loggedIn: bool)
    requires !verify("wrong", hash("pw1"))
    ensures !ok && !loggedIn
  {
    var store := new UserStore(map[]);
    var agent := new ExpenseTrackerAgent(map[]);
    var registered := store.Register("alice", "pw1", hash);
    ok := agent.Login(store.users, verify, "alice", "wrong");
    loggedIn := agent.IsLoggedIn("alice");
  }

  /** Two logins without a logout between them: the second is always refused
      and does not log the user out. */
  method LoginTwice(agent: ExpenseTrackerAgent, users: map<string, UserRecord>,
                    verify: (string, string) -> bool, username: string, password: string)
    returns (first: bool, second: bool)
    modifies agent
    ensures !second
    ensures first ==> !old(agent.IsLoggedIn(username)) && agent.IsLoggedIn(username)
    ensures agent.IsLoggedIn(username) == (first || old(agent.IsLoggedIn(username)))
    ensures agent.expenses == old(agent.expenses) && agent.nextId == old(agent.nextId)
  {
    first := agent.Login(users, verify, username, password);
    second := agent.Login(users, verify, username, password);
  }

  /** A logout after a successful login succeeds and logs the user out; a
      second logout is refused. */
  method LoginThenLogout(agent: ExpenseTrackerAgent, users: map<string, UserRecord>,
                         verify: (string, string) -> bool, username: string, password: string)
    returns (loggedIn: bool, loggedOut: bool, again: bool)
    modifies agent
    ensures loggedIn ==> loggedOut
    ensures loggedOut ==> !agent.IsLoggedIn(username)
    ensures !again
  {
    loggedIn := agent.Login(users, verify, username, password);
    loggedOut := agent.Logout(username);
    again := agent.Logout(username);
  }

  /** Additions for a fresh user get ids 1, 2, ... even when another user's
      addition comes in between, and they are kept in call order. */
  method InterleavedIds(agent: ExpenseTrackerAgent, alice: string, bob: string)
    returns (a1: Expense, b1: Expense, a2: Expense)
    requires agent.Valid()
    requires alice != bob && alice !in agent.expenses
    modifies agent
    ensures agent.Valid()
    ensures a1.id == 1 && a2.id == 2
    ensures b1.id == old(NextIdOf(agent.nextId, bob))
    ensures alice in agent.expenses && agent.expenses[alice] == [a1, a2] && Numbered(agent.expenses[alice])
  {
    a1 := agent.AddExpense(alice, "coffee", 3.5, "food");
    b1 := agent.AddExpense(bob, "lunch", 12.0, "food");
    a2 := agent.AddExpense(alice, "bus", 2.0, "transport");
  }

  /** N additions for a fresh user return the ids 1..N in call order, with an
      addition for another user after each one. The user's list ends up holding
      exactly those records, numbered 1..N. */
  method FreshUserIds(agent: ExpenseTrackerAgent, username: string, others: seq<string>)
    returns (ids: seq<int>)
    requires agent.Valid()
    requires username !in agent.expenses
    requires forall j :: 0 <= j < |others| ==> others[j] != username
    modifies agent
    ensures agent.Valid()
    ensures |ids| == |others|
    ensures forall j :: 0 <= j < |ids| ==> ids[j] == j + 1
    ensures var es := Entries(agent.expenses, username);
            |es| == |ids| && Numbered(es)
  {
    ids := [];
    var i := 0;
    while i < |others|
      invariant 0 <= i <= |others|
      invariant agent.Valid()
      invariant |ids| == i
      invariant forall j :: 0 <= j < i ==> ids[j] == j + 1
      invariant |Entries(agent.expenses, username)| == i
      invariant Numbered(Entries(agent.expenses, username))
    {
      var mine := agent.AddExpense(username, "item", 1.0, "misc");
      var theirs := agent.AddExpense(others[i], "item", 1.0, "misc");
      ids := ids + [mine.id];
      i := i + 1;
    }
  }

  /** Registering a taken username again is refused and keeps the first hash. */
  method RegisterTwice(store: UserStore, username: string, password: string, other: string,
                       hash: string -> string)
    returns (first: bool, second: bool)
    modifies store
    ensures !second
    ensures first <==> username !in old(store.users)
    ensures username in store.users
    ensures first ==> store.users[username] == UserRecord(hash(password))
    ensures !first ==> store.users == old(store.users)
  {
    first := store.Register(username, password, hash);
    second := store.Register(username, other, hash);
  }
}

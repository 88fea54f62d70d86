/** The expense ledger's data: expense records, each user's list of them, and
    the per-user id counters that `ExpenseTrackerAgent` keeps beside the lists. */
module Ledger {

  /** One expense record. The amount is an exact number rather than a float. */
  datatype Expense = Expense(id: int, description: string, amount: real, category: string)

  /** A user's list of expenses; a user with no entry has none. */
  function Entries(expenses: map<string, seq<Expense>>, username: string): seq<Expense>
  {
    if username in expenses then expenses[username] else []
  }

  /** The counters invariant: every user with a list has a counter, every counter
      belongs to a user with a list, and the counter is one past the list's length. */
  ghost predicate CountersMatch(expenses: map<string, seq<Expense>>, nextId: map<string, int>)
  {
    && expenses.Keys == nextId.Keys
    && forall u :: u in expenses ==> nextId[u] == |expenses[u]| + 1
  }

  /** The id the next expense added for `username` receives. */
  function NextIdOf(nextId: map<string, int>, username: string): int
  {
    if username in nextId then nextId[username] else 1
  }

  /** The ids of a list are 1, 2, ..., in order. */
  ghost predicate Numbered(es: seq<Expense>)
  {
    forall i :: 0 <= i < |es| ==> es[i].id == i + 1
  }

  /** Under the counters invariant, the id handed out next is one past the user's
      current list, whether or not the user already has an entry. */
  lemma NextIdIsLengthPlusOne(expenses: map<string, seq<Expense>>, nextId: map<string, int>, username: string)
    requires CountersMatch(expenses, nextId)
    ensures NextIdOf(nextId, username) == |Entries(expenses, username)| + 1
  {
  }

  /** Appending a record whose id is one past the length keeps the list numbered. */
  lemma NumberedAppend(es: seq<Expense>, e: Expense)
    requires Numbered(es)
    requires e.id == |es| + 1
    ensures Numbered(es + [e])
  {
  }
}

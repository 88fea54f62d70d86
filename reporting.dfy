/** Reporting over one user's expense list: the total, the per-category
    breakdown, and the fact that the breakdown's values add up to the total. */
module Reporting {
  import opened Ledger

  /** What `generate_report` returns. */
  datatype ExpenseReport = ExpenseReport(totalExpenses: real, expensesByCategory: map<string, real>)

  /** The sum of the amounts, accumulated front to back as Python's `sum` does. */
  function Sum(es: seq<Expense>): real
  {
    if es == [] then 0.0 else Sum(es[..|es| - 1]) + es[|es| - 1].amount
  }

  /** The sum of the amounts of the expenses whose category is `c`. */
  function CategorySum(es: seq<Expense>, c: string): real
  {
    if es == [] then 0.0
    else
      var last := es[|es| - 1];
      CategorySum(es[..|es| - 1], c) + (if last.category == c then last.amount else 0.0)
  }

  /** The categories that occur in the list (see CategoriesOccur). */
  function Categories(es: seq<Expense>): set<string>
  {
    if es == [] then {} else Categories(es[..|es| - 1]) + {es[|es| - 1].category}
  }

  /** The breakdown the report promises: one key per category that occurs,
      mapped to the sum of that category's amounts. */
  function ByCategory(es: seq<Expense>): map<string, real>
  {
    map c | c in Categories(es) :: CategorySum(es, c)
  }

  ghost predicate Distinct(ks: seq<string>)
  {
    forall i, j :: 0 <= i < j < |ks| ==> ks[i] != ks[j]
  }

  /** `ks` lists every key of `m` exactly once. */
  ghost predicate Enumerates(ks: seq<string>, m: map<string, real>)
  {
    Distinct(ks) && forall k :: k in ks <==> k in m
  }

  /** The sum of `m`'s values at the keys `ks`, in that order. */
  function SumOver(m: map<string, real>, ks: seq<string>): real
    requires forall k :: k in ks ==> k in m
  {
    if ks == [] then 0.0 else SumOver(m, ks[..|ks| - 1]) + m[ks[|ks| - 1]]
  }

  /** Some listing of a finite set of keys, each exactly once. */
  ghost function Enumeration(s: set<string>): (ks: seq<string>)
    ensures Distinct(ks)
    ensures forall k :: k in ks <==> k in s
    decreases s
  {
    if s == {} then []
    else
      var k :| k in s;
      var rest := Enumeration(s - {k});
      assert forall i :: 0 <= i < |rest| ==> rest[i] != k;
      rest + [k]
  }

  /** The sum of all values of a map. By SumValuesAnyOrder it does not depend on
      the order in which the keys are visited. */
  ghost function SumValues(m: map<string, real>): real
  {
    SumOver(m, Enumeration(m.Keys))
  }

  /** The categories in order of first occurrence: the order in which
      `get_expenses_by_category` inserts keys into its dictionary. */
  function CategoryOrder(es: seq<Expense>): (order: seq<string>)
    ensures Distinct(order)
    ensures forall c :: c in order <==> c in Categories(es)
  {
    if es == [] then []
    else
      var prefix := CategoryOrder(es[..|es| - 1]);
      var c := es[|es| - 1].category;
      if c in prefix then prefix
      else
        assert forall i :: 0 <= i < |prefix| ==> prefix[i] != c;
        prefix + [c]
  }

  /** A category is in Categories exactly when some expense of the list has it. */
  lemma {:induction false} CategoriesOccur(es: seq<Expense>, c: string)
    ensures c in Categories(es) <==> exists i :: 0 <= i < |es| && es[i].category == c
  {
    if es != [] {
      var prefix := es[..|es| - 1];
      CategoriesOccur(prefix, c);
      if c in Categories(prefix) {
        var i :| 0 <= i < |prefix| && prefix[i].category == c;
        assert es[i].category == c;
      }
      if i :| 0 <= i < |es| && es[i].category == c {
        if i < |prefix| {
          assert prefix[i].category == c;
        }
      }
    }
  }

  /** A category that does not occur sums to zero. */
  lemma {:induction false} CategorySumAbsent(es: seq<Expense>, c: string)
    requires c !in Categories(es)
    ensures CategorySum(es, c) == 0.0
  {
    if es != [] {
      CategorySumAbsent(es[..|es| - 1], c);
    }
  }

  /** One step of the breakdown loop: the breakdown of a non-empty list is that
      of its prefix with only the last expense's category updated, the key
      created at zero first if it is new. */
  lemma ByCategoryLast(es: seq<Expense>)
    requires es != []
    ensures var m, e := ByCategory(es[..|es| - 1]), es[|es| - 1];
            ByCategory(es) == m[e.category := (if e.category in m then m[e.category] else 0.0) + e.amount]
  {
    var prefix, e := es[..|es| - 1], es[|es| - 1];
    var c := e.category;
    var m, m' := ByCategory(prefix), ByCategory(es);
    if c !in m {
      CategorySumAbsent(prefix, c);
    }
    var updated := m[c := (if c in m then m[c] else 0.0) + e.amount];
    assert m'.Keys == updated.Keys;
    forall k | k in m'
      ensures m'[k] == updated[k]
    {
    }
  }

  /** Removing the key at position `j` takes its value out of the sum. */
  lemma {:induction false} SumOverRemove(m: map<string, real>, ks: seq<string>, j: int)
    requires forall k :: k in ks ==> k in m
    requires 0 <= j < |ks|
    ensures forall k :: k in ks[..j] + ks[j + 1..] ==> k in m
    ensures SumOver(m, ks) == SumOver(m, ks[..j] + ks[j + 1..]) + m[ks[j]]
  {
    var rest := ks[..j] + ks[j + 1..];
    assert forall k :: k in rest ==> k in ks;
    if j < |ks| - 1 {
      var init := ks[..|ks| - 1];
      SumOverRemove(m, init, j);
      assert rest[..|rest| - 1] == init[..j] + init[j + 1..];
      assert rest[|rest| - 1] == ks[|ks| - 1];
    } else {
      assert rest == ks[..|ks| - 1];
    }
  }

  /** Removing one entry of a list without repetitions leaves a list without
      repetitions holding exactly the other entries. */
  lemma RemoveAtDistinct(ks: seq<string>, j: int)
    requires Distinct(ks) && 0 <= j < |ks|
    ensures Distinct(ks[..j] + ks[j + 1..])
    ensures forall k :: k in ks[..j] + ks[j + 1..] <==> k in ks && k != ks[j]
  {
  }

  /** Two listings of the same keys, each without repetitions, give the same sum. */
  lemma {:induction false} SumOverPermutation(m: map<string, real>, xs: seq<string>, ys: seq<string>)
    requires Distinct(xs) && Distinct(ys)
    requires forall k :: k in xs <==> k in ys
    requires forall k :: k in xs ==> k in m
    ensures SumOver(m, xs) == SumOver(m, ys)
    decreases |xs|
  {
    if xs != [] {
      var k := xs[|xs| - 1];
      var xs' := xs[..|xs| - 1];
      assert k in ys;
      var j :| 0 <= j < |ys| && ys[j] == k;
      var ys' := ys[..j] + ys[j + 1..];
      SumOverRemove(m, ys, j);
      RemoveAtDistinct(ys, j);
      assert forall x :: x in xs' <==> x in xs && x != k by {
        assert xs == xs' + [k];
        assert forall i :: 0 <= i < |xs'| ==> xs'[i] != k;
      }
      SumOverPermutation(m, xs', ys');
    }
  }

  /** SumValues may be computed by visiting the keys in any order. */
  lemma SumValuesAnyOrder(m: map<string, real>, ks: seq<string>)
    requires Enumerates(ks, m)
    ensures SumValues(m) == SumOver(m, ks)
  {
    SumOverPermutation(m, Enumeration(m.Keys), ks);
  }

  /** The category sums of the categories `ks`, added up in that order. */
  function SumCategories(es: seq<Expense>, ks: seq<string>): real
  {
    if ks == [] then 0.0 else SumCategories(es, ks[..|ks| - 1]) + CategorySum(es, ks[|ks| - 1])
  }

  /** Summing the breakdown over listed categories is summing their category sums. */
  lemma {:induction false} SumOverByCategory(es: seq<Expense>, ks: seq<string>)
    requires forall k :: k in ks ==> k in Categories(es)
    ensures SumOver(ByCategory(es), ks) == SumCategories(es, ks)
  {
    if ks != [] {
      SumOverByCategory(es, ks[..|ks| - 1]);
    }
  }

  /** Appending an expense adds its amount to the sum over the categories `ks`
      exactly when `ks` lists its category (once). */
  lemma {:induction false} SumCategoriesLast(es: seq<Expense>, ks: seq<string>)
    requires es != [] && Distinct(ks)
    ensures var prefix, e := es[..|es| - 1], es[|es| - 1];
            SumCategories(es, ks) == SumCategories(prefix, ks) + (if e.category in ks then e.amount else 0.0)
  {
    if ks != [] {
      var init, k := ks[..|ks| - 1], ks[|ks| - 1];
      SumCategoriesLast(es, init);
      assert ks == init + [k];
    }
  }

  /** The total equals the category sums added up in first-occurrence order. */
  lemma {:induction false} SumByCategoryOrder(es: seq<Expense>)
    ensures Sum(es) == SumCategories(es, CategoryOrder(es))
  {
    if es != [] {
      var prefix, e := es[..|es| - 1], es[|es| - 1];
      var o := CategoryOrder(prefix);
      SumByCategoryOrder(prefix);
      SumCategoriesLast(es, o);
      if e.category !in o {
        CategorySumAbsent(prefix, e.category);
        SumCategoriesLast(es, o + [e.category]);
        assert (o + [e.category])[..|o|] == o;
      }
    }
  }

  /** Report consistency: a user's total is the sum of the values of the
      category breakdown. */
  lemma TotalIsSumOfCategories(es: seq<Expense>)
    ensures Sum(es) == SumValues(ByCategory(es))
  {
    SumByCategoryOrder(es);
    SumOverByCategory(es, CategoryOrder(es));
    SumValuesAnyOrder(ByCategory(es), CategoryOrder(es));
  }
}

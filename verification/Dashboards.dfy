/** The monthly dashboard: sums by category from the database, and the loop that splits them
    into fixed and free expenses. */
module Dashboards {
  import opened Wrappers
  import opened Amount
  import opened Ledger
  import Dates
  import opened Text

  const DRINKING := "酒・飲み会"
  const SUBSCRIPTION := "サブスクリプション"

  predicate Fixed(category: string) {
    category == "家賃" || category == "光熱費" || category == "通信"
  }

  // ------------------------------------------------------------- direct sums

  /** substr(date, 1, 7). */
  function MonthOf(date: string): string {
    if |date| <= 7 then date else date[..7]
  }

  /** The user's expenses of a month. */
  function Expenses(table: Table, user: int, month: string): set<Key> {
    set key | key in table && key.user == user && table[key].kind == Expense && MonthOf(table[key].date) == month
  }

  function InCategory(table: Table, keys: set<Key>, category: string): set<Key>
    requires keys <= table.Keys
  {
    set key | key in keys && table[key].category == category
  }

  function InFixed(table: Table, keys: set<Key>): set<Key>
    requires keys <= table.Keys
  {
    set key | key in keys && Fixed(table[key].category)
  }

  /** The sum of the amounts of some rows. */
  ghost function Sum(table: Table, keys: set<Key>): int
    requires keys <= table.Keys
  {
    if keys == {} then 0
    else
      var key :| key in keys;
      table[key].amount + Sum(table, keys - {key})
  }

  /** The row counted first does not matter. */
  lemma {:induction false} SumPick(table: Table, keys: set<Key>, key: Key)
    requires key in keys && keys <= table.Keys
    ensures Sum(table, keys) == table[key].amount + Sum(table, keys - {key})
    decreases keys
  {
    var first :| first in keys && Sum(table, keys) == table[first].amount + Sum(table, keys - {first});
    if first != key {
      SumPick(table, keys - {first}, key);
      SumPick(table, keys - {key}, first);
      assert keys - {first} - {key} == keys - {key} - {first};
    }
  }

  lemma {:induction false} SumUnion(table: Table, a: set<Key>, b: set<Key>)
    requires a <= table.Keys && b <= table.Keys && a !! b
    ensures Sum(table, a + b) == Sum(table, a) + Sum(table, b)
    decreases a
  {
    if a == {} {
      assert a + b == b;
    } else {
      var key :| key in a;
      SumPick(table, a, key);
      SumPick(table, a + b, key);
      assert a + b - {key} == (a - {key}) + b;
      SumUnion(table, a - {key}, b);
    }
  }

  /** Sums read nothing but amounts. */
  lemma {:induction false} SumAgrees(table: Table, other: Table, keys: set<Key>)
    requires keys <= table.Keys && keys <= other.Keys
    requires forall key :: key in keys ==> table[key].amount == other[key].amount
    ensures Sum(table, keys) == Sum(other, keys)
    decreases keys
  {
    if keys != {} {
      var key :| key in keys;
      SumPick(table, keys, key);
      SumPick(other, keys, key);
      SumAgrees(table, other, keys - {key});
    }
  }

  lemma {:induction false} SumOfAmounts(table: Table, keys: set<Key>)
    requires keys <= table.Keys
    requires forall key :: key in keys ==> table[key].amount >= 0
    ensures Sum(table, keys) >= 0
    decreases keys
  {
    if keys != {} {
      var key :| key in keys;
      SumPick(table, keys, key);
      SumOfAmounts(table, keys - {key});
    }
  }

  /** What the free budget is charged with. */
  ghost function FreeTotal(table: Table, user: int, month: string): int {
    var keys := Expenses(table, user, month);
    Sum(table, keys - InFixed(table, keys))
  }

  // --------------------------------------------------------------- dashboard

  datatype CategoryAmount = CategoryAmount(category: string, amount: int)

  datatype Dashboard = Dashboard(
    month: string,
    expenseTotal: int,
    fixedExpenseEstimate: int,
    freeExpenseTotal: int,
    monthlyFreeBudget: int,
    freeBudgetRemaining: int,
    drinkingTotal: int,
    subscriptionTotal: int,
    byCategory: seq<CategoryAmount>,
    recentTransactions: seq<Row>)

  /** The answer of SELECT category, SUM(amount) ... GROUP BY category ORDER BY SUM(amount) DESC:
      one line for each category that occurs, in any order among equal sums. */
  ghost predicate Grouped(table: Table, keys: set<Key>, groups: seq<CategoryAmount>)
    requires keys <= table.Keys
  {
    && (forall i, j :: 0 <= i < j < |groups| ==>
          groups[i].category != groups[j].category && groups[i].amount >= groups[j].amount)
    && (forall i :: 0 <= i < |groups| ==>
          groups[i].amount == Sum(table, InCategory(table, keys, groups[i].category)))
    && (forall key :: key in keys ==> exists i :: 0 <= i < |groups| && groups[i].category == table[key].category)
  }

  const RECENT := 5

  /** The user's rows of a month, of every kind; of all months if none is given. */
  function RowsOf(table: Table, user: int, month: string): set<Key> {
    set key | key in table && key.user == user && (month == "" || MonthOf(table[key].date) == month)
  }

  /** The answer of SELECT ... ORDER BY transaction_date DESC, id DESC LIMIT: rows of the month,
      each once, newest first; as many as there are up to the limit, and none left out that is
      newer than one of them. */
  ghost predicate Newest(table: Table, keys: set<Key>, limit: nat, listed: seq<Key>)
    requires keys <= table.Keys
  {
    && (forall i :: 0 <= i < |listed| ==> listed[i] in keys)
    && (forall i, j :: 0 <= i < j < |listed| ==>
          listed[i] != listed[j] && !Dates.Less(table[listed[i]].date, table[listed[j]].date))
    && |listed| <= limit && (|listed| < limit ==> forall key :: key in keys ==> key in listed)
    && (forall key, i :: key in keys && key !in listed && 0 <= i < |listed| ==>
          !Dates.Less(table[listed[i]].date, table[key].date))
  }

  /** The listed rows. */
  function RowsAt(table: Table, listed: seq<Key>): (rows: seq<Row>)
    requires forall i :: 0 <= i < |listed| ==> listed[i] in table
    ensures |rows| == |listed| && forall i :: 0 <= i < |listed| ==> rows[i] == table[listed[i]]
  {
    seq(|listed|, i requires 0 <= i < |listed| => table[listed[i]])
  }

  /** The rows whose category is among the first n groups. */
  ghost function Seen(table: Table, keys: set<Key>, groups: seq<CategoryAmount>, n: nat): (r: set<Key>)
    requires keys <= table.Keys && n <= |groups|
    ensures r <= keys
  {
    if n == 0 then {} else Seen(table, keys, groups, n - 1) + InCategory(table, keys, groups[n - 1].category)
  }

  lemma {:induction false} SeenMeans(table: Table, keys: set<Key>, groups: seq<CategoryAmount>, n: nat, key: Key)
    requires keys <= table.Keys && n <= |groups| && key in keys
    ensures key in Seen(table, keys, groups, n) <==>
              exists i :: 0 <= i < n && groups[i].category == table[key].category
    decreases n
  {
    if n > 0 {
      SeenMeans(table, keys, groups, n - 1, key);
    }
  }

  /** A group has none of the rows seen before it. */
  lemma SeenNext(table: Table, keys: set<Key>, groups: seq<CategoryAmount>, n: nat)
    requires keys <= table.Keys && n < |groups| && Grouped(table, keys, groups)
    ensures Seen(table, keys, groups, n) !! InCategory(table, keys, groups[n].category)
  {
    forall key | key in InCategory(table, keys, groups[n].category)
      ensures key !in Seen(table, keys, groups, n)
    {
      SeenMeans(table, keys, groups, n, key);
    }
  }

  /** After the last group, every row is seen. */
  lemma SeenAtEnd(table: Table, keys: set<Key>, groups: seq<CategoryAmount>)
    requires keys <= table.Keys && Grouped(table, keys, groups)
    ensures Seen(table, keys, groups, |groups|) == keys
  {
    forall key | key in keys
      ensures key in Seen(table, keys, groups, |groups|)
    {
      SeenMeans(table, keys, groups, |groups|, key);
    }
  }

  /** One group is all fixed or all free. */
  lemma FixedWithGroup(table: Table, before: set<Key>, group: set<Key>, category: string)
    requires before <= table.Keys && group <= table.Keys && before !! group
    requires forall key :: key in group ==> table[key].category == category
    ensures
      var after := before + group;
      Sum(table, InFixed(table, after))
      == Sum(table, InFixed(table, before)) + if Fixed(category) then Sum(table, group) else 0
  {
    var after := before + group;
    if Fixed(category) {
      assert InFixed(table, after) == InFixed(table, before) + group;
      SumUnion(table, InFixed(table, before), group);
    } else {
      assert InFixed(table, after) == InFixed(table, before);
    }
  }

  /** The sum of some rows is that of the fixed ones and that of the others. */
  lemma FixedAndFree(table: Table, keys: set<Key>)
    requires keys <= table.Keys
    ensures Sum(table, InFixed(table, keys)) + Sum(table, keys - InFixed(table, keys)) == Sum(table, keys)
  {
    SumUnion(table, InFixed(table, keys), keys - InFixed(table, keys));
    assert InFixed(table, keys) + (keys - InFixed(table, keys)) == keys;
  }

  function FixedShare(item: CategoryAmount): int {
    if Fixed(item.category) then item.amount else 0
  }

  /** What the loop has added up after n groups: expenses and fixed expenses. */
  function AddedAll(groups: seq<CategoryAmount>, n: nat): int
    requires n <= |groups|
  {
    if n == 0 then 0 else AddedAll(groups, n - 1) + groups[n - 1].amount
  }

  function AddedFixed(groups: seq<CategoryAmount>, n: nat): int
    requires n <= |groups|
  {
    if n == 0 then 0 else AddedFixed(groups, n - 1) + FixedShare(groups[n - 1])
  }

  lemma SeenSums(table: Table, keys: set<Key>, groups: seq<CategoryAmount>, n: nat)
    requires keys <= table.Keys && n < |groups| && Grouped(table, keys, groups)
    ensures
      var before, after, item := Seen(table, keys, groups, n), Seen(table, keys, groups, n + 1), groups[n];
      && Sum(table, after) == Sum(table, before) + item.amount
      && Sum(table, InFixed(table, after))
      == Sum(table, InFixed(table, before)) + FixedShare(item)
  {
    var before, group := Seen(table, keys, groups, n), InCategory(table, keys, groups[n].category);
    SeenNext(table, keys, groups, n);
    assert Seen(table, keys, groups, n + 1) == before + group;
    SumUnion(table, before, group);
    FixedWithGroup(table, before, group, groups[n].category);
  }

  lemma AddedNext(groups: seq<CategoryAmount>, n: nat)
    requires n < |groups|
    ensures AddedAll(groups, n + 1) == AddedAll(groups, n) + groups[n].amount
    ensures AddedFixed(groups, n + 1) == AddedFixed(groups, n) + FixedShare(groups[n])
  {
  }

  /** It is what the rows seen so far add up to. */
  lemma {:induction false} AddedIsSum(table: Table, keys: set<Key>, groups: seq<CategoryAmount>, n: nat)
    requires keys <= table.Keys && n <= |groups| && Grouped(table, keys, groups)
    ensures AddedAll(groups, n) == Sum(table, Seen(table, keys, groups, n))
    ensures AddedFixed(groups, n) == Sum(table, InFixed(table, Seen(table, keys, groups, n)))
    decreases n
  {
    if n > 0 {
      var m := n - 1;
      AddedIsSum(table, keys, groups, m);
      SeenSums(table, keys, groups, m);
      AddedNext(groups, m);
    }
  }

  /** The dashboard of a month, said of its rows. */
  ghost predicate Reports(d: Dashboard, table: Table, user: int, month: string, budget: int) {
    var keys := Expenses(table, user, month);
    && d.month == month && d.monthlyFreeBudget == budget
    && Grouped(table, keys, d.byCategory)
    && d.expenseTotal == Sum(table, keys)
    && d.fixedExpenseEstimate == Sum(table, InFixed(table, keys))
    && d.freeExpenseTotal == FreeTotal(table, user, month)
    && d.fixedExpenseEstimate + d.freeExpenseTotal == d.expenseTotal
    && d.freeBudgetRemaining == budget - FreeTotal(table, user, month)
    && d.drinkingTotal == Sum(table, InCategory(table, keys, DRINKING))
    && d.subscriptionTotal == Sum(table, InCategory(table, keys, SUBSCRIPTION))
  }

  /** The loop over the grouped sums; `ok` is false when a line could not be read. */
  method AddGroups(groups: seq<CategoryAmount>)
    returns (ok: bool, expense: int, fixed: int, free: int, drinking: int, subscription: int)
    ensures ok ==> expense == AddedAll(groups, |groups|) && fixed == AddedFixed(groups, |groups|)
    ensures ok ==> fixed + free == expense
    ensures ok ==> drinking == LastOf(groups, |groups|, DRINKING)
    ensures ok ==> subscription == LastOf(groups, |groups|, SUBSCRIPTION)
  {
    expense, fixed, free, drinking, subscription := 0, 0, 0, 0, 0;
    for i := 0 to |groups|
      invariant expense == AddedAll(groups, i) && fixed == AddedFixed(groups, i)
      invariant fixed + free == expense
      invariant drinking == LastOf(groups, i, DRINKING)
      invariant subscription == LastOf(groups, i, SUBSCRIPTION)
    {
      ok := *;
      if !ok {
        return;
      }
      var item := groups[i];
      expense := expense + item.amount;
      if Fixed(item.category) {
        fixed := fixed + item.amount;
      } else {
        free := free + item.amount;
      }
      if item.category == DRINKING {
        drinking := item.amount;
      } else if item.category == SUBSCRIPTION {
        subscription := item.amount;
      }
    }
    ok := *;
  }

  /** The loop over the grouped sums arrives at the direct sums over the rows, whatever order
      equal groups come in; `groups` and `listed` are the answers of the database. */
  method MonthlyDashboard(table: Table, ghost user: int, month: string, budget: int, groups: seq<CategoryAmount>,
                          listed: seq<Key>)
    returns (r: Result<Dashboard, string>)
    requires Grouped(table, Expenses(table, user, month), groups)
    requires Newest(table, RowsOf(table, user, month), RECENT, listed)
    ensures r.Ok? ==> Reports(r.value, table, user, month, budget) && r.value.byCategory == groups
    ensures r.Ok? ==> r.value.recentTransactions == RowsAt(table, listed) && |listed| <= 5
  {
    ghost var keys := Expenses(table, user, month);
    var ok, expense, fixed, free, drinking, subscription := AddGroups(groups);
    if !ok {
      return Err("database");
    }
    AddedIsSum(table, keys, groups, |groups|);
    SeenAtEnd(table, keys, groups);
    FixedAndFree(table, keys);
    LastIsSum(table, keys, groups, DRINKING);
    LastIsSum(table, keys, groups, SUBSCRIPTION);
    if * {
      return Err("recent transactions");
    }
    return Ok(Dashboard(month, expense, fixed, free, budget, budget - free, drinking, subscription, groups,
                        RowsAt(table, listed)));
  }

  /** The amount of the last of the first n groups with a category. */
  function LastOf(groups: seq<CategoryAmount>, n: nat, category: string): int
    requires n <= |groups|
  {
    if n == 0 then 0
    else if groups[n - 1].category == category then groups[n - 1].amount
    else LastOf(groups, n - 1, category)
  }

  lemma {:induction false} LastOfGroup(groups: seq<CategoryAmount>, n: nat, category: string)
    requires n <= |groups|
    ensures
      (exists i :: 0 <= i < n && groups[i].category == category && LastOf(groups, n, category) == groups[i].amount)
      || (LastOf(groups, n, category) == 0 && forall i :: 0 <= i < n ==> groups[i].category != category)
    decreases n
  {
    if n > 0 && groups[n - 1].category != category {
      LastOfGroup(groups, n - 1, category);
    }
  }

  lemma LastIsSum(table: Table, keys: set<Key>, groups: seq<CategoryAmount>, category: string)
    requires keys <= table.Keys && Grouped(table, keys, groups)
    ensures LastOf(groups, |groups|, category) == Sum(table, InCategory(table, keys, category))
  {
    LastOfGroup(groups, |groups|, category);
    if forall i :: 0 <= i < |groups| ==> groups[i].category != category {
      assert InCategory(table, keys, category) == {};
    }
  }

  // ------------------------------------------------------- by the names of things

  /** The rows that a month's dashboard is about: the user's expenses dated in the month. */
  lemma ExpensesAre(table: Table, user: int, month: string, key: Key)
    requires |month| == 7
    ensures key in Expenses(table, user, month) <==>
              && key in table && key.user == user && table[key].kind == Expense
              && exists rest :: table[key].date == month + rest
  {
    if key in table {
      var date := table[key].date;
      if HasPrefix(date, month) {
        assert date == month + date[7..];
      }
      if rest :| date == month + rest {
        assert date[..7] == month;
      }
    }
  }

  lemma FixedAreThree(table: Table, keys: set<Key>)
    requires keys <= table.Keys
    ensures Sum(table, InFixed(table, keys))
         == Sum(table, InCategory(table, keys, "家賃")) + Sum(table, InCategory(table, keys, "光熱費"))
            + Sum(table, InCategory(table, keys, "通信"))
  {
    var rent, energy, phone := InCategory(table, keys, "家賃"), InCategory(table, keys, "光熱費"),
                               InCategory(table, keys, "通信");
    assert "家賃" != "光熱費" && "光熱費" != "通信" && "家賃" != "通信";
    SumUnion(table, rent, energy);
    SumUnion(table, rent + energy, phone);
    assert InFixed(table, keys) == rent + energy + phone;
  }

  /** A dashboard by name: the fixed expenses are rent, energy and communication, the rest is
      free and charged to the budget; and drinking and subscriptions have sums of their own. */
  lemma DashboardByName(d: Dashboard, table: Table, user: int, month: string, budget: int)
    requires Reports(d, table, user, month, budget)
    ensures
      var keys := Expenses(table, user, month);
      && d.expenseTotal == Sum(table, keys)
      && d.fixedExpenseEstimate
         == Sum(table, InCategory(table, keys, "家賃")) + Sum(table, InCategory(table, keys, "光熱費"))
            + Sum(table, InCategory(table, keys, "通信"))
      && d.freeExpenseTotal == d.expenseTotal - d.fixedExpenseEstimate
      && d.freeBudgetRemaining == budget - d.freeExpenseTotal
      && d.drinkingTotal == Sum(table, InCategory(table, keys, "酒・飲み会"))
      && d.subscriptionTotal == Sum(table, InCategory(table, keys, "サブスクリプション"))
  {
    FixedAreThree(table, Expenses(table, user, month));
  }
}

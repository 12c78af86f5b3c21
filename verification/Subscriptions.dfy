/** DetectSubscriptionCandidates: merchants that charge the same amount about a month apart. */
module Subscriptions {
  import opened Wrappers
  import opened Amount
  import opened Dates
  import opened Sorting

  datatype Transaction = Transaction(kind: Kind, merchant: string, date: string, amount: int)

  datatype Candidate = Candidate(merchant: string, total: int, count: nat, annualized: int)

  // -------------------------------------------------------------- the results

  /** The longest duration, in whole days, that time.Duration can hold. */
  const LONGEST := 106_751

  /** int(after.Sub(before).Hours() / 24): the subtraction saturates. */
  function DaysBetween(before: Date, after: Date): int
    requires Valid(before) && Valid(after)
  {
    var days := DayNumber(after) - DayNumber(before);
    if days > LONGEST then LONGEST else if days < -LONGEST then -LONGEST else days
  }

  /** Two charges about a month apart and equal. */
  predicate Regular(a: Transaction, b: Transaction) {
    var before, after := ParseDate(a.date), ParseDate(b.date);
    before.Some? && after.Some? && 25 <= DaysBetween(before.value, after.value) <= 35 && a.amount == b.amount
  }

  function Expenses(transactions: seq<Transaction>, merchant: string): seq<Transaction> {
    if transactions == [] then []
    else
      var n := |transactions| - 1;
      var t, before := transactions[n], Expenses(transactions[..n], merchant);
      if t.kind == Expense && t.merchant == merchant then before + [t] else before
  }

  predicate EarlierCharge(a: Transaction, b: Transaction) {
    Less(a.date, b.date)
  }

  function ByDate(items: seq<Transaction>): seq<Transaction> {
    Sort(items, EarlierCharge)
  }

  /** The inner loop's answer on date-sorted items. */
  predicate Matched(items: seq<Transaction>) {
    exists i :: 1 <= i < |items| && Regular(items[i - 1], items[i])
  }

  /** What the loop body makes of a merchant's items in date order. */
  function Verdict(merchant: string, items: seq<Transaction>): Option<Candidate> {
    if |items| >= 2 && Matched(items) then
      var latest := items[|items| - 1];
      Some(Candidate(merchant, latest.amount, |items|, latest.amount * 12))
    else None
  }

  function Judge(merchant: string, charges: seq<Transaction>): Option<Candidate> {
    Verdict(merchant, ByDate(charges))
  }

  /** The candidate for a merchant, if the charges make one. */
  function CandidateFor(transactions: seq<Transaction>, merchant: string): Option<Candidate> {
    Judge(merchant, Expenses(transactions, merchant))
  }

  predicate Costlier(a: Candidate, b: Candidate) {
    a.annualized > b.annualized
  }

  // ------------------------------------------------------------- the program

  method Group(transactions: seq<Transaction>) returns (byMerchant: map<string, seq<Transaction>>)
    ensures forall m :: m in byMerchant <==> Expenses(transactions, m) != []
    ensures forall m :: m in byMerchant ==> byMerchant[m] == Expenses(transactions, m)
  {
    byMerchant := map[];
    for i := 0 to |transactions|
      invariant forall m :: m in byMerchant <==> Expenses(transactions[..i], m) != []
      invariant forall m :: m in byMerchant ==> byMerchant[m] == Expenses(transactions[..i], m)
    {
      assert transactions[..i + 1][..i] == transactions[..i];
      var t := transactions[i];
      if t.kind != Expense {
        continue;
      }
      var items := if t.merchant in byMerchant then byMerchant[t.merchant] else [];
      byMerchant := byMerchant[t.merchant := items + [t]];
    }
    assert transactions[..|transactions|] == transactions;
  }

  method HasRegularPair(items: seq<Transaction>) returns (matched: bool)
    ensures matched <==> Matched(items)
  {
    matched := false;
    var index := 1;
    while index < |items|
      invariant 1 <= index && !matched
      invariant forall i :: 1 <= i < index && i < |items| ==> !Regular(items[i - 1], items[i])
    {
      var before, after := ParseDate(items[index - 1].date), ParseDate(items[index].date);
      if before.None? || after.None? {
        index := index + 1;
        continue;
      }
      var days := DaysBetween(before.value, after.value);
      if days >= 25 && days <= 35 && items[index].amount == items[index - 1].amount {
        matched := true;
        break;
      }
      index := index + 1;
    }
  }

  /** The outer loop's work on one merchant. */
  method Examine(merchant: string, charges: seq<Transaction>) returns (candidate: Option<Candidate>)
    ensures candidate == Judge(merchant, charges)
  {
    var items := ByDate(charges);
    assert |multiset(items)| == |multiset(charges)|;
    if |charges| < 2 {
      return None;
    }
    var matched := HasRegularPair(items);
    if !matched {
      return None;
    }
    var latest := items[|items| - 1];
    return Some(Candidate(merchant, latest.amount, |items|, latest.amount * 12));
  }

  /** `found` holds the wanted candidates of the merchants done so far, once each. */
  ghost predicate Gathered(wanted: map<string, Candidate>, done: set<string>, found: seq<Candidate>) {
    && (forall m :: m in done && m in wanted ==> wanted[m] in found)
    && (forall i :: 0 <= i < |found| ==>
          found[i].merchant in done && found[i].merchant in wanted && wanted[found[i].merchant] == found[i])
    && (forall i, j :: 0 <= i < j < |found| ==> found[i].merchant != found[j].merchant)
  }

  function Appended(found: seq<Candidate>, candidate: Option<Candidate>): seq<Candidate> {
    if candidate.Some? then found + [candidate.value] else found
  }

  function Lookup(wanted: map<string, Candidate>, merchant: string): Option<Candidate> {
    if merchant in wanted then Some(wanted[merchant]) else None
  }

  lemma GatherOneMore(wanted: map<string, Candidate>, done: set<string>, found: seq<Candidate>, merchant: string)
    requires Gathered(wanted, done, found) && merchant !in done
    requires merchant in wanted ==> wanted[merchant].merchant == merchant
    ensures Gathered(wanted, done + {merchant}, Appended(found, Lookup(wanted, merchant)))
  {
    var more := Appended(found, Lookup(wanted, merchant));
    assert merchant in wanted ==> more[|found|] == wanted[merchant];
    assert forall x :: x in found ==> x in more;
  }

  /** The candidates that the grouped charges make. */
  ghost function Wanted(byMerchant: map<string, seq<Transaction>>): map<string, Candidate> {
    map m | m in byMerchant && Judge(m, byMerchant[m]).Some? :: Judge(m, byMerchant[m]).value
  }

  lemma LookupWanted(byMerchant: map<string, seq<Transaction>>, m: string)
    requires m in byMerchant
    ensures Lookup(Wanted(byMerchant), m) == Judge(m, byMerchant[m])
    ensures m in Wanted(byMerchant) ==> Wanted(byMerchant)[m].merchant == m
  {
  }

  /** The outer loop: the merchants are taken in any order. */
  method Collect(byMerchant: map<string, seq<Transaction>>) returns (found: seq<Candidate>)
    ensures Gathered(Wanted(byMerchant), byMerchant.Keys, found)
  {
    found := [];
    var done, rest := {}, byMerchant.Keys;
    ghost var wanted := Wanted(byMerchant);
    while rest != {}
      invariant done + rest == byMerchant.Keys && done !! rest
      invariant Gathered(wanted, done, found)
      decreases rest
    {
      var merchant :| merchant in rest;
      rest := rest - {merchant};
      found := AddIfAny(byMerchant, merchant, found, done);
      done := done + {merchant};
    }
  }

  /** The loop body, up to the next merchant. */
  method AddIfAny(byMerchant: map<string, seq<Transaction>>, merchant: string, before: seq<Candidate>,
                  ghost done: set<string>)
    returns (found: seq<Candidate>)
    requires merchant in byMerchant && merchant !in done && Gathered(Wanted(byMerchant), done, before)
    ensures Gathered(Wanted(byMerchant), done + {merchant}, found)
  {
    LookupWanted(byMerchant, merchant);
    GatherOneMore(Wanted(byMerchant), done, before, merchant);
    var candidate := Examine(merchant, byMerchant[merchant]);
    found := before;
    if candidate.Some? {
      found := found + [candidate.value];
    }
  }

  /** One candidate for each merchant that makes one, costliest first. */
  method DetectSubscriptionCandidates(transactions: seq<Transaction>) returns (candidates: seq<Candidate>)
    ensures forall m :: CandidateFor(transactions, m).Some? ==> CandidateFor(transactions, m).value in candidates
    ensures forall c :: c in candidates ==> CandidateFor(transactions, c.merchant) == Some(c)
    ensures forall i, j :: 0 <= i < j < |candidates| ==> candidates[i] != candidates[j]
    ensures forall i, j :: 0 <= i < j < |candidates| ==> candidates[i].annualized >= candidates[j].annualized
  {
    var byMerchant := Group(transactions);
    var found := Collect(byMerchant);
    candidates := Sort(found, Costlier);
    SortSorts(found, Costlier);
    assert SortedBy(candidates, Costlier);
    SameMembers(found, candidates);
    NoDuplicates(found, candidates);
    AllMerchantsSeen(transactions, byMerchant, found);
  }

  lemma AllMerchantsSeen(transactions: seq<Transaction>, byMerchant: map<string, seq<Transaction>>,
                         found: seq<Candidate>)
    requires forall m :: m in byMerchant <==> Expenses(transactions, m) != []
    requires forall m :: m in byMerchant ==> byMerchant[m] == Expenses(transactions, m)
    requires Gathered(Wanted(byMerchant), byMerchant.Keys, found)
    ensures forall m :: CandidateFor(transactions, m).Some? ==> CandidateFor(transactions, m).value in found
    ensures forall c :: c in found ==> CandidateFor(transactions, c.merchant) == Some(c)
  {
    forall m | CandidateFor(transactions, m).Some?
      ensures m in byMerchant && m in Wanted(byMerchant)
    {
      SameMembers(Expenses(transactions, m), ByDate(Expenses(transactions, m)));
    }
  }

  lemma SameMembers<T>(a: seq<T>, b: seq<T>)
    requires multiset(a) == multiset(b)
    ensures forall x :: x in a <==> x in b
    ensures |a| == |b|
  {
    forall x ensures x in a <==> x in b {
      assert x in a <==> x in multiset(a);
      assert x in b <==> x in multiset(b);
    }
    assert |multiset(a)| == |a| && |multiset(b)| == |b|;
  }

  lemma {:induction false} OnceEach<T>(a: seq<T>, x: T)
    requires forall i, j :: 0 <= i < j < |a| ==> a[i] != a[j]
    ensures multiset(a)[x] <= 1
    decreases a
  {
    if a != [] {
      var n := |a| - 1;
      assert a == a[..n] + [a[n]];
      OnceEach(a[..n], x);
      if x == a[n] {
        assert x !in a[..n];
      }
    }
  }

  lemma TwiceIn<T>(b: seq<T>, i: nat, j: nat)
    requires i < j < |b| && b[i] == b[j]
    ensures multiset(b)[b[j]] >= 2
  {
    assert b == b[..j] + b[j..];
    assert b[..j][i] == b[j] == b[j..][0];
    assert b[j] in multiset(b[..j]) && b[j] in multiset(b[j..]);
  }

  lemma NoDuplicates<T>(a: seq<T>, b: seq<T>)
    requires multiset(a) == multiset(b)
    requires forall i, j :: 0 <= i < j < |a| ==> a[i] != a[j]
    ensures forall i, j :: 0 <= i < j < |b| ==> b[i] != b[j]
  {
    forall i, j | 0 <= i < j < |b|
      ensures b[i] != b[j]
    {
      if b[i] == b[j] {
        TwiceIn(b, i, j);
        OnceEach(a, b[j]);
      }
    }
  }

  // ------------------------------------------- what detection means, unordered

  ghost predicate DistinctDates(items: seq<Transaction>) {
    forall i, j :: 0 <= i < j < |items| ==> items[i].date != items[j].date
  }

  /** No charge of the merchant lies between a and b. */
  ghost predicate Adjacent(items: seq<Transaction>, a: Transaction, b: Transaction) {
    && a in items && b in items && Less(a.date, b.date)
    && forall c :: c in items ==> !(Less(a.date, c.date) && Less(c.date, b.date))
  }

  /** Some two charges next to each other by date are equal and 25 to 35 days apart. */
  ghost predicate Subscribed(items: seq<Transaction>) {
    exists a, b :: Adjacent(items, a, b) && Regular(a, b)
  }

  lemma DatesAreOrdered()
    ensures StrictWeak(EarlierCharge)
  {
    forall x: Transaction ensures !EarlierCharge(x, x) {
      LessIsTotal(x.date, x.date);
    }
    forall x: Transaction, y: Transaction, z: Transaction | EarlierCharge(x, y) && EarlierCharge(y, z)
      ensures EarlierCharge(x, z)
    {
      LessIsTransitive(x.date, y.date, z.date);
    }
    forall x: Transaction, y: Transaction, z: Transaction | !EarlierCharge(y, x) && !EarlierCharge(z, y)
      ensures !EarlierCharge(z, x)
    {
      LessIsTotal(y.date, x.date);
      LessIsTotal(z.date, y.date);
      LessIsTotal(z.date, x.date);
      if EarlierCharge(z, x) && x.date != y.date {
        LessIsTransitive(z.date, x.date, y.date);
      }
    }
  }

  /** Any sort of the items, stable or not, puts charges with distinct dates in strict order. */
  lemma SortedStrictly(items: seq<Transaction>, sorted: seq<Transaction>)
    requires DistinctDates(items) && multiset(sorted) == multiset(items) && SortedBy(sorted, EarlierCharge)
    ensures StrictlyByDate(sorted)
  {
    NoDuplicates(items, sorted);
    SameMembers(items, sorted);
    forall i, j | 0 <= i < j < |sorted|
      ensures Less(sorted[i].date, sorted[j].date)
    {
      assert sorted[i] in items && sorted[j] in items;
      var p :| 0 <= p < |items| && items[p] == sorted[i];
      var q :| 0 <= q < |items| && items[q] == sorted[j];
      assert p != q && items[p].date != items[q].date;
      LessIsTotal(sorted[i].date, sorted[j].date);
    }
  }

  ghost predicate StrictlyByDate(items: seq<Transaction>) {
    forall i, j :: 0 <= i < j < |items| ==> Less(items[i].date, items[j].date)
  }

  /** In strict order, neighbours are the adjacent pairs. */
  lemma NeighboursAreAdjacent(items: seq<Transaction>, sorted: seq<Transaction>, i: nat)
    requires StrictlyByDate(sorted) && 1 <= i < |sorted| && forall x :: x in items <==> x in sorted
    ensures Adjacent(items, sorted[i - 1], sorted[i])
  {
    forall c | c in items
      ensures !(Less(sorted[i - 1].date, c.date) && Less(c.date, sorted[i].date))
    {
      var k :| 0 <= k < |sorted| && sorted[k] == c;
      BetweenNeighbours(sorted, i, k);
    }
    assert sorted[i - 1] in sorted && sorted[i] in sorted;
  }

  lemma AdjacentAreNeighbours(items: seq<Transaction>, sorted: seq<Transaction>, a: Transaction, b: Transaction)
    returns (i: nat)
    requires StrictlyByDate(sorted) && Adjacent(items, a, b) && forall x :: x in items <==> x in sorted
    ensures 1 <= i < |sorted| && sorted[i - 1] == a && sorted[i] == b
  {
    var p :| 0 <= p < |sorted| && sorted[p] == a;
    i :| 0 <= i < |sorted| && sorted[i] == b;
    LessNotBoth(a.date, b.date);
    LessNotBoth(a.date, a.date);
    assert p < i;
    assert sorted[p + 1] in items;
  }

  /** Matching in a sorted list is the unordered property, whatever the sort made of it. */
  lemma MatchedMeansSubscribed(items: seq<Transaction>, sorted: seq<Transaction>)
    requires DistinctDates(items) && multiset(sorted) == multiset(items) && SortedBy(sorted, EarlierCharge)
    ensures Matched(sorted) <==> Subscribed(items)
  {
    SortedStrictly(items, sorted);
    SameMembers(items, sorted);
    if i :| 1 <= i < |sorted| && Regular(sorted[i - 1], sorted[i]) {
      NeighboursAreAdjacent(items, sorted, i);
    }
    if a, b :| Adjacent(items, a, b) && Regular(a, b) {
      var i := AdjacentAreNeighbours(items, sorted, a, b);
      assert Regular(sorted[i - 1], sorted[i]);
    }
  }

  lemma BetweenNeighbours(sorted: seq<Transaction>, i: nat, k: nat)
    requires StrictlyByDate(sorted)
    requires 1 <= i < |sorted| && k < |sorted|
    ensures !(Less(sorted[i - 1].date, sorted[k].date) && Less(sorted[k].date, sorted[i].date))
  {
    LessIsTotal(sorted[k].date, sorted[k].date);
    if k < i - 1 {
      LessNotBoth(sorted[k].date, sorted[i - 1].date);
    } else if k > i {
      LessNotBoth(sorted[i].date, sorted[k].date);
    }
  }

  lemma LessNotBoth(a: string, b: string)
    ensures !(Less(a, b) && Less(b, a))
  {
    LessIsTotal(a, a);
    if Less(a, b) && Less(b, a) {
      LessIsTransitive(a, b, a);
    }
  }

  // ------------------------------------------------------------- main results

  /** A merchant makes a candidate exactly when two of its charges, next to each other by
      date, are equal and 25 to 35 days apart. */
  lemma CandidateMeansSubscribed(transactions: seq<Transaction>, merchant: string)
    requires DistinctDates(Expenses(transactions, merchant))
    ensures CandidateFor(transactions, merchant).Some? <==> Subscribed(Expenses(transactions, merchant))
  {
    var items := Expenses(transactions, merchant);
    DatesAreOrdered();
    SortSorts(items, EarlierCharge);
    MatchedMeansSubscribed(items, ByDate(items));
    SameMembers(items, ByDate(items));
  }

  /** 25 to 35 days, counted by the calendar. */
  lemma RegularIff(a: Transaction, b: Transaction)
    ensures Regular(a, b) <==>
              var before, after := ParseDate(a.date), ParseDate(b.date);
              && before.Some? && after.Some? && a.amount == b.amount
              && 25 <= DayNumber(after.value) - DayNumber(before.value) <= 35
  {
  }

  /** The positions of a merchant's expenses. */
  function Charges(transactions: seq<Transaction>, merchant: string): set<int> {
    set i | 0 <= i < |transactions| && transactions[i].kind == Expense && transactions[i].merchant == merchant
  }

  lemma OneMoreCharge(transactions: seq<Transaction>, merchant: string)
    requires transactions != []
    ensures
      var n := |transactions| - 1;
      var before := Charges(transactions[..n], merchant);
      && n !in before
      && Charges(transactions, merchant)
         == if transactions[n].kind == Expense && transactions[n].merchant == merchant then before + {n} else before
  {
  }

  lemma {:induction false} ChargesAreExpenses(transactions: seq<Transaction>, merchant: string)
    ensures |Charges(transactions, merchant)| == |Expenses(transactions, merchant)|
    ensures forall t :: t in Expenses(transactions, merchant) <==>
              t in transactions && t.kind == Expense && t.merchant == merchant
    decreases transactions
  {
    if transactions == [] {
      assert Charges(transactions, merchant) == {};
    } else {
      var n := |transactions| - 1;
      ChargesAreExpenses(transactions[..n], merchant);
      OneMoreCharge(transactions, merchant);
      assert transactions == transactions[..n] + [transactions[n]];
    }
  }

  /** Of charges in date order the last is a latest one. */
  lemma LastIsLatest(items: seq<Transaction>, sorted: seq<Transaction>, latest: Transaction)
    requires multiset(sorted) == multiset(items) && SortedBy(sorted, EarlierCharge)
    requires sorted != [] && latest == sorted[|sorted| - 1]
    ensures latest in items && forall other :: other in items ==> !Less(latest.date, other.date)
  {
    SameMembers(items, sorted);
    LessIsTotal(latest.date, latest.date);
    forall other | other in items
      ensures !Less(latest.date, other.date)
    {
      var i :| 0 <= i < |sorted| && sorted[i] == other;
      assert i < |sorted| - 1 ==> !EarlierCharge(latest, other);
    }
  }

  /** An expense of the merchant, with no later one. */
  ghost predicate LatestCharge(t: Transaction, transactions: seq<Transaction>, merchant: string) {
    && t in transactions && t.kind == Expense && t.merchant == merchant
    && forall other :: other in transactions && other.kind == Expense && other.merchant == merchant
                       ==> !Less(t.date, other.date)
  }

  lemma LatestOfAll(transactions: seq<Transaction>, merchant: string, latest: Transaction)
    requires latest in Expenses(transactions, merchant)
    requires forall other :: other in Expenses(transactions, merchant) ==> !Less(latest.date, other.date)
    ensures LatestCharge(latest, transactions, merchant)
  {
    ChargesAreExpenses(transactions, merchant);
  }

  lemma VerdictTells(merchant: string, sorted: seq<Transaction>, c: Candidate)
    requires Verdict(merchant, sorted) == Some(c)
    ensures sorted != [] && c.merchant == merchant && c.count == |sorted| && c.annualized == 12 * c.total
    ensures c.total == sorted[|sorted| - 1].amount
  {
  }

  /** What a candidate tells: its merchant, how many expenses that has, the amount of a latest
      one of them, and twelve times that. */
  lemma CandidateTells(transactions: seq<Transaction>, merchant: string, c: Candidate)
    requires CandidateFor(transactions, merchant) == Some(c)
    ensures c.merchant == merchant && c.count == |Charges(transactions, merchant)| && c.annualized == 12 * c.total
    ensures exists t :: LatestCharge(t, transactions, merchant) && t.amount == c.total
  {
    var items := Expenses(transactions, merchant);
    var sorted := ByDate(items);
    VerdictTells(merchant, sorted, c);
    DatesAreOrdered();
    SortSorts(items, EarlierCharge);
    SameMembers(items, sorted);
    LastIsLatest(items, sorted, sorted[|sorted| - 1]);
    LatestOfAll(transactions, merchant, sorted[|sorted| - 1]);
    ChargesAreExpenses(transactions, merchant);
  }

  lemma {:induction false} ExpensesCount(transactions: seq<Transaction>, merchant: string, x: Transaction)
    ensures multiset(Expenses(transactions, merchant))[x]
         == if x.kind == Expense && x.merchant == merchant then multiset(transactions)[x] else 0
    decreases transactions
  {
    if transactions != [] {
      var n := |transactions| - 1;
      assert transactions == transactions[..n] + [transactions[n]];
      ExpensesCount(transactions[..n], merchant, x);
    }
  }

  lemma SameExpenses(a: seq<Transaction>, b: seq<Transaction>, merchant: string)
    requires multiset(a) == multiset(b)
    ensures multiset(Expenses(a, merchant)) == multiset(Expenses(b, merchant))
  {
    forall x ensures multiset(Expenses(a, merchant))[x] == multiset(Expenses(b, merchant))[x] {
      ExpensesCount(a, merchant, x);
      ExpensesCount(b, merchant, x);
    }
  }

  /** The order of the input does not matter: every merchant has the same candidate. */
  lemma InputOrderIsIrrelevant(a: seq<Transaction>, b: seq<Transaction>, merchant: string)
    requires multiset(a) == multiset(b) && DistinctDates(Expenses(a, merchant))
    ensures CandidateFor(a, merchant) == CandidateFor(b, merchant)
  {
    var x, y := Expenses(a, merchant), Expenses(b, merchant);
    SameExpenses(a, b, merchant);
    DatesAreOrdered();
    SortSorts(x, EarlierCharge);
    SortSorts(y, EarlierCharge);
    OneOrder(x, ByDate(x), ByDate(y));
  }

  /** Distinct dates leave one sorted order. */
  lemma {:induction false} OneOrder(items: seq<Transaction>, a: seq<Transaction>, b: seq<Transaction>)
    requires DistinctDates(items) && multiset(a) == multiset(items) == multiset(b)
    requires SortedBy(a, EarlierCharge) && SortedBy(b, EarlierCharge)
    ensures a == b
  {
    SortedStrictly(items, a);
    SortedStrictly(items, b);
    SameMembers(a, b);
    StrictOrderIsUnique(a, b);
  }

  lemma {:induction false} StrictOrderIsUnique(a: seq<Transaction>, b: seq<Transaction>)
    requires StrictlyByDate(a) && StrictlyByDate(b) && forall x :: x in a <==> x in b
    ensures a == b
    decreases a
  {
    assert a != [] ==> a[0] in b;
    assert b != [] ==> b[0] in b;
    if a != [] && b != [] {
      assert a[0] in b && b[0] in a;
      LessNotBoth(a[0].date, b[0].date);
      TailMembers(a);
      TailMembers(b);
      StrictOrderIsUnique(a[1..], b[1..]);
    }
  }

  lemma TailMembers(a: seq<Transaction>)
    requires StrictlyByDate(a) && a != []
    ensures forall x :: x in a[1..] <==> x in a && x != a[0]
  {
    LessIsTotal(a[0].date, a[0].date);
  }

  /** Equal charges on the same day of two consecutive months, or on the last day of a shorter
      month, with none between, are always found. */
  lemma MonthlyChargesAreFound(transactions: seq<Transaction>, a: Transaction, b: Transaction,
                               year: nat, month: nat, day: nat)
    requires DistinctDates(Expenses(transactions, a.merchant)) && 1 <= month <= 12 && 1 <= day <= 31
    requires
      var (nextYear, nextMonth) := NextMonth(year, month);
      && nextYear <= 9999
      && ParseDate(a.date) == Some(Billing(year, month, day))
      && ParseDate(b.date) == Some(Billing(nextYear, nextMonth, day))
    requires a.amount == b.amount
    requires a in Expenses(transactions, a.merchant) && b in Expenses(transactions, a.merchant)
    requires forall c :: c in Expenses(transactions, a.merchant) ==> !(Less(a.date, c.date) && Less(c.date, b.date))
    ensures CandidateFor(transactions, a.merchant).Some?
  {
    MonthlyGap(year, month, day);
    TextOrderIsDayOrder(a.date, b.date);
    assert Adjacent(Expenses(transactions, a.merchant), a, b) && Regular(a, b);
    CandidateMeansSubscribed(transactions, a.merchant);
  }
}

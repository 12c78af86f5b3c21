/** The verdict on a planned expense: safe, caution or avoid, from the month's dashboard, the
    user's profile and what the user regretted before. */
module SpendingVerdict {
  import opened Wrappers
  import opened Ledger
  import opened Dashboards
  import Amount
  import Merchants
  import Text

  const CATEGORIES: seq<string> := [
    "酒・飲み会", "サブスクリプション", "食費", "外食", "コンビニ", "日用品",
    "交通", "タクシー", "家賃", "光熱費", "通信", "娯楽", "学習", "健康",
    "旅行", "買い物", "その他", "未分類"
  ]
  const OTHER := "その他"
  const REGRET := "regret_pattern"
  const STRICT := "厳しい"
  const DRINK := "飲"

  /** A plan of any other category is judged as one of "その他". */
  lemma KnownCategories(c: string)
    ensures c in CATEGORIES <==>
              || c == "酒・飲み会" || c == "サブスクリプション" || c == "食費" || c == "外食" || c == "コンビニ"
              || c == "日用品" || c == "交通" || c == "タクシー" || c == "家賃" || c == "光熱費" || c == "通信"
              || c == "娯楽" || c == "学習" || c == "健康" || c == "旅行" || c == "買い物" || c == "その他"
              || c == "未分類"
  {
    assert |CATEGORIES| == 18;
  }

  lemma {:induction false} KeywordsAreKnown(name: string, groups: seq<Merchants.Keywords>, lower: char -> char)
    requires forall i :: 0 <= i < |groups| ==> groups[i].category in CATEGORIES
    ensures Merchants.ByKeyword(name, groups, lower) in CATEGORIES
    decreases groups
  {
    KnownCategories(Merchants.UNCLASSIFIED);
    if groups != [] {
      KeywordsAreKnown(name, groups[1..], lower);
    }
  }

  /** Whatever category an import finds by its keywords, a plan can name. */
  lemma ImportedCategoriesAreKnown(name: string, lower: char -> char)
    ensures Merchants.ByKeyword(name, Merchants.KEYWORDS, lower) in CATEGORIES
  {
    var groups := Merchants.KEYWORDS;
    forall i | 0 <= i < |groups|
      ensures groups[i].category in CATEGORIES
    {
      KnownCategories(groups[i].category);
    }
    KeywordsAreKnown(name, groups, lower);
  }

  datatype Memory = Memory(kind: string, content: string)

  datatype Profile = Profile(
    freeBudget: int,
    reduceCategories: seq<string>,
    allowedCategories: seq<string>,
    strictness: string)

  datatype Verdict = InsufficientData | Safe | Caution | Avoid

  datatype Facts = Facts(
    category: string,
    planned: Option<int>,
    freeBudgetRemaining: int,
    remainingAfterPlanned: int,
    categoryTotal: int,
    categoryIsReduced: bool,
    categoryIsAllowed: bool,
    budgetExceeded: bool,
    regretPattern: string,
    verdict: Verdict)

  // --------------------------------------------------------- category totals

  /** The first line with a category, or nothing. */
  ghost predicate IsCategoryTotal(byCategory: seq<CategoryAmount>, category: string, total: int) {
    || (exists i :: 0 <= i < |byCategory| && byCategory[i].category == category && byCategory[i].amount == total
                    && forall j :: 0 <= j < i ==> byCategory[j].category != category)
    || (total == 0 && forall i :: 0 <= i < |byCategory| ==> byCategory[i].category != category)
  }

  method CategoryTotal(byCategory: seq<CategoryAmount>, category: string) returns (total: int)
    ensures IsCategoryTotal(byCategory, category, total)
  {
    for i := 0 to |byCategory|
      invariant forall j :: 0 <= j < i ==> byCategory[j].category != category
    {
      if byCategory[i].category == category {
        return byCategory[i].amount;
      }
    }
    return 0;
  }

  /** On a dashboard of some rows, it is the sum of the category's rows, zero included. */
  lemma CategoryTotalIsSum(table: Table, keys: set<Key>, byCategory: seq<CategoryAmount>, category: string, total: int)
    requires keys <= table.Keys && Grouped(table, keys, byCategory)
    ensures IsCategoryTotal(byCategory, category, total) <==> total == Sum(table, InCategory(table, keys, category))
  {
    if forall i :: 0 <= i < |byCategory| ==> byCategory[i].category != category {
      assert InCategory(table, keys, category) == {};
    }
  }

  // ------------------------------------------------------------------ regret

  predicate Recalls(memory: Memory, category: string, message: string) {
    memory.kind == REGRET && (Text.Contains(memory.content, category) || Text.Contains(message, DRINK))
  }

  /** The content of the first memory that is recalled, even when that content is empty. */
  function RegretPattern(memories: seq<Memory>, category: string, message: string): string {
    if memories == [] then ""
    else if Recalls(memories[0], category, message) then memories[0].content
    else RegretPattern(memories[1..], category, message)
  }

  /** A regret that has to do with the category, or any regret once drinking comes up. */
  ghost predicate Concerns(memory: Memory, category: string, message: string) {
    && memory.kind == "regret_pattern"
    && ((exists a, b :: memory.content == a + category + b) || exists a, b :: message == a + "飲" + b)
  }

  lemma RecallsIff(memory: Memory, category: string, message: string)
    ensures Recalls(memory, category, message) <==> Concerns(memory, category, message)
  {
    Text.ContainsIff(memory.content, category);
    Text.ContainsIff(message, DRINK);
  }

  /** The regret found is the content of the first memory that concerns the plan, or empty. */
  lemma {:induction false} RegretIsFirst(memories: seq<Memory>, category: string, message: string)
    ensures
      var regret := RegretPattern(memories, category, message);
      || (regret == "" && forall j :: 0 <= j < |memories| ==> !Concerns(memories[j], category, message))
      || (exists i :: && 0 <= i < |memories| && Concerns(memories[i], category, message)
                      && regret == memories[i].content
                      && forall j :: 0 <= j < i ==> !Concerns(memories[j], category, message))
    decreases memories
  {
    if memories != [] {
      RecallsIff(memories[0], category, message);
      if !Recalls(memories[0], category, message) {
        var rest := memories[1..];
        RegretIsFirst(rest, category, message);
        assert forall j :: 0 < j < |memories| ==> memories[j] == rest[j - 1];
        if i :| 0 <= i < |rest| && Concerns(rest[i], category, message)
                && RegretPattern(rest, category, message) == rest[i].content
                && forall j :: 0 <= j < i ==> !Concerns(rest[j], category, message)
        {
          assert memories[i + 1] == rest[i];
        }
      }
    }
  }

  const HANDED_ON := 20

  /** The memories that a consultation is given: the newest ones, newest first. */
  function Cut(memories: seq<Memory>): seq<Memory> {
    if |memories| > HANDED_ON then memories[..HANDED_ON] else memories
  }

  /** Exactly when a newly saved memory takes a regret away: when it is recalled itself and says
      nothing, or when it is not recalled and pushes the regret off the end of the list. */
  lemma NewMemoryDropsRegretIff(memory: Memory, memories: seq<Memory>, category: string, message: string)
    requires RegretPattern(Cut(memories), category, message) != ""
    ensures
      RegretPattern(Cut([memory] + memories), category, message) == "" <==>
        if Recalls(memory, category, message) then memory.content == ""
        else |memories| >= HANDED_ON && RegretPattern(memories[..HANDED_ON - 1], category, message) == ""
  {
    var all := [memory] + memories;
    var kept := if |memories| >= HANDED_ON then memories[..HANDED_ON - 1] else memories;
    assert Cut(all) == [memory] + kept;
    assert Cut(all)[0] == memory && Cut(all)[1..] == kept;
  }

  // ----------------------------------------------------------------- verdict

  /** Go's integer division: the quotient is truncated toward zero. */
  function Quotient(a: int, b: int): int
    requires b > 0
  {
    if a >= 0 then a / b else -(-a / b)
  }

  /** The rule, without a division: spending more than is left or what was regretted is to be
      avoided; so is more than 3000 yen and a fifth of what is left on a reduced category; and
      more than a quarter of what is left calls for caution when advice is strict. */
  function Rule(planned: int, remaining: int, reduced: bool, strict: bool, regret: bool): Verdict {
    if planned > remaining || regret then Avoid
    else if reduced && planned > 3000 && 5 * planned > remaining then Avoid
    else if strict && 4 * planned > remaining then Caution
    else Safe
  }

  /** For planned amounts within what is left, truncating is the same as not dividing.  Beyond
      it, with an overspent budget, it is not: 0 is more than a quarter of -2, not more than -2/4. */
  lemma QuotientIsBound(planned: int, remaining: int)
    requires planned <= remaining
    ensures planned > Quotient(remaining, 5) <==> 5 * planned > remaining
    ensures planned > Quotient(remaining, 4) <==> 4 * planned > remaining
  {
    var a := if remaining >= 0 then remaining else -remaining;
    assert 5 * (a / 5) <= a < 5 * (a / 5) + 5;
    assert 4 * (a / 4) <= a < 4 * (a / 4) + 4;
  }

  /** What the facts of a spending with an amount say. */
  predicate Judged(facts: Facts, dashboard: Dashboard, profile: Profile, memories: seq<Memory>, message: string) {
    facts.planned.Some? ==>
      var p := facts.planned.value;
      && facts.remainingAfterPlanned == dashboard.freeBudgetRemaining - p
      && facts.budgetExceeded == (facts.remainingAfterPlanned < 0)
      && facts.regretPattern == RegretPattern(memories, facts.category, message)
      && facts.verdict == Rule(p, dashboard.freeBudgetRemaining, facts.categoryIsReduced,
                               profile.strictness == STRICT, facts.regretPattern != "")
  }

  method EvaluateSpending(profile: Profile, dashboard: Dashboard, memories: seq<Memory>, message: string,
                          planned: Option<int>, requested: string)
    returns (facts: Facts)
    ensures facts.category == if requested in CATEGORIES then requested else OTHER
    ensures facts.planned == planned && facts.freeBudgetRemaining == dashboard.freeBudgetRemaining
    ensures IsCategoryTotal(dashboard.byCategory, facts.category, facts.categoryTotal)
    ensures facts.categoryIsReduced <==> facts.category in profile.reduceCategories
    ensures facts.categoryIsAllowed <==> facts.category in profile.allowedCategories
    ensures facts.verdict == InsufficientData <==> planned == None
    ensures planned == None ==>
              facts.remainingAfterPlanned == 0 && !facts.budgetExceeded && facts.regretPattern == ""
    ensures Judged(facts, dashboard, profile, memories, message)
  {
    var category := requested;
    if category !in CATEGORIES {
      category := OTHER;
    }
    var total := CategoryTotal(dashboard.byCategory, category);
    var remaining := dashboard.freeBudgetRemaining;
    facts := Facts(category, planned, remaining, 0, total, category in profile.reduceCategories,
                   category in profile.allowedCategories, false, "", InsufficientData);
    if planned == None {
      return;
    }
    var amount := planned.value;
    facts := facts.(remainingAfterPlanned := remaining - amount, budgetExceeded := amount > remaining);
    var regret := FirstRegret(memories, category, message);
    var verdict := Decide(amount, remaining, facts.categoryIsReduced, profile.strictness, regret);
    facts := facts.(regretPattern := regret, verdict := verdict);
  }

  method FirstRegret(memories: seq<Memory>, category: string, message: string) returns (regret: string)
    ensures regret == RegretPattern(memories, category, message)
  {
    regret := "";
    var i := 0;
    while i < |memories|
      invariant i <= |memories|
      invariant regret == ""
      invariant RegretPattern(memories, category, message) == RegretPattern(memories[i..], category, message)
    {
      if Recalls(memories[i], category, message) {
        regret := memories[i].content;
        break;
      }
      i := i + 1;
    }
  }

  /** The switch, with its truncating divisions, decides by the rule. */
  method Decide(planned: int, remaining: int, reduced: bool, strictness: string, regret: string)
    returns (verdict: Verdict)
    ensures verdict == Rule(planned, remaining, reduced, strictness == STRICT, regret != "")
  {
    if planned > remaining || regret != "" {
      return Avoid;
    }
    QuotientIsBound(planned, remaining);
    if reduced && planned > Max(Quotient(remaining, 5), 3000) {
      return Avoid;
    }
    if strictness == STRICT && planned > Quotient(remaining, 4) {
      return Caution;
    }
    return Safe;
  }

  function Max(a: int, b: int): int {
    if a > b then a else b
  }

  function Rank(v: Verdict): int {
    match v
    case Avoid => 2
    case Caution => 1
    case Safe => 0
    case InsufficientData => -1
  }

  /** Planning more with less left, on a habit to reduce, under strict advice or after a regret:
      none of them ever makes the verdict milder. */
  lemma RuleIsMonotone(planned: int, more: int, remaining: int, less: int, reduced: bool, toReduce: bool,
                       strict: bool, stricter: bool, regret: bool, regretted: bool)
    requires planned <= more && less <= remaining
    requires (reduced ==> toReduce) && (strict ==> stricter) && (regret ==> regretted)
    ensures Rank(Rule(planned, remaining, reduced, strict, regret))
         <= Rank(Rule(more, less, toReduce, stricter, regretted))
  {
  }

  /** The rule with the numbers that a user would reckon with: what is left, a fifth of it and
      3000 yen for a habit to reduce, a quarter of it under strict advice. */
  lemma VerdictLimits(facts: Facts, dashboard: Dashboard, profile: Profile, memories: seq<Memory>, message: string)
    requires Judged(facts, dashboard, profile, memories, message) && facts.planned.Some?
    ensures
      var p, left := facts.planned.value, dashboard.freeBudgetRemaining;
      && facts.remainingAfterPlanned == left - p && (facts.budgetExceeded <==> p > left)
      && (p >= 0 && left < 0 ==> facts.verdict == Avoid)
      && (left >= 0 ==>
            && (facts.verdict == Avoid <==>
                  p > left || facts.regretPattern != "" || (facts.categoryIsReduced && p > 3000 && p > left / 5))
            && (facts.verdict == Caution <==>
                  facts.verdict != Avoid && profile.strictness == "厳しい" && p > left / 4)
            && (facts.verdict == Safe <==> facts.verdict != Avoid && facts.verdict != Caution))
  {
  }

  /** Exactly when a newly saved memory, of any content that the application accepts, makes the
      verdict milder: when it is not recalled and pushes the only regret off the list, and the
      amount is not to be avoided for another reason. */
  lemma NewMemoryRelaxesIff(memory: Memory, memories: seq<Memory>, category: string, message: string,
                            planned: int, remaining: int, reduced: bool, strict: bool)
    requires memory.content != ""
    ensures
      var before := RegretPattern(Cut(memories), category, message) != "";
      var after := RegretPattern(Cut([memory] + memories), category, message) != "";
      Rank(Rule(planned, remaining, reduced, strict, after)) < Rank(Rule(planned, remaining, reduced, strict, before))
      <==>
        && before && !Recalls(memory, category, message) && |memories| >= HANDED_ON
        && RegretPattern(memories[..HANDED_ON - 1], category, message) == ""
        && Rule(planned, remaining, reduced, strict, false) != Avoid
  {
    if RegretPattern(Cut(memories), category, message) != "" {
      NewMemoryDropsRegretIff(memory, memories, category, message);
    }
  }

  lemma {:induction false} UnrelatedRecallNothing(memories: seq<Memory>, category: string, message: string)
    requires forall i :: 0 <= i < |memories| ==> memories[i].kind != REGRET
    ensures RegretPattern(memories, category, message) == ""
    decreases memories
  {
    if memories != [] {
      UnrelatedRecallNothing(memories[1..], category, message);
    }
  }

  lemma {:induction false} RegretBehindUnrelated(memories: seq<Memory>, regret: Memory, category: string,
                                                 message: string)
    requires forall i :: 0 <= i < |memories| ==> memories[i].kind != REGRET
    requires Recalls(regret, category, message)
    ensures RegretPattern(memories + [regret], category, message) == regret.content
    decreases memories
  {
    if memories == [] {
      assert memories + [regret] == [regret];
    } else {
      assert (memories + [regret])[1..] == memories[1..] + [regret];
      RegretBehindUnrelated(memories[1..], regret, category, message);
    }
  }

  /** For one: a regret behind nineteen unrelated memories, and one more of these.  Of 10000 yen
      left, 100 were to be avoided and are now safe. */
  lemma TwentyFirstMemory(note: Memory, regret: Memory, category: string, message: string)
    requires note.kind != REGRET && note.content != "" && regret.content != ""
    requires regret.kind == REGRET && Text.Contains(regret.content, category)
    ensures
      var memories := seq(19, _ => note) + [regret];
      var before := RegretPattern(Cut(memories), category, message);
      var after := RegretPattern(Cut([note] + memories), category, message);
      && before == regret.content && after == ""
      && Rule(100, 10000, false, false, before != "") == Avoid
      && Rule(100, 10000, false, false, after != "") == Safe
  {
    var notes := seq(19, _ => note);
    var memories := notes + [regret];
    RegretBehindUnrelated(notes, regret, category, message);
    assert memories[..19] == notes;
    UnrelatedRecallNothing(notes, category, message);
    NewMemoryDropsRegretIff(note, memories, category, message);
  }

  // ------------------------------------------------------- verdicts over time

  /** The verdict on a planned amount, said of the user's rows. */
  ghost function VerdictOn(table: Table, user: int, month: string, profile: Profile, planned: int, reduced: bool,
                           regret: bool): Verdict {
    Rule(planned, profile.freeBudget - FreeTotal(table, user, month), reduced, profile.strictness == STRICT, regret)
  }

  /** On the month's dashboard, the facts' verdict is the verdict on the user's rows. */
  lemma FactsJudgeRows(table: Table, user: int, d: Dashboard, facts: Facts, profile: Profile,
                       memories: seq<Memory>, message: string)
    requires Reports(d, table, user, d.month, profile.freeBudget)
    requires Judged(facts, d, profile, memories, message) && facts.planned.Some?
    ensures facts.verdict == VerdictOn(table, user, d.month, profile, facts.planned.value, facts.categoryIsReduced,
                                       facts.regretPattern != "")
  {
  }

  ghost predicate Charges(table: Table) {
    forall key :: key in table ==> table[key].amount >= 0
  }

  predicate Adds(e: Event) {
    match e
    case Imports(_, batch) => forall i :: 0 <= i < |batch| ==> batch[i].row.amount >= 0
    case Corrects(_, category) => !Fixed(category)
  }

  /** More rows to charge, each at the same amount, and no smaller total. */
  lemma MoreRows(table: Table, after: Table, keys: set<Key>, more: set<Key>)
    requires keys <= table.Keys && more <= after.Keys && keys <= more && Charges(after)
    requires forall key :: key in keys ==> after[key].amount == table[key].amount
    ensures Sum(table, keys) <= Sum(after, more)
  {
    SumAgrees(table, after, keys);
    SumOfAmounts(after, more - keys);
    SumUnion(after, keys, more - keys);
    assert keys + (more - keys) == more;
  }

  lemma ImportCharges(table: Table, user: int, batch: seq<Item>)
    requires Charges(table) && Adds(Imports(user, batch))
    ensures Charges(Import(table, user, batch))
  {
    ImportMeans(table, user, batch);
    var after := Import(table, user, batch);
    forall key | key in after
      ensures after[key].amount >= 0
    {
      if key !in table {
        var i: nat :| FirstOf(batch, i, key.fingerprint);
      }
    }
  }

  /** Importing rows, and moving rows anywhere but into a fixed category, never lowers the total. */
  lemma TotalGrows(table: Table, e: Event, user: int, month: string)
    requires Charges(table) && Adds(e)
    ensures Charges(Step(table, e))
    ensures FreeTotal(table, user, month) <= FreeTotal(Step(table, e), user, month)
  {
    var after := Step(table, e);
    if e.Imports? {
      ImportCharges(table, e.user, e.batch);
      ImportMeans(table, e.user, e.batch);
    }
    var keys, more := Expenses(table, user, month), Expenses(after, user, month);
    assert keys <= more;
    MoreRows(table, after, keys - InFixed(table, keys), more - InFixed(after, more));
  }

  /** Over any run of imports by anyone and corrections into free categories, the verdict on
      an amount planned no smaller never becomes milder. */
  lemma {:induction false} VerdictNeverRelaxes(table: Table, events: seq<Event>, user: int, month: string,
                                               profile: Profile, planned: int, more: int, reduced: bool, regret: bool)
    requires Charges(table) && planned <= more
    requires forall i :: 0 <= i < |events| ==> Adds(events[i])
    ensures Rank(VerdictOn(table, user, month, profile, planned, reduced, regret))
         <= Rank(VerdictOn(Run(table, events), user, month, profile, more, reduced, regret))
    decreases events
  {
    if events != [] {
      TotalGrows(table, events[0], user, month);
      var remaining := profile.freeBudget - FreeTotal(table, user, month);
      var less := profile.freeBudget - FreeTotal(Step(table, events[0]), user, month);
      var strict := profile.strictness == STRICT;
      RuleIsMonotone(planned, more, remaining, less, reduced, reduced, strict, strict, regret, regret);
      VerdictNeverRelaxes(Step(table, events[0]), events[1..], user, month, profile, more, more, reduced, regret);
    }
  }

  /** The same, of what EvaluateSpending answers: the facts on a month's dashboard, and those
      after such a run for an amount planned no smaller, with the same habits and regrets. */
  lemma FactsNeverRelax(table: Table, events: seq<Event>, user: int, profile: Profile,
                        before: Dashboard, after: Dashboard, memories: seq<Memory>, message: string,
                        f: Facts, g: Facts)
    requires Charges(table) && forall i :: 0 <= i < |events| ==> Adds(events[i])
    requires Reports(before, table, user, before.month, profile.freeBudget)
    requires Reports(after, Run(table, events), user, before.month, profile.freeBudget)
    requires Judged(f, before, profile, memories, message) && Judged(g, after, profile, memories, message)
    requires f.planned.Some? && g.planned.Some? && f.planned.value <= g.planned.value
    requires f.category == g.category
    requires f.categoryIsReduced <==> f.category in profile.reduceCategories
    requires g.categoryIsReduced <==> g.category in profile.reduceCategories
    ensures Rank(f.verdict) <= Rank(g.verdict)
  {
    FactsJudgeRows(table, user, before, f, profile, memories, message);
    FactsJudgeRows(Run(table, events), user, after, g, profile, memories, message);
    VerdictNeverRelaxes(table, events, user, before.month, profile, f.planned.value, g.planned.value,
                        f.categoryIsReduced, f.regretPattern != "");
  }

  /** What a correction does to the total: it takes the row off when the row becomes fixed,
      puts it on when it ceases to be, and otherwise leaves the total alone. */
  lemma CorrectionMovesTotal(table: Table, key: Key, category: string, user: int, month: string)
    requires key in table
    ensures
      var before, after := FreeTotal(table, user, month), FreeTotal(Step(table, Corrects(key, category)), user, month);
      var wasFixed, isFixed := Fixed(table[key].category), Fixed(category);
      if key !in Expenses(table, user, month) || wasFixed == isFixed then after == before
      else if isFixed then after == before - table[key].amount
      else after == before + table[key].amount
  {
    var other := Step(table, Corrects(key, category));
    var keys := Expenses(table, user, month);
    assert Expenses(other, user, month) == keys;
    var before, after := keys - InFixed(table, keys), keys - InFixed(other, keys);
    if key !in keys || Fixed(table[key].category) == Fixed(category) {
      assert before == after;
      SumAgrees(table, other, before);
    } else if Fixed(category) {
      assert after == before - {key};
      SumPick(table, before, key);
      SumAgrees(table, other, after);
    } else {
      assert before == after - {key};
      SumPick(other, after, key);
      SumAgrees(table, other, before);
    }
  }

  /** The correction takes a charge off the user's free total of the month. */
  predicate Unburdens(table: Table, key: Key, category: string, user: int, month: string)
    requires key in table
  {
    && key in Expenses(table, user, month) && table[key].amount > 0
    && !Fixed(table[key].category) && Fixed(category)
  }

  /** A correction never makes a verdict milder, whatever is planned, exactly when it does not
      move a charge of that user and month from a free category into a fixed one. */
  lemma CorrectionRelaxesIff(table: Table, key: Key, category: string, user: int, month: string, profile: Profile)
    requires Charges(table) && key in table
    ensures
      (forall planned, reduced, regret ::
         Rank(VerdictOn(table, user, month, profile, planned, reduced, regret))
         <= Rank(VerdictOn(Step(table, Corrects(key, category)), user, month, profile, planned, reduced, regret)))
      <==> !Unburdens(table, key, category, user, month)
  {
    var other := Step(table, Corrects(key, category));
    var remaining := profile.freeBudget - FreeTotal(table, user, month);
    var less := profile.freeBudget - FreeTotal(other, user, month);
    CorrectionMovesTotal(table, key, category, user, month);
    if Unburdens(table, key, category, user, month) {
      assert VerdictOn(table, user, month, profile, remaining + 1, false, false) == Avoid;
      assert VerdictOn(other, user, month, profile, remaining + 1, false, false) != Avoid;
    } else {
      var strict := profile.strictness == STRICT;
      assert less <= remaining;
      forall planned, reduced, regret
        ensures Rank(VerdictOn(table, user, month, profile, planned, reduced, regret))
             <= Rank(VerdictOn(other, user, month, profile, planned, reduced, regret))
      {
        RuleIsMonotone(planned, planned, remaining, less, reduced, reduced, strict, strict, regret, regret);
      }
    }
  }

  /** For one: 5000 yen of food moved to the rent, with a budget of 6000 and 2000 planned. */
  lemma CorrectionCanRelax(key: Key, merchant: string, profile: Profile)
    requires profile.freeBudget == 6000 && profile.strictness == ""
    ensures
      var table := map[key := Row("2026-07-01", merchant, Amount.Expense, "食費", 5000)];
      && VerdictOn(table, key.user, "2026-07", profile, 2000, false, false) == Avoid
      && VerdictOn(Step(table, Corrects(key, "家賃")), key.user, "2026-07", profile, 2000, false, false) == Safe
  {
    var table := map[key := Row("2026-07-01", merchant, Amount.Expense, "食費", 5000)];
    assert MonthOf("2026-07-01") == "2026-07";
    var keys := Expenses(table, key.user, "2026-07");
    assert key in keys && keys == {key};
    assert !Fixed("食費") && Fixed("家賃");
    assert keys - InFixed(table, keys) == {key};
    SumPick(table, {key}, key);
    assert {key} - {key} == {};
    CorrectionMovesTotal(table, key, "家賃", key.user, "2026-07");
  }
}

/** The rule-based "future self" of src/services/aiSimulator.ts: persona
    tiers, the chat reply dispatch, the savings-change alert, and the monthly
    income/expense alert generator. */
module AiSimulator {
  import opened Optional
  import opened Text
  import opened JsNumber
  import opened KeywordRules

  // ---------------------------------------------------------------- persona

  datatype Mood = Happy | Neutral | Worried

  datatype PersonaTier = FreedomArchitect | SecurePlanner | CautiousSaver | StressedSurvivor

  /** The persona, without its description and advice texts. */
  datatype FuturePersona = FuturePersona(tier: PersonaTier, mood: Mood)

  /** `currentSavings + monthlySavings * 12 * years * 1.5`; NaN savings
      stay NaN. */
  function FutureValue(currentSavings: Num, monthlySavings: real, years: real): (v: Num)
    ensures v.NaN? <==> currentSavings.NaN?
  {
    Add(currentSavings, Finite(monthlySavings * 12.0 * years * 1.5))
  }

  /** `generateFuturePersona`'s decision on the future value: strict
      thresholds at 1e7, 5e6 and 2e6; a NaN value fails every comparison. */
  function PersonaOf(futureValue: Num): (p: FuturePersona)
    ensures p.tier == FreedomArchitect <==> Greater(futureValue, Finite(10000000.0))
    ensures p.tier == StressedSurvivor <==> !Greater(futureValue, Finite(2000000.0))
    ensures p.tier == SecurePlanner <==>
      Greater(futureValue, Finite(5000000.0)) && !Greater(futureValue, Finite(10000000.0))
    ensures p.tier == CautiousSaver <==>
      Greater(futureValue, Finite(2000000.0)) && !Greater(futureValue, Finite(5000000.0))
    ensures p.mood == Happy <==> Greater(futureValue, Finite(5000000.0))
    ensures p.mood == Neutral <==> p.tier == CautiousSaver
    ensures p.mood == Worried <==> p.tier == StressedSurvivor
  {
    if Greater(futureValue, Finite(10000000.0)) then FuturePersona(FreedomArchitect, Happy)
    else if Greater(futureValue, Finite(5000000.0)) then FuturePersona(SecurePlanner, Happy)
    else if Greater(futureValue, Finite(2000000.0)) then FuturePersona(CautiousSaver, Neutral)
    else FuturePersona(StressedSurvivor, Worried)
  }

  /** `generateFuturePersona`: NaN savings make a stressed survivor, and
      savings already above 1e7 stay a freedom architect unless the plan
      saves a negative amount. */
  function GenerateFuturePersona(currentSavings: Num, monthlySavings: real, years: real): (p: FuturePersona)
    ensures currentSavings.NaN? ==> p == FuturePersona(StressedSurvivor, Worried)
    ensures currentSavings.Finite? && currentSavings.value > 10000000.0 && monthlySavings >= 0.0 && years >= 0.0 ==>
      p == FuturePersona(FreedomArchitect, Happy)
  {
    GrowthNonNegative(monthlySavings, years);
    PersonaOf(FutureValue(currentSavings, monthlySavings, years))
  }

  lemma GrowthNonNegative(monthlySavings: real, years: real)
    ensures monthlySavings >= 0.0 && years >= 0.0 ==> monthlySavings * 12.0 * years * 1.5 >= 0.0
  {
    if monthlySavings >= 0.0 && years > 0.0 {
      MulNonNegative(monthlySavings * 12.0, years);
    }
  }

  /** worried < neutral < happy. */
  function MoodRank(m: Mood): nat {
    match m
    case Worried => 0
    case Neutral => 1
    case Happy => 2
  }

  /** StressedSurvivor < CautiousSaver < SecurePlanner < FreedomArchitect. */
  function TierRank(t: PersonaTier): nat {
    match t
    case StressedSurvivor => 0
    case CautiousSaver => 1
    case SecurePlanner => 2
    case FreedomArchitect => 3
  }

  /** Each tier carries one mood, and a better tier never a worse mood. */
  lemma MoodFollowsTier(a: Num, b: Num)
    requires TierRank(PersonaOf(a).tier) <= TierRank(PersonaOf(b).tier)
    ensures MoodRank(PersonaOf(a).mood) <= MoodRank(PersonaOf(b).mood)
  {
  }

  /** A larger future value never gives a lower tier or a worse mood. */
  lemma PersonaMonotone(x: real, y: real)
    requires x <= y
    ensures TierRank(PersonaOf(Finite(x)).tier) <= TierRank(PersonaOf(Finite(y)).tier)
    ensures MoodRank(PersonaOf(Finite(x)).mood) <= MoodRank(PersonaOf(Finite(y)).mood)
  {
  }

  /** Saving more each month, over a non-negative horizon, never worsens
      the persona. */
  lemma MoreSavingNeverWorse(currentSavings: real, m1: real, m2: real, years: real)
    requires m1 <= m2 && years >= 0.0
    ensures TierRank(GenerateFuturePersona(Finite(currentSavings), m1, years).tier) <=
            TierRank(GenerateFuturePersona(Finite(currentSavings), m2, years).tier)
  {
    var v1 := currentSavings + m1 * 12.0 * years * 1.5;
    var v2 := currentSavings + m2 * 12.0 * years * 1.5;
    assert m1 * years <= m2 * years by {
      assert (m2 - m1) * years >= 0.0;
    }
    assert v1 <= v2;
    PersonaMonotone(v1, v2);
  }

  // ------------------------------------------------------------------- chat

  /** The chat replies. The savings reply quotes the monthly savings and the
      suggested target of 20% more. */
  datatype ChatReply =
    | SavingsReply(monthly: real, target: real)
    | InvestReply
    | RetirementReply
    | RiskReply
    | DefaultReply

  /** `getChatResponse`: the first group whose keyword is in the lower-cased
      message decides. */
  function GetChatResponse(message: string, monthlySavings: real): (r: ChatReply)
    ensures r.SavingsReply? ==> r.monthly == monthlySavings && r.target == monthlySavings * 1.2
  {
    var msg := ToLower(message);
    if Contains(msg, "save") || Contains(msg, "saving") then SavingsReply(monthlySavings, monthlySavings * 1.2)
    else if Contains(msg, "invest") || Contains(msg, "stock") || Contains(msg, "fund") then InvestReply
    else if Contains(msg, "retirement") || Contains(msg, "retire") then RetirementReply
    else if Contains(msg, "risk") || Contains(msg, "safe") then RiskReply
    else DefaultReply
  }

  /** The reply groups as a rule table, in dispatch order. */
  const ChatTable: seq<Rule> := [
    Rule(["save", "saving"], "savings"),
    Rule(["invest", "stock", "fund"], "invest"),
    Rule(["retirement", "retire"], "retirement"),
    Rule(["risk", "safe"], "risk")
  ]

  /** The rule name a reply belongs to. */
  function ReplyGroup(r: ChatReply): string {
    match r
    case SavingsReply(_, _) => "savings"
    case InvestReply => "invest"
    case RetirementReply => "retirement"
    case RiskReply => "risk"
    case DefaultReply => "default"
  }

  lemma MatchesTriple(a: string, b: string, c: string, category: string, text: string)
    ensures Matches(Rule([a, b, c], category), text) <==>
      Contains(text, a) || Contains(text, b) || Contains(text, c)
  {
    var rule := Rule([a, b, c], category);
    if Contains(text, a) { assert a in rule.keywords; }
    if Contains(text, b) { assert b in rule.keywords; }
    if Contains(text, c) { assert c in rule.keywords; }
  }

  lemma ChatTableMatches(text: string)
    ensures Matches(ChatTable[0], text) <==> Contains(text, "save") || Contains(text, "saving")
    ensures Matches(ChatTable[1], text) <==>
      Contains(text, "invest") || Contains(text, "stock") || Contains(text, "fund")
    ensures Matches(ChatTable[2], text) <==> Contains(text, "retirement") || Contains(text, "retire")
    ensures Matches(ChatTable[3], text) <==> Contains(text, "risk") || Contains(text, "safe")
  {
    MatchesPair("save", "saving", "savings", text);
    MatchesTriple("invest", "stock", "fund", "invest", text);
    MatchesPair("retirement", "retire", "retirement", text);
    MatchesPair("risk", "safe", "risk", text);
  }

  /** The dispatch is the first-match policy over the table. */
  lemma ChatIsFirstMatch(message: string, monthlySavings: real)
    ensures ReplyGroup(GetChatResponse(message, monthlySavings)) ==
      FirstMatch(ChatTable, ToLower(message), "default")
  {
    var text := ToLower(message);
    ChatTableMatches(text);
    if Matches(ChatTable[0], text) {
      FirstMatchIsEarliest(ChatTable, text, "default", 0);
    } else if Matches(ChatTable[1], text) {
      FirstMatchIsEarliest(ChatTable, text, "default", 1);
    } else if Matches(ChatTable[2], text) {
      FirstMatchIsEarliest(ChatTable, text, "default", 2);
    } else if Matches(ChatTable[3], text) {
      FirstMatchIsEarliest(ChatTable, text, "default", 3);
    } else {
      FirstMatchNone(ChatTable, text, "default");
    }
  }

  /** A keyword that contains another keyword of its group never decides
      anything: every text with "retirement" also has "retire". */
  lemma RetirementImpliesRetire(text: string)
    requires Contains(text, "retirement")
    ensures Contains(text, "retire")
  {
    var i :| 0 <= i <= |text| - |"retirement"| && OccursAt(text, "retirement", i);
    assert text[i..i + 6] == text[i..i + 10][..6];
    assert OccursAt(text, "retire", i);
  }

  /** The chat reply ignores letter case. */
  lemma ChatIgnoresCase(message: string, monthlySavings: real)
    ensures GetChatResponse(ToUpper(message), monthlySavings) == GetChatResponse(message, monthlySavings)
  {
    LowerOfUpper(message);
  }

  /** "is it safe to save" asks about risk, but the savings group is checked
      first. */
  lemma SafeToSaveIsSavings(monthlySavings: real)
    ensures GetChatResponse("is it safe to save", monthlySavings).SavingsReply?
  {
    SafeToSaveLowered();
    SafeToSaveHasSave();
  }

  lemma SafeToSaveLowered()
    ensures ToLower("is it safe to save") == "is it safe to save"
  {
    ToLowerOfLower("is it safe to save");
  }

  lemma SafeToSaveHasSave()
    ensures Contains("is it safe to save", "save")
  {
    ContainsAt("is it safe to save", "save", 14);
  }

  // ------------------------------------------------------- savings change

  datatype ToastType = Default | Destructive | Success | Info

  datatype AlertHeadline = GoodChoices | SpendingCreep | ActionNeeded | StablePath

  /** The savings-change alert, without its description text but with the
      amount that text quotes, if any. */
  datatype SavingsAlert = SavingsAlert(headline: AlertHeadline, kind: ToastType, quoted: Option<real>)

  /** `getAlertMessage(newSavings, prevSavings)`. A rise quotes `diff`, a fall
      quotes `Math.abs(diff)`, and the no-change notices quote nothing. */
  function GetAlertMessage(newSavings: real, prevSavings: real): (a: SavingsAlert)
    ensures a.kind != Default
    ensures a.quoted.Some? <==> newSavings != prevSavings
    ensures a.quoted.Some? ==> a.quoted.value > 0.0
    ensures a.quoted.Some? ==>
      a.quoted.value == if newSavings > prevSavings then newSavings - prevSavings else prevSavings - newSavings
  {
    var diff := newSavings - prevSavings;
    if diff > 0.0 then SavingsAlert(GoodChoices, Success, Some(diff))
    else if diff < 0.0 then SavingsAlert(SpendingCreep, Destructive, Some(-diff))
    else if newSavings < 10000.0 then SavingsAlert(ActionNeeded, Destructive, None)
    else SavingsAlert(StablePath, Info, None)
  }

  /** The alert's type as a function of the two savings figures, each case
      an if-and-only-if. */
  lemma AlertTypeIff(newSavings: real, prevSavings: real)
    ensures GetAlertMessage(newSavings, prevSavings).kind == Success <==> newSavings > prevSavings
    ensures GetAlertMessage(newSavings, prevSavings).kind == Destructive <==>
      newSavings < prevSavings || (newSavings == prevSavings && newSavings < 10000.0)
    ensures GetAlertMessage(newSavings, prevSavings).kind == Info <==>
      newSavings == prevSavings && newSavings >= 10000.0
  {
  }

  /** Swapping the two figures of a change swaps success and creep, and
      both quote the same amount. */
  lemma AlertAntisymmetric(a: real, b: real)
    requires a != b
    ensures GetAlertMessage(a, b).kind == Success <==> GetAlertMessage(b, a).headline == SpendingCreep
    ensures GetAlertMessage(a, b).quoted == GetAlertMessage(b, a).quoted
  {
  }

  // ------------------------------------------------------ financial alerts

  datatype MonthYear = MonthYear(month: int, year: int)

  /** A stored transaction as the generator reads it: `type`, `Number(amount)`,
      and the month and year of `new Date(date)` (None for an invalid date,
      whose month and year compare equal to nothing). */
  datatype Txn = Txn(kind: string, amount: Num, date: Option<MonthYear>)

  /** `sum + Number(t.amount)` over this month's transactions of one type.
      With nothing counted the total is 0: the records both uploaders store
      have no `type` field at all, so on them the income is 0 and the
      generator only ever says all is well. */
  function MonthTotal(txns: seq<Txn>, kind: string, now: MonthYear): (total: Num)
    ensures (forall i :: 0 <= i < |txns| ==> !Counted(txns[i], kind, now)) ==> total == Finite(0.0)
  {
    if txns == [] then Finite(0.0)
    else
      var t := txns[|txns| - 1];
      var rest := MonthTotal(txns[..|txns| - 1], kind, now);
      if t.date == Some(now) && t.kind == kind then Add(rest, t.amount) else rest
  }

  /** The transactions that enter a month total. */
  predicate Counted(t: Txn, kind: string, now: MonthYear) {
    t.date == Some(now) && t.kind == kind
  }

  /** A month total is NaN exactly when one of its counted amounts is NaN;
      other months and other types never affect it. */
  lemma {:induction false} MonthTotalNaN(txns: seq<Txn>, kind: string, now: MonthYear)
    ensures MonthTotal(txns, kind, now).NaN? <==>
      exists i :: 0 <= i < |txns| && Counted(txns[i], kind, now) && txns[i].amount.NaN?
  {
    if txns != [] {
      var init := txns[..|txns| - 1];
      MonthTotalNaN(init, kind, now);
      assert forall i :: 0 <= i < |init| ==> init[i] == txns[i];
    }
  }

  /** A total of finite non-negative amounts is non-negative. */
  lemma {:induction false} MonthTotalNonNegative(txns: seq<Txn>, kind: string, now: MonthYear)
    requires forall i :: 0 <= i < |txns| ==> txns[i].amount.Finite? && txns[i].amount.value >= 0.0
    ensures MonthTotal(txns, kind, now).Finite? && MonthTotal(txns, kind, now).value >= 0.0
  {
    if txns != [] {
      MonthTotalNonNegative(txns[..|txns| - 1], kind, now);
    }
  }

  /** A generated alert, without its message text. */
  datatype FinancialAlert = FinancialAlert(id: string, kind: string, read: bool, actionable: bool)

  const Overspending := FinancialAlert("gen-1", "warning", false, true)
  const LowSavingsRate := FinancialAlert("gen-2", "warning", false, true)
  const GreatSavingsRate := FinancialAlert("gen-3", "success", false, false)
  const AllLooksGood := FinancialAlert("gen-default", "info", true, false)

  /** `income > 0 ? (income - expense) / income : 0`. */
  function SavingsRate(income: Num, expense: Num): (rate: Num)
    ensures !Greater(income, Finite(0.0)) ==> rate == Finite(0.0)
    ensures Greater(income, Finite(0.0)) ==> (rate.NaN? <==> expense.NaN?)
    ensures Greater(income, Finite(0.0)) && expense.Finite? ==>
      (rate.value < 0.1 <==> 10.0 * (income.value - expense.value) < income.value) &&
      (rate.value > 0.3 <==> 10.0 * (income.value - expense.value) > 3.0 * income.value)
  {
    if Greater(income, Finite(0.0)) then
      (if expense.NaN? then NaN
       else
         RateBelowTenth(income.value, expense.value);
         RateAboveThreeTenths(income.value, expense.value);
         Finite((income.value - expense.value) / income.value))
    else Finite(0.0)
  }

  /** `generateFinancialAlerts`; `now` stands for the clock's month and year. */
  method GenerateFinancialAlerts(transactions: seq<Txn>, now: MonthYear) returns (alerts: seq<FinancialAlert>)
    ensures |alerts| >= 1
    ensures AllLooksGood in alerts <==> alerts == [AllLooksGood]
    ensures !(LowSavingsRate in alerts && GreatSavingsRate in alerts)
    ensures var income := MonthTotal(transactions, "income", now);
      !Greater(income, Finite(0.0)) ==> alerts == [AllLooksGood]
    ensures Overspending in alerts ==> LowSavingsRate in alerts
    ensures var income := MonthTotal(transactions, "income", now);
      var expense := MonthTotal(transactions, "expense", now);
      Overspending in alerts <==> Greater(expense, income) && Greater(income, Finite(0.0))
    ensures var income := MonthTotal(transactions, "income", now);
      var expense := MonthTotal(transactions, "expense", now);
      LowSavingsRate in alerts <==> (Greater(income, Finite(0.0)) && expense.Finite? &&
        10.0 * (income.value - expense.value) < income.value)
    ensures var income := MonthTotal(transactions, "income", now);
      var expense := MonthTotal(transactions, "expense", now);
      GreatSavingsRate in alerts <==> (Greater(income, Finite(0.0)) && expense.Finite? &&
        10.0 * (income.value - expense.value) > 3.0 * income.value)
    ensures var income := MonthTotal(transactions, "income", now);
      var expense := MonthTotal(transactions, "expense", now);
      var over := Greater(expense, income) && Greater(income, Finite(0.0));
      var low := Greater(income, Finite(0.0)) && expense.Finite? &&
        10.0 * (income.value - expense.value) < income.value;
      var great := Greater(income, Finite(0.0)) && expense.Finite? &&
        10.0 * (income.value - expense.value) > 3.0 * income.value;
      alerts == (if over then [Overspending] else []) +
        (if low then [LowSavingsRate] else if great then [GreatSavingsRate] else []) +
        (if !over && !low && !great then [AllLooksGood] else [])
  {
    var income := MonthTotal(transactions, "income", now);
    var expense := MonthTotal(transactions, "expense", now);
    alerts := [];

    if Greater(expense, income) && Greater(income, Finite(0.0)) {
      alerts := alerts + [Overspending];
    }

    var savingsRate := SavingsRate(income, expense);
    if Greater(Finite(0.1), savingsRate) && Greater(income, Finite(0.0)) {
      alerts := alerts + [LowSavingsRate];
    } else if Greater(savingsRate, Finite(0.3)) {
      alerts := alerts + [GreatSavingsRate];
    }

    if |alerts| == 0 {
      alerts := alerts + [AllLooksGood];
    }
  }

  /** The rate comparison against 10%, cross-multiplied. */
  lemma RateBelowTenth(income: real, expense: real)
    requires income > 0.0
    ensures (income - expense) / income < 0.1 <==> 10.0 * (income - expense) < income
  {
    var d := income - expense;
    var r := d / income;
    assert d == r * income;
    if r < 0.1 {
      MulPositive(0.1 - r, income);
      assert (0.1 - r) * income == 0.1 * income - r * income;
    } else {
      MulNonNegative(r - 0.1, income);
      assert (r - 0.1) * income == r * income - 0.1 * income;
    }
  }

  /** The rate comparison against 30%, cross-multiplied. */
  lemma RateAboveThreeTenths(income: real, expense: real)
    requires income > 0.0
    ensures (income - expense) / income > 0.3 <==> 10.0 * (income - expense) > 3.0 * income
  {
    var d := income - expense;
    var r := d / income;
    assert d == r * income;
    if r > 0.3 {
      MulPositive(r - 0.3, income);
      assert (r - 0.3) * income == r * income - 0.3 * income;
    } else {
      MulNonNegative(0.3 - r, income);
      assert (0.3 - r) * income == 0.3 * income - r * income;
    }
  }
}

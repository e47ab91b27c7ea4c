# A verified model of the personal-finance dashboard's core logic

This project models, in Dafny, the decision logic of a personal-finance
dashboard. The dashboard is a React front end with one cloud function.

- **Categorisers.** There are three keyword categorisers:
  - `detectCategory` (src/utils/categorize.ts): first match, default "Other".
  - The statement uploader's own `categorizeTransaction`: first match, default "Shopping".
  - The server's assignment chain: the last matching assignment wins, default "Others".
  Module `KeywordRules` gives one reference definition for each policy, and
  each categoriser is proved equal to its policy over an ordered rule table.
- **Statement import.** There are two paths:
  - The client path: one awaited `addTransaction` per CSV row. Rows added
    before a failure stay added.
  - The server path (`uploadTransactions`): bearer-token extraction, row
    normalisation, categorisation, and one all-or-nothing batch commit.
- **The "future self" service** (`aiSimulator.ts`): persona tiers, chat-reply
  dispatch, the savings-change notice, and the monthly income/expense alerts.
- **The pages:**
  - Spending: category totals in order of first appearance, the monthly
    trend, and the budget-used percentage.
  - Alerts: filters, the unread count, mark-read and dismiss.
  - Simulator: the ten-year projection, current savings, and the future values.
  - Goals: totals, percentages, the status label and the probability tier.
  - The well-being score card: colour, label, badge and change row.

JavaScript numbers are modelled as `JsNumber.Num`: a finite real, or NaN.
The model includes:

- NaN propagation through `+`.
- `x || 0`.
- `Number(text)` for decimal numerals.
- `Math.round`.

Case folding is ASCII only. Each module is written in the form of its
source:

- The loops become methods with invariants, proved against specification
  functions: the client upload, the server's row and batch loops, the
  Spending aggregation, the projection, and the alert generator.
- The stores the uploads write to are classes with a ghost record sequence.
- Everything else is functions and lemmas.

Where the code and the documented behaviour of the system differ, the model
follows the code:

- **A non-numeric amount.** A row whose amount is `"abc"` is stored with
  amount NaN. `Number("abc")` has no fallback, because `"abc"` is truthy. The
  documented example says 0 (`UploadFunction.UnknownMerchantRow`).
- **A token the verifier rejects.** This answers 500 "Upload failed", not 401,
  because the rejection is caught by the generic `catch`.
- **A failed commit.** No response is sent (`NoResponse`), not 500, because the
  commit runs in the stream's "end" handler, outside the `try`.
- **Unguarded goal percentage.** The overall goal percentage has no zero guard,
  so a zero total target shows NaN or an infinity (`Goals.Percent`). The
  budget-used percentage of the Spending page does guard (`Spending.BudgetUsed`).
- **Alerts that never fire.** The alert generator reads a `type` field that
  neither uploader stores, so on stored records the income is 0 and it only
  ever produces "All Looks Good". See `AiSimulator.MonthTotal`
  with the `GenerateFinancialAlerts` postcondition.

## Model

| member | source | states |
|---|---|---|
| Text.ToLower | src/utils/categorize.ts:2 | lower-casing keeps the length and folds each ASCII letter, position by position |
| Text.ToUpper | functions/index.js:43-46 | upper-casing keeps the length and folds each ASCII letter, position by position |
| Text.IndexOf | functions/index.js:21 | the index of the first occurrence of the separator, and none exactly when the text does not hold it |
| Text.LowerOfUpper | src/utils/categorize.ts:2 | lower-casing an upper-cased text gives the lower-cased text, so matching after `toLowerCase` ignores case |
| JsNumber.OrZero | src/pages/Spending.tsx:88 | the or-zero fallback keeps a truthy number and turns 0 and NaN into 0 |
| JsNumber.Round | src/pages/Simulator.tsx:45-46 | `Math.round` gives the integer nearest to x, with halves rounded up |
| JsNumber.RoundMonotone | src/pages/Simulator.tsx:45-46 | rounding never reverses an order |
| JsNumber.ToNumber | functions/index.js:39 | `Number("")` is 0, and a text holding a character that no numeral has is NaN |
| JsNumber.ToNumberOfNatToString | functions/index.js:39 | `Number` reads a rendered whole number back as itself |
| JsNumber.ToNumberOfNegated | functions/index.js:39 | a leading minus negates the value of a numeral that starts with a digit or a point |
| JsNumber.ToNumberOfNegativeNat | functions/index.js:39 | `Number("-" + n)` is −n for every whole number n |
| JsNumber.ToNumberOfDecimal | functions/index.js:39 | `Number(a + "." + b)` is a plus b scaled down by as many places as b has digits |
| JsNumber.ToNumberOfNegativeDecimal | src/components/UploadStatement.tsx:28 | `Number("-" + a + "." + b)` is minus that value, so a signed fractional amount is read exactly |
| KeywordRules.FirstMatch | src/utils/categorize.ts:4-10 | the first-match policy yields the default or the category of some rule |
| KeywordRules.FirstMatchIsEarliest | src/utils/categorize.ts:4-10 | when rule i is the earliest rule with a keyword in the text, first match yields rule i's category |
| KeywordRules.FirstMatchNone | src/utils/categorize.ts:10 | with no rule matching, first match yields the default |
| KeywordRules.FirstMatchDefaultIff | src/utils/categorize.ts:4-10 | when no rule carries the default label, first match yields the default exactly when no rule matches |
| KeywordRules.FirstMatchDropDefaultLast | src/components/UploadStatement.tsx:12-14 | a last rule whose category is the default can be dropped without changing any outcome |
| KeywordRules.LastMatch | functions/index.js:42-46 | the last-match policy yields the default or the category of some rule |
| KeywordRules.LastMatchIsLatest | functions/index.js:42-46 | when rule i is the latest rule with a keyword in the text, last match yields rule i's category |
| KeywordRules.LastMatchNone | functions/index.js:42 | with no rule matching, last match yields the default |
| KeywordRules.LastMatchDefaultIff | functions/index.js:42-46 | when no rule carries the default label, last match yields the default exactly when no rule matches |
| Categorize.DetectCategory | src/utils/categorize.ts:1-11 | the result is one of the six labels, "Other" included |
| Categorize.DetectCategoryIsFirstMatch | src/utils/categorize.ts:2-10 | the if-chain is first match over the five-rule table, on the lower-cased text, with default "Other" |
| Categorize.UpperCaseSameCategory | src/utils/categorize.ts:2 | upper-casing the description never changes its category |
| Categorize.LowerCaseSameCategory | src/utils/categorize.ts:2 | lower-casing the description never changes its category |
| Categorize.FoodKeywordsWin | src/utils/categorize.ts:4 | a food keyword decides "Food & Dining", whatever else the text holds |
| Categorize.OtherIffNoKeyword | src/utils/categorize.ts:4-10 | "Other" exactly when none of the ten keywords occurs |
| Categorize.AmazonPrimeIsEntertainment | src/utils/categorize.ts:6-7 | rule order: "amazon prime" is Entertainment, not Shopping |
| Categorize.GranolaIsTransportation | src/utils/categorize.ts:5 | substring matching: "granola" holds "ola", so it is Transportation |
| UploadStatement.CategorizeTransaction | src/components/UploadStatement.tsx:5-15 | the result is one of five labels, so the uploader never produces "Other" |
| UploadStatement.CategorizeIsFirstMatch | src/components/UploadStatement.tsx:6-14 | the if-chain is first match over its five-rule table, with default "Shopping" |
| UploadStatement.UpperCaseSameCategory | src/components/UploadStatement.tsx:6 | upper-casing the description never changes its category |
| UploadStatement.ShoppingRuleRedundant | src/components/UploadStatement.tsx:12-14 | the "bazaar"/"mart" rule never changes an outcome: first match over the first four rules is the same |
| UploadStatement.TransportBeforeLaterRules | src/components/UploadStatement.tsx:8-9 | a transport keyword without a food keyword gives Transportation |
| UploadStatement.UberNetflixIsTransportation | src/components/UploadStatement.tsx:9-10 | "uber netflix" is Transportation |
| UploadStatement.MartBillIsUtilities | src/components/UploadStatement.tsx:11-12 | "mart bill" is Utilities: "bill" is checked before "mart" |
| UploadStatement.RowAmount | src/components/UploadStatement.tsx:28 | `Number(row.amount)`: a missing cell is NaN, an empty one 0, and one with a non-numeral character NaN |
| UploadStatement.RowTransaction | src/components/UploadStatement.tsx:27-32 | a row builds a record exactly when it has a description; the record keeps it, takes a label from the closed set and the row's amount |
| UploadStatement.Transactions | src/components/UploadStatement.tsx:26-32 | one record per row, in row order, each the record that row builds |
| UploadStatement.TransactionFields | src/components/UploadStatement.tsx:28-30 | a record keeps the row's description, categorises it, and has amount NaN when the row has no amount |
| UploadStatement.TransactionStore.AddTransaction | src/components/UploadStatement.tsx:27-32 | a successful add appends the record; a failed one changes nothing |
| UploadStatement.HandleFileUpload | src/components/UploadStatement.tsx:18-38 | no file: nothing happens. Reload only after every row was added, in order. Otherwise it stops at a row, keeping exactly the records of the rows before it. A row without a description always stops it |
| UploadFunction.SecondPiece | functions/index.js:21 | the piece after the first "Bearer ", up to the next one, exists exactly when the header holds "Bearer ", and never holds "Bearer " itself |
| UploadFunction.SecondPieceIsFirstSegment | functions/index.js:21 | the piece starts right after the first "Bearer " and runs to the next "Bearer " or to the end of the header |
| UploadFunction.BearerToken | functions/index.js:21-24 | a non-empty piece after the first "Bearer " is the token; a token is found only in a header holding "Bearer ", is non-empty and never holds "Bearer "; no header or no "Bearer " gives no token |
| UploadFunction.BearerTokenRoundTrip | functions/index.js:21 | "Bearer " + t yields t for any non-empty t not holding "Bearer " |
| UploadFunction.BareBearerHasNoToken | functions/index.js:21-24 | the header "Bearer " alone has no token, so the answer is 401 |
| UploadFunction.RowDescription | functions/index.js:38 | a non-empty `Description` wins; else a non-empty `description`; else "", which happens exactly when neither cell is set |
| UploadFunction.RowAmount | functions/index.js:39 | a non-empty `Amount` is read with `Number`; else a non-empty `amount`; with neither cell set the amount is 0. A cell that is not a number gives NaN, with no fallback to the other cell |
| UploadFunction.AmountRoundTrip | functions/index.js:39 | an `Amount` cell holding a rendered whole number reads back as that number |
| UploadFunction.LowerAmountRoundTrip | functions/index.js:39 | the same through the lower-case `amount` cell when `Amount` is empty |
| UploadFunction.ServerCategoryPrecedence | functions/index.js:42-46 | the assignment chain is last match: Netflix over Amazon over Uber over Zomato, default "Others" |
| UploadFunction.ServerCategory | functions/index.js:42-46 | the category is one of five labels, and "Others" exactly when no keyword occurs in the upper-cased text |
| UploadFunction.ServerCategoryIgnoresCase | functions/index.js:43-46 | lower-casing the description never changes its category |
| UploadFunction.AssignCategory | functions/index.js:42-46 | the chain of assignments computes the last-match category |
| UploadFunction.BankTransactionOf | functions/index.js:48-55 | each record carries the verified user and source "bank_upload", with a label from the closed set |
| UploadFunction.BankTransactions | functions/index.js:37-56 | one record per row, in row order |
| UploadFunction.BankTransactionsOwned | functions/index.js:48-55 | every record pushed belongs to the verified user and is tagged "bank_upload" |
| UploadFunction.UberTripRow | functions/index.js:37-55 | the row "UBER TRIP 45", "250" becomes amount 250 and category Transportation |
| UploadFunction.UnknownMerchantRow | functions/index.js:38-46 | the row "unknown merchant", "abc" becomes amount NaN and category "Others" |
| UploadFunction.TransactionsCollection.Commit | functions/index.js:58-65 | a batch commit adds the whole batch or nothing |
| UploadFunction.CollectRows | functions/index.js:35-56 | the "data" handler pushes exactly the records of the rows, in order |
| UploadFunction.FillBatch | functions/index.js:58-63 | the batch holds the collected records, in order |
| UploadFunction.UploadTransactions | functions/index.js:17-74 | no token: 401 and nothing stored. Rejected token: 500 and nothing stored. Verified: 200 with the row count and every record stored, or, when the commit fails, no response and nothing stored |
| AiSimulator.GenerateFuturePersona | src/services/aiSimulator.ts:8-52 | NaN savings give the Stressed Survivor; savings above 1e7 with non-negative saving and horizon give the Freedom Architect |
| AiSimulator.FutureValue | src/services/aiSimulator.ts:13-14 | the future value is NaN exactly when the current savings are NaN |
| AiSimulator.PersonaOf | src/services/aiSimulator.ts:16-52 | Freedom Architect iff above 1e7; Secure Planner iff above 5e6 and not above 1e7; Cautious Saver iff above 2e6 and not above 5e6; Stressed Survivor iff not above 2e6 (NaN fails every test). Happy iff above 5e6, neutral iff Cautious Saver, worried iff Stressed Survivor |
| AiSimulator.MoodFollowsTier | src/services/aiSimulator.ts:16-52 | a tier at least as good never carries a worse mood |
| AiSimulator.PersonaMonotone | src/services/aiSimulator.ts:16-52 | a larger future value never gives a lower tier or a worse mood |
| AiSimulator.MoreSavingNeverWorse | src/services/aiSimulator.ts:8-52 | saving more each month over a non-negative horizon never lowers the persona tier |
| AiSimulator.GetChatResponse | src/services/aiSimulator.ts:55-66 | the savings reply quotes the monthly savings and 1.2 times it |
| AiSimulator.ChatIsFirstMatch | src/services/aiSimulator.ts:60-81 | the reply group is first match over the four keyword groups of the lower-cased message, default reply otherwise |
| AiSimulator.RetirementImpliesRetire | src/services/aiSimulator.ts:72 | every text with "retirement" also holds "retire", so the longer keyword never decides anything |
| AiSimulator.ChatIgnoresCase | src/services/aiSimulator.ts:60 | the reply ignores letter case |
| AiSimulator.SafeToSaveIsSavings | src/services/aiSimulator.ts:62-78 | "is it safe to save" gets the savings reply, since that group is checked before risk |
| AiSimulator.GetAlertMessage | src/services/aiSimulator.ts:84-117 | the notice is never of type "default"; it quotes an amount exactly when the savings changed, and that amount is the positive size of the change |
| AiSimulator.AlertTypeIff | src/services/aiSimulator.ts:88-116 | success iff savings rose; destructive iff they fell, or stayed below 10,000; info iff unchanged at 10,000 or more |
| AiSimulator.AlertAntisymmetric | src/services/aiSimulator.ts:88-101 | swapping the two figures of a change swaps "Good Choices" and "Spending Creep", and both quote the same amount |
| AiSimulator.MonthTotal | src/services/aiSimulator.ts:126-137 | a month without a counted transaction totals 0 |
| AiSimulator.MonthTotalNaN | src/services/aiSimulator.ts:126-137 | a month total is NaN exactly when a counted amount is NaN; other months and types never affect it |
| AiSimulator.MonthTotalNonNegative | src/services/aiSimulator.ts:131-137 | finite non-negative amounts total to a finite non-negative sum |
| AiSimulator.GenerateFinancialAlerts | src/services/aiSimulator.ts:119-194 | at least one alert. "All Looks Good" appears iff it is the only alert. Low and great savings rate never both appear. No positive income gives only "All Looks Good". Overspending implies low savings rate. Each of the three alerts fires exactly when its cross-multiplied condition holds |
| AiSimulator.SavingsRate | src/services/aiSimulator.ts:154 | 0 without positive income; otherwise NaN exactly when the expense is, and below 10% or above 30% exactly by the cross-multiplied conditions |
| AiSimulator.RateBelowTenth | src/services/aiSimulator.ts:154-155 | for positive income, a rate below 10% is 10·(income − expense) < income |
| AiSimulator.RateAboveThreeTenths | src/services/aiSimulator.ts:154-166 | for positive income, a rate above 30% is 10·(income − expense) > 3·income |
| Spending.Budget | src/pages/Spending.tsx:91-95 | the budget is non-negative, and 0 exactly for a category without metadata |
| Spending.Color | src/pages/Spending.tsx:91-96 | a category without metadata gets the default colour |
| Spending.CategoryDataFacts | src/pages/Spending.tsx:83-103 | each entry has a non-empty name, its category's total, budget and colour; names are distinct; every categorised transaction has an entry and every entry comes from a transaction |
| Spending.CategoryOrderFacts | src/pages/Spending.tsx:85-103 | the entries list each non-empty category of the transactions once, and no other, with no repeats and no "" |
| Spending.CategoryOrderGrows | src/pages/Spending.tsx:85-103 | entry order is stable: the order for a prefix of the transactions is a prefix of the full order |
| Spending.EntryStep | src/pages/Spending.tsx:88-100 | one more transaction adds its amount (0 when falsy) to its own category's entry and leaves other entries unchanged |
| Spending.AddTransaction | src/pages/Spending.tsx:85-101 | the callback keeps the map equal to the entries of the transactions seen so far |
| Spending.AggregateCategories | src/pages/Spending.tsx:83-103 | the category data is one entry per category in order of first appearance, each with its total, budget and colour |
| Spending.TotalSpendingIsCategorisedTotal | src/pages/Spending.tsx:85-103 | total spending equals the sum over all categorised transactions: grouping loses and double-counts nothing |
| Spending.UncategorisedIgnored | src/pages/Spending.tsx:86 | a transaction with no category leaves the category data unchanged |
| Spending.TotalSpending | src/pages/Spending.tsx:136-139 | non-negative category values total to a non-negative sum |
| Spending.TotalBudget | src/pages/Spending.tsx:141-144 | non-negative budgets total to a non-negative sum; all-zero budgets total 0 |
| Spending.BudgetUsed | src/pages/Spending.tsx:209-211 | a zero total budget shows 0% |
| Spending.BudgetUsedBounds | src/pages/Spending.tsx:209-211 | spending within a positive budget shows 0 to 100%, and exactly the budget shows 100% |
| Spending.MonthTotalOfEmptyMonth | src/pages/Spending.tsx:106-130 | a month no transaction was created in sums to 0, so it is not on the trend |
| Spending.TrendOrdered | src/pages/Spending.tsx:106-130 | the trend is in calendar order without repeats, and each point carries its month's non-zero sum |
| Spending.TrendComplete | src/pages/Spending.tsx:106-130 | every month with a non-zero sum is on the trend |
| Spending.MonthlyTrend | src/pages/Spending.tsx:106-130 | the month-map loop and the ordered filter compute the trend over the twelve months |
| Alerts.Select | src/pages/Alerts.tsx:98-102 | filtering never yields more alerts than it is given |
| Alerts.SelectMembers | src/pages/Alerts.tsx:98-102 | filtering keeps exactly the alerts that pass |
| Alerts.SelectIsSubsequence | src/pages/Alerts.tsx:98-102 | filtering keeps the order of what it keeps |
| Alerts.FilteredAlerts | src/pages/Alerts.tsx:98-102 | a tab never shows more alerts than there are, and "all" shows the list as it is |
| Alerts.FilterMeaning | src/pages/Alerts.tsx:98-102 | "all" keeps the list. Unread, warning and success keep exactly those alerts, in order |
| Alerts.UnreadCount | src/pages/Alerts.tsx:104 | the unread count never exceeds the number of alerts |
| Alerts.UnreadCountZero | src/pages/Alerts.tsx:104 | the count is 0 exactly when every alert is read |
| Alerts.UnreadCountMeaning | src/pages/Alerts.tsx:104 | the unread count adds up over concatenation and counts an alert once exactly when it is unread |
| Alerts.MarkAsRead | src/pages/Alerts.tsx:106-108 | marking read keeps the list length |
| Alerts.MarkAsReadFacts | src/pages/Alerts.tsx:106-108 | only alerts with that id change, and only their read flag; marking twice is marking once |
| Alerts.MarkAsReadUnread | src/pages/Alerts.tsx:104-108 | marking read never raises the unread count |
| Alerts.MarkAllAsRead | src/pages/Alerts.tsx:110-112 | marking all read keeps the list length |
| Alerts.MarkAllAsReadFacts | src/pages/Alerts.tsx:104-112 | after marking all read nothing is unread, and every other field is kept |
| Alerts.Dismiss | src/pages/Alerts.tsx:114-116 | dismissing never lengthens the list |
| Alerts.DismissFacts | src/pages/Alerts.tsx:114-116 | dismissing removes exactly the alerts with that id and keeps the rest in order |
| Alerts.DismissAbsent | src/pages/Alerts.tsx:114-116 | dismissing an id no alert carries changes nothing |
| Alerts.CountOfType | src/pages/Alerts.tsx:176-198 | a type's count never exceeds the number of alerts |
| Alerts.TypeCounts | src/pages/Alerts.tsx:166-198 | the four type counts add up to the number of alerts |
| Simulator.GenerateProjection | src/pages/Simulator.tsx:31-54 | the loop yields the first years + 1 points of the two plans' running totals, rounded |
| Simulator.Points | src/pages/Simulator.tsx:42-47 | n points, point y being year y's label and rounded values |
| Simulator.ValueAt | src/pages/Simulator.tsx:37-50 | a plan never falls below its start for non-negative monthly savings, and never rises above it for non-positive |
| Simulator.ValueClosedForm | src/pages/Simulator.tsx:37-50 | after y years a plan has grown by y yearly steps of monthly·12·1.08 |
| Simulator.ProjectionShape | src/pages/Simulator.tsx:37-47 | years + 1 points labelled "Year 0" onwards; both plans start at the rounded current savings |
| Simulator.ImprovedStep | src/pages/Simulator.tsx:40-50 | the improved plan's yearly step is 1.5 times the current plan's |
| Simulator.ValueImprovedVersusCurrent | src/pages/Simulator.tsx:37-50 | for non-negative monthly savings the improved plan is never below the current one; for non-positive, never above |
| Simulator.ImprovedVersusCurrent | src/pages/Simulator.tsx:40-47 | the same order holds for the rounded chart values |
| Simulator.CurrentSavings | src/pages/Simulator.tsx:91-96 | current savings are non-negative and are the net savings, or 0 when those are negative |
| Simulator.CurrentSavingsStep | src/pages/Simulator.tsx:91-96 | an amount of NaN or 0 changes nothing, and an income never lowers the current savings |
| Simulator.NetSavingsIgnoresFalsy | src/pages/Simulator.tsx:91-94 | amounts that are all 0 or NaN give net savings 0 |
| Simulator.NetSavingsAppend | src/pages/Simulator.tsx:91-94 | net savings add up over a concatenation |
| Simulator.OutlookOf | src/pages/Simulator.tsx:103-105 | an empty projection gives 0, 0; the difference is improved minus current |
| Simulator.TenYearOutlook | src/pages/Simulator.tsx:102-105 | the futures are the rounded values after ten yearly steps, and the difference is non-negative for non-negative monthly savings |
| Goals.Percent | src/pages/Goals.tsx:156 | for a non-zero whole, the nearest integer to 100·part/whole. For a zero whole, NaN when the part is 0, else an infinity of the part's sign |
| Goals.PercentBounds | src/pages/Goals.tsx:156 | a part between none and all of a positive whole shows 0 to 100; none is 0 and all is 100 |
| Goals.PercentMonotone | src/pages/Goals.tsx:156 | a larger part of the same positive whole never shows less |
| Goals.OverallPercent | src/pages/Goals.tsx:121 | within-range goals with a positive target show 0 to 100%, and 100% when every goal is reached; no goals saved towards nothing show NaN |
| Goals.GoalPercent | src/pages/Goals.tsx:156 | a within-range goal shows 0 to 100%, a reached one 100%; a zero target shows NaN exactly when nothing is saved |
| Goals.TotalsInRange | src/pages/Goals.tsx:91-92 | within-range goals give 0 ≤ saved ≤ target totals, equal exactly when every goal is reached |
| Goals.StatusLabel | src/pages/Goals.tsx:192 | "Ahead", "On Track" and "At Risk" each exactly for their status |
| Goals.ProbabilityTone | src/pages/Goals.tsx:220-221 | success iff the probability is at least 80, warning iff 60 to 80, destructive below 60 |
| Goals.FixedGoalsOverall | src/pages/Goals.tsx:25-92 | the page's five goals total 10,75,000 saved of 36,00,000, shown as 30% |
| Goals.FixedGoalPercents | src/pages/Goals.tsx:156 | the page's goals show 75, 35, 45, 25 and 20% |
| Tone.ToneOf | src/components/dashboard/WellBeingScore.tsx:32-36 | success iff at least 80, warning iff 60 to 80, destructive below 60 |
| Tone.ToneMonotone | src/components/dashboard/WellBeingScore.tsx:32-36 | a higher value never gets a worse tier |
| Tone.TextClass | src/components/dashboard/WellBeingScore.tsx:33-35 | every tier's class is a "text-" class |
| WellBeingScore.ScoreColor | src/components/dashboard/WellBeingScore.tsx:32-36 | success iff the score is at least 80, warning iff 60 to 80, destructive below 60 |
| WellBeingScore.Label | src/components/dashboard/WellBeingScore.tsx:38-43 | Excellent iff at least 80, Good iff 60 to 80, Fair iff 40 to 60, Needs Work below 40 |
| WellBeingScore.LabelTextDistinct | src/components/dashboard/WellBeingScore.tsx:38-43 | the four labels show four different texts |
| WellBeingScore.LabelMonotone | src/components/dashboard/WellBeingScore.tsx:38-43 | a higher score never gets a worse label |
| WellBeingScore.LabelRefinesColor | src/components/dashboard/WellBeingScore.tsx:32-43 | Excellent is the success tier, Good the warning tier, Fair and Needs Work the destructive tier |
| WellBeingScore.BadgeAgreesWithColor | src/components/dashboard/WellBeingScore.tsx:105-107 | for every score the badge has the background of the score's tier and the score's own text colour |
| WellBeingScore.Change | src/components/dashboard/WellBeingScore.tsx:113-130 | hidden iff the previous score is not positive. Otherwise up, down or no change by the sign of score − previous, carrying that difference |
| WellBeingScore.ChangeAntisymmetric | src/components/dashboard/WellBeingScore.tsx:12 | swapping the two scores turns a rise into a fall of the same size |

## Left out

- Firebase I/O is not modelled: authentication state, `getDocs`/`addDoc`, `verifyIdToken`, and the batch writes. The verified uid comes in as the function `verify`. A store's success or failure is a nondeterministic choice, and the stores are ghost record sequences.
- CSV parsing (Papa Parse, `csv-parser`) is not modelled. The rows come in already parsed, as maps from header to cell text.
- Timestamps are not modelled: `createdAt`, `date`, `Timestamp.now()`, and `new Date()` in the alert generator. The clock's month and year are a parameter. A record's month is part of its input.
- `JsNumber.ToNumber`: JavaScript's `Number(text)` also trims whitespace and accepts exponents, hexadecimal and "Infinity". The model reads only signed decimal numerals.
- JsNumber: IEEE double rounding and overflow to infinity are not modelled. Finite values are exact reals, so the projection's repeated `+=` is exact.
- Text: case folding beyond ASCII letters is not modelled.
- Spending.AggregateCategories: the order of integer-like keys in `Object.values` is not modelled. The model uses insertion order.
- Spending.AggregateCategories: category names that collide with `Object.prototype` members (such as "toString") are not modelled. For them the page's `!categoryMap[tx.category]` test sees an inherited member.
- Alert texts, persona descriptions and chat reply texts are not modelled, nor their `toLocaleString`/`toFixed` renderings.
  - The savings-change notice keeps its headline, its type and the amount it quotes.
  - The savings reply keeps the two figures it quotes.
  - A generated financial alert keeps its id, type and read and actionable flags, but not the figures its message quotes: the overspend `expense - income` and the savings-rate percentage.
- WellBeingScore.Change: the "+N points" text is not modelled. The model keeps the sign and the difference.
- Animations and timers are not modelled: the score counter, the ring geometry, and the delayed simulate/toast in the Simulator.
- The cors wrapper is not modelled, nor the HTTP request and response objects beyond the status and count.
- Data that other files own is not modelled: the store services in src/services/transactionService.ts and src/firebase/auth.js.
- The record fields the two importers store differ (`createdAt` against `date`, no `userId` on the client). The model keeps each importer's own record shape.

/** The client-side statement uploader of src/components/UploadStatement.tsx:
    its own keyword categoriser (first match, default "Shopping") and the
    loop that adds one transaction per parsed CSV row, each add awaited
    before the next. */
module UploadStatement {
  import opened Optional
  import opened Text
  import opened JsNumber
  import opened KeywordRules

  /** The labels this categoriser can produce: no "Other" or "Others". */
  const Labels: set<string> :=
    {"Food & Dining", "Transportation", "Entertainment", "Utilities", "Shopping"}

  /** `categorizeTransaction(description)`. */
  function CategorizeTransaction(description: string): (r: string)
    ensures r in Labels
  {
    var d := ToLower(description);
    if Contains(d, "swiggy") || Contains(d, "zomato") then "Food & Dining"
    else if Contains(d, "uber") || Contains(d, "ola") then "Transportation"
    else if Contains(d, "netflix") || Contains(d, "prime") then "Entertainment"
    else if Contains(d, "electricity") || Contains(d, "bill") then "Utilities"
    else if Contains(d, "bazaar") || Contains(d, "mart") then "Shopping"
    else "Shopping"
  }

  /** The same rules as an ordered table. */
  const Table: seq<Rule> := [
    Rule(["swiggy", "zomato"], "Food & Dining"),
    Rule(["uber", "ola"], "Transportation"),
    Rule(["netflix", "prime"], "Entertainment"),
    Rule(["electricity", "bill"], "Utilities"),
    Rule(["bazaar", "mart"], "Shopping")
  ]

  lemma TableMatches(text: string)
    ensures Matches(Table[0], text) <==> Contains(text, "swiggy") || Contains(text, "zomato")
    ensures Matches(Table[1], text) <==> Contains(text, "uber") || Contains(text, "ola")
    ensures Matches(Table[2], text) <==> Contains(text, "netflix") || Contains(text, "prime")
    ensures Matches(Table[3], text) <==> Contains(text, "electricity") || Contains(text, "bill")
    ensures Matches(Table[4], text) <==> Contains(text, "bazaar") || Contains(text, "mart")
  {
    MatchesPair("swiggy", "zomato", "Food & Dining", text);
    MatchesPair("uber", "ola", "Transportation", text);
    MatchesPair("netflix", "prime", "Entertainment", text);
    MatchesPair("electricity", "bill", "Utilities", text);
    MatchesPair("bazaar", "mart", "Shopping", text);
  }

  /** The if-chain is the first-match policy over the table, on the
      lower-cased text, with default "Shopping". */
  lemma CategorizeIsFirstMatch(description: string)
    ensures CategorizeTransaction(description) == FirstMatch(Table, ToLower(description), "Shopping")
  {
    var text := ToLower(description);
    TableMatches(text);
    if Matches(Table[0], text) {
      FirstMatchIsEarliest(Table, text, "Shopping", 0);
    } else if Matches(Table[1], text) {
      FirstMatchIsEarliest(Table, text, "Shopping", 1);
    } else if Matches(Table[2], text) {
      FirstMatchIsEarliest(Table, text, "Shopping", 2);
    } else if Matches(Table[3], text) {
      FirstMatchIsEarliest(Table, text, "Shopping", 3);
    } else if Matches(Table[4], text) {
      FirstMatchIsEarliest(Table, text, "Shopping", 4);
    } else {
      FirstMatchNone(Table, text, "Shopping");
    }
  }

  /** Matching ignores letter case. */
  lemma UpperCaseSameCategory(description: string)
    ensures CategorizeTransaction(ToUpper(description)) == CategorizeTransaction(description)
  {
    LowerOfUpper(description);
  }

  /** The "bazaar"/"mart" rule can never change the outcome: with or without
      it, a text that reaches it is "Shopping". */
  lemma ShoppingRuleRedundant(description: string)
    ensures CategorizeTransaction(description) == FirstMatch(Table[..4], ToLower(description), "Shopping")
  {
    CategorizeIsFirstMatch(description);
    FirstMatchDropDefaultLast(Table, ToLower(description), "Shopping");
  }

  /** A transport keyword with no food keyword gives Transportation, whatever
      else the text holds. */
  lemma TransportBeforeLaterRules(description: string)
    requires !Contains(ToLower(description), "swiggy") && !Contains(ToLower(description), "zomato")
    requires Contains(ToLower(description), "uber") || Contains(ToLower(description), "ola")
    ensures CategorizeTransaction(description) == "Transportation"
  {
  }

  /** Rule order: "uber netflix" is Transportation, not Entertainment. */
  lemma UberNetflixIsTransportation()
    ensures CategorizeTransaction("uber netflix") == "Transportation"
  {
    assert !Contains("uber netflix", "swiggy") && !Contains("uber netflix", "zomato") by {
      MissingChar("uber netflix", "swiggy", 's');
      MissingChar("uber netflix", "zomato", 'z');
    }
    assert Contains("uber netflix", "uber") by {
      ContainsAt("uber netflix", "uber", 0);
    }
    UberNetflixLowered();
    TransportBeforeLaterRules("uber netflix");
  }

  lemma UberNetflixLowered()
    ensures ToLower("uber netflix") == "uber netflix"
  {
    ToLowerOfLower("uber netflix");
  }

  /** "bill" is a Utilities keyword checked before the Shopping keywords:
      "mart bill" is Utilities. */
  lemma MartBillIsUtilities()
    ensures CategorizeTransaction("mart bill") == "Utilities"
  {
    assert !Contains("mart bill", "swiggy") && !Contains("mart bill", "zomato") by {
      MissingChar("mart bill", "swiggy", 's');
      MissingChar("mart bill", "zomato", 'z');
    }
    assert !Contains("mart bill", "uber") && !Contains("mart bill", "ola") by {
      MissingChar("mart bill", "uber", 'u');
      MissingChar("mart bill", "ola", 'o');
    }
    assert !Contains("mart bill", "netflix") && !Contains("mart bill", "prime") by {
      MissingChar("mart bill", "netflix", 'n');
      MissingChar("mart bill", "prime", 'p');
    }
    assert Contains("mart bill", "bill") by {
      ContainsAt("mart bill", "bill", 5);
    }
    MartBillLowered();
  }

  lemma MartBillLowered()
    ensures ToLower("mart bill") == "mart bill"
  {
    ToLowerOfLower("mart bill");
  }

  /** A parsed CSV row: header name to cell text. A header missing from the
      row is JavaScript's `undefined`. */
  type Row = map<string, string>

  /** The record handed to `addTransaction` (the store stamps the owner and
      the creation time itself; that stamping is not part of this model). */
  datatype NewTransaction = NewTransaction(amount: Num, category: string, description: string)

  /** `Number(row.amount)`: no fallback, so a missing cell is NaN. */
  function RowAmount(row: Row): (n: Num)
    ensures "amount" !in row ==> n == NaN
    ensures "amount" in row && row["amount"] == "" ==> n == Finite(0.0)
    ensures "amount" in row && (exists k :: 0 <= k < |row["amount"]| && !NumeralChar(row["amount"][k])) ==> n == NaN
  {
    if "amount" in row then ToNumber(row["amount"]) else NaN
  }

  /** The record built for one row, or None when the row has no
      `description`: `categorizeTransaction(undefined)` throws on
      `toLowerCase`, which ends the upload at that row. */
  function RowTransaction(row: Row): (r: Option<NewTransaction>)
    ensures r.None? <==> "description" !in row
    ensures r.Some? ==> r.value.description == row["description"] && r.value.category in Labels
    ensures r.Some? ==> r.value.amount == RowAmount(row)
  {
    if "description" !in row then None
    else
      var description := row["description"];
      Some(NewTransaction(RowAmount(row), CategorizeTransaction(description), description))
  }

  /** Every row has a `description`, so none of them throws. */
  predicate AllDescribed(rows: seq<Row>) {
    forall i :: 0 <= i < |rows| ==> "description" in rows[i]
  }

  /** The records the rows produce, in row order. */
  function Transactions(rows: seq<Row>): (txs: seq<NewTransaction>)
    requires AllDescribed(rows)
    ensures |txs| == |rows|
    ensures forall i :: 0 <= i < |rows| ==> Some(txs[i]) == RowTransaction(rows[i])
  {
    seq(|rows|, i requires 0 <= i < |rows| => RowTransaction(rows[i]).value)
  }

  /** Each record keeps the row's description text as it is and categorises it. */
  lemma TransactionFields(rows: seq<Row>, i: int)
    requires AllDescribed(rows) && 0 <= i < |rows|
    ensures Transactions(rows)[i].description == rows[i]["description"]
    ensures Transactions(rows)[i].category == CategorizeTransaction(rows[i]["description"])
    ensures "amount" !in rows[i] ==> Transactions(rows)[i].amount == NaN
  {
  }

  /** The transaction collection: records appended by `addTransaction`. An
      add may fail (no signed-in user, a network error), which the caller
      sees as a rejected promise. */
  class TransactionStore {
    ghost var records: seq<NewTransaction>

    constructor ()
      ensures records == []
    {
      records := [];
    }

    /** `addTransaction(tx)`: appends on success, changes nothing on failure. */
    method AddTransaction(tx: NewTransaction) returns (ok: bool)
      modifies this
      ensures ok ==> records == old(records) + [tx]
      ensures !ok ==> records == old(records)
    {
      ok := *;
      if ok {
        records := records + [tx];
      }
    }
  }

  /** How `handleFileUpload` ends: no file chosen; every row added, then the
      success notice and the reload; or stopped at a row (its add failed or
      it had no description), with no notice and no reload. */
  datatype UploadOutcome = NoFile | Reloaded | Stopped(at: nat)

  /** `handleFileUpload`: one awaited `addTransaction` per row, in row
      order. What was added before a failure stays added. */
  method HandleFileUpload(store: TransactionStore, file: Option<seq<Row>>) returns (outcome: UploadOutcome)
    modifies store
    ensures outcome == NoFile <==> file.None?
    ensures file.None? ==> store.records == old(store.records)
    ensures outcome == Reloaded ==>
      file.Some? && AllDescribed(file.value) &&
      store.records == old(store.records) + Transactions(file.value)
    ensures outcome.Stopped? ==>
      file.Some? && outcome.at < |file.value| && AllDescribed(file.value[..outcome.at]) &&
      store.records == old(store.records) + Transactions(file.value[..outcome.at])
    ensures file.Some? && !AllDescribed(file.value) ==> outcome.Stopped?
  {
    if file.None? {
      return NoFile;
    }
    var rows := file.value;
    var i := 0;
    while i < |rows|
      invariant 0 <= i <= |rows|
      invariant AllDescribed(rows[..i])
      invariant store.records == old(store.records) + Transactions(rows[..i])
    {
      var tx := RowTransaction(rows[i]);
      if tx.None? {
        return Stopped(i);
      }
      var ok := store.AddTransaction(tx.value);
      if !ok {
        return Stopped(i);
      }
      assert rows[..i + 1] == rows[..i] + [rows[i]];
      assert Transactions(rows[..i + 1]) == Transactions(rows[..i]) + [tx.value];
      i := i + 1;
    }
    assert rows[..i] == rows;
    return Reloaded;
  }
}

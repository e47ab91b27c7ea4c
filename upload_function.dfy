/** The server endpoint `uploadTransactions` of functions/index.js: bearer
    token extraction, per-row coercion of description and amount, the
    last-match category assignment, and the record list written as one batch. */
module UploadFunction {
  import opened Optional
  import opened Text
  import opened JsNumber
  import opened KeywordRules

  const BearerPrefix: string := "Bearer "

  /** `h.split(sep)[1]`: the text between the first occurrence of `sep`
      and the next one (or the end), None (`undefined`) when `sep` does not
      occur. */
  function SecondPiece(h: string, sep: string): (r: Option<string>)
    requires |sep| > 0
    ensures r.Some? <==> Contains(h, sep)
    ensures r.Some? ==> !Contains(r.value, sep)
  {
    match IndexOf(h, sep)
    case None => None
    case Some(i) =>
      var rest := h[i + |sep|..];
      match IndexOf(rest, sep)
      case None => Some(rest)
      case Some(j) =>
        PieceBeforeFirstFree(rest, sep, j);
        Some(rest[..j])
  }

  /** The piece starts right after the first occurrence of `sep` and runs
      up to the next occurrence, or to the end when there is none. */
  lemma SecondPieceIsFirstSegment(h: string, sep: string)
    requires |sep| > 0
    ensures SecondPiece(h, sep).Some? ==>
      var rest := h[IndexOf(h, sep).value + |sep|..];
      SecondPiece(h, sep).value <= rest &&
      (|SecondPiece(h, sep).value| == |rest| || OccursAt(rest, sep, |SecondPiece(h, sep).value|))
  {
    var p := SecondPiece(h, sep);
    if p.Some? {
      var rest := h[IndexOf(h, sep).value + |sep|..];
      var next := IndexOf(rest, sep);
      if next.None? {
        assert p.value == rest;
      } else {
        assert p.value == rest[..next.value];
        assert OccursAt(rest, sep, next.value);
      }
    }
  }

  /** `authorization?.split("Bearer ")[1]`, kept only when truthy: a token
      is a non-empty segment of a header that mentions "Bearer " and holds
      no "Bearer " of its own, and a header without "Bearer " yields none.
      Every non-empty piece after the first "Bearer " is the token. */
  function BearerToken(authorization: Option<string>): (token: Option<string>)
    ensures token.Some? ==>
      authorization.Some? && Contains(authorization.value, BearerPrefix) &&
      token.value != "" && !Contains(token.value, BearerPrefix)
    ensures authorization.Some? && !Contains(authorization.value, BearerPrefix) ==> token.None?
    ensures authorization.None? ==> token.None?
    ensures authorization.Some? ==>
      var piece := SecondPiece(authorization.value, BearerPrefix);
      piece.Some? && piece.value != "" ==> token == piece
  {
    match authorization
    case None => None
    case Some(h) =>
      var piece := SecondPiece(h, BearerPrefix);
      if piece.Some? && piece.value != "" then piece else None
  }

  /** Round trip: the header "Bearer <t>" yields `t` for every non-empty `t`
      without "Bearer " inside. */
  lemma BearerTokenRoundTrip(t: string)
    requires t != "" && !Contains(t, BearerPrefix)
    ensures BearerToken(Some(BearerPrefix + t)) == Some(t)
  {
    var h := BearerPrefix + t;
    assert h[..|BearerPrefix|] == BearerPrefix;
    assert IndexOf(h, BearerPrefix) == Some(0);
    assert h[|BearerPrefix|..] == t;
  }

  /** A header that is exactly "Bearer " carries an empty token, so 401. */
  lemma BareBearerHasNoToken()
    ensures BearerToken(Some(BearerPrefix)) == None
  {
    var h := BearerPrefix;
    assert h[..|BearerPrefix|] == BearerPrefix;
    assert IndexOf(h, BearerPrefix) == Some(0);
    assert h[|BearerPrefix|..] == "";
  }

  /** A parsed CSV row: header name to cell text. */
  type Row = map<string, string>

  /** The cell under `key` is present and truthy (a non-empty string). */
  predicate HasCell(row: Row, key: string) {
    key in row && row[key] != ""
  }

  /** `row.Description || row.description || ""`. */
  function RowDescription(row: Row): (d: string)
    ensures HasCell(row, "Description") ==> d == row["Description"]
    ensures !HasCell(row, "Description") && HasCell(row, "description") ==> d == row["description"]
    ensures !HasCell(row, "Description") && !HasCell(row, "description") ==> d == ""
    ensures d == "" <==> !HasCell(row, "Description") && !HasCell(row, "description")
  {
    if HasCell(row, "Description") then row["Description"]
    else if HasCell(row, "description") then row["description"]
    else ""
  }

  /** `Number(row.Amount || row.amount || 0)`: the first truthy cell is
      read as a number, with no second chance when it is not one. */
  function RowAmount(row: Row): (n: Num)
    ensures HasCell(row, "Amount") ==> n == ToNumber(row["Amount"])
    ensures !HasCell(row, "Amount") && HasCell(row, "amount") ==> n == ToNumber(row["amount"])
    ensures !HasCell(row, "Amount") && !HasCell(row, "amount") ==> n == Finite(0.0)
  {
    if HasCell(row, "Amount") then ToNumber(row["Amount"])
    else if HasCell(row, "amount") then ToNumber(row["amount"])
    else Finite(0.0)
  }

  /** An `Amount` cell holding a rendered whole number is read back as that
      number, whatever the lower-case `amount` cell says. */
  lemma AmountRoundTrip(row: Row, n: nat)
    requires "Amount" in row && row["Amount"] == NatToString(n)
    ensures RowAmount(row) == Finite(n as real)
  {
    ToNumberOfNatToString(n);
  }

  /** With the `Amount` cell missing or empty, the lower-case `amount` cell is
      read back in the same way. */
  lemma LowerAmountRoundTrip(row: Row, n: nat)
    requires !HasCell(row, "Amount") && "amount" in row && row["amount"] == NatToString(n)
    ensures RowAmount(row) == Finite(n as real)
  {
    ToNumberOfNatToString(n);
  }

  /** The rules as the chain of independent `if`s applies them, in order. */
  const Table: seq<Rule> := [
    Rule(["ZOMATO"], "Food & Dining"),
    Rule(["UBER"], "Transportation"),
    Rule(["AMAZON"], "Shopping"),
    Rule(["NETFLIX"], "Entertainment")
  ]

  const Labels: set<string> :=
    {"Food & Dining", "Transportation", "Shopping", "Entertainment", "Others"}

  /** Each later `if` overwrites the earlier ones, so the last matching rule
      decides, on the upper-cased text, with default "Others". */
  function ServerCategory(description: string): (category: string)
    ensures category in Labels
    ensures category == "Others" <==>
      forall i :: 0 <= i < |Table| ==> !Matches(Table[i], ToUpper(description))
  {
    LastMatchDefaultIff(Table, ToUpper(description), "Others");
    LastMatch(Table, ToUpper(description), "Others")
  }

  lemma TableMatches(text: string)
    ensures Matches(Table[0], text) <==> Contains(text, "ZOMATO")
    ensures Matches(Table[1], text) <==> Contains(text, "UBER")
    ensures Matches(Table[2], text) <==> Contains(text, "AMAZON")
    ensures Matches(Table[3], text) <==> Contains(text, "NETFLIX")
  {
    MatchesSingle("ZOMATO", "Food & Dining", text);
    MatchesSingle("UBER", "Transportation", text);
    MatchesSingle("AMAZON", "Shopping", text);
    MatchesSingle("NETFLIX", "Entertainment", text);
  }

  /** Precedence NETFLIX > AMAZON > UBER > ZOMATO, default "Others". */
  lemma ServerCategoryPrecedence(description: string)
    ensures ServerCategory(description) ==
      var u := ToUpper(description);
      if Contains(u, "NETFLIX") then "Entertainment"
      else if Contains(u, "AMAZON") then "Shopping"
      else if Contains(u, "UBER") then "Transportation"
      else if Contains(u, "ZOMATO") then "Food & Dining"
      else "Others"
  {
    var text := ToUpper(description);
    TableMatches(text);
    if Matches(Table[3], text) {
      LastMatchIsLatest(Table, text, "Others", 3);
    } else if Matches(Table[2], text) {
      LastMatchIsLatest(Table, text, "Others", 2);
    } else if Matches(Table[1], text) {
      LastMatchIsLatest(Table, text, "Others", 1);
    } else if Matches(Table[0], text) {
      LastMatchIsLatest(Table, text, "Others", 0);
    } else {
      LastMatchNone(Table, text, "Others");
    }
  }

  /** Matching ignores letter case. */
  lemma ServerCategoryIgnoresCase(description: string)
    ensures ServerCategory(ToLower(description)) == ServerCategory(description)
  {
    UpperOfLower(description);
  }

  /** The row handler's category assignment: start at "Others", then four
      independent checks, each overwriting the previous answer. */
  method AssignCategory(description: string) returns (category: string)
    ensures category == ServerCategory(description)
  {
    var upper := ToUpper(description);
    category := "Others";
    if Contains(upper, "ZOMATO") { category := "Food & Dining"; }
    if Contains(upper, "UBER") { category := "Transportation"; }
    if Contains(upper, "AMAZON") { category := "Shopping"; }
    if Contains(upper, "NETFLIX") { category := "Entertainment"; }
    ServerCategoryPrecedence(description);
  }

  /** A record pushed for the batch (the timestamp is not modelled). */
  datatype BankTransaction =
    BankTransaction(userId: string, amount: Num, category: string, description: string, source: string)

  /** The record the row handler pushes for one row. */
  function BankTransactionOf(userId: string, row: Row): (tx: BankTransaction)
    ensures tx.userId == userId && tx.source == "bank_upload"
    ensures tx.category in Labels
  {
    var description := RowDescription(row);
    BankTransaction(userId, RowAmount(row), ServerCategory(description), description, "bank_upload")
  }

  /** One record per row, in row order. */
  function BankTransactions(userId: string, rows: seq<Row>): (txs: seq<BankTransaction>)
    ensures |txs| == |rows|
    ensures forall i :: 0 <= i < |rows| ==> txs[i] == BankTransactionOf(userId, rows[i])
  {
    seq(|rows|, i requires 0 <= i < |rows| => BankTransactionOf(userId, rows[i]))
  }

  /** Adding a row adds its record at the end. */
  lemma BankTransactionsSnoc(userId: string, rows: seq<Row>, i: int)
    requires 0 <= i < |rows|
    ensures BankTransactions(userId, rows[..i + 1]) ==
      BankTransactions(userId, rows[..i]) + [BankTransactionOf(userId, rows[i])]
  {
    assert rows[..i + 1] == rows[..i] + [rows[i]];
  }

  /** Every record of an upload belongs to the verified user and is tagged
      "bank_upload"; a row never yields a record of another user. */
  lemma {:induction false} BankTransactionsOwned(userId: string, rows: seq<Row>)
    ensures forall tx :: tx in BankTransactions(userId, rows) ==>
      tx.userId == userId && tx.source == "bank_upload" && tx.category in Labels
  {
    var txs := BankTransactions(userId, rows);
    forall tx | tx in txs
      ensures tx.userId == userId && tx.source == "bank_upload" && tx.category in Labels
    {
      var i :| 0 <= i < |txs| && txs[i] == tx;
      assert tx == BankTransactionOf(userId, rows[i]);
    }
  }

  /** The row {Description: "UBER TRIP 45", Amount: "250"} becomes a
      Transportation record of amount 250. */
  lemma UberTripRow(userId: string)
    ensures BankTransactionOf(userId, map["Description" := "UBER TRIP 45", "Amount" := "250"]) ==
      BankTransaction(userId, Finite(250.0), "Transportation", "UBER TRIP 45", "bank_upload")
  {
    UberTripFields();
    UberTripCategory();
  }

  lemma UberTripFields()
    ensures RowDescription(map["Description" := "UBER TRIP 45", "Amount" := "250"]) == "UBER TRIP 45"
    ensures RowAmount(map["Description" := "UBER TRIP 45", "Amount" := "250"]) == Finite(250.0)
  {
    var row := map["Description" := "UBER TRIP 45", "Amount" := "250"];
    TwoFiftyRendered();
    AmountRoundTrip(row, 250);
  }

  lemma TwoFiftyRendered()
    ensures NatToString(250) == "250"
  {
  }

  lemma UberTripCategory()
    ensures ServerCategory("UBER TRIP 45") == "Transportation"
  {
    assert Contains("UBER TRIP 45", "UBER") by {
      ContainsAt("UBER TRIP 45", "UBER", 0);
    }
    assert !Contains("UBER TRIP 45", "NETFLIX") && !Contains("UBER TRIP 45", "AMAZON") by {
      MissingChar("UBER TRIP 45", "NETFLIX", 'N');
      MissingChar("UBER TRIP 45", "AMAZON", 'M');
    }
    UberTripUpper();
    ServerCategoryPrecedence("UBER TRIP 45");
  }

  lemma UberTripUpper()
    ensures ToUpper("UBER TRIP 45") == "UBER TRIP 45"
  {
    ToUpperOfUpper("UBER TRIP 45");
  }

  /** The row {description: "unknown merchant", amount: "abc"} becomes an
      "Others" record whose amount is NaN: "abc" is truthy, so no fallback
      to 0 happens, and `Number("abc")` is NaN. */
  lemma UnknownMerchantRow(userId: string)
    ensures BankTransactionOf(userId, map["description" := "unknown merchant", "amount" := "abc"]) ==
      BankTransaction(userId, NaN, "Others", "unknown merchant", "bank_upload")
  {
    var row := map["description" := "unknown merchant", "amount" := "abc"];
    assert RowDescription(row) == "unknown merchant";
    AbcIsNaN();
    assert RowAmount(row) == NaN;
    UnknownMerchantCategory();
  }

  lemma AbcIsNaN()
    ensures ToNumber("abc") == NaN
  {
    MissingChar("abc", ".", '.');
    assert !IsDigit("abc"[0]);
  }

  lemma UnknownMerchantCategory()
    ensures ServerCategory("unknown merchant") == "Others"
  {
    assert !Contains("UNKNOWN MERCHANT", "ZOMATO") && !Contains("UNKNOWN MERCHANT", "UBER") by {
      MissingChar("UNKNOWN MERCHANT", "ZOMATO", 'Z');
      MissingChar("UNKNOWN MERCHANT", "UBER", 'B');
    }
    assert !Contains("UNKNOWN MERCHANT", "AMAZON") && !Contains("UNKNOWN MERCHANT", "NETFLIX") by {
      MissingChar("UNKNOWN MERCHANT", "AMAZON", 'Z');
      MissingChar("UNKNOWN MERCHANT", "NETFLIX", 'F');
    }
    UnknownMerchantUpper();
    ServerCategoryPrecedence("unknown merchant");
  }

  lemma UnknownMerchantUpper()
    ensures ToUpper("unknown merchant") == "UNKNOWN MERCHANT"
  {
    UpperOfText("unknown merchant", "UNKNOWN MERCHANT");
  }

  /** Upper-casing checked character by character. */
  lemma UpperOfText(s: string, u: string)
    requires |s| == |u| && forall i :: 0 <= i < |s| ==> UpperChar(s[i]) == u[i]
    ensures ToUpper(s) == u
  {
  }

  /** The `transactions` collection; a batch commit is all or nothing. */
  class TransactionsCollection {
    ghost var docs: seq<BankTransaction>

    constructor ()
      ensures docs == []
    {
      docs := [];
    }

    /** `batch.commit()`: every write of the batch lands, or none does. */
    method Commit(batch: seq<BankTransaction>) returns (ok: bool)
      modifies this
      ensures ok ==> docs == old(docs) + batch
      ensures !ok ==> docs == old(docs)
    {
      ok := *;
      if ok {
        docs := docs + batch;
      }
    }
  }

  /** The stream's "data" handler over every row: one record pushed per
      row, in row order. */
  method CollectRows(userId: string, rows: seq<Row>) returns (transactions: seq<BankTransaction>)
    ensures transactions == BankTransactions(userId, rows)
  {
    transactions := [];
    var i := 0;
    while i < |rows|
      invariant 0 <= i <= |rows|
      invariant transactions == BankTransactions(userId, rows[..i])
    {
      var row := rows[i];
      var description := RowDescription(row);
      var amount := RowAmount(row);
      var category := AssignCategory(description);
      var tx := BankTransaction(userId, amount, category, description, "bank_upload");
      assert tx == BankTransactionOf(userId, row);
      BankTransactionsSnoc(userId, rows, i);
      transactions := transactions + [tx];
      i := i + 1;
    }
    assert rows[..i] == rows;
  }

  /** The "end" handler's `forEach`: one `batch.set` per record, in order. */
  method FillBatch(transactions: seq<BankTransaction>) returns (batch: seq<BankTransaction>)
    ensures batch == transactions
  {
    batch := [];
    var j := 0;
    while j < |transactions|
      invariant 0 <= j <= |transactions|
      invariant batch == transactions[..j]
    {
      assert transactions[..j + 1] == transactions[..j] + [transactions[j]];
      batch := batch + [transactions[j]];
      j := j + 1;
    }
    assert transactions[..j] == transactions;
  }

  /** The HTTP outcome: 401 "Unauthorized", 500 "Upload failed" (token
      verification rejected), 200 with the count, or no response at all when
      the commit fails (its rejection escapes the `try`). */
  datatype Response = Unauthorized | UploadFailed | Uploaded(count: nat) | NoResponse

  /** The endpoint. `verify` stands for `verifyIdToken`: the uid of a valid
      token, None when it rejects. `rows` are the rows `csv()` emits. */
  method UploadTransactions(db: TransactionsCollection, authorization: Option<string>,
                            verify: string -> Option<string>, rows: seq<Row>)
    returns (response: Response)
    modifies db
    ensures BearerToken(authorization).None? ==>
      response == Unauthorized && db.docs == old(db.docs)
    ensures BearerToken(authorization).Some? && verify(BearerToken(authorization).value).None? ==>
      response == UploadFailed && db.docs == old(db.docs)
    ensures response.Uploaded? ==>
      BearerToken(authorization).Some? && verify(BearerToken(authorization).value).Some? &&
      response.count == |rows| &&
      db.docs == old(db.docs) + BankTransactions(verify(BearerToken(authorization).value).value, rows)
    ensures response == NoResponse ==> db.docs == old(db.docs)
    ensures BearerToken(authorization).Some? && verify(BearerToken(authorization).value).Some? ==>
      response == Uploaded(|rows|) || response == NoResponse
  {
    var token := BearerToken(authorization);
    if token.None? {
      return Unauthorized;
    }
    var decoded := verify(token.value);
    if decoded.None? {
      return UploadFailed;
    }
    var userId := decoded.value;
    var transactions := CollectRows(userId, rows);
    var batch := FillBatch(transactions);
    var ok := db.Commit(batch);
    if !ok {
      return NoResponse;
    }
    return Uploaded(|transactions|);
  }
}

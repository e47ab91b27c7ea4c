/** The shared categoriser of src/utils/categorize.ts: five keyword rules
    checked in order on the lower-cased description, first match wins,
    "Other" when nothing matches. */
module Categorize {
  import opened Text
  import opened KeywordRules

  /** The labels this categoriser can produce. */
  const Labels: set<string> :=
    {"Food & Dining", "Transportation", "Entertainment", "Shopping", "Utilities", "Other"}

  /** `detectCategory(description)`. */
  function DetectCategory(description: string): (r: string)
    ensures r in Labels
  {
    var text := ToLower(description);
    if Contains(text, "swiggy") || Contains(text, "zomato") then "Food & Dining"
    else if Contains(text, "uber") || Contains(text, "ola") then "Transportation"
    else if Contains(text, "netflix") || Contains(text, "prime") then "Entertainment"
    else if Contains(text, "amazon") || Contains(text, "flipkart") then "Shopping"
    else if Contains(text, "electricity") || Contains(text, "water") then "Utilities"
    else "Other"
  }

  /** The same rules written as an ordered table. */
  const Table: seq<Rule> := [
    Rule(["swiggy", "zomato"], "Food & Dining"),
    Rule(["uber", "ola"], "Transportation"),
    Rule(["netflix", "prime"], "Entertainment"),
    Rule(["amazon", "flipkart"], "Shopping"),
    Rule(["electricity", "water"], "Utilities")
  ]

  /** The if-chain is the first-match policy over the table, on the
      lower-cased text, with default "Other". */
  lemma DetectCategoryIsFirstMatch(description: string)
    ensures DetectCategory(description) == FirstMatch(Table, ToLower(description), "Other")
  {
    var text := ToLower(description);
    TableMatches(text);
    if Matches(Table[0], text) {
      FirstMatchIsEarliest(Table, text, "Other", 0);
    } else if Matches(Table[1], text) {
      FirstMatchIsEarliest(Table, text, "Other", 1);
    } else if Matches(Table[2], text) {
      FirstMatchIsEarliest(Table, text, "Other", 2);
    } else if Matches(Table[3], text) {
      FirstMatchIsEarliest(Table, text, "Other", 3);
    } else if Matches(Table[4], text) {
      FirstMatchIsEarliest(Table, text, "Other", 4);
    } else {
      FirstMatchNone(Table, text, "Other");
    }
  }

  /** Each rule of the table matches when one of its two keywords is in the text. */
  lemma TableMatches(text: string)
    ensures Matches(Table[0], text) <==> Contains(text, "swiggy") || Contains(text, "zomato")
    ensures Matches(Table[1], text) <==> Contains(text, "uber") || Contains(text, "ola")
    ensures Matches(Table[2], text) <==> Contains(text, "netflix") || Contains(text, "prime")
    ensures Matches(Table[3], text) <==> Contains(text, "amazon") || Contains(text, "flipkart")
    ensures Matches(Table[4], text) <==> Contains(text, "electricity") || Contains(text, "water")
  {
    MatchesPair("swiggy", "zomato", "Food & Dining", text);
    MatchesPair("uber", "ola", "Transportation", text);
    MatchesPair("netflix", "prime", "Entertainment", text);
    MatchesPair("amazon", "flipkart", "Shopping", text);
    MatchesPair("electricity", "water", "Utilities", text);
  }

  /** Matching ignores letter case: upper-casing the description never
      changes the category. */
  lemma UpperCaseSameCategory(description: string)
    ensures DetectCategory(ToUpper(description)) == DetectCategory(description)
  {
    LowerOfUpper(description);
  }

  /** Matching ignores letter case: lower-casing the description never
      changes the category. */
  lemma LowerCaseSameCategory(description: string)
    ensures DetectCategory(ToLower(description)) == DetectCategory(description)
  {
    LowerIdempotent(description);
  }

  /** "swiggy" or "zomato" decides the category whatever else the text holds. */
  lemma FoodKeywordsWin(description: string)
    requires Contains(ToLower(description), "swiggy") || Contains(ToLower(description), "zomato")
    ensures DetectCategory(description) == "Food & Dining"
  {
  }

  /** "Other" exactly when no rule of the table matches the lower-cased text. */
  lemma OtherIffNoKeyword(description: string)
    ensures DetectCategory(description) == "Other" <==>
      forall i :: 0 <= i < |Table| ==> !Matches(Table[i], ToLower(description))
  {
    DetectCategoryIsFirstMatch(description);
    FirstMatchDefaultIff(Table, ToLower(description), "Other");
  }

  /** Rule order decides overlaps: "amazon prime" is Entertainment, not Shopping. */
  lemma AmazonPrimeIsEntertainment()
    ensures DetectCategory("amazon prime") == "Entertainment"
  {
    AmazonPrimeLowered();
    AmazonPrimeHasPrime();
    AmazonPrimeNoEarlierKeyword();
  }

  lemma AmazonPrimeLowered()
    ensures ToLower("amazon prime") == "amazon prime"
  {
    ToLowerOfLower("amazon prime");
  }

  lemma AmazonPrimeHasPrime()
    ensures Contains("amazon prime", "prime")
  {
    ContainsAt("amazon prime", "prime", 7);
  }

  lemma AmazonPrimeNoEarlierKeyword()
    ensures !Contains("amazon prime", "swiggy") && !Contains("amazon prime", "zomato")
    ensures !Contains("amazon prime", "uber") && !Contains("amazon prime", "ola")
  {
    MissingChar("amazon prime", "swiggy", 'w');
    MissingChar("amazon prime", "zomato", 't');
    MissingChar("amazon prime", "uber", 'u');
    MissingChar("amazon prime", "ola", 'l');
  }

  /** Keywords are substrings, not words: "granola" holds "ola". */
  lemma GranolaIsTransportation()
    ensures DetectCategory("granola") == "Transportation"
  {
    GranolaLowered();
    GranolaHasOla();
    MissingChar("granola", "swiggy", 's');
    MissingChar("granola", "zomato", 'z');
  }

  lemma GranolaLowered()
    ensures ToLower("granola") == "granola"
  {
    ToLowerOfLower("granola");
  }

  lemma GranolaHasOla()
    ensures Contains("granola", "ola")
  {
    ContainsAt("granola", "ola", 4);
  }
}

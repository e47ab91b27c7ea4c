/** Keyword rule tables, the reference against which the three categorisers
    of the application are checked. A rule carries keywords and a category label; it
    matches a text when one of its keywords is a substring of the text. */
module KeywordRules {
  import opened Text

  datatype Rule = Rule(keywords: seq<string>, category: string)

  predicate Matches(rule: Rule, text: string) {
    exists k :: k in rule.keywords && Contains(text, k)
  }

  /** A rule of two keywords matches when either keyword is in the text. */
  lemma MatchesPair(a: string, b: string, category: string, text: string)
    ensures Matches(Rule([a, b], category), text) <==> Contains(text, a) || Contains(text, b)
  {
    var rule := Rule([a, b], category);
    if Contains(text, a) { assert a in rule.keywords; }
    if Contains(text, b) { assert b in rule.keywords; }
  }

  /** A rule of one keyword matches when that keyword is in the text. */
  lemma MatchesSingle(a: string, category: string, text: string)
    ensures Matches(Rule([a], category), text) <==> Contains(text, a)
  {
    var rule := Rule([a], category);
    if Contains(text, a) { assert a in rule.keywords; }
  }

  /** Rule `i` matches and no rule before it does. */
  predicate EarliestMatch(rules: seq<Rule>, text: string, i: int) {
    0 <= i < |rules| && Matches(rules[i], text) &&
    forall j :: 0 <= j < i ==> !Matches(rules[j], text)
  }

  /** Rule `i` matches and no rule after it does. */
  predicate LatestMatch(rules: seq<Rule>, text: string, i: int) {
    0 <= i < |rules| && Matches(rules[i], text) &&
    forall j :: i < j < |rules| ==> !Matches(rules[j], text)
  }

  /** First-match policy: the category of the earliest rule that matches,
      the default when none does. */
  function FirstMatch(rules: seq<Rule>, text: string, default: string): (r: string)
    ensures r == default || exists i :: 0 <= i < |rules| && r == rules[i].category
  {
    if rules == [] then default
    else if Matches(rules[0], text) then rules[0].category
    else
      var r := FirstMatch(rules[1..], text, default);
      assert forall i :: 1 <= i < |rules| ==> rules[i] == rules[1..][i - 1];
      r
  }

  /** The earliest matching rule decides. */
  lemma {:induction false} FirstMatchIsEarliest(rules: seq<Rule>, text: string, default: string, i: int)
    requires EarliestMatch(rules, text, i)
    ensures FirstMatch(rules, text, default) == rules[i].category
  {
    if i > 0 {
      assert EarliestMatch(rules[1..], text, i - 1) by {
        assert forall j :: 0 <= j < i - 1 ==> rules[1..][j] == rules[j + 1];
      }
      FirstMatchIsEarliest(rules[1..], text, default, i - 1);
    }
  }

  /** With no matching rule, the default is the answer. */
  lemma {:induction false} FirstMatchNone(rules: seq<Rule>, text: string, default: string)
    requires forall i :: 0 <= i < |rules| ==> !Matches(rules[i], text)
    ensures FirstMatch(rules, text, default) == default
  {
    if rules != [] {
      assert !Matches(rules[0], text);
      FirstMatchNone(rules[1..], text, default);
    }
  }

  /** When no rule carries the default as its category, the default is the
      answer exactly when no rule matches. */
  lemma {:induction false} FirstMatchDefaultIff(rules: seq<Rule>, text: string, default: string)
    requires forall i :: 0 <= i < |rules| ==> rules[i].category != default
    ensures FirstMatch(rules, text, default) == default <==>
      forall i :: 0 <= i < |rules| ==> !Matches(rules[i], text)
  {
    if rules != [] && !Matches(rules[0], text) {
      FirstMatchDefaultIff(rules[1..], text, default);
      assert forall i :: 1 <= i < |rules| ==> rules[i] == rules[1..][i - 1];
    }
  }

  /** A last rule whose category is the default decides nothing: dropping
      it leaves every answer as it was. */
  lemma {:induction false} FirstMatchDropDefaultLast(rules: seq<Rule>, text: string, default: string)
    requires |rules| > 0 && rules[|rules| - 1].category == default
    ensures FirstMatch(rules[..|rules| - 1], text, default) == FirstMatch(rules, text, default)
  {
    var init := rules[..|rules| - 1];
    if |rules| > 1 && !Matches(rules[0], text) {
      assert init[0] == rules[0];
      assert init[1..] == rules[1..][..|rules[1..]| - 1];
      FirstMatchDropDefaultLast(rules[1..], text, default);
    }
  }

  /** Last-match policy: the category of the latest rule that matches, the
      default when none does. */
  function LastMatch(rules: seq<Rule>, text: string, default: string): (r: string)
    ensures r == default || exists i :: 0 <= i < |rules| && r == rules[i].category
  {
    if rules == [] then default
    else if Matches(rules[|rules| - 1], text) then rules[|rules| - 1].category
    else
      var r := LastMatch(rules[..|rules| - 1], text, default);
      assert forall i :: 0 <= i < |rules| - 1 ==> rules[i] == rules[..|rules| - 1][i];
      r
  }

  /** The latest matching rule decides. */
  lemma {:induction false} LastMatchIsLatest(rules: seq<Rule>, text: string, default: string, i: int)
    requires LatestMatch(rules, text, i)
    ensures LastMatch(rules, text, default) == rules[i].category
  {
    if i < |rules| - 1 {
      var init := rules[..|rules| - 1];
      assert !Matches(rules[|rules| - 1], text);
      assert LatestMatch(init, text, i);
      LastMatchIsLatest(init, text, default, i);
    }
  }

  /** With no matching rule, the default is the answer. */
  lemma {:induction false} LastMatchNone(rules: seq<Rule>, text: string, default: string)
    requires forall i :: 0 <= i < |rules| ==> !Matches(rules[i], text)
    ensures LastMatch(rules, text, default) == default
  {
    if rules != [] {
      var init := rules[..|rules| - 1];
      assert !Matches(rules[|rules| - 1], text);
      LastMatchNone(init, text, default);
    }
  }

  /** When no rule carries the default as its category, the default is the
      answer exactly when no rule matches. */
  lemma {:induction false} LastMatchDefaultIff(rules: seq<Rule>, text: string, default: string)
    requires forall i :: 0 <= i < |rules| ==> rules[i].category != default
    ensures LastMatch(rules, text, default) == default <==>
      forall i :: 0 <= i < |rules| ==> !Matches(rules[i], text)
  {
    if rules != [] && !Matches(rules[|rules| - 1], text) {
      var init := rules[..|rules| - 1];
      LastMatchDefaultIff(init, text, default);
      assert forall i :: 0 <= i < |init| ==> rules[i] == init[i];
    }
  }
}

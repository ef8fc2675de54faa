/** The line classifier of the PTR parser (`_is_trade_line`): a line is a
    candidate trade line when one of the three structural shapes occurs in
    it, or, failing that, when its upper-cased text holds an action keyword
    and an asset keyword and no header keyword. */
module Classifier {
  import opened Wrappers
  import opened Text
  import opened Patterns

  const ActionKeywords: seq<string> := ["BUY", "SELL", "PURCHASE", "SALE", "ACQUIRED", "DISPOSED"]

  const AssetIndicators: seq<string> := ["INC", "CORP", "LLC", "ETF", "STOCK", "SHARES"]

  /** Words that mark a header, column title or footer line. */
  const SkipKeywords: seq<string> := ["DATE", "ASSET", "ACTION", "AMOUNT", "---", "TOTAL", "SUMMARY"]

  /** One of the three structural patterns occurs in the line. */
  predicate StructuralLine(line: string) {
    MatchTickerForm(line).Some? || MatchPartialForm(line).Some? || MatchPlainForm(line).Some?
  }

  /** The keyword rule, all three tests on the upper-cased line. */
  predicate KeywordRule(line: string) {
    var u := Upper(line);
    ContainsAny(u, ActionKeywords) && ContainsAny(u, AssetIndicators) && !ContainsAny(u, SkipKeywords)
  }

  /** `_is_trade_line`: the structural shapes first, then the keyword rule. */
  function IsTradeLine(line: string): (r: bool)
    ensures r <==> StructuralLine(line) || KeywordRule(line)
  {
    if MatchTickerForm(line).Some? then true
    else if MatchPartialForm(line).Some? then true
    else if MatchPlainForm(line).Some? then true
    else
      var u := Upper(line);
      AnyIn(u, ActionKeywords) && AnyIn(u, AssetIndicators) && !AnyIn(u, SkipKeywords)
  }

  /** The keyword rule ignores case: it gives the same answer on the
      upper-cased line. */
  lemma KeywordRuleIgnoresCase(line: string)
    ensures KeywordRule(Upper(line)) == KeywordRule(line)
  {
    UpperIdempotent(line);
  }

  /** A header word vetoes the keyword rule: such a line is a trade line
      exactly when a structural shape occurs in it. */
  lemma HeaderVeto(line: string, k: nat)
    requires k < |SkipKeywords| && Contains(Upper(line), SkipKeywords[k])
    ensures IsTradeLine(line) <==> StructuralLine(line)
  {
    assert ContainsAny(Upper(line), SkipKeywords);
  }

  /** A summary line that says TOTAL and BUY and names a corporation is not a
      trade line by keywords, even though it meets the action and asset tests. */
  lemma TotalBuyVetoed()
    ensures var u := Upper("TOTAL BUY ACME INC");
      && ContainsAny(u, ActionKeywords) && ContainsAny(u, AssetIndicators)
      && !KeywordRule("TOTAL BUY ACME INC")
  {
    var u := Upper("TOTAL BUY ACME INC");
    assert u == "TOTAL BUY ACME INC";
    assert OccursAt(u, ActionKeywords[0], 6);
    assert OccursAt(u, AssetIndicators[0], 15);
    assert OccursAt(u, SkipKeywords[5], 0);
  }

  /** A plain purchase line passes the keyword rule. */
  lemma BuyLineAccepted()
    ensures KeywordRule("Buy Apple Inc")
  {
    var u := Upper("Buy Apple Inc");
    assert u == "BUY APPLE INC";
    assert OccursAt(u, ActionKeywords[0], 0);
    assert OccursAt(u, AssetIndicators[0], 10);
    MissingLetter(u, "DATE", 0);
    MissingLetter(u, "ASSET", 1);
    MissingLetter(u, "ACTION", 2);
    MissingLetter(u, "AMOUNT", 1);
    MissingLetter(u, "---", 0);
    MissingLetter(u, "TOTAL", 0);
    MissingLetter(u, "SUMMARY", 0);
    assert !ContainsAny(u, SkipKeywords) by {
      forall k | 0 <= k < |SkipKeywords|
        ensures !Contains(u, SkipKeywords[k])
      {
      }
    }
  }
}
